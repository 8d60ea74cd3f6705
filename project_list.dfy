/**
 * components/project-card.tsx: the project list of `ProjectsDisplay` and the
 * remaining-budget badge of `ProjectCard`.
 *
 * The list is derived from the projects and the display state in three
 * steps: filter (search, category, status, all of which must pass), sort
 * (stable, by title, start date or budget, either way), then cut into pages
 * of six. The display state is the class `ProjectsDisplay`; the derivation
 * is pure and lives in functions over the state.
 *
 * Titles are compared by `localeCompare` and dates by `Date.getTime`: both
 * are host-library behaviour, so the sort takes them as the parameters
 * `collate` (a rank of each title) and `time` (the time of each date string).
 */
module ProjectList {
  import opened Wrappers
  import opened Records
  import opened Tables
  import opened TextSearch
  import opened StableSort

  /** itemsPerPage. */
  const ItemsPerPage: nat := 6

  // ---------------------------------------------------------------- filter

  /** A `string | null` filter that JavaScript treats as true: set, and not the empty string. */
  predicate IsSet(filter: Option<string>) {
    filter.Some? && filter.value != ""
  }

  /** The search test: an empty query passes everything, otherwise the title or the description must contain it, ignoring case. */
  predicate SearchHit(query: string, p: Project) {
    query == "" || Includes(Lower(p.title), Lower(query)) || Includes(Lower(p.description), Lower(query))
  }

  /** The callback given to `projects.filter`. */
  predicate Passes(query: string, category: Option<Id>, status: Option<string>, p: Project) {
    SearchHit(query, p)
    && (!IsSet(category) || p.category_id == category.value)
    && (!IsSet(status) || p.status.Name() == status.value)
  }

  function Matches(query: string, category: Option<Id>, status: Option<string>): Project -> bool {
    p => Passes(query, category, status, p)
  }

  /** filteredProjects before the sort. */
  function FilteredProjects(projects: seq<Project>, query: string, category: Option<Id>, status: Option<string>): seq<Project> {
    Where(projects, Matches(query, category, status))
  }

  /** What the search promises, stated with `Occurs` instead of the search loop. */
  ghost predicate Searched(query: string, p: Project) {
    query == "" || Occurs(Lower(p.title), Lower(query)) || Occurs(Lower(p.description), Lower(query))
  }

  /** A project is listed exactly when it is in the store and passes every filter that is set. */
  lemma FilteredMembers(projects: seq<Project>, query: string, category: Option<Id>, status: Option<string>)
    ensures forall p :: p in FilteredProjects(projects, query, category, status) <==>
      p in projects && Searched(query, p)
      && (category.None? || category.value == "" || p.category_id == category.value)
      && (status.None? || status.value == "" || p.status.Name() == status.value)
  {
    WhereMembers(projects, Matches(query, category, status));
    forall p: Project
      ensures SearchHit(query, p) <==> Searched(query, p)
    {
      IncludesIffOccurs(Lower(p.title), Lower(query));
      IncludesIffOccurs(Lower(p.description), Lower(query));
    }
  }

  /** An empty search and no category or status keep every project, in store order. */
  lemma NoFiltersKeepAll(projects: seq<Project>)
    ensures FilteredProjects(projects, "", None, None) == projects
  {
    WhereAll(projects, Matches("", None, None));
  }

  /** The "En pause" status of the status menu matches no project: no project status is called "paused". */
  lemma PausedMatchesNothing(projects: seq<Project>, query: string, category: Option<Id>)
    ensures FilteredProjects(projects, query, category, Some("paused")) == []
  {
    forall p | p in projects
      ensures !Matches(query, category, Some("paused"))(p)
    {
      assert p.status.Name() != "paused";
    }
    WhereNone(projects, Matches(query, category, Some("paused")));
  }

  /** Filtering by search alone. */
  function SearchOnly(query: string): Project -> bool {
    p => SearchHit(query, p)
  }

  /** Filtering by category alone. */
  function CategoryOnly(category: Option<Id>): Project -> bool {
    (p: Project) => !IsSet(category) || p.category_id == category.value
  }

  /** Filtering by status alone. */
  function StatusOnly(status: Option<string>): Project -> bool {
    (p: Project) => !IsSet(status) || p.status.Name() == status.value
  }

  /** The filters are independent: applying them one after another gives the same list, in the same order. */
  lemma FiltersCompose(projects: seq<Project>, query: string, category: Option<Id>, status: Option<string>)
    ensures FilteredProjects(projects, query, category, status)
         == Where(Where(Where(projects, SearchOnly(query)), CategoryOnly(category)), StatusOnly(status))
  {
    var both := (p: Project) => SearchHit(query, p) && (!IsSet(category) || p.category_id == category.value);
    WhereWhere(projects, SearchOnly(query), CategoryOnly(category), both);
    WhereWhere(projects, both, StatusOnly(status), Matches(query, category, status));
  }

  // ---------------------------------------------------------------- sort

  /** sortBy. */
  datatype SortField = ByTitle | ByDate | ByBudget

  /** sortOrder. */
  datatype SortOrder = Asc | Desc

  /** What the comparator subtracts, before the direction is applied. */
  function BaseKey(field: SortField, time: string -> int, collate: string -> int, p: Project): int {
    match field
    case ByTitle => collate(p.title)
    case ByDate => time(p.start_date)
    case ByBudget => p.budget
  }

  /**
   * The comparator of lines 192-208 as a key: `a - b` for ascending and
   * `b - a` for descending order, which a stable sort treats as ordering by
   * the key and by its negation.
   */
  function SortKey(field: SortField, order: SortOrder, time: string -> int, collate: string -> int): Project -> int {
    p => if order == Asc then BaseKey(field, time, collate, p) else -BaseKey(field, time, collate, p)
  }

  /** filteredProjects: the filtered projects, sorted. */
  function ShownProjects(projects: seq<Project>, query: string, category: Option<Id>, status: Option<string>,
                         field: SortField, order: SortOrder, time: string -> int, collate: string -> int): seq<Project> {
    SortBy(FilteredProjects(projects, query, category, status), SortKey(field, order, time, collate))
  }

  /**
   * The list is the filtered projects, each as often as before, ordered by
   * the sort key, with projects of equal key in store order.
   */
  lemma ShownOrdered(projects: seq<Project>, query: string, category: Option<Id>, status: Option<string>,
                     field: SortField, order: SortOrder, time: string -> int, collate: string -> int, k: int)
    ensures var filtered := FilteredProjects(projects, query, category, status);
      var key := SortKey(field, order, time, collate);
      var shown := ShownProjects(projects, query, category, status, field, order, time, collate);
      multiset(shown) == multiset(filtered)
      && Sorted(shown, key)
      && Where(shown, KeyIs(key, k)) == Where(filtered, KeyIs(key, k))
  {
    var filtered := FilteredProjects(projects, query, category, status);
    var key := SortKey(field, order, time, collate);
    SortBySorted(filtered, key);
    SortKeepsTies(filtered, key, k);
  }

  /** Sorting by budget orders the list by budget, rising or falling, and keeps every filtered project. */
  lemma BudgetSort(projects: seq<Project>, query: string, category: Option<Id>, status: Option<string>,
                   order: SortOrder, time: string -> int, collate: string -> int)
    ensures var shown := ShownProjects(projects, query, category, status, ByBudget, order, time, collate);
      multiset(shown) == multiset(FilteredProjects(projects, query, category, status))
      && (order == Asc ==> forall i, j :: 0 <= i < j < |shown| ==> shown[i].budget <= shown[j].budget)
      && (order == Desc ==> forall i, j :: 0 <= i < j < |shown| ==> shown[i].budget >= shown[j].budget)
  {
    var key := SortKey(ByBudget, order, time, collate);
    SortBySorted(FilteredProjects(projects, query, category, status), key);
  }

  // ---------------------------------------------------------------- pages

  function Min(a: int, b: int): int {
    if a < b then a else b
  }

  /** totalPages: `Math.ceil(n / itemsPerPage)`, the fewest pages of six that hold `n` items. */
  function PageCount(n: nat): (r: nat)
    ensures r * ItemsPerPage >= n
    ensures r == 0 || (r - 1) * ItemsPerPage < n
  {
    (n + ItemsPerPage - 1) / ItemsPerPage
  }

  /** `s.slice((page - 1) * itemsPerPage, page * itemsPerPage)`, with `slice`'s clamping to the end. */
  function Page<T>(s: seq<T>, page: nat): (r: seq<T>)
    requires page >= 1
    ensures |r| <= ItemsPerPage
    ensures forall i :: 0 <= i < |r| ==> (page - 1) * ItemsPerPage + i < |s| && r[i] == s[(page - 1) * ItemsPerPage + i]
  {
    s[Min((page - 1) * ItemsPerPage, |s|)..Min(page * ItemsPerPage, |s|)]
  }

  /** Pages 1 to `k`, one after another. */
  function PagesUpTo<T>(s: seq<T>, k: nat): seq<T> {
    if k == 0 then [] else PagesUpTo(s, k - 1) + Page(s, k)
  }

  /** The first `k` pages are the first `6k` items. */
  lemma {:induction false} PagesArePrefix<T>(s: seq<T>, k: nat)
    ensures PagesUpTo(s, k) == s[..Min(k * ItemsPerPage, |s|)]
  {
    if k > 0 {
      PagesArePrefix(s, k - 1);
      var a, b := Min((k - 1) * ItemsPerPage, |s|), Min(k * ItemsPerPage, |s|);
      assert s[..a] + s[a..b] == s[..b];
    }
  }

  /** Reading every page in turn shows every item once, in order. */
  lemma AllPages<T>(s: seq<T>)
    ensures PagesUpTo(s, PageCount(|s|)) == s
  {
    PagesArePrefix(s, PageCount(|s|));
  }

  /** Every page before the last is full; the last page is not empty. */
  lemma PageSizes<T>(s: seq<T>, page: nat)
    requires 1 <= page <= PageCount(|s|)
    ensures page < PageCount(|s|) ==> |Page(s, page)| == ItemsPerPage
    ensures |Page(s, page)| > 0
  {
  }

  /** A page past the last is empty: the list shows nothing until the page is moved back. */
  lemma PageBeyondEnd<T>(s: seq<T>, page: nat)
    requires page > PageCount(|s|)
    ensures Page(s, page) == []
  {
  }

  /** Item `i` is at position `i % 6` of page `i / 6 + 1`. */
  lemma ItemOnPage<T>(s: seq<T>, i: nat)
    requires i < |s|
    ensures var page := i / ItemsPerPage + 1;
      page <= PageCount(|s|) && i % ItemsPerPage < |Page(s, page)| && Page(s, page)[i % ItemsPerPage] == s[i]
  {
    var page := i / ItemsPerPage + 1;
    assert i == (page - 1) * ItemsPerPage + i % ItemsPerPage;
  }

  /** The "previous page" button: `Math.max(prev - 1, 1)`. */
  function PreviousPage(page: nat): (r: nat)
    ensures r >= 1
    ensures page >= 1 ==> r <= page
  {
    if page - 1 > 1 then page - 1 else 1
  }

  /** The "next page" button: `Math.min(prev + 1, totalPages)`. */
  function NextPage(page: nat, total: nat): (r: nat)
    ensures r <= total
    ensures page <= total ==> r >= page
  {
    if page + 1 < total then page + 1 else total
  }

  /** Going forward from any page but the last moves one page on, and going back returns to it. */
  lemma NextThenPrevious(page: nat, total: nat)
    requires 1 <= page < total
    ensures NextPage(page, total) == page + 1
    ensures PreviousPage(NextPage(page, total)) == page
  {
  }

  /** Going back from any page but the first and then forward returns to it. */
  lemma PreviousThenNext(page: nat, total: nat)
    requires 1 < page <= total
    ensures PreviousPage(page) == page - 1
    ensures NextPage(PreviousPage(page), total) == page
  {
  }

  // ---------------------------------------------------------------- state

  /** The state of `ProjectsDisplay`: the mock projects and the user's choices. */
  class ProjectsDisplay {
    const projects: seq<Project>
    var searchQuery: string
    var selectedCategory: Option<Id>
    var selectedStatus: Option<string>
    var currentPage: nat
    var sortBy: SortField
    var sortOrder: SortOrder

    /** Every handler keeps the current page at 1 or more. */
    ghost predicate Valid()
      reads this
    {
      currentPage >= 1
    }

    /** The initial `useState` values: no search, no filters, page 1, newest start date first. */
    constructor (projects: seq<Project>)
      ensures this.projects == projects
      ensures searchQuery == "" && selectedCategory == None && selectedStatus == None
      ensures currentPage == 1 && sortBy == ByDate && sortOrder == Desc
      ensures Valid()
    {
      this.projects := projects;
      searchQuery := "";
      selectedCategory := None;
      selectedStatus := None;
      currentPage := 1;
      sortBy := ByDate;
      sortOrder := Desc;
    }

    function Filtered(): seq<Project>
      reads this
    {
      FilteredProjects(projects, searchQuery, selectedCategory, selectedStatus)
    }

    function Shown(time: string -> int, collate: string -> int): seq<Project>
      reads this
    {
      ShownProjects(projects, searchQuery, selectedCategory, selectedStatus, sortBy, sortOrder, time, collate)
    }

    /** totalPages. */
    function TotalPages(): nat
      reads this
    {
      PageCount(|Filtered()|)
    }

    /** paginatedProjects: the projects the grid shows. */
    function Paginated(time: string -> int, collate: string -> int): seq<Project>
      reads this
      requires Valid()
    {
      Page(Shown(time, collate), currentPage)
    }

    /** The search input; the page is left where it was. */
    method SetSearchQuery(query: string)
      requires Valid()
      modifies this
      ensures Valid()
      ensures searchQuery == query
      ensures selectedCategory == old(selectedCategory) && selectedStatus == old(selectedStatus)
      ensures currentPage == old(currentPage) && sortBy == old(sortBy) && sortOrder == old(sortOrder)
    {
      searchQuery := query;
    }

    /** A category entry of the filter menu, or "Toutes les catégories" with `None`. */
    method SelectCategory(category: Option<Id>)
      requires Valid()
      modifies this
      ensures Valid()
      ensures selectedCategory == category
      ensures searchQuery == old(searchQuery) && selectedStatus == old(selectedStatus)
      ensures currentPage == old(currentPage) && sortBy == old(sortBy) && sortOrder == old(sortOrder)
    {
      selectedCategory := category;
    }

    /** A status entry of the filter menu, or "Tous les statuts" with `None`. */
    method SelectStatus(status: Option<string>)
      requires Valid()
      modifies this
      ensures Valid()
      ensures selectedStatus == status
      ensures searchQuery == old(searchQuery) && selectedCategory == old(selectedCategory)
      ensures currentPage == old(currentPage) && sortBy == old(sortBy) && sortOrder == old(sortOrder)
    {
      selectedStatus := status;
    }

    /** "Réinitialiser tous les filtres": clears category and status, but not the search. */
    method ResetFilters()
      requires Valid()
      modifies this
      ensures Valid()
      ensures selectedCategory == None && selectedStatus == None
      ensures searchQuery == old(searchQuery)
      ensures currentPage == old(currentPage) && sortBy == old(sortBy) && sortOrder == old(sortOrder)
      ensures searchQuery == "" ==> Filtered() == projects
    {
      selectedCategory := None;
      selectedStatus := None;
      NoFiltersKeepAll(projects);
    }

    /** An entry of the sort menu sets the field and the direction together. */
    method SetSort(field: SortField, order: SortOrder)
      requires Valid()
      modifies this
      ensures Valid()
      ensures sortBy == field && sortOrder == order
      ensures searchQuery == old(searchQuery) && selectedCategory == old(selectedCategory)
      ensures selectedStatus == old(selectedStatus) && currentPage == old(currentPage)
    {
      sortBy := field;
      sortOrder := order;
    }

    /** The "first page" button. */
    method GoToFirst()
      modifies this`currentPage
      ensures currentPage == 1 && Valid()
    {
      currentPage := 1;
    }

    /** The "previous page" button: one page back, never below page 1. */
    method GoToPrevious()
      modifies this`currentPage
      ensures currentPage == PreviousPage(old(currentPage)) && Valid()
    {
      currentPage := if currentPage - 1 > 1 then currentPage - 1 else 1;
    }

    /** The "next page" button, rendered only when there is more than one page. */
    method GoToNext()
      requires TotalPages() > 1
      modifies this`currentPage
      ensures currentPage == NextPage(old(currentPage), TotalPages()) && Valid()
      ensures currentPage <= TotalPages()
    {
      var total := TotalPages();
      currentPage := if currentPage + 1 < total then currentPage + 1 else total;
    }

    /** The "last page" button, rendered only when there is more than one page. */
    method GoToLast()
      requires TotalPages() > 1
      modifies this`currentPage
      ensures currentPage == TotalPages() && Valid()
    {
      currentPage := TotalPages();
    }
  }

  // ---------------------------------------------------------------- cards

  /** The text a category shows with. */
  const UnknownCategory: string := "Catégorie inconnue"

  /** getCategoryName: the name of the first category with that id, or the fallback when there is none or its name is empty. */
  function CategoryName(categories: seq<Category>, id: Id): (r: string)
    ensures r != ""
    ensures var i := IndexOf(categories, CategoryId, id);
      r == if i >= 0 && categories[i].name != "" then categories[i].name else UnknownCategory
  {
    match Find(categories, CategoryId, id)
    case Some(c) => if c.name != "" then c.name else UnknownCategory
    case None => UnknownCategory
  }

  /** The badge variants of the remaining budget. */
  datatype BadgeVariant = SuccessBadge | WarningBadge | DestructiveBadge

  /** The badge of `ProjectCard` for a rounded remaining percentage. */
  function RemainingBadge(percentage: int): (v: BadgeVariant)
    ensures v == SuccessBadge <==> percentage > 50
    ensures v == DestructiveBadge <==> percentage <= 20
  {
    if percentage > 50 then SuccessBadge else if percentage > 20 then WarningBadge else DestructiveBadge
  }

  /** How alarming a badge is. */
  function Severity(v: BadgeVariant): nat {
    match v
    case SuccessBadge => 0
    case WarningBadge => 1
    case DestructiveBadge => 2
  }

  /** Less budget left never gives a calmer badge. */
  lemma BadgeMonotone(a: int, b: int)
    requires a <= b
    ensures Severity(RemainingBadge(b)) <= Severity(RemainingBadge(a))
  {
  }
}
