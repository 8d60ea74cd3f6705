/**
 * services/category.service.ts: three lists of `BaseCategory` records, the
 * project categories, the contact categories and the artwork work statuses.
 *
 * The service repeats the same four operations once per list; here each is
 * one method taking the list as a `CategoryList`. Unlike the other stores, an
 * unknown id throws: the error is a `Failure` carrying the thrown message.
 * Every method writes only the list it is given.
 */
module CategoryService {
  import opened Wrappers
  import opened Records
  import opened Tables
  import opened MockData

  /** The message an unknown id is thrown with. */
  function NotFound(list: CategoryList, id: Id): string {
    match list
    case WorkStatuses => "Statut avec l'ID " + id + " non trouvé"
    case _ => "Catégorie avec l'ID " + id + " non trouvée"
  }

  /** getProjectCategories, getContactCategories, getWorkStatuses: a copy of the list, in store order. */
  function GetCategories(db: MockDb, list: CategoryList): (r: seq<Category>)
    reads db
    ensures r == db.Categories(list)
  {
    db.Categories(list)
  }

  /** getProjectCategoryById: the first project category with that id, or absent. */
  function GetProjectCategoryById(db: MockDb, id: Id): (r: Option<Category>)
    reads db
    ensures FirstMatch(db.projectCategories, CategoryId, id, r)
  {
    Find(db.projectCategories, CategoryId, id)
  }

  /** Writes `s` to the list named by `list`. */
  method Store(db: MockDb, list: CategoryList, s: seq<Category>)
    modifies db`projectCategories, db`contactCategories, db`workStatuses
    ensures db.Categories(list) == s
    ensures forall l :: l != list ==> db.Categories(l) == old(db.Categories(l))
  {
    match list
    case ProjectCategories => db.projectCategories := s;
    case ContactCategories => db.contactCategories := s;
    case WorkStatuses => db.workStatuses := s;
  }

  /**
   * createProjectCategory, createContactCategory, createWorkStatus: the new
   * record is built from the name and the description alone, with the
   * generated id and timestamp; whatever else the input carries is dropped.
   */
  method CreateCategory(db: MockDb, list: CategoryList, data: Category, freshId: Id, now: string)
    returns (c: Category)
    modifies db`projectCategories, db`contactCategories, db`workStatuses
    ensures c == Category(freshId, now, None, data.name, data.description)
    ensures db.Categories(list) == old(db.Categories(list)) + [c]
    ensures forall l :: l != list ==> db.Categories(l) == old(db.Categories(l))
    ensures IndexOf(old(db.Categories(list)), CategoryId, freshId) == -1 ==>
      Find(db.Categories(list), CategoryId, freshId) == Some(c) &&
      (UniqueKeys(old(db.Categories(list)), CategoryId) ==> UniqueKeys(db.Categories(list), CategoryId))
  {
    var before := db.Categories(list);
    c := Category(freshId, now, None, data.name, data.description);
    Store(db, list, before + [c]);
    if IndexOf(before, CategoryId, freshId) == -1 {
      AppendFreshKey(before, CategoryId, c);
    }
  }

  /** updateProjectCategory, updateContactCategory, updateWorkStatus: throws for an unknown id; otherwise merges into the first match. */
  method UpdateCategory(db: MockDb, list: CategoryList, id: Id, patch: CategoryPatch)
    returns (r: Result<Category, string>)
    modifies db`projectCategories, db`contactCategories, db`workStatuses
    ensures var i := IndexOf(old(db.Categories(list)), CategoryId, id);
      if i == -1 then r == Failure(NotFound(list, id))
      else r == Success(MergeCategory(old(db.Categories(list))[i], patch))
    ensures db.Categories(list) == UpdateFirst(old(db.Categories(list)), CategoryId, id, MergeCategory, patch)
    ensures forall l :: l != list ==> db.Categories(l) == old(db.Categories(l))
    ensures patch.id.None? && r.Success? ==> Find(db.Categories(list), CategoryId, id) == Some(r.value)
    ensures patch.id.None? && UniqueKeys(old(db.Categories(list)), CategoryId) ==>
      UniqueKeys(db.Categories(list), CategoryId)
  {
    var before := db.Categories(list);
    var index := IndexOf(before, CategoryId, id);
    if index == -1 {
      return Failure(NotFound(list, id));
    }
    var merged := MergeCategory(before[index], patch);
    Store(db, list, before[index := merged]);
    r := Success(merged);
    if patch.id.None? {
      UpdateThenFind(before, CategoryId, id, MergeCategory, patch);
      if UniqueKeys(before, CategoryId) {
        UpdateKeepsUnique(before, CategoryId, id, MergeCategory, patch);
      }
    }
  }

  /** deleteProjectCategory, deleteContactCategory, deleteWorkStatus: throws for an unknown id; otherwise splices out the first match. */
  method DeleteCategory(db: MockDb, list: CategoryList, id: Id) returns (r: Result<bool, string>)
    modifies db`projectCategories, db`contactCategories, db`workStatuses
    ensures var i := IndexOf(old(db.Categories(list)), CategoryId, id);
      if i == -1 then r == Failure(NotFound(list, id)) && db.Categories(list) == old(db.Categories(list))
      else r == Success(true) && db.Categories(list) == RemoveAt(old(db.Categories(list)), i)
    ensures forall l :: l != list ==> db.Categories(l) == old(db.Categories(l))
    ensures r.Success? && UniqueKeys(old(db.Categories(list)), CategoryId) ==>
      Find(db.Categories(list), CategoryId, id).None? && UniqueKeys(db.Categories(list), CategoryId)
  {
    var before := db.Categories(list);
    var index := IndexOf(before, CategoryId, id);
    if index == -1 {
      return Failure(NotFound(list, id));
    }
    Store(db, list, RemoveAt(before, index));
    if UniqueKeys(before, CategoryId) {
      RemoveFoundKey(before, CategoryId, id);
      RemoveAtUnique(before, CategoryId, index);
    }
    return Success(true);
  }
}
