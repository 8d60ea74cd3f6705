/**
 * services/artwork.service.ts: the artwork table `mockArtworks`.
 *
 * getArtworkById joins the artwork with its project (from `mockProjects`) and
 * its category (from `mockArtworkCategories`); either is absent when the id it
 * names dangles. The two list queries are filters that keep store order.
 * Deleting an artwork does not cascade: only the artwork table is written.
 */
module ArtworkService {
  import opened Wrappers
  import opened Records
  import opened Tables
  import opened MockData

  /** `{ ...artwork, project, category }`. */
  datatype ArtworkWithRelations = ArtworkWithRelations(artwork: Artwork, project: Option<Project>, category: Option<Category>)

  function StatusIs(s: ArtworkStatus): Artwork -> bool { (a: Artwork) => a.status == s }
  function InProject(p: Id): Artwork -> bool { (a: Artwork) => a.project_id == p }

  /** getArtworks: a copy of the whole table, in store order. */
  function GetArtworks(db: MockDb): (r: seq<Artwork>)
    reads db
    ensures r == db.artworks
  {
    db.artworks
  }

  /** getArtworkById: absent for an unknown id; otherwise the first match with its project and category. */
  function GetArtworkById(db: MockDb, id: Id): (r: Option<ArtworkWithRelations>)
    reads db
    ensures FirstMatch(db.artworks, ArtworkId, id, if r.Some? then Some(r.value.artwork) else None)
    ensures r.Some? ==>
      && FirstMatch(db.projects, ProjectId, r.value.artwork.project_id, r.value.project)
      && FirstMatch(db.artworkCategories, CategoryId, r.value.artwork.category_id, r.value.category)
  {
    match Find(db.artworks, ArtworkId, id)
    case None => None
    case Some(a) =>
      Some(ArtworkWithRelations(a, Find(db.projects, ProjectId, a.project_id),
                                Find(db.artworkCategories, CategoryId, a.category_id)))
  }

  /** getArtworksByStatus: the artworks with that status, each as often as it is stored, and no other. */
  function GetArtworksByStatus(db: MockDb, s: ArtworkStatus): (r: seq<Artwork>)
    reads db
    ensures forall x :: x in r <==> x in db.artworks && x.status == s
    ensures forall x :: multiset(r)[x] == if x.status == s then multiset(db.artworks)[x] else 0
  {
    WhereMembers(db.artworks, StatusIs(s));
    WhereMultiset(db.artworks, StatusIs(s));
    Where(db.artworks, StatusIs(s))
  }

  /** getArtworksByProject: the artworks of that project, each as often as it is stored, and no other. */
  function GetArtworksByProject(db: MockDb, p: Id): (r: seq<Artwork>)
    reads db
    ensures forall x :: x in r <==> x in db.artworks && x.project_id == p
    ensures forall x :: multiset(r)[x] == if x.project_id == p then multiset(db.artworks)[x] else 0
  {
    WhereMembers(db.artworks, InProject(p));
    WhereMultiset(db.artworks, InProject(p));
    Where(db.artworks, InProject(p))
  }

  /** createArtwork: `{ id: generateId(), created_at: generateTimestamp(), ...artworkData }`, pushed at the end. */
  method CreateArtwork(db: MockDb, draft: Artwork, freshId: Id, now: string) returns (a: Artwork)
    modifies db`artworks
    ensures a == draft.(id := freshId, created_at := now)
    ensures db.artworks == old(db.artworks) + [a]
    ensures IndexOf(old(db.artworks), ArtworkId, freshId) == -1 ==>
      Find(db.artworks, ArtworkId, freshId) == Some(a) &&
      (UniqueKeys(old(db.artworks), ArtworkId) ==> UniqueKeys(db.artworks, ArtworkId))
  {
    var artworks := db.artworks;
    a := draft.(id := freshId, created_at := now);
    db.artworks := db.artworks + [a];
    if IndexOf(artworks, ArtworkId, freshId) == -1 {
      AppendFreshKey(artworks, ArtworkId, a);
    }
  }

  /** updateArtwork: absent and no change for an unknown id; otherwise the first match becomes `{ ...old, ...artworkData }`. */
  method UpdateArtwork(db: MockDb, id: Id, patch: ArtworkPatch) returns (r: Option<Artwork>)
    modifies db`artworks
    ensures var i := IndexOf(old(db.artworks), ArtworkId, id);
      if i == -1 then r.None? else r == Some(MergeArtwork(old(db.artworks)[i], patch))
    ensures db.artworks == UpdateFirst(old(db.artworks), ArtworkId, id, MergeArtwork, patch)
    ensures patch.id.None? && r.Some? ==> Find(db.artworks, ArtworkId, id) == r
    ensures patch.id.None? && UniqueKeys(old(db.artworks), ArtworkId) ==> UniqueKeys(db.artworks, ArtworkId)
  {
    var artworks := db.artworks;
    var index := IndexOf(db.artworks, ArtworkId, id);
    if index == -1 {
      return None;
    }
    db.artworks := db.artworks[index := MergeArtwork(db.artworks[index], patch)];
    r := Some(db.artworks[index]);
    if patch.id.None? {
      UpdateThenFind(artworks, ArtworkId, id, MergeArtwork, patch);
      if UniqueKeys(artworks, ArtworkId) {
        UpdateKeepsUnique(artworks, ArtworkId, id, MergeArtwork, patch);
      }
    }
  }

  /** deleteArtwork: false and no change for an unknown id; otherwise the first match is spliced out. */
  method DeleteArtwork(db: MockDb, id: Id) returns (deleted: bool)
    modifies db`artworks
    ensures var i := IndexOf(old(db.artworks), ArtworkId, id);
      deleted == (i != -1) &&
      if i == -1 then db.artworks == old(db.artworks) else db.artworks == RemoveAt(old(db.artworks), i)
    ensures deleted && UniqueKeys(old(db.artworks), ArtworkId) ==>
      Find(db.artworks, ArtworkId, id).None? && UniqueKeys(db.artworks, ArtworkId)
    ensures db.rightsHolders == old(db.rightsHolders) && db.rightsMedia == old(db.rightsMedia)
  {
    var artworks := db.artworks;
    var index := IndexOf(db.artworks, ArtworkId, id);
    if index == -1 {
      return false;
    }
    db.artworks := RemoveAt(db.artworks, index);
    if UniqueKeys(artworks, ArtworkId) {
      RemoveFoundKey(artworks, ArtworkId, id);
      RemoveAtUnique(artworks, ArtworkId, index);
    }
    return true;
  }
}
