/**
 * services/rights-holder.service.ts: the rights-holder table
 * (`mockArtworkRightsHolders`) and the holder/media association table
 * (`mockArtworkRightsMedia`).
 *
 * Each mutating operation is a method on the mock tables whose postcondition
 * ties the new tables to a function of the old ones (AddMedia, RemoveMedia,
 * UpdateFirst, Cascade); the lemmas below state what those functions
 * guarantee: no duplicate (holder, media) pair, no orphan association after a
 * delete, idempotent add, remove undoing add, and how the per-artwork cost and
 * count move.
 */
module RightsHolderService {
  import opened Wrappers
  import opened Records
  import opened Tables
  import opened MockData

  /** The two errors addMediaToRightsHolder throws. */
  datatype StoreError = HolderNotFound | MediaNotFound

  /** ArtworkRightsMediaWithMedia: an association with its media joined by id (absent when dangling). */
  datatype MediaRightView = MediaRightView(row: ArtworkRightsMedia, media: Option<Media>)

  /** ArtworkRightsHolderWithRelations: a holder with its contact and its associations. */
  datatype HolderView = HolderView(holder: ArtworkRightsHolder, contact: Option<Contact>, mediaRights: seq<MediaRightView>)

  // ---------------------------------------------------------------------------
  // Queries on the tables

  // The filter predicates, each defined once so that every filter and every
  // lemma about it names the same function value.
  function HolderIs(h: Id): ArtworkRightsMedia -> bool { (r: ArtworkRightsMedia) => r.artwork_rights_holder_id == h }
  function HolderIsNot(h: Id): ArtworkRightsMedia -> bool { (r: ArtworkRightsMedia) => r.artwork_rights_holder_id != h }
  function OfArtwork(a: Id): ArtworkRightsHolder -> bool { (x: ArtworkRightsHolder) => x.artwork_id == a }
  function IdNotIn(ids: set<Id>): ArtworkRightsMedia -> bool { (r: ArtworkRightsMedia) => r.id !in ids }

  /** The associations of holder `h`, in store order. */
  function RowsOf(rows: seq<ArtworkRightsMedia>, h: Id): seq<ArtworkRightsMedia> {
    Where(rows, HolderIs(h))
  }

  /** The associations of every holder but `h`, in store order. */
  function RowsNotOf(rows: seq<ArtworkRightsMedia>, h: Id): seq<ArtworkRightsMedia> {
    Where(rows, HolderIsNot(h))
  }

  /** The holders of artwork `a`, in store order. */
  function HoldersOf(hs: seq<ArtworkRightsHolder>, a: Id): seq<ArtworkRightsHolder> {
    Where(hs, OfArtwork(a))
  }

  /** The set of media ids associated with holder `h`. */
  ghost function MediaOf(rows: seq<ArtworkRightsMedia>, h: Id): set<Id> {
    set r | r in rows && r.artwork_rights_holder_id == h :: r.media_id
  }

  ghost predicate HasPair(rows: seq<ArtworkRightsMedia>, h: Id, m: Id) {
    exists i :: 0 <= i < |rows| && rows[i].artwork_rights_holder_id == h && rows[i].media_id == m
  }

  /** `findIndex` of the association (h, m). */
  function PairIndex(rows: seq<ArtworkRightsMedia>, h: Id, m: Id): (r: int)
    ensures -1 <= r < |rows|
    ensures r == -1 <==> !HasPair(rows, h, m)
    ensures 0 <= r ==> rows[r].artwork_rights_holder_id == h && rows[r].media_id == m
    ensures 0 <= r ==> forall j :: 0 <= j < r ==> !(rows[j].artwork_rights_holder_id == h && rows[j].media_id == m)
  {
    FirstIndex(rows, (x: ArtworkRightsMedia) => x.artwork_rights_holder_id == h && x.media_id == m)
  }

  // ---------------------------------------------------------------------------
  // Store invariants

  /** The (holder, media) pair an association stands for. */
  function PairOf(r: ArtworkRightsMedia): (Id, Id) {
    (r.artwork_rights_holder_id, r.media_id)
  }

  /** At most one association per (holder, media) pair. */
  ghost predicate NoDuplicatePairs(rows: seq<ArtworkRightsMedia>) {
    UniqueKeys(rows, PairOf)
  }

  /** Every association belongs to a holder that exists. */
  ghost predicate NoOrphans(hs: seq<ArtworkRightsHolder>, rows: seq<ArtworkRightsMedia>) {
    forall r :: r in rows ==> exists h :: h in hs && h.id == r.artwork_rights_holder_id
  }

  /** Association ids are unique, no pair is duplicated and no association is orphaned. */
  ghost predicate Consistent(hs: seq<ArtworkRightsHolder>, rows: seq<ArtworkRightsMedia>) {
    UniqueKeys(rows, RowId) && NoDuplicatePairs(rows) && NoOrphans(hs, rows)
  }

  // ---------------------------------------------------------------------------
  // Joins (getRightsHolderById, getRightsHoldersByArtwork)

  /** `mr` lists exactly the associations of `v`'s holder, in store order, each joined with its media. */
  ghost predicate IsView(v: HolderView, contacts: seq<Contact>, media: seq<Media>, rows: seq<ArtworkRightsMedia>) {
    && FirstMatch(contacts, ContactId, v.holder.contact_id, v.contact)
    && |v.mediaRights| == |RowsOf(rows, v.holder.id)|
    && forall k :: 0 <= k < |v.mediaRights| ==>
         v.mediaRights[k].row == RowsOf(rows, v.holder.id)[k] &&
         FirstMatch(media, MediaId, v.mediaRights[k].row.media_id, v.mediaRights[k].media)
  }

  /** Each association joined with `mockMedia.find(m => m.id === row.media_id)`. */
  function WithMedia(rows: seq<ArtworkRightsMedia>, media: seq<Media>): (r: seq<MediaRightView>)
    ensures |r| == |rows|
    ensures forall k :: 0 <= k < |rows| ==>
      r[k].row == rows[k] && FirstMatch(media, MediaId, rows[k].media_id, r[k].media)
  {
    seq(|rows|, k requires 0 <= k < |rows| => MediaRightView(rows[k], Find(media, MediaId, rows[k].media_id)))
  }

  /** `{ ...holder, contact, media_rights }`. */
  function WithRelations(h: ArtworkRightsHolder, contacts: seq<Contact>, media: seq<Media>,
                         rows: seq<ArtworkRightsMedia>): (v: HolderView)
    ensures v.holder == h && IsView(v, contacts, media, rows)
  {
    HolderView(h, Find(contacts, ContactId, h.contact_id), WithMedia(RowsOf(rows, h.id), media))
  }

  /** getRightsHolders: a copy of the whole holder table, in store order. */
  function GetRightsHolders(db: MockDb): (r: seq<ArtworkRightsHolder>)
    reads db
    ensures r == db.rightsHolders
  {
    db.rightsHolders
  }

  /** getRightsHolderById: the first holder with that id joined with its relations, or absent. */
  function GetRightsHolderById(db: MockDb, id: Id): (r: Option<HolderView>)
    reads db
    ensures FirstMatch(db.rightsHolders, HolderId, id, if r.Some? then Some(r.value.holder) else None)
    ensures r.Some? ==> IsView(r.value, db.contacts, db.media, db.rightsMedia)
  {
    match Find(db.rightsHolders, HolderId, id)
    case None => None
    case Some(h) => Some(WithRelations(h, db.contacts, db.media, db.rightsMedia))
  }

  /** getRightsHoldersByArtwork: the artwork's holders in store order, each with its relations. */
  function GetRightsHoldersByArtwork(db: MockDb, a: Id): (r: seq<HolderView>)
    reads db
    ensures |r| == |HoldersOf(db.rightsHolders, a)|
    ensures forall k :: 0 <= k < |r| ==>
      r[k].holder == HoldersOf(db.rightsHolders, a)[k] && r[k].holder.artwork_id == a &&
      IsView(r[k], db.contacts, db.media, db.rightsMedia)
  {
    var hs, contacts, media, rows := HoldersOf(db.rightsHolders, a), db.contacts, db.media, db.rightsMedia;
    WhereMembers(db.rightsHolders, OfArtwork(a));
    assert forall k :: 0 <= k < |hs| ==> hs[k] in hs;
    seq(|hs|, k requires 0 <= k < |hs| => WithRelations(hs[k], contacts, media, rows))
  }

  // ---------------------------------------------------------------------------
  // Cost and count (getTotalRightsCost, getRightsHolderCount)

  /** `hs.reduce((total, h) => total + h.price, 0)`: a left fold over the prices. */
  function SumPrices(hs: seq<ArtworkRightsHolder>): int {
    if |hs| == 0 then 0 else SumPrices(hs[..|hs| - 1]) + hs[|hs| - 1].price
  }

  /** What holder `h` adds to the total cost of artwork `a`. */
  function Contribution(h: ArtworkRightsHolder, a: Id): int {
    if h.artwork_id == a then h.price else 0
  }

  /** The total price of the holders of artwork `a`. */
  function TotalCost(hs: seq<ArtworkRightsHolder>, a: Id): (r: int)
    ensures (forall h :: h in hs ==> h.artwork_id != a) ==> r == 0
  {
    var mine := HoldersOf(hs, a);
    WhereMembers(hs, OfArtwork(a));
    assert (forall h :: h in hs ==> h.artwork_id != a) ==> mine == [] by {
      if |mine| > 0 { assert mine[0] in mine; }
    }
    SumPrices(mine)
  }

  /** The number of holders of artwork `a`. */
  function HolderCount(hs: seq<ArtworkRightsHolder>, a: Id): (r: nat)
    ensures r <= |hs|
    ensures (forall h :: h in hs ==> h.artwork_id != a) <==> r == 0
  {
    var mine := HoldersOf(hs, a);
    WhereMembers(hs, OfArtwork(a));
    assert |mine| > 0 ==> mine[0] in mine;
    assert (exists h :: h in hs && h.artwork_id == a) ==> |mine| > 0 by {
      if exists h :: h in hs && h.artwork_id == a {
        var h :| h in hs && h.artwork_id == a;
        assert h in mine;
      }
    }
    |mine|
  }

  /** getTotalRightsCost: reads the holder table and changes nothing. */
  function GetTotalRightsCost(db: MockDb, a: Id): (r: int)
    reads db
    ensures r == TotalCost(db.rightsHolders, a)
    ensures (forall h :: h in db.rightsHolders ==> h.price >= 0) ==> r >= 0
  {
    TotalCostNonNegative(db.rightsHolders, a);
    SumPrices(HoldersOf(db.rightsHolders, a))
  }

  /** getRightsHolderCount: reads the holder table and changes nothing. */
  function GetRightsHolderCount(db: MockDb, a: Id): (r: nat)
    reads db
    ensures r == HolderCount(db.rightsHolders, a)
  {
    |HoldersOf(db.rightsHolders, a)|
  }

  lemma {:induction false} SumPricesAppend(a: seq<ArtworkRightsHolder>, b: seq<ArtworkRightsHolder>)
    ensures SumPrices(a + b) == SumPrices(a) + SumPrices(b)
  {
    if |b| > 0 {
      assert (a + b)[..|a + b| - 1] == a + b[..|b| - 1];
      SumPricesAppend(a, b[..|b| - 1]);
    } else {
      assert a + b == a;
    }
  }

  /** Non-negative prices give a non-negative total. */
  lemma {:induction false} TotalCostNonNegative(hs: seq<ArtworkRightsHolder>, a: Id)
    ensures (forall h :: h in hs ==> h.price >= 0) ==> SumPrices(HoldersOf(hs, a)) >= 0
  {
    if forall h :: h in hs ==> h.price >= 0 {
      WhereMembers(hs, OfArtwork(a));
      SumNonNegative(HoldersOf(hs, a));
    }
  }

  lemma {:induction false} SumNonNegative(hs: seq<ArtworkRightsHolder>)
    requires forall h :: h in hs ==> h.price >= 0
    ensures SumPrices(hs) >= 0
  {
    if |hs| > 0 {
      assert hs[|hs| - 1] in hs;
      SumNonNegative(hs[..|hs| - 1]);
    }
  }

  /** A holder appended to the table (createRightsHolder) adds its price and one to its own artwork only. */
  lemma TotalCostAppend(hs: seq<ArtworkRightsHolder>, h: ArtworkRightsHolder, a: Id)
    ensures TotalCost(hs + [h], a) == TotalCost(hs, a) + Contribution(h, a)
    ensures HolderCount(hs + [h], a) == HolderCount(hs, a) + (if h.artwork_id == a then 1 else 0)
  {
    WhereAppend(hs, [h], OfArtwork(a));
    SumPricesAppend(HoldersOf(hs, a), HoldersOf([h], a));
  }

  /** Removing the holder at `i` (deleteRightsHolder) takes its price and one off its own artwork only. */
  lemma TotalCostRemoveAt(hs: seq<ArtworkRightsHolder>, i: nat, a: Id)
    requires i < |hs|
    ensures TotalCost(RemoveAt(hs, i), a) == TotalCost(hs, a) - Contribution(hs[i], a)
    ensures HolderCount(RemoveAt(hs, i), a) == HolderCount(hs, a) - (if hs[i].artwork_id == a then 1 else 0)
  {
    var p := OfArtwork(a);
    assert hs == hs[..i] + ([hs[i]] + hs[i + 1..]);
    WhereAppend(hs[..i], [hs[i]] + hs[i + 1..], p);
    WhereAppend([hs[i]], hs[i + 1..], p);
    WhereAppend(hs[..i], hs[i + 1..], p);
    SumPricesAppend(Where(hs[..i], p), Where([hs[i]], p) + Where(hs[i + 1..], p));
    SumPricesAppend(Where([hs[i]], p), Where(hs[i + 1..], p));
    SumPricesAppend(Where(hs[..i], p), Where(hs[i + 1..], p));
  }

  /** Overwriting the holder at `i` (updateRightsHolder) swaps its contribution for the new one's. */
  lemma TotalCostReplace(hs: seq<ArtworkRightsHolder>, i: nat, x: ArtworkRightsHolder, a: Id)
    requires i < |hs|
    ensures TotalCost(hs[i := x], a) == TotalCost(hs, a) - Contribution(hs[i], a) + Contribution(x, a)
  {
    var hs' := hs[i := x];
    assert RemoveAt(hs', i) == RemoveAt(hs, i);
    TotalCostRemoveAt(hs, i, a);
    TotalCostRemoveAt(hs', i, a);
  }

  // ---------------------------------------------------------------------------
  // createRightsHolder, updateRightsHolder

  /** `{ id: generateId(), created_at: generateTimestamp(), ...data }` with a typed CreateDTO. */
  function NewHolder(draft: ArtworkRightsHolder, freshId: Id, now: string): ArtworkRightsHolder {
    draft.(id := freshId, created_at := now)
  }

  /** A patch that leaves the id alone keeps every association attached to an existing holder. */
  lemma UpdateKeepsConsistent(hs: seq<ArtworkRightsHolder>, rows: seq<ArtworkRightsMedia>, id: Id, p: HolderPatch)
    requires Consistent(hs, rows)
    requires p.id.None?
    ensures Consistent(UpdateFirst(hs, HolderId, id, MergeHolder, p), rows)
  {
    var hs' := UpdateFirst(hs, HolderId, id, MergeHolder, p);
    forall r | r in rows ensures exists h :: h in hs' && h.id == r.artwork_rights_holder_id {
      var h :| h in hs && h.id == r.artwork_rights_holder_id;
      var j :| 0 <= j < |hs| && hs[j] == h;
      assert hs'[j].id == h.id;
      assert hs'[j] in hs';
    }
  }

  // ---------------------------------------------------------------------------
  // addMediaToRightsHolder, removeMediaFromRightsHolder

  /** What addMediaToRightsHolder returns or throws, and the association table after it. */
  datatype Added = Added(result: Result<ArtworkRightsMedia, StoreError>, rows: seq<ArtworkRightsMedia>)

  /** addMediaToRightsHolder(h, m) on the tables, with `freshId` and `now` standing for generateId/generateTimestamp. */
  function AddMedia(hs: seq<ArtworkRightsHolder>, media: seq<Media>, rows: seq<ArtworkRightsMedia>,
                    h: Id, m: Id, freshId: Id, now: string): (a: Added)
    ensures a.result.Failure? <==> IndexOf(hs, HolderId, h) == -1 || IndexOf(media, MediaId, m) == -1
    ensures IndexOf(hs, HolderId, h) == -1 ==> a.result == Failure(HolderNotFound)
    ensures IndexOf(hs, HolderId, h) != -1 && IndexOf(media, MediaId, m) == -1 ==> a.result == Failure(MediaNotFound)
    ensures a.result.Failure? ==> a.rows == rows
    ensures a.result.Success? ==>
      a.result.value.artwork_rights_holder_id == h && a.result.value.media_id == m && a.result.value in a.rows
    ensures a.result.Success? && HasPair(rows, h, m) ==> a.rows == rows
    ensures a.result.Success? && !HasPair(rows, h, m) ==>
      a.rows == rows + [a.result.value] && a.result.value.id == freshId
  {
    if Find(hs, HolderId, h).None? then Added(Failure(HolderNotFound), rows)
    else if Find(media, MediaId, m).None? then Added(Failure(MediaNotFound), rows)
    else
      var i := PairIndex(rows, h, m);
      if i != -1 then Added(Success(rows[i]), rows)
      else
        var row := ArtworkRightsMedia(freshId, now, None, h, m);
        Added(Success(row), rows + [row])
  }

  /** What removeMediaFromRightsHolder returns, and the association table after it. */
  datatype Removed = Removed(removed: bool, rows: seq<ArtworkRightsMedia>)

  /** removeMediaFromRightsHolder(h, m) on the association table: splice the first matching row. */
  function RemoveMedia(rows: seq<ArtworkRightsMedia>, h: Id, m: Id): (r: Removed)
    ensures r.removed <==> HasPair(rows, h, m)
    ensures !r.removed ==> r.rows == rows
    ensures r.removed ==> r.rows == RemoveAt(rows, PairIndex(rows, h, m))
    ensures r.removed ==>
      |r.rows| == |rows| - 1 && multiset(r.rows) + multiset{rows[PairIndex(rows, h, m)]} == multiset(rows)
  {
    var i := PairIndex(rows, h, m);
    if i == -1 then Removed(false, rows)
    else
      RemoveAtMultiset(rows, i);
      Removed(true, RemoveAt(rows, i))
  }

  /** Calling addMediaToRightsHolder twice has the effect and the result of calling it once. */
  lemma AddMediaIdempotent(hs: seq<ArtworkRightsHolder>, media: seq<Media>, rows: seq<ArtworkRightsMedia>,
                           h: Id, m: Id, id1: Id, now1: string, id2: Id, now2: string)
    ensures var once := AddMedia(hs, media, rows, h, m, id1, now1);
      AddMedia(hs, media, once.rows, h, m, id2, now2) == once
  {
    var once := AddMedia(hs, media, rows, h, m, id1, now1);
    if once.result.Success? && !HasPair(rows, h, m) {
      var i := PairIndex(once.rows, h, m);
      assert once.rows[|rows|] == once.result.value;
      assert i == |rows| by {
        assert forall j :: 0 <= j < |rows| ==> once.rows[j] == rows[j];
      }
    }
  }

  /** addMediaToRightsHolder never creates a duplicate pair, an orphan, or (with a fresh id) a repeated id. */
  lemma AddMediaKeepsConsistent(hs: seq<ArtworkRightsHolder>, media: seq<Media>, rows: seq<ArtworkRightsMedia>,
                                h: Id, m: Id, freshId: Id, now: string)
    requires Consistent(hs, rows)
    requires IndexOf(rows, RowId, freshId) == -1
    ensures Consistent(hs, AddMedia(hs, media, rows, h, m, freshId, now).rows)
  {
    var a := AddMedia(hs, media, rows, h, m, freshId, now);
    if a.result.Success? && !HasPair(rows, h, m) {
      var row := a.result.value;
      AppendFreshKey(rows, RowId, row);
      AddMediaKeepsPairsUnique(hs, media, rows, h, m, freshId, now);
      var hi := IndexOf(hs, HolderId, h);
      assert hs[hi] in hs;
    }
  }

  /** addMediaToRightsHolder never duplicates a (holder, media) pair, whatever id it is given. */
  lemma AddMediaKeepsPairsUnique(hs: seq<ArtworkRightsHolder>, media: seq<Media>, rows: seq<ArtworkRightsMedia>,
                                 h: Id, m: Id, freshId: Id, now: string)
    requires NoDuplicatePairs(rows)
    ensures NoDuplicatePairs(AddMedia(hs, media, rows, h, m, freshId, now).rows)
  {
    var a := AddMedia(hs, media, rows, h, m, freshId, now);
    if a.result.Success? && !HasPair(rows, h, m) {
      AppendUnique(rows, PairOf, a.result.value);
    }
  }

  /** A successful add puts `m` into the holder's media set and leaves every other holder's set alone. */
  lemma AddMediaMediaOf(hs: seq<ArtworkRightsHolder>, media: seq<Media>, rows: seq<ArtworkRightsMedia>,
                        h: Id, m: Id, freshId: Id, now: string)
    ensures var a := AddMedia(hs, media, rows, h, m, freshId, now);
      a.result.Success? ==>
        MediaOf(a.rows, h) == MediaOf(rows, h) + {m} &&
        forall g :: g != h ==> MediaOf(a.rows, g) == MediaOf(rows, g)
  {
    var a := AddMedia(hs, media, rows, h, m, freshId, now);
    if a.result.Success? {
      if HasPair(rows, h, m) {
        var i :| 0 <= i < |rows| && rows[i].artwork_rights_holder_id == h && rows[i].media_id == m;
        assert rows[i] in rows;
      }
    }
  }

  /** Under the no-duplicate invariant a remove leaves the pair absent and takes `m` out of the holder's set only. */
  lemma RemoveMediaClearsPair(rows: seq<ArtworkRightsMedia>, h: Id, m: Id)
    requires NoDuplicatePairs(rows)
    ensures var r := RemoveMedia(rows, h, m);
      !HasPair(r.rows, h, m) &&
      MediaOf(r.rows, h) == MediaOf(rows, h) - {m} &&
      forall g :: g != h ==> MediaOf(r.rows, g) == MediaOf(rows, g)
  {
    var r := RemoveMedia(rows, h, m);
    var i := PairIndex(rows, h, m);
    if i != -1 {
      var rows' := r.rows;
      forall j | 0 <= j < |rows'|
        ensures !(rows'[j].artwork_rights_holder_id == h && rows'[j].media_id == m)
      {
        if j < i { assert rows'[j] == rows[j]; } else { assert rows'[j] == rows[j + 1]; }
      }
      forall g ensures MediaOf(rows', g) == MediaOf(rows, g) - (if g == h then {m} else {}) {
        forall x | x in rows ensures x != rows[i] ==> x in rows' {
          var k :| 0 <= k < |rows| && rows[k] == x;
          if k < i { assert rows'[k] == x; } else if k > i { assert rows'[k - 1] == x; }
        }
        forall x | x in rows' ensures x in rows {
          var k :| 0 <= k < |rows'| && rows'[k] == x;
          if k < i { assert rows[k] == x; } else { assert rows[k + 1] == x; }
        }
      }
    }
  }

  /** A remove keeps the store consistent. */
  lemma RemoveMediaKeepsConsistent(hs: seq<ArtworkRightsHolder>, rows: seq<ArtworkRightsMedia>, h: Id, m: Id)
    requires Consistent(hs, rows)
    ensures Consistent(hs, RemoveMedia(rows, h, m).rows)
  {
    var i := PairIndex(rows, h, m);
    if i != -1 {
      RemoveAtUnique(rows, RowId, i);
      RemoveMediaKeepsPairsUnique(rows, h, m);
    }
  }

  /** A remove never introduces a duplicate pair. */
  lemma RemoveMediaKeepsPairsUnique(rows: seq<ArtworkRightsMedia>, h: Id, m: Id)
    requires NoDuplicatePairs(rows)
    ensures NoDuplicatePairs(RemoveMedia(rows, h, m).rows)
  {
    var i := PairIndex(rows, h, m);
    if i != -1 {
      RemoveAtUnique(rows, PairOf, i);
    }
  }

  /** Removing a pair that a successful add has just created restores the association table. */
  lemma RemoveUndoesAdd(hs: seq<ArtworkRightsHolder>, media: seq<Media>, rows: seq<ArtworkRightsMedia>,
                        h: Id, m: Id, freshId: Id, now: string)
    requires !HasPair(rows, h, m)
    requires AddMedia(hs, media, rows, h, m, freshId, now).result.Success?
    ensures RemoveMedia(AddMedia(hs, media, rows, h, m, freshId, now).rows, h, m) == Removed(true, rows)
  {
    var a := AddMedia(hs, media, rows, h, m, freshId, now);
    assert forall j :: 0 <= j < |rows| ==> a.rows[j] == rows[j];
    assert PairIndex(a.rows, h, m) == |rows|;
    assert RemoveAt(a.rows, |rows|) == rows;
  }

  // ---------------------------------------------------------------------------
  // deleteRightsHolder: the cascade

  /** Splice the first association with id `x`, if any (the body of the cascade's forEach). */
  function RemoveRowById(rows: seq<ArtworkRightsMedia>, x: Id): seq<ArtworkRightsMedia> {
    var i := IndexOf(rows, RowId, x);
    if i == -1 then rows else RemoveAt(rows, i)
  }

  /** The cascade as written: for each doomed association, in order, splice the first row with its id. */
  function Cascade(rows: seq<ArtworkRightsMedia>, doomed: seq<ArtworkRightsMedia>): seq<ArtworkRightsMedia>
    decreases |doomed|
  {
    if |doomed| == 0 then rows else Cascade(RemoveRowById(rows, doomed[0].id), doomed[1..])
  }

  /** The rows whose id is not in `ids`, in order. */
  function WithoutIds(rows: seq<ArtworkRightsMedia>, ids: set<Id>): seq<ArtworkRightsMedia> {
    Where(rows, IdNotIn(ids))
  }

  function IdsOf(rows: seq<ArtworkRightsMedia>): set<Id> {
    set r | r in rows :: r.id
  }

  lemma RemoveRowByIdUnique(rows: seq<ArtworkRightsMedia>, x: Id)
    requires UniqueKeys(rows, RowId)
    ensures RemoveRowById(rows, x) == WithoutIds(rows, {x})
  {
    RemoveKeyIsFilter(rows, RowId, x, IdNotIn({x}));
  }

  /** One turn of the cascade: splicing the first doomed id is filtering it out, and the rest still qualify. */
  lemma CascadeStep(rows: seq<ArtworkRightsMedia>, doomed: seq<ArtworkRightsMedia>)
    requires UniqueKeys(rows, RowId)
    requires UniqueKeys(doomed, RowId)
    requires forall d :: d in doomed ==> d in rows
    requires |doomed| > 0
    ensures var rows' := WithoutIds(rows, {doomed[0].id});
      && RemoveRowById(rows, doomed[0].id) == rows'
      && UniqueKeys(rows', RowId)
      && UniqueKeys(doomed[1..], RowId)
      && forall e :: e in doomed[1..] ==> e in rows'
  {
    var d, rest := doomed[0], doomed[1..];
    var rows' := WithoutIds(rows, {d.id});
    RemoveRowByIdUnique(rows, d.id);
    WhereUnique(rows, RowId, IdNotIn({d.id}));
    UniqueKeysTail(doomed, RowId);
    WhereMembers(rows, IdNotIn({d.id}));
    forall k | 0 <= k < |rest| ensures rest[k] in rows' {
      assert doomed[k + 1] == rest[k] && doomed[k + 1] in doomed;
    }
  }

  lemma {:induction false} CascadeRemovesIds(rows: seq<ArtworkRightsMedia>, doomed: seq<ArtworkRightsMedia>)
    requires UniqueKeys(rows, RowId)
    requires UniqueKeys(doomed, RowId)
    requires forall d :: d in doomed ==> d in rows
    ensures Cascade(rows, doomed) == WithoutIds(rows, IdsOf(doomed))
    decreases |doomed|
  {
    if |doomed| == 0 {
      WhereAll(rows, IdNotIn(IdsOf(doomed)));
    } else {
      var d, rest := doomed[0], doomed[1..];
      var rows' := WithoutIds(rows, {d.id});
      CascadeStep(rows, doomed);
      CascadeRemovesIds(rows', rest);
      WithoutFirstThenRest(rows, doomed);
    }
  }

  /** Filtering out the first doomed id and then the others is filtering out all of them. */
  lemma WithoutFirstThenRest(rows: seq<ArtworkRightsMedia>, doomed: seq<ArtworkRightsMedia>)
    requires |doomed| > 0
    ensures WithoutIds(WithoutIds(rows, {doomed[0].id}), IdsOf(doomed[1..])) == WithoutIds(rows, IdsOf(doomed))
  {
    assert {doomed[0].id} + IdsOf(doomed[1..]) == IdsOf(doomed) by {
      assert doomed == [doomed[0]] + doomed[1..];
    }
    WhereWhere(rows, IdNotIn({doomed[0].id}), IdNotIn(IdsOf(doomed[1..])), IdNotIn(IdsOf(doomed)));
  }

  /** With unique association ids, the cascade removes exactly the rows of the deleted holder, keeping the rest in order. */
  lemma CascadeDeletesHolderRows(rows: seq<ArtworkRightsMedia>, h: Id)
    requires UniqueKeys(rows, RowId)
    ensures Cascade(rows, RowsOf(rows, h)) == RowsNotOf(rows, h)
  {
    var mine := RowsOf(rows, h);
    WhereUnique(rows, RowId, HolderIs(h));
    WhereMembers(rows, HolderIs(h));
    CascadeRemovesIds(rows, mine);
    forall r | r in rows ensures IdNotIn(IdsOf(mine))(r) == HolderIsNot(h)(r) {
      if r.id in IdsOf(mine) {
        var d :| d in mine && d.id == r.id;
        var i :| 0 <= i < |rows| && rows[i] == d;
        var j :| 0 <= j < |rows| && rows[j] == r;
        assert RowId(rows[i]) == RowId(rows[j]);
      }
    }
    WhereSame(rows, IdNotIn(IdsOf(mine)), HolderIsNot(h));
  }

  /** Deleting a holder keeps the store consistent and leaves no association pointing at the deleted id. */
  lemma DeleteKeepsConsistent(hs: seq<ArtworkRightsHolder>, rows: seq<ArtworkRightsMedia>, id: Id)
    requires Consistent(hs, rows)
    requires IndexOf(hs, HolderId, id) != -1
    ensures var rows' := Cascade(rows, RowsOf(rows, id));
      Consistent(RemoveAt(hs, IndexOf(hs, HolderId, id)), rows') &&
      forall r :: r in rows' ==> r.artwork_rights_holder_id != id
  {
    var i := IndexOf(hs, HolderId, id);
    var hs' := RemoveAt(hs, i);
    CascadeDeletesHolderRows(rows, id);
    var rows' := RowsNotOf(rows, id);
    WhereUnique(rows, RowId, HolderIsNot(id));
    WhereUnique(rows, PairOf, HolderIsNot(id));
    WhereMembers(rows, HolderIsNot(id));
    forall r | r in rows' ensures exists h :: h in hs' && h.id == r.artwork_rights_holder_id {
      var h :| h in hs && h.id == r.artwork_rights_holder_id;
      var j :| 0 <= j < |hs| && hs[j] == h;
      if j < i { assert hs'[j] == h; } else { assert hs'[j - 1] == h; }
    }
  }

  // ---------------------------------------------------------------------------
  // The service operations on the mock tables

  /** createRightsHolder: appends one holder carrying the input fields, a fresh id and a timestamp. */
  method CreateRightsHolder(db: MockDb, draft: ArtworkRightsHolder, freshId: Id, now: string)
    returns (h: ArtworkRightsHolder)
    modifies db`rightsHolders
    ensures h.id == freshId && h.created_at == now && h.created_by == draft.created_by
    ensures h.artwork_id == draft.artwork_id && h.contact_id == draft.contact_id && h.price == draft.price
    ensures db.rightsHolders == old(db.rightsHolders) + [h]
  {
    h := NewHolder(draft, freshId, now);
    db.rightsHolders := db.rightsHolders + [h];
  }

  /** updateRightsHolder: absent when the id is unknown (nothing changes); otherwise the first match, merged. */
  method UpdateRightsHolder(db: MockDb, id: Id, patch: HolderPatch) returns (r: Option<ArtworkRightsHolder>)
    modifies db`rightsHolders
    ensures var i := IndexOf(old(db.rightsHolders), HolderId, id);
      if i == -1 then r.None?
      else r == Some(MergeHolder(old(db.rightsHolders)[i], patch))
    ensures db.rightsHolders == UpdateFirst(old(db.rightsHolders), HolderId, id, MergeHolder, patch)
  {
    var index := IndexOf(db.rightsHolders, HolderId, id);
    if index == -1 {
      return None;
    }
    db.rightsHolders := db.rightsHolders[index := MergeHolder(db.rightsHolders[index], patch)];
    r := Some(db.rightsHolders[index]);
  }

  /** deleteRightsHolder: false with no change for an unknown id; otherwise the first match goes, and its associations with it. */
  method DeleteRightsHolder(db: MockDb, id: Id) returns (deleted: bool)
    modifies db`rightsHolders, db`rightsMedia
    ensures var i := IndexOf(old(db.rightsHolders), HolderId, id);
      deleted == (i != -1) &&
      if i == -1 then db.rightsHolders == old(db.rightsHolders) && db.rightsMedia == old(db.rightsMedia)
      else db.rightsHolders == RemoveAt(old(db.rightsHolders), i) &&
           db.rightsMedia == Cascade(old(db.rightsMedia), RowsOf(old(db.rightsMedia), id))
    ensures deleted && UniqueKeys(old(db.rightsMedia), RowId) ==>
      db.rightsMedia == RowsNotOf(old(db.rightsMedia), id)
  {
    var index := IndexOf(db.rightsHolders, HolderId, id);
    if index == -1 {
      return false;
    }
    db.rightsHolders := RemoveAt(db.rightsHolders, index);
    var mediaRights := RowsOf(db.rightsMedia, id);
    var k := 0;
    while k < |mediaRights|
      invariant 0 <= k <= |mediaRights|
      invariant Cascade(db.rightsMedia, mediaRights[k..]) == Cascade(old(db.rightsMedia), mediaRights)
      modifies db`rightsMedia
    {
      assert mediaRights[k..][1..] == mediaRights[k + 1..];
      var mediaRightIndex := IndexOf(db.rightsMedia, RowId, mediaRights[k].id);
      if mediaRightIndex != -1 {
        db.rightsMedia := RemoveAt(db.rightsMedia, mediaRightIndex);
      }
      k := k + 1;
    }
    assert mediaRights[k..] == [];
    if UniqueKeys(old(db.rightsMedia), RowId) {
      CascadeDeletesHolderRows(old(db.rightsMedia), id);
    }
    deleted := true;
  }

  /** addMediaToRightsHolder: throws for a missing holder or media, returns an existing pair unchanged, else appends one row. */
  method AddMediaToRightsHolder(db: MockDb, h: Id, m: Id, freshId: Id, now: string)
    returns (r: Result<ArtworkRightsMedia, StoreError>)
    modifies db`rightsMedia
    ensures Added(r, db.rightsMedia) == AddMedia(db.rightsHolders, db.media, old(db.rightsMedia), h, m, freshId, now)
  {
    var rightsHolder := Find(db.rightsHolders, HolderId, h);
    if rightsHolder.None? {
      return Failure(HolderNotFound);
    }
    var media := Find(db.media, MediaId, m);
    if media.None? {
      return Failure(MediaNotFound);
    }
    var existing := PairIndex(db.rightsMedia, h, m);
    if existing != -1 {
      return Success(db.rightsMedia[existing]);
    }
    var row := ArtworkRightsMedia(freshId, now, None, h, m);
    db.rightsMedia := db.rightsMedia + [row];
    r := Success(row);
  }

  /** removeMediaFromRightsHolder: false with no change when the pair is absent, else the first matching row is spliced. */
  method RemoveMediaFromRightsHolder(db: MockDb, h: Id, m: Id) returns (removed: bool)
    modifies db`rightsMedia
    ensures Removed(removed, db.rightsMedia) == RemoveMedia(old(db.rightsMedia), h, m)
  {
    var index := PairIndex(db.rightsMedia, h, m);
    if index == -1 {
      return false;
    }
    db.rightsMedia := RemoveAt(db.rightsMedia, index);
    removed := true;
  }

  /** Licensing a media to a brand-new holder and then cascading that holder away gives back the association table. */
  lemma LicenseThenCascadeRestores(hs: seq<ArtworkRightsHolder>, media: seq<Media>, rows: seq<ArtworkRightsMedia>,
                                   h: ArtworkRightsHolder, m: Id, rowId: Id, now: string)
    requires Consistent(hs, rows)
    requires IndexOf(hs, HolderId, h.id) == -1
    requires IndexOf(rows, RowId, rowId) == -1
    ensures var rows' := AddMedia(hs + [h], media, rows, h.id, m, rowId, now).rows;
      UniqueKeys(rows', RowId) && RowsNotOf(rows', h.id) == rows
  {
    forall i | 0 <= i < |rows| ensures HolderIsNot(h.id)(rows[i]) {
      assert rows[i] in rows;
      var x :| x in hs && x.id == rows[i].artwork_rights_holder_id;
    }
    WhereAll(rows, HolderIsNot(h.id));
    var a := AddMedia(hs + [h], media, rows, h.id, m, rowId, now);
    if a.rows != rows {
      var row := a.result.value;
      AppendFreshKey(rows, RowId, row);
      WhereAppend(rows, [row], HolderIsNot(h.id));
      assert Where([row], HolderIsNot(h.id)) == [] by {
        assert [row][1..] == [];
      }
    }
  }

  /**
   * Create a holder, license it one media, then delete it: the holder table,
   * the association table, and so the cost and count of the artwork, are back
   * where they started.
   */
  method CreateLicenseDelete(db: MockDb, draft: ArtworkRightsHolder, m: Id, holderId: Id, rowId: Id, now: string)
    modifies db`rightsHolders, db`rightsMedia
    requires Consistent(db.rightsHolders, db.rightsMedia)
    requires IndexOf(db.rightsHolders, HolderId, holderId) == -1
    requires IndexOf(db.rightsMedia, RowId, rowId) == -1
    ensures db.rightsHolders == old(db.rightsHolders) && db.rightsMedia == old(db.rightsMedia)
    ensures GetTotalRightsCost(db, draft.artwork_id) == old(GetTotalRightsCost(db, draft.artwork_id))
    ensures GetRightsHolderCount(db, draft.artwork_id) == old(GetRightsHolderCount(db, draft.artwork_id))
  {
    ghost var hs0, rows0 := db.rightsHolders, db.rightsMedia;
    var h := CreateRightsHolder(db, draft, holderId, now);
    var added := AddMediaToRightsHolder(db, h.id, m, rowId, now);
    LicenseThenCascadeRestores(hs0, db.media, rows0, h, m, rowId, now);
    AppendFreshKey(hs0, HolderId, h);
    var deleted := DeleteRightsHolder(db, h.id);
    assert RemoveAt(hs0 + [h], |hs0|) == hs0;
  }
}
