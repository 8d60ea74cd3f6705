/**
 * components/rights-holder-management.tsx: the rights-holder form and its
 * `onSubmit` handler.
 *
 * The handler diffs the media the user selected against the media the loaded
 * holder already has (`mediaToAdd`, `mediaToRemove`) and then drives the
 * rights-holder store one awaited call at a time: the field update, every add,
 * every remove. The first call that throws ends the handler; the calls already
 * made stay made. `Submit` returns the calls it made, and its postcondition
 * says the tables are exactly what those calls, replayed by `Run`, produce.
 */
module RightsHolderForm {
  import opened Wrappers
  import opened Records
  import opened Tables
  import opened MockData
  import opened RightsHolderService

  // ---------------------------------------------------------------------------
  // The form schema

  /** The raw form: any field may be missing. */
  datatype FormInput = FormInput(contact_id: Option<Id>, price: Option<int>, media: Option<seq<Id>>)

  /** What the schema hands to onSubmit. */
  datatype FormValues = FormValues(contact_id: Id, price: int, media: Option<seq<Id>>)

  const ContactRequired: string := "Veuillez sélectionner un contact"
  const PriceNegative: string := "Le prix doit être positif"

  /** rightsHolderFormSchema: a contact is required, the price defaults to 0 and may not be negative. */
  function Validate(input: FormInput): (r: Result<FormValues, seq<string>>)
    ensures r.Success? <==> input.contact_id.Some? && input.price.GetOr(0) >= 0
    ensures r.Success? ==>
      && r.value.contact_id == input.contact_id.value
      && r.value.price == input.price.GetOr(0) >= 0
      && r.value.media == input.media
    ensures r.Failure? ==>
      && (ContactRequired in r.error <==> input.contact_id.None?)
      && (PriceNegative in r.error <==> input.price.GetOr(0) < 0)
  {
    var price := input.price.GetOr(0);
    var errors := (if input.contact_id.None? then [ContactRequired] else [])
                + (if price < 0 then [PriceNegative] else []);
    if |errors| == 0 then Success(FormValues(input.contact_id.value, price, input.media))
    else Failure(errors)
  }

  // ---------------------------------------------------------------------------
  // The plan: mediaToAdd and mediaToRemove

  /** `currentRightsHolder.media_rights.map(mr => mr.media_id)`. */
  function MediaIds(v: HolderView): seq<Id> {
    seq(|v.mediaRights|, k requires 0 <= k < |v.mediaRights| => v.mediaRights[k].row.media_id)
  }

  function NotAmong(current: seq<Id>): Id -> bool { (m: Id) => m !in current }

  /** `m => !values.media?.includes(m)`: with no selection at all, every media counts as unselected. */
  function NotSelected(selected: Option<seq<Id>>): Id -> bool { (m: Id) => !(selected.Some? && m in selected.value) }

  /** The media ids a list holds, as a set. */
  ghost function Elems(ms: seq<Id>): set<Id> {
    set m | m in ms
  }

  /** The set of selected media; none when the field is undefined. */
  ghost function Chosen(selected: Option<seq<Id>>): set<Id> {
    if selected.None? then {} else Elems(selected.value)
  }

  /** `values.media?.filter(m => !currentMediaIds.includes(m)) || []`. */
  function MediaToAdd(selected: Option<seq<Id>>, current: seq<Id>): seq<Id> {
    if selected.None? then [] else Where(selected.value, NotAmong(current))
  }

  /** `currentMediaIds.filter(m => !values.media?.includes(m))`. */
  function MediaToRemove(selected: Option<seq<Id>>, current: seq<Id>): seq<Id> {
    Where(current, NotSelected(selected))
  }

  /** The plan is the two set differences: selected minus current, and current minus selected. */
  lemma PlanMembers(selected: Option<seq<Id>>, current: seq<Id>)
    ensures forall m :: m in MediaToAdd(selected, current) <==> m in Chosen(selected) && m !in current
    ensures forall m :: m in MediaToRemove(selected, current) <==> m in current && m !in Chosen(selected)
  {
    if selected.Some? {
      WhereMembers(selected.value, NotAmong(current));
    }
    WhereMembers(current, NotSelected(selected));
  }

  /** No media is both added and removed. */
  lemma PlanDisjoint(selected: Option<seq<Id>>, current: seq<Id>)
    ensures forall m :: !(m in MediaToAdd(selected, current) && m in MediaToRemove(selected, current))
  {
    PlanMembers(selected, current);
  }

  /** Applying the plan to the current set gives the selected set. */
  lemma PlanReachesSelection(selected: Option<seq<Id>>, current: seq<Id>)
    ensures Elems(current) + Elems(MediaToAdd(selected, current))
              - Elems(MediaToRemove(selected, current)) == Chosen(selected)
  {
    PlanMembers(selected, current);
  }

  /** When the selection is the current set, nothing is added and nothing removed. */
  lemma SameSelectionEmptyPlan(selected: seq<Id>, current: seq<Id>)
    requires forall m :: m in selected <==> m in current
    ensures MediaToAdd(Some(selected), current) == [] && MediaToRemove(Some(selected), current) == []
  {
    WhereNone(selected, NotAmong(current));
    WhereNone(current, NotSelected(Some(selected)));
  }

  /** With the media field undefined, every current media is removed and none is added. */
  lemma UndefinedSelectionRemovesAll(current: seq<Id>)
    ensures MediaToAdd(None, current) == [] && MediaToRemove(None, current) == current
  {
    WhereAll(current, NotSelected(None));
  }

  /** A holder view built from the store lists exactly the media the store associates with the holder. */
  lemma ViewMediaIds(v: HolderView, contacts: seq<Contact>, media: seq<Media>, rows: seq<ArtworkRightsMedia>)
    requires IsView(v, contacts, media, rows)
    ensures Elems(MediaIds(v)) == MediaOf(rows, v.holder.id)
  {
    var h := v.holder.id;
    var mine := RowsOf(rows, h);
    WhereMembers(rows, HolderIs(h));
    forall m | m in MediaIds(v) ensures m in MediaOf(rows, h) {
      var k :| 0 <= k < |MediaIds(v)| && MediaIds(v)[k] == m;
      assert mine[k] in mine;
    }
    forall m | m in MediaOf(rows, h) ensures m in MediaIds(v) {
      var r :| r in rows && r.artwork_rights_holder_id == h && r.media_id == m;
      assert r in mine;
      var k :| 0 <= k < |mine| && mine[k] == r;
      assert MediaIds(v)[k] == m;
    }
  }

  // ---------------------------------------------------------------------------
  // The calls onSubmit makes, and what they do to the tables

  /** The two tables the handler writes. */
  datatype RightsTables = RightsTables(holders: seq<ArtworkRightsHolder>, rows: seq<ArtworkRightsMedia>)

  /** One awaited store call; an add carries the id and timestamp it would give a new row. */
  datatype Call =
    | UpdateCall(id: Id, patch: HolderPatch)
    | CreateCall(holder: ArtworkRightsHolder)
    | AddCall(h: Id, m: Id, rowId: Id, at: string)
    | RemoveCall(h: Id, m: Id)

  /** The effect of one call on the tables (a throwing add has none). */
  function Apply(media: seq<Media>, t: RightsTables, c: Call): RightsTables {
    match c
    case UpdateCall(id, patch) => t.(holders := UpdateFirst(t.holders, HolderId, id, MergeHolder, patch))
    case CreateCall(h) => t.(holders := t.holders + [h])
    case AddCall(h, m, rowId, at) => t.(rows := AddMedia(t.holders, media, t.rows, h, m, rowId, at).rows)
    case RemoveCall(h, m) => t.(rows := RemoveMedia(t.rows, h, m).rows)
  }

  /** The calls, in order, one after the other. */
  function Run(media: seq<Media>, t: RightsTables, calls: seq<Call>): RightsTables
    decreases |calls|
  {
    if |calls| == 0 then t else Run(media, Apply(media, t, calls[0]), calls[1..])
  }

  /** Running two batches of calls is running the second on the result of the first. */
  lemma {:induction false} RunAppend(media: seq<Media>, t: RightsTables, a: seq<Call>, b: seq<Call>)
    ensures Run(media, t, a + b) == Run(media, Run(media, t, a), b)
    decreases |a|
  {
    if |a| == 0 {
      assert a + b == b;
    } else {
      assert (a + b)[0] == a[0];
      assert (a + b)[1..] == a[1..] + b;
      RunAppend(media, Apply(media, t, a[0]), a[1..], b);
    }
  }

  /** Running one more call applies it to the result so far. */
  lemma RunSnoc(media: seq<Media>, t: RightsTables, calls: seq<Call>, c: Call)
    ensures Run(media, t, calls + [c]) == Apply(media, Run(media, t, calls), c)
  {
    RunAppend(media, t, calls, [c]);
    assert [c][1..] == [];
  }

  /** Running a call and then more calls. */
  lemma RunCons(media: seq<Media>, t: RightsTables, c: Call, xs: seq<Call>)
    ensures Run(media, t, [c] + xs) == Run(media, Apply(media, t, c), xs)
  {
    assert ([c] + xs)[1..] == xs;
  }

  /** A call followed by two runs of calls, one after the other. */
  lemma RunThree(media: seq<Media>, t: RightsTables, c: Call, xs: seq<Call>, ys: seq<Call>)
    ensures Run(media, t, [c] + (xs + ys)) == Run(media, Run(media, Apply(media, t, c), xs), ys)
  {
    RunAppend(media, t, [c], xs + ys);
    RunSnoc(media, t, [], c);
    assert [] + [c] == [c];
    RunAppend(media, Run(media, t, [c]), xs, ys);
  }

  /** Holder `h` has exactly the media `chosen`, and every other holder has the media it had in `rows0`. */
  ghost predicate Reaches(rows0: seq<ArtworkRightsMedia>, rows: seq<ArtworkRightsMedia>, h: Id, chosen: set<Id>) {
    && MediaOf(rows, h) == chosen
    && forall g :: g != h ==> MediaOf(rows, g) == MediaOf(rows0, g)
  }

  /** An add step followed by more adds: the holder gains both, the other holders nothing. */
  lemma ReachesAdding(a: seq<ArtworkRightsMedia>, b: seq<ArtworkRightsMedia>, c: seq<ArtworkRightsMedia>,
                      h: Id, base: set<Id>, x: set<Id>, y: set<Id>)
    requires Reaches(a, b, h, base + x) && Reaches(b, c, h, MediaOf(b, h) + y)
    ensures Reaches(a, c, h, base + (x + y))
  {
  }

  /** A remove step followed by more removes: the holder loses both, the other holders nothing. */
  lemma ReachesRemoving(a: seq<ArtworkRightsMedia>, b: seq<ArtworkRightsMedia>, c: seq<ArtworkRightsMedia>,
                        h: Id, base: set<Id>, x: set<Id>, y: set<Id>)
    requires Reaches(a, b, h, base - x) && Reaches(b, c, h, MediaOf(b, h) - y)
    ensures Reaches(a, c, h, base - (x + y))
  {
  }

  /** Two steps that each leave the other holders alone leave them alone together. */
  lemma ReachesTrans(a: seq<ArtworkRightsMedia>, b: seq<ArtworkRightsMedia>, c: seq<ArtworkRightsMedia>,
                     h: Id, x: set<Id>, y: set<Id>)
    requires Reaches(a, b, h, x) && Reaches(b, c, h, y)
    ensures Reaches(a, c, h, y)
  {
  }

  lemma ElemsCons(ms: seq<Id>)
    requires |ms| > 0
    ensures Elems(ms) == {ms[0]} + Elems(ms[1..])
  {
  }

  /** The add loop as planned: one add per media, the k-th with the k-th generated row id. */
  function AddCalls(h: Id, ms: seq<Id>, rowIds: nat -> Id, now: string): seq<Call> {
    seq(|ms|, k requires 0 <= k < |ms| => AddCall(h, ms[k], rowIds(k), now))
  }

  function RemoveCalls(h: Id, ms: seq<Id>): seq<Call> {
    seq(|ms|, k requires 0 <= k < |ms| => RemoveCall(h, ms[k]))
  }

  function ViewId(v: HolderView): Id { v.holder.id }

  /** `if (editingId)`: a null and an empty id both take the create path. */
  predicate IsEdit(editing: Option<Id>) {
    editing.Some? && editing.value != ""
  }

  /** The holder the create path sends: artwork, contact and price (id and timestamp are generated). */
  function Draft(artworkId: Id, values: FormValues): ArtworkRightsHolder {
    ArtworkRightsHolder("", "", None, artworkId, values.contact_id, values.price)
  }

  /** Every call the edit branch makes when none throws: the update, the adds, the removes. */
  function EditPlan(id: Id, loaded: seq<HolderView>, values: FormValues, rowIds: nat -> Id, now: string): seq<Call> {
    [UpdateCall(id, ContactAndPrice(values.contact_id, values.price))] +
    match Find(loaded, ViewId, id)
    case None => []
    case Some(v) =>
      AddCalls(id, MediaToAdd(values.media, MediaIds(v)), rowIds, now) +
      RemoveCalls(id, MediaToRemove(values.media, MediaIds(v)))
  }

  /** `if (values.media && values.media.length > 0)`: one add per selected media. */
  function SelectedAdds(h: Id, selected: Option<seq<Id>>, rowIds: nat -> Id, now: string): seq<Call> {
    if selected.Some? && |selected.value| > 0 then AddCalls(h, selected.value, rowIds, now) else []
  }

  /** Every call the create branch makes when none throws: the create, then one add per selected media. */
  function CreatePlan(artworkId: Id, values: FormValues, holderId: Id, rowIds: nat -> Id, now: string): seq<Call> {
    [CreateCall(NewHolder(Draft(artworkId, values), holderId, now))] + SelectedAdds(holderId, values.media, rowIds, now)
  }

  /** Every call onSubmit makes when none throws. */
  function Planned(artworkId: Id, editing: Option<Id>, loaded: seq<HolderView>, values: FormValues,
                   holderId: Id, rowIds: nat -> Id, now: string): seq<Call>
  {
    if IsEdit(editing) then EditPlan(editing.value, loaded, values, rowIds, now)
    else CreatePlan(artworkId, values, holderId, rowIds, now)
  }

  // ---------------------------------------------------------------------------
  // What the planned calls achieve

  /** No call ever duplicates a (holder, media) pair. */
  lemma {:induction false} RunKeepsPairsUnique(media: seq<Media>, t: RightsTables, calls: seq<Call>)
    requires NoDuplicatePairs(t.rows)
    ensures NoDuplicatePairs(Run(media, t, calls).rows)
    decreases |calls|
  {
    if |calls| > 0 {
      var t' := Apply(media, t, calls[0]);
      match calls[0] {
        case AddCall(h, m, rowId, at) => AddMediaKeepsPairsUnique(t.holders, media, t.rows, h, m, rowId, at);
        case RemoveCall(h, m) => RemoveMediaKeepsPairsUnique(t.rows, h, m);
        case _ =>
      }
      RunKeepsPairsUnique(media, t', calls[1..]);
    }
  }

  /** Every call of `cs` adds `ms[i]` to holder `h`, whatever row id and timestamp it carries. */
  predicate AddsFor(cs: seq<Call>, h: Id, ms: seq<Id>) {
    |cs| == |ms| && forall i :: 0 <= i < |cs| ==> cs[i].AddCall? && cs[i].h == h && cs[i].m == ms[i]
  }

  /** Every call of `cs` removes `ms[i]` from holder `h`. */
  predicate RemovesFor(cs: seq<Call>, h: Id, ms: seq<Id>) {
    |cs| == |ms| && forall i :: 0 <= i < |cs| ==> cs[i] == RemoveCall(h, ms[i])
  }

  /** One add for an existing holder and an existing media puts that media into the holder's set only. */
  lemma AddOne(media: seq<Media>, t: RightsTables, c: Call)
    requires c.AddCall? && IndexOf(t.holders, HolderId, c.h) != -1 && IndexOf(media, MediaId, c.m) != -1
    ensures Apply(media, t, c).holders == t.holders
    ensures Reaches(t.rows, Apply(media, t, c).rows, c.h, MediaOf(t.rows, c.h) + {c.m})
  {
    AddMediaMediaOf(t.holders, media, t.rows, c.h, c.m, c.rowId, c.at);
  }

  /** One remove, under the no-duplicate invariant, takes that media out of the holder's set only. */
  lemma RemoveOne(media: seq<Media>, t: RightsTables, c: Call)
    requires c.RemoveCall? && NoDuplicatePairs(t.rows)
    ensures Apply(media, t, c).holders == t.holders
    ensures NoDuplicatePairs(Apply(media, t, c).rows)
    ensures Reaches(t.rows, Apply(media, t, c).rows, c.h, MediaOf(t.rows, c.h) - {c.m})
  {
    RemoveMediaClearsPair(t.rows, c.h, c.m);
    RemoveMediaKeepsPairsUnique(t.rows, c.h, c.m);
  }

  /** Adds for an existing holder and existing media put exactly those media into the holder's set. */
  lemma {:induction false} RunAdds(media: seq<Media>, t: RightsTables, h: Id, cs: seq<Call>, ms: seq<Id>)
    requires AddsFor(cs, h, ms)
    requires IndexOf(t.holders, HolderId, h) != -1
    requires forall m :: m in ms ==> IndexOf(media, MediaId, m) != -1
    ensures Run(media, t, cs).holders == t.holders
    ensures Reaches(t.rows, Run(media, t, cs).rows, h, MediaOf(t.rows, h) + Elems(ms))
    decreases |cs|
  {
    if |cs| == 0 {
      assert Elems(ms) == {};
    } else {
      var t1 := Apply(media, t, cs[0]);
      assert ms[0] in ms;
      AddOne(media, t, cs[0]);
      assert forall m :: m in ms[1..] ==> m in ms;
      RunAdds(media, t1, h, cs[1..], ms[1..]);
      ElemsCons(ms);
      ReachesAdding(t.rows, t1.rows, Run(media, t1, cs[1..]).rows, h, MediaOf(t.rows, h), {ms[0]}, Elems(ms[1..]));
    }
  }

  /** Removes under the no-duplicate invariant take exactly those media out of the holder's set. */
  lemma {:induction false} RunRemoves(media: seq<Media>, t: RightsTables, h: Id, cs: seq<Call>, ms: seq<Id>)
    requires RemovesFor(cs, h, ms)
    requires NoDuplicatePairs(t.rows)
    ensures Run(media, t, cs).holders == t.holders
    ensures NoDuplicatePairs(Run(media, t, cs).rows)
    ensures Reaches(t.rows, Run(media, t, cs).rows, h, MediaOf(t.rows, h) - Elems(ms))
    decreases |cs|
  {
    if |cs| == 0 {
      assert Elems(ms) == {};
    } else {
      var t1 := Apply(media, t, cs[0]);
      RemoveOne(media, t, cs[0]);
      RunRemoves(media, t1, h, cs[1..], ms[1..]);
      ElemsCons(ms);
      ReachesRemoving(t.rows, t1.rows, Run(media, t1, cs[1..]).rows, h, MediaOf(t.rows, h), {ms[0]}, Elems(ms[1..]));
    }
  }

  /**
   * When the edit branch works as intended: the loaded view shows the media
   * the store holds, the holder exists, every selected media exists, and no
   * pair is stored twice.
   */
  ghost predicate EditReady(media: seq<Media>, t: RightsTables, id: Id, v: HolderView, selected: Option<seq<Id>>) {
    && Elems(MediaIds(v)) == MediaOf(t.rows, id)
    && IndexOf(t.holders, HolderId, id) != -1
    && (forall m :: m in Chosen(selected) ==> IndexOf(media, MediaId, m) != -1)
    && NoDuplicatePairs(t.rows)
  }

  /** In that case the update keeps the holder findable and every media to add exists, so no add throws. */
  lemma EditAddsSucceed(media: seq<Media>, t: RightsTables, id: Id, v: HolderView, values: FormValues)
    ensures var patch := ContactAndPrice(values.contact_id, values.price);
      EditReady(media, t, id, v, values.media) ==>
      CanAdd(UpdateFirst(t.holders, HolderId, id, MergeHolder, patch), media, id, MediaToAdd(values.media, MediaIds(v)))
  {
    PlanMembers(values.media, MediaIds(v));
    var i := IndexOf(t.holders, HolderId, id);
    if i != -1 {
      assert UpdateFirst(t.holders, HolderId, id, MergeHolder, ContactAndPrice(values.contact_id, values.price))[i].id == id;
    }
  }

  /**
   * The edit path: when the edit is ready, the update, the adds and the
   * removes leave the holder with exactly the selected media, and every other
   * holder as it was.
   */
  lemma EditReachesSelection(media: seq<Media>, t: RightsTables, id: Id, loaded: seq<HolderView>, values: FormValues,
                             rowIds: nat -> Id, now: string)
    requires Find(loaded, ViewId, id).Some?
    requires EditReady(media, t, id, Find(loaded, ViewId, id).value, values.media)
    ensures Reaches(t.rows, Run(media, t, EditPlan(id, loaded, values, rowIds, now)).rows, id, Chosen(values.media))
  {
    var v := Find(loaded, ViewId, id).value;
    var current := MediaIds(v);
    var toAdd, toRemove := MediaToAdd(values.media, current), MediaToRemove(values.media, current);
    var update := UpdateCall(id, ContactAndPrice(values.contact_id, values.price));
    var adds, removes := AddCalls(id, toAdd, rowIds, now), RemoveCalls(id, toRemove);
    assert EditPlan(id, loaded, values, rowIds, now) == [update] + (adds + removes);
    RunThree(media, t, update, adds, removes);
    var t1 := Apply(media, t, update);
    EditAddsSucceed(media, t, id, v, values);
    RunAdds(media, t1, id, adds, toAdd);
    var t2 := Run(media, t1, adds);
    RunKeepsPairsUnique(media, t1, adds);
    RunRemoves(media, t2, id, removes, toRemove);
    PlanReachesSelection(values.media, current);
    ReachesTrans(t.rows, t2.rows, Run(media, t2, removes).rows, id, MediaOf(t.rows, id) + Elems(toAdd),
                 Chosen(values.media));
  }

  /**
   * The create path: a holder with a fresh id, then one add per selected media
   * (a repeated selection adds nothing the second time), leave the new holder
   * with exactly the selected media and every other holder as it was.
   */
  lemma CreateReachesSelection(media: seq<Media>, t: RightsTables, artworkId: Id, values: FormValues, holderId: Id,
                               rowIds: nat -> Id, now: string)
    requires MediaOf(t.rows, holderId) == {}
    requires forall m :: m in Chosen(values.media) ==> IndexOf(media, MediaId, m) != -1
    ensures Reaches(t.rows, Run(media, t, CreatePlan(artworkId, values, holderId, rowIds, now)).rows, holderId,
                    Chosen(values.media))
  {
    var holder, selected := NewHolder(Draft(artworkId, values), holderId, now), values.media;
    var create := [CreateCall(holder)];
    RunSnoc(media, t, [], create[0]);
    assert [] + [create[0]] == create;
    var t1 := Run(media, t, create);
    assert t1.rows == t.rows;
    if selected.Some? && |selected.value| > 0 {
      var ms := selected.value;
      var adds := AddCalls(holder.id, ms, rowIds, now);
      RunAppend(media, t, create, adds);
      assert t1.holders[|t.holders|].id == holder.id;
      RunAdds(media, t1, holder.id, adds, ms);
    } else {
      assert create + [] == create;
    }
  }

  // ---------------------------------------------------------------------------
  // The handler

  /** No add for holder `h` and media `ms` can throw: the holder and every media exist. */
  predicate CanAdd(holders: seq<ArtworkRightsHolder>, media: seq<Media>, h: Id, ms: seq<Id>) {
    IndexOf(holders, HolderId, h) != -1 && forall m :: m in ms ==> IndexOf(media, MediaId, m) != -1
  }

  /** `for (const mediaId of mediaToAdd) await add(...)`: stops at the first add that throws. */
  method AddAll(db: MockDb, h: Id, ms: seq<Id>, rowIds: nat -> Id, now: string)
    returns (calls: seq<Call>, err: Option<StoreError>)
    modifies db`rightsMedia
    ensures calls <= AddCalls(h, ms, rowIds, now)
    ensures err.None? ==> calls == AddCalls(h, ms, rowIds, now)
    ensures err.Some? ==> |calls| > 0
    ensures RightsTables(db.rightsHolders, db.rightsMedia)
         == Run(db.media, RightsTables(db.rightsHolders, old(db.rightsMedia)), calls)
    ensures CanAdd(db.rightsHolders, db.media, h, ms) ==> err.None?
  {
    var t0 := RightsTables(db.rightsHolders, db.rightsMedia);
    calls, err := [], None;
    var k := 0;
    while k < |ms| && err.None?
      invariant 0 <= k <= |ms|
      invariant calls == AddCalls(h, ms, rowIds, now)[..k]
      invariant err.Some? ==> k > 0
      invariant RightsTables(db.rightsHolders, db.rightsMedia) == Run(db.media, t0, calls)
      invariant CanAdd(db.rightsHolders, db.media, h, ms) ==> err.None?
      modifies db`rightsMedia
    {
      var c := AddCall(h, ms[k], rowIds(k), now);
      var r := AddMediaToRightsHolder(db, h, ms[k], rowIds(k), now);
      RunSnoc(db.media, t0, calls, c);
      calls := calls + [c];
      if r.Failure? {
        err := Some(r.error);
      }
      k := k + 1;
    }
  }

  /** `for (const mediaId of mediaToRemove) await remove(...)`: a remove never throws. */
  method RemoveAll(db: MockDb, h: Id, ms: seq<Id>) returns (calls: seq<Call>)
    modifies db`rightsMedia
    ensures calls == RemoveCalls(h, ms)
    ensures RightsTables(db.rightsHolders, db.rightsMedia)
         == Run(db.media, RightsTables(db.rightsHolders, old(db.rightsMedia)), calls)
  {
    var t0 := RightsTables(db.rightsHolders, db.rightsMedia);
    calls := [];
    var k := 0;
    while k < |ms|
      invariant 0 <= k <= |ms|
      invariant calls == RemoveCalls(h, ms)[..k]
      invariant RightsTables(db.rightsHolders, db.rightsMedia) == Run(db.media, t0, calls)
      modifies db`rightsMedia
    {
      var c := RemoveCall(h, ms[k]);
      var _ := RemoveMediaFromRightsHolder(db, h, ms[k]);
      RunSnoc(db.media, t0, calls, c);
      calls := calls + [c];
      k := k + 1;
    }
    assert calls == RemoveCalls(h, ms)[..k];
  }

  /**
   * The two loops of the edit branch: the adds, then, unless an add threw,
   * the removes.
   */
  method Reconcile(db: MockDb, h: Id, toAdd: seq<Id>, toRemove: seq<Id>, rowIds: nat -> Id, now: string)
    returns (calls: seq<Call>, err: Option<StoreError>)
    modifies db`rightsMedia
    ensures calls <= AddCalls(h, toAdd, rowIds, now) + RemoveCalls(h, toRemove)
    ensures err.None? ==> calls == AddCalls(h, toAdd, rowIds, now) + RemoveCalls(h, toRemove)
    ensures err.Some? ==> |calls| > 0 && calls[|calls| - 1].AddCall?
    ensures RightsTables(db.rightsHolders, db.rightsMedia)
         == Run(db.media, RightsTables(db.rightsHolders, old(db.rightsMedia)), calls)
    ensures CanAdd(db.rightsHolders, db.media, h, toAdd) ==> err.None?
  {
    ghost var t0 := RightsTables(db.rightsHolders, db.rightsMedia);
    var adds;
    adds, err := AddAll(db, h, toAdd, rowIds, now);
    if err.Some? {
      assert adds[|adds| - 1] == AddCalls(h, toAdd, rowIds, now)[|adds| - 1];
      return adds, err;
    }
    var removes := RemoveAll(db, h, toRemove);
    RunAppend(db.media, t0, adds, removes);
    calls := adds + removes;
  }

  /** The add loop of the create branch, entered only when some media is selected. */
  method AddSelected(db: MockDb, h: Id, selected: Option<seq<Id>>, rowIds: nat -> Id, now: string)
    returns (calls: seq<Call>, err: Option<StoreError>)
    modifies db`rightsMedia
    ensures calls <= SelectedAdds(h, selected, rowIds, now)
    ensures err.None? ==> calls == SelectedAdds(h, selected, rowIds, now)
    ensures err.Some? ==> |calls| > 0 && calls[|calls| - 1].AddCall?
    ensures RightsTables(db.rightsHolders, db.rightsMedia)
         == Run(db.media, RightsTables(db.rightsHolders, old(db.rightsMedia)), calls)
    ensures (IndexOf(db.rightsHolders, HolderId, h) != -1 &&
             forall m :: m in Chosen(selected) ==> IndexOf(db.media, MediaId, m) != -1) ==> err.None?
  {
    if selected.Some? && |selected.value| > 0 {
      calls, err := AddAll(db, h, selected.value, rowIds, now);
      if err.Some? {
        assert calls[|calls| - 1] == AddCalls(h, selected.value, rowIds, now)[|calls| - 1];
      }
    } else {
      calls, err := [], None;
    }
  }

  /** What the handler reports: the success toast, or the error toast with the store error that ended it. */
  datatype Outcome = Saved | Failed(error: StoreError)

  /** The edit branch of onSubmit: update the contact and price, then reconcile the media of the loaded holder. */
  method SubmitEdit(db: MockDb, id: Id, loaded: seq<HolderView>, values: FormValues, rowIds: nat -> Id, now: string)
    returns (outcome: Outcome, calls: seq<Call>)
    modifies db`rightsHolders, db`rightsMedia
    ensures calls <= EditPlan(id, loaded, values, rowIds, now)
    ensures outcome.Saved? ==> calls == EditPlan(id, loaded, values, rowIds, now)
    ensures outcome.Failed? ==> |calls| > 0 && calls[|calls| - 1].AddCall?
    ensures RightsTables(db.rightsHolders, db.rightsMedia)
         == Run(db.media, RightsTables(old(db.rightsHolders), old(db.rightsMedia)), calls)
    ensures Find(loaded, ViewId, id).None? ==> outcome.Saved? && db.rightsMedia == old(db.rightsMedia)
    ensures var v := Find(loaded, ViewId, id);
      v.Some? && EditReady(db.media, RightsTables(old(db.rightsHolders), old(db.rightsMedia)), id, v.value, values.media) ==>
      outcome.Saved?
  {
    ghost var t0 := RightsTables(db.rightsHolders, db.rightsMedia);
    var patch := ContactAndPrice(values.contact_id, values.price);
    var _ := UpdateRightsHolder(db, id, patch);
    var update := UpdateCall(id, patch);
    var current := Find(loaded, ViewId, id);
    if current.None? {
      assert EditPlan(id, loaded, values, rowIds, now) == [update] + [];
      RunCons(db.media, t0, update, []);
      return Saved, [update] + [];
    }
    var currentIds := MediaIds(current.value);
    assert EditPlan(id, loaded, values, rowIds, now)
        == [update] + (AddCalls(id, MediaToAdd(values.media, currentIds), rowIds, now) +
                       RemoveCalls(id, MediaToRemove(values.media, currentIds)));
    EditAddsSucceed(db.media, t0, id, current.value, values);
    var rest, err := Reconcile(db, id, MediaToAdd(values.media, currentIds), MediaToRemove(values.media, currentIds),
                               rowIds, now);
    RunCons(db.media, t0, update, rest);
    calls := [update] + rest;
    if err.Some? {
      return Failed(err.value), calls;
    }
    outcome := Saved;
  }

  /** The create branch of onSubmit: create the holder for the artwork, then add each selected media. */
  method SubmitCreate(db: MockDb, artworkId: Id, values: FormValues, holderId: Id, rowIds: nat -> Id, now: string)
    returns (outcome: Outcome, calls: seq<Call>)
    modifies db`rightsHolders, db`rightsMedia
    ensures calls <= CreatePlan(artworkId, values, holderId, rowIds, now)
    ensures outcome.Saved? ==> calls == CreatePlan(artworkId, values, holderId, rowIds, now)
    ensures outcome.Failed? ==> |calls| > 0 && calls[|calls| - 1].AddCall?
    ensures RightsTables(db.rightsHolders, db.rightsMedia)
         == Run(db.media, RightsTables(old(db.rightsHolders), old(db.rightsMedia)), calls)
    ensures db.rightsHolders == old(db.rightsHolders) + [NewHolder(Draft(artworkId, values), holderId, now)]
    ensures (forall m :: m in Chosen(values.media) ==> IndexOf(db.media, MediaId, m) != -1) ==> outcome.Saved?
  {
    ghost var t0 := RightsTables(db.rightsHolders, db.rightsMedia);
    var holder := CreateRightsHolder(db, Draft(artworkId, values), holderId, now);
    var create := [CreateCall(holder)];
    RunSnoc(db.media, t0, [], create[0]);
    assert [] + [create[0]] == create;
    assert db.rightsHolders[|t0.holders|].id == holderId;
    var rest, err := AddSelected(db, holderId, values.media, rowIds, now);
    RunAppend(db.media, t0, create, rest);
    calls := create + rest;
    assert CreatePlan(artworkId, values, holderId, rowIds, now) == create + SelectedAdds(holderId, values.media, rowIds, now);
    if err.Some? {
      return Failed(err.value), calls;
    }
    outcome := Saved;
  }

  /**
   * onSubmit: `if (editingId)` the edit branch, else the create branch. The
   * tables end up exactly as the calls made leave them (nothing is rolled
   * back), the calls made are the planned ones up to the first that throws,
   * and no call duplicates a (holder, media) pair.
   */
  method Submit(db: MockDb, artworkId: Id, editing: Option<Id>, loaded: seq<HolderView>, values: FormValues,
                holderId: Id, rowIds: nat -> Id, now: string)
    returns (outcome: Outcome, calls: seq<Call>)
    modifies db`rightsHolders, db`rightsMedia
    ensures calls <= Planned(artworkId, editing, loaded, values, holderId, rowIds, now)
    ensures outcome.Saved? ==> calls == Planned(artworkId, editing, loaded, values, holderId, rowIds, now)
    ensures outcome.Failed? ==> |calls| > 0 && calls[|calls| - 1].AddCall?
    ensures RightsTables(db.rightsHolders, db.rightsMedia)
         == Run(db.media, RightsTables(old(db.rightsHolders), old(db.rightsMedia)), calls)
    ensures NoDuplicatePairs(old(db.rightsMedia)) ==> NoDuplicatePairs(db.rightsMedia)
  {
    if IsEdit(editing) {
      outcome, calls := SubmitEdit(db, editing.value, loaded, values, rowIds, now);
    } else {
      outcome, calls := SubmitCreate(db, artworkId, values, holderId, rowIds, now);
    }
    if NoDuplicatePairs(old(db.rightsMedia)) {
      RunKeepsPairsUnique(db.media, RightsTables(old(db.rightsHolders), old(db.rightsMedia)), calls);
    }
  }

  /** `form.handleSubmit(onSubmit)`: a form the schema rejects never reaches the store. */
  method HandleSubmit(db: MockDb, artworkId: Id, editing: Option<Id>, loaded: seq<HolderView>, input: FormInput,
                      holderId: Id, rowIds: nat -> Id, now: string)
    returns (r: Result<Outcome, seq<string>>, calls: seq<Call>)
    modifies db`rightsHolders, db`rightsMedia
    ensures Validate(input).Failure? ==>
      r == Failure(Validate(input).error) && calls == [] &&
      db.rightsHolders == old(db.rightsHolders) && db.rightsMedia == old(db.rightsMedia)
    ensures Validate(input).Success? ==>
      r.Success? && calls <= Planned(artworkId, editing, loaded, Validate(input).value, holderId, rowIds, now)
    ensures Validate(input).Success? && r.value.Saved? ==>
      calls == Planned(artworkId, editing, loaded, Validate(input).value, holderId, rowIds, now)
    ensures Validate(input).Success? && r.value.Failed? ==> |calls| > 0 && calls[|calls| - 1].AddCall?
    ensures RightsTables(db.rightsHolders, db.rightsMedia)
         == Run(db.media, RightsTables(old(db.rightsHolders), old(db.rightsMedia)), calls)
    ensures NoDuplicatePairs(old(db.rightsMedia)) ==> NoDuplicatePairs(db.rightsMedia)
  {
    var values := Validate(input);
    if values.Failure? {
      return Failure(values.error), [];
    }
    var outcome;
    outcome, calls := Submit(db, artworkId, editing, loaded, values.value, holderId, rowIds, now);
    r := Success(outcome);
  }
}
