/**
 * The touring application's state: the adventure store with its upsert
 * (which prepends new adventures and writes a replacement into the
 * previous array itself), delete, selection and search, and the choice of
 * adventures handed to the gear list.
 */
module TourApp {
  import opened Wrappers
  import opened Types
  import Seqs
  import Text
  import Plans
  import TourPlanner

  ghost predicate DistinctIds(store: seq<Adventure>) {
    Seqs.DistinctBy(store, AdventureId)
  }

  /** `prev.some(a => a.id === id)` */
  predicate HasId(store: seq<Adventure>, id: string) {
    exists k :: 0 <= k < |store| && store[k].id == id
  }

  // ---------------------------------------------------------------- store

  /**
   * The list `handleSave` produces: the adventure takes the place of the
   * first one with its id, or, when none has it, goes in front of all others.
   */
  function SaveSpec(store: seq<Adventure>, adv: Adventure): (r: seq<Adventure>)
    ensures adv in r
    ensures forall i :: 0 <= i < |r| ==> r[i] == adv || r[i] in store
    ensures HasId(store, adv.id) ==>
              exists k :: 0 <= k < |store| && store[k].id == adv.id && (forall j :: 0 <= j < k ==> store[j].id != adv.id)
                          && r == store[k := adv]
    ensures !HasId(store, adv.id) ==> |r| == |store| + 1 && r[0] == adv && r[1..] == store
  {
    var k := Seqs.IndexOf(store, AdventureId, adv.id);
    if k > -1 then
      var r := store[k := adv];
      assert r[k] == adv;
      r
    else
      [adv] + store
  }

  /**
   * `handleSave`'s updater: `findIndex`, then either write the adventure
   * into the previous array at that index and return a copy, or return a
   * new array with the adventure in front. In the first case the previous
   * array itself has changed.
   */
  method Save(prev: array<Adventure>, adv: Adventure) returns (next: seq<Adventure>)
    modifies prev
    ensures next == SaveSpec(old(prev[..]), adv)
    ensures prev[..] == if HasId(old(prev[..]), adv.id) then next else old(prev[..])
  {
    var idx := 0;
    while idx < prev.Length && prev[idx].id != adv.id
      invariant 0 <= idx <= prev.Length
      invariant forall j :: 0 <= j < idx ==> prev[j].id != adv.id
    {
      idx := idx + 1;
    }
    ghost var before := prev[..];
    assert idx < prev.Length <==> HasId(before, adv.id);
    if idx < prev.Length {
      assert Seqs.IndexOf(before, AdventureId, adv.id) == idx;
      prev[idx] := adv;
      next := prev[..];
      assert next == before[idx := adv];
    } else {
      next := [adv] + prev[..];
    }
  }

  /** With unique ids, saving an existing id replaces exactly that adventure; the length is kept. */
  lemma SaveReplacesInPlace(store: seq<Adventure>, adv: Adventure, k: int)
    requires DistinctIds(store) && 0 <= k < |store| && store[k].id == adv.id
    ensures SaveSpec(store, adv) == store[k := adv]
  {
    var k' :| 0 <= k' < |store| && store[k'].id == adv.id && (forall j :: 0 <= j < k' ==> store[j].id != adv.id)
              && SaveSpec(store, adv) == store[k' := adv];
    assert k' == k by {
      if k' < k {} else if k < k' {}
    }
  }

  /** Saving keeps the ids unique, and the saved adventure is what its id now finds. */
  lemma SaveKeepsIdsDistinct(store: seq<Adventure>, adv: Adventure)
    requires DistinctIds(store)
    ensures DistinctIds(SaveSpec(store, adv))
    ensures Seqs.Find(SaveSpec(store, adv), AdventureId, adv.id) == Some(adv)
  {
    var r := SaveSpec(store, adv);
    if HasId(store, adv.id) {
      var k :| 0 <= k < |store| && store[k].id == adv.id;
      SaveReplacesInPlace(store, adv, k);
      forall i, j | 0 <= i < j < |r| ensures AdventureId(r[i]) != AdventureId(r[j]) {
        assert AdventureId(r[i]) == AdventureId(store[i]) && AdventureId(r[j]) == AdventureId(store[j]);
      }
      Seqs.FindDistinct(r, AdventureId, k);
    } else {
      forall i, j | 0 <= i < j < |r| ensures AdventureId(r[i]) != AdventureId(r[j]) {
        assert r[j] == store[j - 1];
        if i > 0 {
          assert r[i] == store[i - 1];
        }
      }
      Seqs.FindDistinct(r, AdventureId, 0);
    }
  }

  /** Delete from the detail view: every adventure with the selected id goes, every other stays. */
  function Delete(store: seq<Adventure>, id: string): (r: seq<Adventure>)
    ensures forall i :: 0 <= i < |r| ==> r[i] in store && r[i].id != id
    ensures forall i :: 0 <= i < |store| && store[i].id != id ==> store[i] in r
  {
    Seqs.Filter(store, (a: Adventure) => a.id != id)
  }

  /** Delete keeps the others in their order and their ids unique, and the id no longer finds anything. */
  lemma DeleteKeepsOrder(store: seq<Adventure>, id: string)
    ensures Seqs.IsSubseq(Delete(store, id), store)
    ensures Seqs.Find(Delete(store, id), AdventureId, id).None?
    ensures DistinctIds(store) ==> DistinctIds(Delete(store, id))
  {
    var p := (a: Adventure) => a.id != id;
    Seqs.FilterIsSubseq(store, p);
    if DistinctIds(store) {
      Seqs.FilterDistinct(store, p, AdventureId);
    }
  }

  /** `adventures.find(a => a.id === selectedId)` */
  function Selected(store: seq<Adventure>, selectedId: Option<string>): (r: Option<Adventure>)
    ensures r.Some? ==> selectedId == Some(r.value.id)
    ensures r.Some? ==> exists k :: 0 <= k < |store| && store[k] == r.value && forall j :: 0 <= j < k ==> store[j].id != r.value.id
    ensures r.None? <==> selectedId.None? || !HasId(store, selectedId.value)
  {
    match selectedId
    case None => None
    case Some(id) => Seqs.Find(store, AdventureId, id)
  }

  // --------------------------------------------------------------- search

  function Matches(lq: string): Adventure -> bool {
    (a: Adventure) => Text.MatchesQuery(a.title, a.tags, lq)
  }

  /** The listed adventures: those whose lowered title or some lowered tag contains the lowered query. */
  function Filtered(store: seq<Adventure>, q: string): (r: seq<Adventure>)
    ensures forall i :: 0 <= i < |r| ==> r[i] in store && Text.MatchesQuery(r[i].title, r[i].tags, Text.Lower(q))
    ensures forall i :: 0 <= i < |store| && Text.MatchesQuery(store[i].title, store[i].tags, Text.Lower(q)) ==> store[i] in r
  {
    Seqs.Filter(store, Matches(Text.Lower(q)))
  }

  /** There is no empty-query branch, yet the empty query lists every adventure, in order; any query keeps store order. */
  lemma FilteredEmptyQueryListsAll(store: seq<Adventure>, q: string)
    ensures Filtered(store, "") == store
    ensures Seqs.IsSubseq(Filtered(store, q), store)
  {
    assert Text.Lower("") == "";
    forall i | 0 <= i < |store| ensures Matches("")(store[i]) {
      Text.MatchesEmptyQuery(store[i].title, store[i].tags);
    }
    Seqs.FilterAll(store, Matches(""));
    Seqs.FilterIsSubseq(store, Matches(Text.Lower(q)));
  }

  /** A query and its lowered form list the same adventures. */
  lemma SearchIgnoresQueryCase(store: seq<Adventure>, q: string)
    ensures Filtered(store, q) == Filtered(store, Text.Lower(q))
  {
    Text.LowerIdempotent(q);
  }

  // ------------------------------------------------------------- gear list

  /** Some day's `short` or `long` slot holds exactly this id. */
  predicate OnPlan(plan: TourPlan, id: string) {
    exists d, ride :: d in plan && ride in plan[d] && plan[d][ride] == Some(id)
  }

  /** The adventures handed to the gear list: the store filtered by `OnPlan`. */
  function GearInput(plan: TourPlan, store: seq<Adventure>): (r: seq<Adventure>)
    ensures forall i :: 0 <= i < |r| ==> r[i] in store && exists d, ride :: Plans.SlotValue(plan, d, ride) == Some(r[i].id)
    ensures forall i :: 0 <= i < |store| && (exists d, ride :: Plans.SlotValue(plan, d, ride) == Some(store[i].id)) ==> store[i] in r
  {
    var p := (a: Adventure) => OnPlan(plan, a.id);
    var r := Seqs.Filter(store, p);
    forall i | 0 <= i < |store| && (exists d, ride :: Plans.SlotValue(plan, d, ride) == Some(store[i].id))
      ensures p(store[i])
    {
      var d, ride :| Plans.SlotValue(plan, d, ride) == Some(store[i].id);
    }
    forall i | 0 <= i < |r| ensures exists d, ride :: Plans.SlotValue(plan, d, ride) == Some(r[i].id) {
      assert p(r[i]);
      var d, ride :| d in plan && ride in plan[d] && plan[d][ride] == Some(r[i].id);
      assert Plans.SlotValue(plan, d, ride) == Some(r[i].id);
    }
    r
  }

  /** The gear list keeps store order and, with unique ids, lists each adventure at most once. */
  lemma GearInputOrder(plan: TourPlan, store: seq<Adventure>)
    ensures Seqs.IsSubseq(GearInput(plan, store), store)
    ensures DistinctIds(store) ==> DistinctIds(GearInput(plan, store))
  {
    var p := (a: Adventure) => OnPlan(plan, a.id);
    Seqs.FilterIsSubseq(store, p);
    if DistinctIds(store) {
      Seqs.FilterDistinct(store, p, AdventureId);
    }
  }

  /** With unique ids, the gear list holds exactly the adventures some planner cell shows. */
  lemma GearMatchesBoard(plan: TourPlan, store: seq<Adventure>, a: Adventure)
    requires DistinctIds(store)
    ensures a in GearInput(plan, store) <==> exists d, ride :: TourPlanner.ResolveRide(plan, store, d, ride) == Some(a)
  {
    if a in GearInput(plan, store) {
      var d, ride :| Plans.SlotValue(plan, d, ride) == Some(a.id);
      var k :| 0 <= k < |store| && store[k] == a;
      Seqs.FindDistinct(store, AdventureId, k);
      assert TourPlanner.ResolveRide(plan, store, d, ride) == Some(a);
    }
    if exists d, ride :: TourPlanner.ResolveRide(plan, store, d, ride) == Some(a) {
      var d, ride :| TourPlanner.ResolveRide(plan, store, d, ride) == Some(a);
      var k :| 0 <= k < |store| && store[k] == a;
      assert exists d, ride :: Plans.SlotValue(plan, d, ride) == Some(store[k].id);
    }
  }
}
