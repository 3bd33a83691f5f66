/**
 * The recipe application's state: the recipe store with its upsert,
 * delete, rating change, selection and search; the weekly meal plan
 * updater; and the collection of planned recipes handed to the shopping
 * list summariser.
 */
module RecipeApp {
  import opened Wrappers
  import opened Types
  import Seqs
  import Text
  import Plans
  import WeeklyPlanner

  ghost predicate DistinctIds(store: seq<Recipe>) {
    Seqs.DistinctBy(store, RecipeId)
  }

  /** `prevRecipes.some(r => r.id === id)` */
  predicate HasId(store: seq<Recipe>, id: string) {
    exists k :: 0 <= k < |store| && store[k].id == id
  }

  // ---------------------------------------------------------------- store

  /**
   * Save from the form: a recipe whose id is already stored replaces the
   * stored one where it stands, a new one is appended at the end. Nothing
   * but the saved recipe enters the store.
   */
  function SaveRecipe(store: seq<Recipe>, recipe: Recipe): (r: seq<Recipe>)
    ensures recipe in r
    ensures forall i :: 0 <= i < |r| ==> r[i] == recipe || r[i] in store
    ensures HasId(store, recipe.id) ==> |r| == |store|
    ensures HasId(store, recipe.id) ==> forall i :: 0 <= i < |store| && store[i].id == recipe.id ==> r[i] == recipe
    ensures HasId(store, recipe.id) ==> forall i :: 0 <= i < |store| && store[i].id != recipe.id ==> r[i] == store[i]
    ensures !HasId(store, recipe.id) ==> |r| == |store| + 1 && r[..|store|] == store && r[|store|] == recipe
  {
    if HasId(store, recipe.id) then
      var r := seq(|store|, i requires 0 <= i < |store| => if store[i].id == recipe.id then recipe else store[i]);
      var k := Seqs.IndexOf(store, RecipeId, recipe.id);
      assert r[k] == recipe;
      r
    else
      store + [recipe]
  }

  /** With unique ids, saving an existing id is a single in-place replacement. */
  lemma SaveReplacesInPlace(store: seq<Recipe>, recipe: Recipe, k: int)
    requires DistinctIds(store) && 0 <= k < |store| && store[k].id == recipe.id
    ensures SaveRecipe(store, recipe) == store[k := recipe]
  {
    var r := SaveRecipe(store, recipe);
    forall i | 0 <= i < |store| ensures r[i] == store[k := recipe][i] {
      if i != k {
        assert RecipeId(store[i]) != RecipeId(store[k]) by {
          if i < k {} else {}
        }
      }
    }
  }

  /** Saving keeps the store's ids unique, and the saved recipe is what its id now finds. */
  lemma SaveKeepsIdsDistinct(store: seq<Recipe>, recipe: Recipe)
    requires DistinctIds(store)
    ensures DistinctIds(SaveRecipe(store, recipe))
    ensures Seqs.Find(SaveRecipe(store, recipe), RecipeId, recipe.id) == Some(recipe)
  {
    var r := SaveRecipe(store, recipe);
    if HasId(store, recipe.id) {
      var k :| 0 <= k < |store| && store[k].id == recipe.id;
      SaveReplacesInPlace(store, recipe, k);
      assert r == store[k := recipe];
      forall i, j | 0 <= i < j < |r| ensures RecipeId(r[i]) != RecipeId(r[j]) {
        assert RecipeId(r[i]) == RecipeId(store[i]) && RecipeId(r[j]) == RecipeId(store[j]);
      }
      Seqs.FindDistinct(r, RecipeId, k);
    } else {
      forall i, j | 0 <= i < j < |r| ensures RecipeId(r[i]) != RecipeId(r[j]) {
        if j == |store| {
          assert r[i] == store[i];
        } else {
          assert r[i] == store[i] && r[j] == store[j];
        }
      }
      Seqs.FindDistinct(r, RecipeId, |store|);
    }
  }

  /** Delete: every recipe with the id goes, every other recipe stays. */
  function DeleteRecipe(store: seq<Recipe>, id: string): (r: seq<Recipe>)
    ensures forall i :: 0 <= i < |r| ==> r[i] in store && r[i].id != id
    ensures forall i :: 0 <= i < |store| && store[i].id != id ==> store[i] in r
  {
    Seqs.Filter(store, (x: Recipe) => x.id != id)
  }

  /** Delete keeps the survivors in their order, keeps ids unique, and the id no longer finds anything. */
  lemma DeleteKeepsOrder(store: seq<Recipe>, id: string)
    ensures Seqs.IsSubseq(DeleteRecipe(store, id), store)
    ensures forall a, b :: store == a + b ==> DeleteRecipe(store, id) == DeleteRecipe(a, id) + DeleteRecipe(b, id)
    ensures Seqs.Find(DeleteRecipe(store, id), RecipeId, id).None?
    ensures DistinctIds(store) ==> DistinctIds(DeleteRecipe(store, id))
  {
    var p := (x: Recipe) => x.id != id;
    Seqs.FilterIsSubseq(store, p);
    forall a, b | store == a + b ensures DeleteRecipe(store, id) == DeleteRecipe(a, id) + DeleteRecipe(b, id) {
      Seqs.FilterConcat(a, b, p);
    }
    if DistinctIds(store) {
      Seqs.FilterDistinct(store, p, RecipeId);
    }
  }

  /** Deleting an id nobody has changes nothing. */
  lemma DeleteAbsentIsIdentity(store: seq<Recipe>, id: string)
    requires !HasId(store, id)
    ensures DeleteRecipe(store, id) == store
  {
    Seqs.FilterAll(store, (x: Recipe) => x.id != id);
  }

  /** Rating change: the recipes with the id get the new rating; no other field and no other recipe changes. */
  function ChangeRating(store: seq<Recipe>, id: string, newRating: int): (r: seq<Recipe>)
    ensures |r| == |store|
    ensures forall i :: 0 <= i < |r| ==> r[i].(rating := store[i].rating) == store[i]
    ensures forall i :: 0 <= i < |r| ==> r[i].rating == if store[i].id == id then newRating else store[i].rating
  {
    seq(|store|, i requires 0 <= i < |store| => if store[i].id == id then store[i].(rating := newRating) else store[i])
  }

  /** A rating change keeps ids unique, and the id then finds its recipe carrying the new rating. */
  lemma ChangeRatingThenFind(store: seq<Recipe>, id: string, newRating: int)
    requires DistinctIds(store) && HasId(store, id)
    ensures DistinctIds(ChangeRating(store, id, newRating))
    ensures var f := Seqs.Find(ChangeRating(store, id, newRating), RecipeId, id);
            f.Some? && f.value.rating == newRating
  {
    var r := ChangeRating(store, id, newRating);
    assert forall i :: 0 <= i < |r| ==> RecipeId(r[i]) == RecipeId(store[i]);
    var k :| 0 <= k < |store| && store[k].id == id;
    assert RecipeId(r[k]) == id;
    Seqs.FindDistinct(r, RecipeId, k);
  }

  /** `recipes.find(r => r.id === selectedRecipeId) || null` */
  function SelectedRecipe(store: seq<Recipe>, selectedId: Option<string>): (r: Option<Recipe>)
    ensures r.Some? ==> r.value in store && selectedId == Some(r.value.id)
    ensures r.None? <==> selectedId.None? || !HasId(store, selectedId.value)
  {
    match selectedId
    case None => None
    case Some(id) => Seqs.Find(store, RecipeId, id)
  }

  // --------------------------------------------------------------- search

  /** The search predicate for an already lowered query. */
  function Matches(lq: string): Recipe -> bool {
    (r: Recipe) => Text.MatchesQuery(r.title, r.tags, lq)
  }

  /**
   * The listed recipes: all of them for an empty query, otherwise those
   * whose lowered title or some lowered tag contains the lowered query.
   */
  function FilteredRecipes(store: seq<Recipe>, q: string): (r: seq<Recipe>)
    ensures forall i :: 0 <= i < |r| ==> r[i] in store && Text.MatchesQuery(r[i].title, r[i].tags, Text.Lower(q))
    ensures forall i :: 0 <= i < |store| && Text.MatchesQuery(store[i].title, store[i].tags, Text.Lower(q)) ==> store[i] in r
  {
    Text.MatchesEmptyQueryAll();
    if q == "" then store else Seqs.Filter(store, Matches(Text.Lower(q)))
  }

  /** The empty-query shortcut only saves work: the list is the plain filter in every case, so store order is kept. */
  lemma FilteredIsPlainFilter(store: seq<Recipe>, q: string)
    ensures FilteredRecipes(store, q) == Seqs.Filter(store, Matches(Text.Lower(q)))
    ensures Seqs.IsSubseq(FilteredRecipes(store, q), store)
  {
    if q == "" {
      assert Text.Lower(q) == "";
      forall i | 0 <= i < |store| ensures Matches("")(store[i]) {
        Text.MatchesEmptyQuery(store[i].title, store[i].tags);
      }
      Seqs.FilterAll(store, Matches(""));
    }
    Seqs.FilterIsSubseq(store, Matches(Text.Lower(q)));
  }

  /** The search is case-insensitive in the query: a query and its lowered form list the same recipes. */
  lemma SearchIgnoresQueryCase(store: seq<Recipe>, q: string)
    ensures FilteredRecipes(store, q) == FilteredRecipes(store, Text.Lower(q))
  {
    Text.LowerIdempotent(q);
    FilteredIsPlainFilter(store, q);
    FilteredIsPlainFilter(store, Text.Lower(q));
  }

  // ----------------------------------------------------- plan and shopping

  /** An id counts as planned when a slot holds it and it is truthy (not `null`, not `''`). */
  ghost function PlannedIn(plan: WeeklyPlan, days: set<Day>): set<string> {
    set d, m | d in days && d in plan && m in plan[d] && plan[d][m].Some? && plan[d][m].value != "" :: plan[d][m].value
  }

  ghost function DayIdsIn(slots: map<Meal, Option<string>>, meals: set<Meal>): set<string> {
    set m | m in meals && m in slots && slots[m].Some? && slots[m].value != "" :: slots[m].value
  }

  /** The planned ids of the whole week: never the empty string, and every one held by some slot. */
  ghost function PlannedIdSet(plan: WeeklyPlan): (ids: set<string>)
    ensures "" !in ids
    ensures forall id :: id in ids ==> exists d, m :: d in plan && m in plan[d] && plan[d][m] == Some(id)
  {
    PlannedIn(plan, plan.Keys)
  }

  /** The planned ids are exactly the non-empty ids some slot holds. */
  lemma PlannedIdsAreTruthySlots(plan: WeeklyPlan, id: string)
    ensures id in PlannedIdSet(plan) <==> id != "" && exists d, m :: Plans.SlotValue(plan, d, m) == Some(id)
  {
    if id != "" && exists d, m :: Plans.SlotValue(plan, d, m) == Some(id) {
      var d, m :| Plans.SlotValue(plan, d, m) == Some(id);
      assert d in plan && m in plan[d] && plan[d][m] == Some(id);
    }
    if id in PlannedIdSet(plan) {
      var d, m :| d in plan && m in plan[d] && plan[d][m].Some? && plan[d][m].value != "" && plan[d][m].value == id;
      assert Plans.SlotValue(plan, d, m) == Some(id);
    }
  }

  lemma AddDay(plan: WeeklyPlan, done: set<Day>, d: Day)
    requires d in plan
    ensures PlannedIn(plan, done + {d}) == PlannedIn(plan, done) + DayIdsIn(plan[d], plan[d].Keys)
  {
    forall id | id in PlannedIn(plan, done + {d}) ensures id in PlannedIn(plan, done) + DayIdsIn(plan[d], plan[d].Keys) {
      var d', m :| d' in done + {d} && d' in plan && m in plan[d'] && plan[d'][m].Some? && plan[d'][m].value != "" && plan[d'][m].value == id;
      if d' != d {
        assert id in PlannedIn(plan, done);
      }
    }
  }

  /**
   * The nested `forEach` of `handleGenerateShoppingList`: every day of the
   * plan, every slot of that day, each truthy id added to a set.
   */
  method CollectPlannedIds(plan: WeeklyPlan) returns (ids: set<string>)
    ensures ids == PlannedIdSet(plan)
  {
    ids := {};
    var todo := plan.Keys;
    while todo != {}
      invariant todo <= plan.Keys
      invariant ids == PlannedIn(plan, plan.Keys - todo)
      decreases todo
    {
      var d :| d in todo;
      var slots := plan[d];
      var left := slots.Keys;
      while left != {}
        invariant left <= slots.Keys
        invariant ids == PlannedIn(plan, plan.Keys - todo) + DayIdsIn(slots, slots.Keys - left)
        decreases left
      {
        var m :| m in left;
        var v := slots[m];
        assert DayIdsIn(slots, slots.Keys - (left - {m})) ==
               DayIdsIn(slots, slots.Keys - left) + (if v.Some? && v.value != "" then {v.value} else {});
        if v.Some? && v.value != "" {
          ids := ids + {v.value};
        }
        left := left - {m};
      }
      AddDay(plan, plan.Keys - todo, d);
      assert plan.Keys - (todo - {d}) == (plan.Keys - todo) + {d};
      todo := todo - {d};
    }
  }

  /** What the shopping-list request does: alert and stop, or call the summariser on these recipes. */
  datatype ShoppingRequest = NothingPlanned | Summarize(recipes: seq<Recipe>)

  /** The recipes a request hands to the summariser: none when it stops. */
  function Sent(req: ShoppingRequest): seq<Recipe> {
    if req.Summarize? then req.recipes else []
  }

  /** Membership in an id set, as a filter predicate. */
  function InIds(ids: set<string>): Recipe -> bool {
    (r: Recipe) => r.id in ids
  }

  /** The stored recipes whose id is planned, in store order. */
  ghost function PlannedRecipes(plan: WeeklyPlan, store: seq<Recipe>): seq<Recipe> {
    Seqs.Filter(store, InIds(PlannedIdSet(plan)))
  }

  /**
   * The request as the source computes it: the guard looks at the id set
   * only. What it sends is still the planned stored recipes, but it may
   * send an empty list.
   */
  ghost function ShoppingRequestOf(plan: WeeklyPlan, store: seq<Recipe>): (req: ShoppingRequest)
    ensures Sent(req) == PlannedRecipes(plan, store)
    ensures req.NothingPlanned? <==> PlannedIdSet(plan) == {}
  {
    PlannedRecipesWitness(plan, store);
    if PlannedIdSet(plan) == {} then NothingPlanned else Summarize(PlannedRecipes(plan, store))
  }

  /** The request with the guard on the recipes found: stop whenever no stored recipe is planned. */
  ghost function GuardedShoppingRequest(plan: WeeklyPlan, store: seq<Recipe>): (req: ShoppingRequest)
    ensures req.Summarize? ==> req.recipes != []
    ensures Sent(req) == PlannedRecipes(plan, store)
  {
    var input := PlannedRecipes(plan, store);
    if input == [] then NothingPlanned else Summarize(input)
  }

  /**
   * `handleGenerateShoppingList` up to the call of the external summariser:
   * collect the planned ids and keep the stored recipes they name. It then
   * stops when that list is empty, which is the corrected guard described
   * under "Findings" in the README; the guard as written, on the id set, is
   * `ShoppingRequestOf`.
   */
  method GenerateShoppingList(plan: WeeklyPlan, store: seq<Recipe>) returns (req: ShoppingRequest)
    ensures req == GuardedShoppingRequest(plan, store)
  {
    var ids := CollectPlannedIds(plan);
    var input := Seqs.Filter(store, InIds(ids));
    if |input| == 0 {
      return NothingPlanned;
    }
    req := Summarize(input);
  }

  /** A non-empty shopping input witnesses a stored recipe whose id is planned. */
  lemma PlannedRecipesWitness(plan: WeeklyPlan, store: seq<Recipe>)
    ensures PlannedRecipes(plan, store) != [] ==> exists i :: 0 <= i < |store| && store[i].id in PlannedIdSet(plan)
  {
    var input := PlannedRecipes(plan, store);
    if input != [] {
      var x := input[0];
      assert x in store && InIds(PlannedIdSet(plan))(x);
      var k :| 0 <= k < |store| && store[k] == x;
      assert store[k].id in PlannedIdSet(plan);
    }
  }

  /**
   * The request stops exactly when no stored recipe is planned, in
   * particular when no slot is truthy.
   */
  lemma StopsIffNothingStoredPlanned(plan: WeeklyPlan, store: seq<Recipe>)
    ensures GuardedShoppingRequest(plan, store) == NothingPlanned <==>
            forall i :: 0 <= i < |store| ==> store[i].id !in PlannedIdSet(plan)
    ensures (forall d, m :: Plans.SlotValue(plan, d, m).None? || Plans.SlotValue(plan, d, m).value == "") ==>
            GuardedShoppingRequest(plan, store) == NothingPlanned
  {
    var ids := PlannedIdSet(plan);
    PlannedRecipesWitness(plan, store);
    if exists i :: 0 <= i < |store| && store[i].id in ids {
      var i :| 0 <= i < |store| && store[i].id in ids;
      assert store[i] in PlannedRecipes(plan, store);
    }
    if forall d, m :: Plans.SlotValue(plan, d, m).None? || Plans.SlotValue(plan, d, m).value == "" {
      forall i | 0 <= i < |store| ensures store[i].id !in ids {
        PlannedIdsAreTruthySlots(plan, store[i].id);
      }
    }
  }

  /**
   * The summariser gets exactly the stored recipes whose id is planned, in
   * store order, each once when ids are unique.
   */
  lemma ShoppingRequestSpec(plan: WeeklyPlan, store: seq<Recipe>)
    ensures var sent := Sent(GuardedShoppingRequest(plan, store));
            && (forall i :: 0 <= i < |sent| ==> sent[i] in store && sent[i].id in PlannedIdSet(plan))
            && (forall i :: 0 <= i < |store| && store[i].id in PlannedIdSet(plan) ==> store[i] in sent)
            && Seqs.IsSubseq(sent, store)
            && (DistinctIds(store) ==> DistinctIds(sent))
  {
    var ids := PlannedIdSet(plan);
    Seqs.FilterIsSubseq(store, InIds(ids));
    if DistinctIds(store) {
      Seqs.FilterDistinct(store, InIds(ids), RecipeId);
    }
  }

  /**
   * The summariser's input is what the planner board shows: given unique,
   * non-empty ids, a recipe is sent exactly when some slot resolves to it.
   */
  lemma ShoppingMatchesBoard(plan: WeeklyPlan, store: seq<Recipe>, r: Recipe)
    requires DistinctIds(store)
    requires forall i :: 0 <= i < |store| ==> store[i].id != ""
    ensures r in Sent(GuardedShoppingRequest(plan, store)) <==>
            exists d, m :: WeeklyPlanner.ResolveMeal(plan, store, d, m) == Some(r)
  {
    var ids := PlannedIdSet(plan);
    if r in PlannedRecipes(plan, store) {
      PlannedIdsAreTruthySlots(plan, r.id);
      var d, m :| Plans.SlotValue(plan, d, m) == Some(r.id);
      var k :| 0 <= k < |store| && store[k] == r;
      Seqs.FindDistinct(store, RecipeId, k);
      assert WeeklyPlanner.ResolveMeal(plan, store, d, m) == Some(r);
    }
    if exists d, m :: WeeklyPlanner.ResolveMeal(plan, store, d, m) == Some(r) {
      var d, m :| WeeklyPlanner.ResolveMeal(plan, store, d, m) == Some(r);
      PlannedIdsAreTruthySlots(plan, r.id);
      var k :| 0 <= k < |store| && store[k] == r;
      assert store[k].id in ids;
    }
  }

  /** Assigning a slot and then deleting that recipe leaves the slot dangling: it resolves to none. */
  lemma AssignThenDeleteResolvesNone(plan: WeeklyPlan, store: seq<Recipe>, d: Day, m: Meal, id: string)
    ensures WeeklyPlanner.ResolveMeal(Plans.Assign(plan, d, m, Some(id)), DeleteRecipe(store, id), d, m).None?
  {
    Plans.AssignSlotValue(plan, d, m, Some(id), d, m);
  }

  /** Assigning a slot to a recipe just saved makes the slot resolve to it, given unique ids. */
  lemma AssignThenResolveSaved(plan: WeeklyPlan, store: seq<Recipe>, d: Day, m: Meal, recipe: Recipe)
    requires DistinctIds(store)
    ensures WeeklyPlanner.ResolveMeal(Plans.Assign(plan, d, m, Some(recipe.id)), SaveRecipe(store, recipe), d, m) == Some(recipe)
  {
    SaveKeepsIdsDistinct(store, recipe);
    Plans.AssignThenResolve(plan, SaveRecipe(store, recipe), RecipeId, d, m, recipe.id, d, m);
  }

  /** The source's own guard stops exactly when no slot is truthy. */
  lemma AsWrittenGuard(plan: WeeklyPlan, store: seq<Recipe>)
    ensures ShoppingRequestOf(plan, store) == NothingPlanned <==>
            forall d, m :: Plans.SlotValue(plan, d, m).None? || Plans.SlotValue(plan, d, m).value == ""
  {
    var ids := PlannedIdSet(plan);
    if ids == {} {
      forall d, m ensures Plans.SlotValue(plan, d, m).None? || Plans.SlotValue(plan, d, m).value == "" {
        if Plans.SlotValue(plan, d, m).Some? {
          PlannedIdsAreTruthySlots(plan, Plans.SlotValue(plan, d, m).value);
        }
      }
    } else {
      var id :| id in ids;
      PlannedIdsAreTruthySlots(plan, id);
    }
  }

  /**
   * The source's guard looks at the id set, not at the recipes found for
   * it: a plan whose only id names no stored recipe still calls the
   * summariser, with an empty list.
   */
  lemma DanglingPlanCallsSummariser()
    ensures ShoppingRequestOf(map[Monday := map[Lunch := Some("item-404")]], []) == Summarize([])
  {
    var plan: WeeklyPlan := map[Monday := map[Lunch := Some("item-404")]];
    PlannedIdsAreTruthySlots(plan, "item-404");
    assert Plans.SlotValue(plan, Monday, Lunch) == Some("item-404");
  }

  /**
   * The guarded request differs from the source's exactly on plans whose
   * ids are all dangling: it agrees when no id is planned or some planned
   * id names a stored recipe.
   */
  lemma GuardedRequestAgrees(plan: WeeklyPlan, store: seq<Recipe>)
    ensures GuardedShoppingRequest(plan, store) == ShoppingRequestOf(plan, store) <==>
            PlannedIdSet(plan) == {} || exists i :: 0 <= i < |store| && store[i].id in PlannedIdSet(plan)
  {
    var ids := PlannedIdSet(plan);
    var input := PlannedRecipes(plan, store);
    PlannedRecipesWitness(plan, store);
    if exists i :: 0 <= i < |store| && store[i].id in ids {
      var i :| 0 <= i < |store| && store[i].id in ids;
      assert store[i] in input;
    }
  }
}
