/** The lunch / dinner planner board over the plan and the recipes store. */
module WeeklyPlanner {
  import opened Wrappers
  import opened Types
  import Plans

  /** The slots of one day, in display order. */
  const MealOrder: seq<Meal> := [Lunch, Dinner]

  /** The recipe a slot shows: the first one whose id is the stored value; a missing, `null` or dangling id shows none. */
  function ResolveMeal(plan: WeeklyPlan, recipes: seq<Recipe>, day: Day, meal: Meal): (r: Option<Recipe>)
    ensures r.Some? ==> Plans.SlotValue(plan, day, meal) == Some(r.value.id)
    ensures r.Some? ==> exists k :: 0 <= k < |recipes| && recipes[k] == r.value && forall j :: 0 <= j < k ==> recipes[j].id != r.value.id
    ensures r.None? <==> Plans.SlotValue(plan, day, meal).None?
                         || forall k :: 0 <= k < |recipes| ==> recipes[k].id != Plans.SlotValue(plan, day, meal).value
  {
    Plans.ResolveSlot(plan, recipes, RecipeId, day, meal)
  }

  /** The board: seven columns Monday to Sunday, each with the lunch cell then the dinner cell. */
  function Board(plan: WeeklyPlan, recipes: seq<Recipe>): (r: seq<Plans.Column<Recipe, Meal>>)
    ensures |r| == 7
    ensures forall i :: 0 <= i < 7 ==> r[i].day == Plans.WeekOrder[i] && |r[i].cells| == 2
    ensures forall i :: 0 <= i < 7 ==> r[i].cells[0].slot == Lunch && r[i].cells[1].slot == Dinner
    ensures forall i, j :: 0 <= i < 7 && 0 <= j < 2 ==>
              var v := r[i].cells[j].view;
              var x := ResolveMeal(plan, recipes, r[i].day, r[i].cells[j].slot);
              && (v.Filled? <==> x.Some?)
              && (v.Filled? ==> v.item == x.value)
              && (v.Picker? ==> v.choices == Plans.Choices(recipes, RecipeId))
  {
    Plans.Board(plan, recipes, RecipeId, MealOrder)
  }

  /**
   * A click in one cell: the clear button (offered only while the cell
   * shows recipe) issues `update(day, meal, null)`; the picker (offered only
   * while it shows none) issues `update(day, meal, value)`.
   */
  function OnCellEvent(plan: WeeklyPlan, recipes: seq<Recipe>, day: Day, meal: Meal, ev: Plans.SlotEvent): (u: Option<Plans.Update<Meal>>)
    ensures ev.ClearClicked? ==> (u.Some? <==> ResolveMeal(plan, recipes, day, meal).Some?)
    ensures ev.Picked? ==> (u.Some? <==> ResolveMeal(plan, recipes, day, meal).None?)
    ensures u.Some? ==> u.value == Plans.Update(day, meal, if ev.ClearClicked? then None else Some(ev.value))
  {
    Plans.OnSlotEvent(Plans.ViewSlot(plan, recipes, RecipeId, day, meal), day, meal, ev)
  }
}
