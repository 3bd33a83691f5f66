/** The short / long planner board over the plan and the adventures store. */
module TourPlanner {
  import opened Wrappers
  import opened Types
  import Plans

  /** The slots of one day, in display order. */
  const RideOrder: seq<RideType> := [Short, Long]

  /** The adventure a slot shows: the first one whose id is the stored value; a missing, `null` or dangling id shows none. */
  function ResolveRide(plan: TourPlan, adventures: seq<Adventure>, day: Day, ride: RideType): (r: Option<Adventure>)
    ensures r.Some? ==> Plans.SlotValue(plan, day, ride) == Some(r.value.id)
    ensures r.Some? ==> exists k :: 0 <= k < |adventures| && adventures[k] == r.value && forall j :: 0 <= j < k ==> adventures[j].id != r.value.id
    ensures r.None? <==> Plans.SlotValue(plan, day, ride).None?
                         || forall k :: 0 <= k < |adventures| ==> adventures[k].id != Plans.SlotValue(plan, day, ride).value
  {
    Plans.ResolveSlot(plan, adventures, AdventureId, day, ride)
  }

  /** The board: seven columns Monday to Sunday, each with the short cell then the long cell. */
  function Board(plan: TourPlan, adventures: seq<Adventure>): (r: seq<Plans.Column<Adventure, RideType>>)
    ensures |r| == 7
    ensures forall i :: 0 <= i < 7 ==> r[i].day == Plans.WeekOrder[i] && |r[i].cells| == 2
    ensures forall i :: 0 <= i < 7 ==> r[i].cells[0].slot == Short && r[i].cells[1].slot == Long
    ensures forall i, j :: 0 <= i < 7 && 0 <= j < 2 ==>
              var v := r[i].cells[j].view;
              var x := ResolveRide(plan, adventures, r[i].day, r[i].cells[j].slot);
              && (v.Filled? <==> x.Some?)
              && (v.Filled? ==> v.item == x.value)
              && (v.Picker? ==> v.choices == Plans.Choices(adventures, AdventureId))
  {
    Plans.Board(plan, adventures, AdventureId, RideOrder)
  }

  /**
   * A click in one cell: the clear button (offered only while the cell
   * shows adventure) issues `update(day, ride, null)`; the picker (offered only
   * while it shows none) issues `update(day, ride, value)`.
   */
  function OnCellEvent(plan: TourPlan, adventures: seq<Adventure>, day: Day, ride: RideType, ev: Plans.SlotEvent): (u: Option<Plans.Update<RideType>>)
    ensures ev.ClearClicked? ==> (u.Some? <==> ResolveRide(plan, adventures, day, ride).Some?)
    ensures ev.Picked? ==> (u.Some? <==> ResolveRide(plan, adventures, day, ride).None?)
    ensures u.Some? ==> u.value == Plans.Update(day, ride, if ev.ClearClicked? then None else Some(ev.value))
  {
    Plans.OnSlotEvent(Plans.ViewSlot(plan, adventures, AdventureId, day, ride), day, ride, ev)
  }
}
