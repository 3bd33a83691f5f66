/**
 * The week plan shared by both applications: a sparse day-by-slot table of
 * item ids, the functional updater that assigns one slot, and the planner
 * board that resolves every slot against the item store. The recipe planner
 * instantiates the slots with `Meal`, the tour planner with `RideType`.
 */
module Plans {
  import opened Wrappers
  import opened Types
  import Seqs

  /** `Object.keys(DAYS)`: the order both planners lay the week out in. */
  const WeekOrder: seq<Day> := [Monday, Tuesday, Wednesday, Thursday, Friday, Saturday, Sunday]

  /** The week order lists every day exactly once, starting on Monday. */
  lemma WeekOrderEnumeratesDays()
    ensures |WeekOrder| == 7 && WeekOrder[0] == Monday && WeekOrder[6] == Sunday
    ensures forall d: Day :: d in WeekOrder
    ensures forall i, j :: 0 <= i < j < |WeekOrder| ==> WeekOrder[i] != WeekOrder[j]
  {
    forall d: Day ensures d in WeekOrder {
      match d
      case Monday => assert WeekOrder[0] == d;
      case Tuesday => assert WeekOrder[1] == d;
      case Wednesday => assert WeekOrder[2] == d;
      case Thursday => assert WeekOrder[3] == d;
      case Friday => assert WeekOrder[4] == d;
      case Saturday => assert WeekOrder[5] == d;
      case Sunday => assert WeekOrder[6] == d;
    }
  }

  /** `plan[day]?.[slot]`: a missing day, a missing slot and `null` all read as `None`. */
  function SlotValue<S>(plan: Plan<S>, day: Day, slot: S): Option<string> {
    if day in plan && slot in plan[day] then plan[day][slot] else None
  }

  /**
   * `{ ...prev, [day]: { ...(prev[day] || {}), [slot]: id } }`: exactly the
   * one slot changes; every other day, and every other slot of `day`
   * (present or missing), stays as it was.
   */
  function Assign<S(!new)>(plan: Plan<S>, day: Day, slot: S, id: Option<string>): (r: Plan<S>)
    ensures r.Keys == plan.Keys + {day}
    ensures slot in r[day] && r[day][slot] == id
    ensures forall d :: d in plan && d != day ==> r[d] == plan[d]
    ensures forall s :: s != slot ==> (s in r[day] <==> day in plan && s in plan[day])
    ensures forall s :: s != slot && s in r[day] ==> r[day][s] == plan[day][s]
  {
    plan[day := (if day in plan then plan[day] else map[])[slot := id]]
  }

  /** Read through `SlotValue`, an assignment changes that one slot and no other. */
  lemma AssignSlotValue<S(!new)>(plan: Plan<S>, day: Day, slot: S, id: Option<string>, d: Day, s: S)
    ensures SlotValue(Assign(plan, day, slot, id), d, s) ==
            if d == day && s == slot then id else SlotValue(plan, d, s)
  {
  }

  /**
   * The item a slot shows: the first item whose key equals the stored id.
   * An empty slot, and an id no item has (a dangling reference), show none.
   */
  function ResolveSlot<T, S>(plan: Plan<S>, store: seq<T>, key: T -> string, day: Day, slot: S): (r: Option<T>)
    ensures r.Some? ==> r.value in store && SlotValue(plan, day, slot) == Some(key(r.value))
    ensures r.None? <==> SlotValue(plan, day, slot).None?
                         || forall i :: 0 <= i < |store| ==> key(store[i]) != SlotValue(plan, day, slot).value
  {
    match SlotValue(plan, day, slot)
    case None => None
    case Some(id) => Seqs.Find(store, key, id)
  }

  /** The ids offered by the picker, in store order. */
  function Choices<T>(store: seq<T>, key: T -> string): (r: seq<string>)
    ensures |r| == |store| && forall i :: 0 <= i < |store| ==> r[i] == key(store[i])
  {
    seq(|store|, i requires 0 <= i < |store| => key(store[i]))
  }

  /** A slot on the board shows its item with a clear button, or else the picker. */
  datatype SlotView<T> = Filled(item: T) | Picker(choices: seq<string>)

  function ViewSlot<T, S>(plan: Plan<S>, store: seq<T>, key: T -> string, day: Day, slot: S): SlotView<T> {
    match ResolveSlot(plan, store, key, day, slot)
    case Some(x) => Filled(x)
    case None => Picker(Choices(store, key))
  }

  datatype Cell<T, S> = Cell(slot: S, view: SlotView<T>)

  datatype Column<T, S> = Column(day: Day, cells: seq<Cell<T, S>>)

  /** The planner grid: one column per day in week order, one cell per slot in `slotOrder`. */
  function Board<T, S>(plan: Plan<S>, store: seq<T>, key: T -> string, slotOrder: seq<S>): seq<Column<T, S>> {
    seq(|WeekOrder|, i requires 0 <= i < |WeekOrder| =>
      Column(WeekOrder[i], seq(|slotOrder|, j requires 0 <= j < |slotOrder| =>
        Cell(slotOrder[j], ViewSlot(plan, store, key, WeekOrder[i], slotOrder[j])))))
  }

  /** What a user can do to one cell: press its clear button or pick an id. */
  datatype SlotEvent = ClearClicked | Picked(value: string)

  /** A call of the plan updater `update(day, slot, id)`. */
  datatype Update<S> = Update(day: Day, slot: S, id: Option<string>)

  /**
   * The clear button exists only on a filled cell and issues
   * `update(day, slot, null)`; the picker exists only on an empty cell and
   * issues `update(day, slot, value)`.
   */
  function OnSlotEvent<T, S>(view: SlotView<T>, day: Day, slot: S, ev: SlotEvent): (u: Option<Update<S>>)
    ensures u.Some? ==> u.value.day == day && u.value.slot == slot
    ensures ev.ClearClicked? ==> (u.Some? <==> view.Filled?) && (u.Some? ==> u.value.id == None)
    ensures ev.Picked? ==> (u.Some? <==> view.Picker?) && (u.Some? ==> u.value.id == Some(ev.value))
  {
    match ev
    case ClearClicked => if view.Filled? then Some(Update(day, slot, None)) else None
    case Picked(v) => if view.Picker? then Some(Update(day, slot, Some(v))) else None
  }

  function Apply<S(!new)>(plan: Plan<S>, u: Update<S>): Plan<S> {
    Assign(plan, u.day, u.slot, u.id)
  }

  /** Assigning an id and resolving that slot looks the id up in the store; other slots resolve as before. */
  lemma AssignThenResolve<T, S(!new)>(plan: Plan<S>, store: seq<T>, key: T -> string, day: Day, slot: S, id: string, d: Day, s: S)
    ensures ResolveSlot(Assign(plan, day, slot, Some(id)), store, key, day, slot) == Seqs.Find(store, key, id)
    ensures (d != day || s != slot) ==>
            ResolveSlot(Assign(plan, day, slot, Some(id)), store, key, d, s) == ResolveSlot(plan, store, key, d, s)
  {
    AssignSlotValue(plan, day, slot, Some(id), day, slot);
    AssignSlotValue(plan, day, slot, Some(id), d, s);
  }

  /** Clearing a filled cell turns it back into the picker and leaves every other cell as it was. */
  lemma ClearShowsPicker<T, S(!new)>(plan: Plan<S>, store: seq<T>, key: T -> string, day: Day, slot: S, d: Day, s: S)
    requires ViewSlot(plan, store, key, day, slot).Filled?
    ensures var u := OnSlotEvent(ViewSlot(plan, store, key, day, slot), day, slot, ClearClicked);
            && u.Some?
            && ViewSlot(Apply(plan, u.value), store, key, day, slot) == Picker(Choices(store, key))
            && ((d != day || s != slot) ==>
                ViewSlot(Apply(plan, u.value), store, key, d, s) == ViewSlot(plan, store, key, d, s))
  {
    AssignSlotValue(plan, day, slot, None, day, slot);
    AssignSlotValue(plan, day, slot, None, d, s);
  }

  /** Picking the id of a stored item on an empty cell makes the cell show that item, given unique ids. */
  lemma PickShowsItem<T, S(!new)>(plan: Plan<S>, store: seq<T>, key: T -> string, day: Day, slot: S, k: int)
    requires Seqs.DistinctBy(store, key) && 0 <= k < |store|
    requires ViewSlot(plan, store, key, day, slot).Picker?
    ensures var u := OnSlotEvent(ViewSlot(plan, store, key, day, slot), day, slot, Picked(key(store[k])));
            && u.Some?
            && ViewSlot(Apply(plan, u.value), store, key, day, slot) == Filled(store[k])
  {
    AssignSlotValue(plan, day, slot, Some(key(store[k])), day, slot);
    Seqs.FindDistinct(store, key, k);
  }

  /** The reset plan `{}` shows the picker in every cell. */
  lemma ResetShowsPickers<T, S>(store: seq<T>, key: T -> string, d: Day, s: S)
    ensures ViewSlot(map[], store, key, d, s) == Picker(Choices(store, key))
  {
  }
}
