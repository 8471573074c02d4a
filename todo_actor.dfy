/**
 * The per-email todo actor (TodoActor/TodoActor.cs). One instance exists
 * per actor id. Its only state entry is named "Items" and holds the list
 * of items in insertion order; the actor also owns a registry of named
 * reminders.
 */
module TodoActors {
  import opened Wrappers
  import opened TodoItems

  /** Name of the actor's single state entry. */
  const ItemsStateName: string := "Items"

  /** Name of the reminder registered on activation. */
  const SendReminderEmail: string := "SendReminderEmail"

  /** `TimeSpan` values are kept as ticks (100 ns each). */
  const TicksPerSecond: int := 10_000_000

  /** `TimeSpan.FromSeconds(10)`. */
  const ReminderDueTime: int := 10 * TicksPerSecond

  /** `TimeSpan.FromHours(24)`. */
  const ReminderPeriod: int := 24 * 3600 * TicksPerSecond

  /** A registered reminder: its payload, first due time and period. */
  datatype Reminder = Reminder(state: seq<bv8>, dueTime: int, period: int)

  /** The reminder that activation registers. */
  const EmailReminder: Reminder := Reminder([], ReminderDueTime, ReminderPeriod)

  /**
   * The list an add-or-update of "Items" with `item` stores: `[item]` when
   * the entry is absent, the old list with `item` appended otherwise.
   */
  function Appended(current: Option<seq<TodoItem>>, item: TodoItem): (r: seq<TodoItem>)
    ensures |r| == |current.GetOr([])| + 1
    ensures r[..|r| - 1] == current.GetOr([])
    ensures r[|r| - 1] == item
  {
    match current
    case None => [item]
    case Some(list) => list + [item]
  }

  /** The list stored after adding each of `items` in order. */
  function AppendedAll(current: Option<seq<TodoItem>>, items: seq<TodoItem>): seq<TodoItem>
    decreases |items|
  {
    if items == [] then current.GetOr([])
    else AppendedAll(Some(Appended(current, items[0])), items[1..])
  }

  /**
   * Adding items one after another loses none of them and keeps their
   * order behind the items already stored.
   */
  lemma {:induction false} AppendedAllKeepsOrder(current: Option<seq<TodoItem>>, items: seq<TodoItem>)
    ensures AppendedAll(current, items) == current.GetOr([]) + items
    decreases |items|
  {
    if items != [] {
      var next := Appended(current, items[0]);
      AppendedAllKeepsOrder(Some(next), items[1..]);
      assert next == current.GetOr([]) + [items[0]];
      assert items == [items[0]] + items[1..];
    }
  }

  /** Registering under a name replaces any reminder of that name. */
  function Registered(reminders: map<string, Reminder>, name: string, r: Reminder): (m: map<string, Reminder>)
    ensures name in m && m[name] == r
    ensures m.Keys == reminders.Keys + {name}
    ensures forall n :: n in reminders && n != name ==> n in m && m[n] == reminders[n]
  {
    reminders[name := r]
  }

  /**
   * Registering the same reminder twice leaves the registry as one
   * registration does: one entry under that name.
   */
  lemma ReRegisterIdempotent(reminders: map<string, Reminder>, name: string, r: Reminder)
    ensures Registered(Registered(reminders, name, r), name, r) == Registered(reminders, name, r)
    ensures |Registered(reminders, name, r)| == |reminders| + (if name in reminders then 0 else 1)
  {
    var m := Registered(reminders, name, r);
    assert m[name := r] == m;
    if name in reminders {
      assert m.Keys == reminders.Keys;
    } else {
      assert m.Keys == reminders.Keys + {name};
      assert |m.Keys| == |reminders.Keys| + 1;
    }
  }

  class TodoActor {
    /** The actor id: the email the actor belongs to. */
    const id: string
    /** The "Items" state entry; `None` until something was stored. */
    var items: Option<seq<TodoItem>>
    /** Reminders registered by this actor, by name. */
    var reminders: map<string, Reminder>

    /** A newly created actor has no state entry and no reminders. */
    constructor (id: string)
      ensures this.id == id && items == None && reminders == map[]
    {
      this.id := id;
      items := None;
      reminders := map[];
    }

    /** Registers (or re-registers) a named reminder. */
    method RegisterReminder(name: string, state: seq<bv8>, dueTime: int, period: int)
      modifies this`reminders
      ensures reminders == Registered(old(reminders), name, Reminder(state, dueTime, period))
    {
      reminders := reminders[name := Reminder(state, dueTime, period)];
    }

    /** Activation registers the daily reminder, due in ten seconds, with an empty payload. */
    method OnActivate()
      modifies this`reminders
      ensures reminders == Registered(old(reminders), SendReminderEmail, EmailReminder)
      ensures SendReminderEmail in reminders
      ensures reminders[SendReminderEmail] == Reminder([], 10 * TicksPerSecond, 24 * 3600 * TicksPerSecond)
    {
      RegisterReminder(SendReminderEmail, [], ReminderDueTime, ReminderPeriod);
    }

    /** The reminder callback: nothing is done for any reminder name. */
    method ReceiveReminder(reminderName: string, state: seq<bv8>, dueTime: int, period: int)
      ensures items == old(items) && reminders == old(reminders)
    {
      match reminderName {
        case "SendReminderEmail" =>
        case _ =>
      }
    }

    /** The stored list, or `None` when "Items" was never stored; reads only. */
    method GetItems() returns (r: Option<seq<TodoItem>>)
      ensures r.None? <==> items.None?
      ensures r.Some? ==> r.value == items.value
    {
      r := if items.Some? then Some(items.value) else None;
    }

    /** Add-or-update of "Items": stores `[item]` or appends `item` in place; always true. */
    method AddItem(item: TodoItem) returns (ok: bool)
      modifies this`items
      ensures ok
      ensures items == Some(Appended(old(items), item))
      ensures items.Some? && |items.value| > 0 && items.value[|items.value| - 1] == item
    {
      if items.None? {
        items := Some([item]);
      } else {
        var list := items.value;
        list := list + [item];
        items := Some(list);
      }
      ok := true;
    }
  }
}
