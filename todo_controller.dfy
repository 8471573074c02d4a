/**
 * The web facade (TodoWebApi/Controllers/TodoController.cs) together with
 * the email-keyed actor directory that `ActorProxy.Create` resolves
 * against. The clock read `DateTime.Now` is a parameter.
 */
module TodoControllers {
  import opened Wrappers
  import opened TodoItems
  import opened TodoActors

  /** The item shape the web API returns (the controller's own `TodoItem`). */
  datatype ApiItem = ApiItem(
    description: string,
    dateAdded: int,
    dateFinished: int,
    finished: bool)

  /** The HTTP results the controller produces. */
  datatype Response = Ok(items: seq<ApiItem>) | NotFound | OkEmpty

  /** The field-by-field copy made for each returned item. */
  function ToApiItem(item: TodoItem): (a: ApiItem)
    ensures a.description == item.description && a.dateAdded == item.dateAdded
    ensures a.dateFinished == item.dateFinished && a.finished == item.finished
  {
    ApiItem(item.description, item.dateAdded, item.dateFinished, item.finished)
  }

  /** The inverse of `ToApiItem`, used to state that the copy loses nothing. */
  function FromApiItem(a: ApiItem): TodoItem {
    TodoItem(a.description, a.dateAdded, a.dateFinished, a.finished)
  }

  /** The `Select` projection over the actor's list. */
  function ToApiItems(list: seq<TodoItem>): (r: seq<ApiItem>)
    ensures |r| == |list|
  {
    if list == [] then [] else [ToApiItem(list[0])] + ToApiItems(list[1..])
  }

  function FromApiItems(items: seq<ApiItem>): seq<TodoItem> {
    if items == [] then [] else [FromApiItem(items[0])] + FromApiItems(items[1..])
  }

  /** Each projected item is the copy of the item at the same position. */
  lemma {:induction false} ToApiItemsAt(list: seq<TodoItem>, i: int)
    requires 0 <= i < |list|
    ensures ToApiItems(list)[i] == ToApiItem(list[i])
  {
    if i > 0 {
      ToApiItemsAt(list[1..], i - 1);
    }
  }

  /** Projecting and mapping back gives the actor's list again. */
  lemma {:induction false} ToApiItemsRoundTrip(list: seq<TodoItem>)
    ensures FromApiItems(ToApiItems(list)) == list
  {
    if list != [] {
      ToApiItemsRoundTrip(list[1..]);
      assert list == [list[0]] + list[1..];
    }
  }

  /**
   * The response `GetList` builds from the actor's answer: `NotFound` for a
   * missing list, otherwise `Ok` with the projected items in the same order.
   */
  function ListResponse(list: Option<seq<TodoItem>>): (r: Response)
    ensures r.NotFound? <==> list.None?
    ensures list.Some? ==> r.Ok? && |r.items| == |list.value|
  {
    match list
    case None => NotFound
    case Some(l) => Ok(ToApiItems(l))
  }

  /** A found list comes back item for item, each field unchanged. */
  lemma ListResponseCopiesFields(list: seq<TodoItem>, i: int)
    requires 0 <= i < |list|
    ensures ListResponse(Some(list)).Ok?
    ensures var a := ListResponse(Some(list)).items[i];
      a.description == list[i].description && a.dateAdded == list[i].dateAdded &&
      a.dateFinished == list[i].dateFinished && a.finished == list[i].finished
  {
    ToApiItemsAt(list, i);
  }

  lemma TwoItemsListed(item1: TodoItem, item2: TodoItem)
    ensures ListResponse(Some([item1, item2])) == Ok([ToApiItem(item1), ToApiItem(item2)])
  {
    ToApiItemsAt([item1, item2], 0);
    ToApiItemsAt([item1, item2], 1);
  }

  /** `GetList` distinguishes lists exactly: nothing of the stored list is lost. */
  lemma ListResponseInjective(l1: Option<seq<TodoItem>>, l2: Option<seq<TodoItem>>)
    requires ListResponse(l1) == ListResponse(l2)
    ensures l1 == l2
  {
    if l1.Some? {
      ToApiItemsRoundTrip(l1.value);
      ToApiItemsRoundTrip(l2.value);
    }
  }

  /** The item `AddItem` builds from a request: unfinished, added `now`. */
  function NewItem(description: string, now: int): (item: TodoItem)
    ensures item.description == description && item.dateAdded == now
    ensures item.dateFinished == MinValue && !item.finished
  {
    TodoItem(description, now, MinValue, false)
  }

  /**
   * The actors in existence, one per actor id. Resolving an email that has
   * no actor yet creates and activates one.
   */
  class ActorDirectory {
    var actors: map<string, TodoActor>

    ghost predicate Valid()
      reads this, actors.Values
    {
      (forall e :: e in actors ==> actors[e].id == e) &&
      (forall e :: e in actors ==>
        SendReminderEmail in actors[e].reminders && actors[e].reminders[SendReminderEmail] == EmailReminder)
    }

    /** The "Items" entry of the actor for `email`; `None` while there is no actor. */
    ghost function ItemsOf(email: string): Option<seq<TodoItem>>
      reads this, actors.Values
    {
      if email in actors then actors[email].items else None
    }

    constructor ()
      ensures Valid() && actors == map[]
    {
      actors := map[];
    }

    /** `GetTodoActorProxy`: the actor whose id is `email`, activated on first use. */
    method Proxy(email: string) returns (a: TodoActor)
      requires Valid()
      modifies this
      ensures Valid()
      ensures email in actors && a == actors[email] && a.id == email
      ensures old(email in actors) ==> actors == old(actors)
      ensures !old(email in actors) ==> fresh(a) && actors == old(actors)[email := a]
      ensures forall e :: ItemsOf(e) == old(ItemsOf(e))
      ensures fresh(actors.Values - old(actors.Values))
    {
      if email in actors {
        a := actors[email];
      } else {
        a := new TodoActor(email);
        a.OnActivate();
        actors := actors[email := a];
      }
    }
  }

  /** `GetList`: the items of the actor for `email`, or `NotFound`. */
  method GetList(directory: ActorDirectory, email: string) returns (r: Response)
    requires directory.Valid()
    modifies directory
    ensures directory.Valid()
    ensures r == ListResponse(old(directory.ItemsOf(email)))
    ensures forall e :: directory.ItemsOf(e) == old(directory.ItemsOf(e))
    ensures directory.actors.Keys == old(directory.actors.Keys) + {email}
    ensures forall e :: e in old(directory.actors) ==> directory.actors[e] == old(directory.actors[e])
    ensures forall e :: e in old(directory.actors) ==>
      directory.actors[e].reminders == old(directory.actors[e].reminders)
    ensures fresh(directory.actors.Values - old(directory.actors.Values))
  {
    var actor := directory.Proxy(email);
    var list := actor.GetItems();
    r := ListResponse(list);
  }

  /**
   * `AddItem`: forwards a fresh item to the actor for `email` and answers
   * `Ok`. The lists of all other emails stay as they were.
   */
  method AddItem(directory: ActorDirectory, email: string, description: string, now: int)
    returns (r: Response)
    requires directory.Valid()
    modifies directory, directory.actors.Values
    ensures directory.Valid()
    ensures r == OkEmpty
    ensures directory.ItemsOf(email) == Some(Appended(old(directory.ItemsOf(email)), NewItem(description, now)))
    ensures forall e :: e != email ==> directory.ItemsOf(e) == old(directory.ItemsOf(e))
    ensures directory.actors.Keys == old(directory.actors.Keys) + {email}
    ensures forall e :: e in old(directory.actors) ==> directory.actors[e] == old(directory.actors[e])
    ensures forall e :: e in old(directory.actors) ==>
      directory.actors[e].reminders == old(directory.actors[e].reminders)
    ensures fresh(directory.actors.Values - old(directory.actors.Values))
  {
    var actor := directory.Proxy(email);
    var _ := actor.AddItem(NewItem(description, now));
    r := OkEmpty;
  }

  /**
   * Two items added for one email come back in order and unfinished; an
   * email nobody used has no list.
   */
  method EndToEnd(now1: int, now2: int) returns (found: Response, missing: Response)
    ensures found == Ok([ApiItem("task1", now1, MinValue, false), ApiItem("task2", now2, MinValue, false)])
    ensures missing == NotFound
  {
    var directory := new ActorDirectory();
    var item1, item2 := NewItem("task1", now1), NewItem("task2", now2);
    assert directory.ItemsOf("a@x.com") == None && directory.ItemsOf("b@x.com") == None;
    var ok1 := AddItem(directory, "a@x.com", "task1", now1);
    assert directory.ItemsOf("a@x.com") == Some([item1]);
    var ok2 := AddItem(directory, "a@x.com", "task2", now2);
    assert directory.ItemsOf("a@x.com") == Some([item1] + [item2]);
    assert [item1] + [item2] == [item1, item2];
    found := GetList(directory, "a@x.com");
    missing := GetList(directory, "b@x.com");
    TwoItemsListed(item1, item2);
  }
}
