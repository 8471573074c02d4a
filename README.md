# Todo lists per email: actor, web facade and validation schema filter

A Dafny model of the core of a Service Fabric todo-list application.

- **The todo actor** (`TodoActor/TodoActor.cs`). There is one actor per email.
  Each actor keeps one optional state entry, "Items". It holds the items in
  insertion order. `GetItems` reads the entry. `AddItem` does an add-or-update:
  it stores `[item]` when the entry is absent and appends to the list otherwise.
  On activation the actor registers the "SendReminderEmail" reminder: due in
  10 s, repeating every 24 h, with an empty payload. The reminder callback does
  nothing. The model is the class `TodoActors.TodoActor`. Its `items` field is
  `Option<seq<TodoItem>>`, where `None` stands for the absent entry, and its
  `reminders` field is a map from name to reminder.
- **The web facade** (`TodoWebApi/Controllers/TodoController.cs`). `GetList`
  turns a missing list into `NotFound`. Otherwise it answers `Ok` with a
  field-by-field copy of every item. `AddItem` builds an unfinished item that
  is dated now and sends it to the email's actor. `ActorProxy.Create(new
  ActorId(email))` is modelled by `ActorDirectory.Proxy`. It resolves an email
  to the one actor with that id, and creates and activates that actor on
  first use. The clock read `DateTime.Now` is passed in as a parameter.
- **The validation-to-schema filter**
  (`TodoWebApi/Infrastructure/AddFluentValidationRules.cs`). It walks the
  schema's property keys in dictionary order and each key's validators. It
  rebuilds `required` and writes length, pattern and numeric-bound constraints
  into the property schemas. `Int32.TryParse` is modelled concretely in
  `Int32Text`. The accepted form is optional white space around an optional
  sign and decimal digits, within the 32-bit range.
- `DateTime` and `TimeSpan` values are tick counts. `DateTime.MinValue` is 0.

Two points about activation:
- Listing an email that was never used still has an effect. The `GetItems`
  call made for it activates that email's actor, and activation registers
  the actor's reminder. `GetList` therefore leaves every list unchanged but
  can add an actor and its reminder.
- Every activation registers the reminder again. Registration replaces the
  reminder of that name, so the registry ends up the same
  (`ReRegisterIdempotent`).

## Model

| member | source | states |
|---|---|---|
| `TodoActors.Appended` | TodoActor/TodoActor.cs:76-80 | the stored list after an add-or-update is the old list (empty if the entry is absent) with the item appended last: length plus one, earlier items unchanged and in order |
| `TodoActors.AppendedAllKeepsOrder` | TodoActor/TodoActor.cs:74-82 | adding items one after another loses none of them: the list becomes the old list followed by the added items in the order they were added |
| `TodoActors.Registered` | TodoActor/TodoActor.cs:52-54 | registering a reminder puts it under its name, adds only that name, and leaves every other reminder as it was |
| `TodoActors.ReRegisterIdempotent` | TodoActor/TodoActor.cs:52-54 | registering the same reminder twice gives the same registry as registering it once; the registry grows by at most one entry |
| `TodoActors.TodoActor.constructor` | TodoActor/TodoActor.cs:34-37 | a new actor has its id, no "Items" entry and no reminders |
| `TodoActors.TodoActor.RegisterReminder` | TodoActor/TodoActor.cs:52-54 | the registry afterwards is the old one with the named reminder replaced or added |
| `TodoActors.TodoActor.OnActivate` | TodoActor/TodoActor.cs:43-55 | activation registers "SendReminderEmail" with an empty payload, due in 10 s, period 24 h; the items are untouched |
| `TodoActors.TodoActor.ReceiveReminder` | TodoActor/TodoActor.cs:57-65 | receiving any reminder leaves the items and the reminders unchanged |
| `TodoActors.TodoActor.GetItems` | TodoActor/TodoActor.cs:67-72 | the result is absent exactly when "Items" was never stored, and is the stored list otherwise; nothing changes |
| `TodoActors.TodoActor.AddItem` | TodoActor/TodoActor.cs:74-82 | returns true; the entry becomes `[item]` if it was absent and the old list with `item` appended otherwise, so afterwards the entry is present and ends with `item` |
| `TodoControllers.ToApiItem` | TodoWebApi/Controllers/TodoController.cs:40-46 | the returned item has the same description, dates and finished flag |
| `TodoControllers.ToApiItems` | TodoWebApi/Controllers/TodoController.cs:40-46 | the projection has as many items as the list |
| `TodoControllers.ToApiItemsAt` | TodoWebApi/Controllers/TodoController.cs:40-46 | the projected item at each position is the copy of the item at that position, so the order is kept |
| `TodoControllers.ToApiItemsRoundTrip` | TodoWebApi/Controllers/TodoController.cs:40-46 | mapping the projected items back gives the actor's list again: the copy loses nothing |
| `TodoControllers.ListResponse` | TodoWebApi/Controllers/TodoController.cs:38-47 | the response is `NotFound` exactly when the list is absent, and `Ok` with one item per stored item otherwise |
| `TodoControllers.ListResponseCopiesFields` | TodoWebApi/Controllers/TodoController.cs:40-46 | for a found list, the i-th returned item carries the four fields of the i-th stored item |
| `TodoControllers.TwoItemsListed` | TodoWebApi/Controllers/TodoController.cs:38-47 | a stored two-item list is returned as the copies of those two items, in order |
| `TodoControllers.ListResponseInjective` | TodoWebApi/Controllers/TodoController.cs:38-47 | two lists that give the same response are equal: absent and empty are told apart, and so are lists that differ in any item |
| `TodoControllers.NewItem` | TodoWebApi/Controllers/TodoController.cs:63-69 | a new item has the request's description, is added now, is not finished and has `DateFinished = MinValue` |
| `TodoControllers.ActorDirectory.Proxy` | TodoWebApi/Controllers/TodoController.cs:73-76 | the actor returned has the email as its id and is the one actor kept for that email; a new actor is created and activated only on first use; no list changes; every actor in the directory holds the "SendReminderEmail" reminder with its 10 s / 24 h schedule |
| `TodoControllers.GetList` | TodoWebApi/Controllers/TodoController.cs:34-47 | the response is `ListResponse` of the email's current list; no email's list changes; the only actor that can be added is the one for `email`; every existing actor stays in place with its reminders unchanged; every actor keeps its daily reminder |
| `TodoControllers.AddItem` | TodoWebApi/Controllers/TodoController.cs:59-71 | answers `Ok`; the email's list gets the new item appended (or becomes `[item]`); every other email's list is unchanged; the only actor that can be added is the one for `email`; every existing actor stays in place with its reminders unchanged; every actor keeps its daily reminder |
| `TodoControllers.EndToEnd` | TodoWebApi/Controllers/TodoController.cs:34-71 | after adding "task1" and then "task2" for one email, listing it returns both in that order, unfinished; listing an untouched email returns `NotFound` |
| `Int32Text.TryParseInt32` | TodoWebApi/Infrastructure/AddFluentValidationRules.cs:85 | a successful parse yields a value within the 32-bit range |
| `Int32Text.FormatInt` | TodoWebApi/Infrastructure/AddFluentValidationRules.cs:85 | an integer's text is non-empty, starts with a minus sign or a digit and ends with a digit |
| `Int32Text.FormatParseRoundTrip` | TodoWebApi/Infrastructure/AddFluentValidationRules.cs:85 | the text of every 32-bit integer parses back to that integer |
| `Int32Text.FormatOutOfRangeRejected` | TodoWebApi/Infrastructure/AddFluentValidationRules.cs:85 | the text of an integer outside the 32-bit range does not parse |
| `Int32Text.NoDigitsRejected` | TodoWebApi/Infrastructure/AddFluentValidationRules.cs:85 | text containing no decimal digit does not parse |
| `FluentValidationRules.RuleValue` | TodoWebApi/Infrastructure/AddFluentValidationRules.cs:77-90 | a rule yields a number only for a validator of its own kind, and that number is a 32-bit integer |
| `FluentValidationRules.IntegerValueApplied` | TodoWebApi/Infrastructure/AddFluentValidationRules.cs:77-90 | a comparison value that prints as a 32-bit integer reaches the rule's action unchanged |
| `FluentValidationRules.UnparsableValueIgnored` | TodoWebApi/Infrastructure/AddFluentValidationRules.cs:77-90 | a comparison validator whose value is null or does not parse leaves the property unchanged |
| `FluentValidationRules.OutOfRangeValueIgnored` | TodoWebApi/Infrastructure/AddFluentValidationRules.cs:77-90 | a comparison value outside the 32-bit range leaves the property unchanged |
| `FluentValidationRules.RequiredForIsKey` | TodoWebApi/Infrastructure/AddFluentValidationRules.cs:32-35 | every `required` entry a member contributes is that member's key |
| `FluentValidationRules.RequiredKeysArePropertyKeys` | TodoWebApi/Infrastructure/AddFluentValidationRules.cs:24-35 | every entry of the rebuilt `required` list is a schema property key |
| `FluentValidationRules.RequiredForCount` | TodoWebApi/Infrastructure/AddFluentValidationRules.cs:32-35 | a member contributes its key once per NotEmpty validator and no other key |
| `FluentValidationRules.RequiredKeysCount` | TodoWebApi/Infrastructure/AddFluentValidationRules.cs:24-35 | after `Apply`, `required` holds each property key exactly once per NotEmpty validator on it, and nothing else |
| `FluentValidationRules.RequiredKeysInKeyOrder` | TodoWebApi/Infrastructure/AddFluentValidationRules.cs:28-35 | `required` follows property-key order: no entry for a later key comes before an entry for an earlier key |
| `FluentValidationRules.ApplyProperties` | TodoWebApi/Infrastructure/AddFluentValidationRules.cs:28-74 | processing the keys keeps the set of property keys |
| `FluentValidationRules.ApplyPropertiesAt` | TodoWebApi/Infrastructure/AddFluentValidationRules.cs:28-74 | each property ends up changed by its own validators only, in their order; properties not processed are unchanged |
| `FluentValidationRules.EmptyValidatorClearsRequired` | TodoWebApi/Infrastructure/AddFluentValidationRules.cs:24-30 | a validator with no rules still empties `required` and changes no property |
| `FluentValidationRules.FieldsDetermine` | TodoWebApi/Infrastructure/AddFluentValidationRules.cs:37-72 | the seven constraint fields determine a property schema, so the per-field statements below describe the whole effect |
| `FluentValidationRules.BoundByField` | TodoWebApi/Infrastructure/AddFluentValidationRules.cs:53-72 | a comparison rule's action writes the bound (minimum for GreaterThanOrEqual/GreaterThan, maximum for LessThanOrEqual/LessThan) and its exclusive flag, and no other field |
| `FluentValidationRules.ApplyValidatorByField` | TodoWebApi/Infrastructure/AddFluentValidationRules.cs:37-72 | one validator writes exactly the fields of its table row: Length sets maxLength/minLength only when positive; Regex sets pattern; GreaterThanOrEqual/GreaterThan set minimum with exclusiveMinimum false/true; LessThanOrEqual/LessThan do the same for maximum and exclusiveMaximum, and only for a parsable value; every other field keeps its value |
| `FluentValidationRules.LastAssignmentWins` | TodoWebApi/Infrastructure/AddFluentValidationRules.cs:30-73 | when several validators write a field, the field ends with the value of the last one processed |
| `FluentValidationRules.UnassignedFieldKept` | TodoWebApi/Infrastructure/AddFluentValidationRules.cs:30-73 | a field no validator writes keeps its value |
| `FluentValidationRules.Schema.AddRule` | TodoWebApi/Infrastructure/AddFluentValidationRules.cs:77-90 | the guard is the function `RuleValue`, the action the function `Bound`, and one call the function `ApplyRule`; only the processed key's property changes, and only when the guard yields a number; it then gets that bound |
| `FluentValidationRules.Schema.ApplyPropertyValidator` | TodoWebApi/Infrastructure/AddFluentValidationRules.cs:32-72 | specified by the function `ApplyValidator`, which makes the same checks in the same order; one validator appends the key to `required` if it is NotEmpty and updates only `properties[key]` |
| `FluentValidationRules.Schema.ApplyMemberValidators` | TodoWebApi/Infrastructure/AddFluentValidationRules.cs:30-73 | specified by the functions `ApplyValidators` (the validators in order) and `RequiredFor`; the inner loop appends the member's `required` entries and applies its validators in order to `properties[key]` alone |
| `FluentValidationRules.Schema.Apply` | TodoWebApi/Infrastructure/AddFluentValidationRules.cs:15-75 | specified by the functions `RequiredKeys` and `ApplyProperties`; without a validator the schema is unchanged; with one, `required` is rebuilt from empty over the keys in order and the properties become `ApplyProperties` of the old ones; the keys are kept |

## Left out

- Service Fabric runtime: deactivation and reactivation, turn-based concurrency per actor, replication, persistence to disk and proxy remoting. The model runs one sequential actor per email, held in `ActorDirectory`. An actor is activated once, when it is first resolved.
- `TodoControllers.ActorDirectory.Proxy` activates an actor when the email is first resolved. In the source, activation happens on the first method call to the actor. `GetList` and `AddItem` always make that call right after resolving, so only the moment of activation differs.
- `TodoControllers.AddItem` and `TodoControllers.GetList` do not model null inputs. Their strings are never null, and there is no error path for them. Not modelled: a POST without a body, where `request` is null and reading `request.Description` throws before the actor is called. Also not modelled: a null `Description`, which the source stores and lists back as null. Also not modelled: a null `email` from a missing query parameter. `TodoItems.TodoItem.description` is likewise never null.
- Reminder firing: the due time, the period and at-least-once delivery are timers in the framework. The model only records the registration. The callback body is empty.
- `async`/`Task` and `CancellationToken`: the token is only passed through. Storage and activation failures belong to the framework and are not modelled.
- `DateTime.Now` is a clock read and is a parameter of `AddItem`.
- `ActorEventSource` logging on activation.
- `GetValidator` (AddFluentValidationRules.cs:92-103) uses reflection and `Activator.CreateInstance`. `Apply` takes its result as an optional `ValidatorDescriptor` instead.
- `Int32.TryParse` is modelled with ASCII signs, the six white-space characters of `NumberStyles.Integer` and decimal digits. Culture-specific signs and trailing NUL characters are not modelled.
- A comparison value is modelled as the text its `ToString()` produces. The formatting of non-integer objects (doubles, dates) is not modelled.
- `FluentValidationRules.Schema.Apply`: `schema.required` is a sequence, so a null `required` and an empty one are not told apart.
- `FluentValidationRules.Schema.Apply`: a null `properties` dictionary, which would throw in the source, is not modelled.
- `FluentValidationRules.Schema.Apply`: each property schema is a value in a map, so two keys sharing one schema object is not modelled.
- `FluentValidationRules.PropertySchema`: `minimum`/`maximum` are integers here, where Swagger's are `double?`. The filter only ever writes 32-bit integers.
- `TodoWebApi/App_Start/AddSchemaExamples.cs`, `TodoWebApi/Infrastructure/ErrorResponse.cs` and `TodoWebApi/Startup.cs` are example data and wiring, and are not part of this model. `TodoActor.Interfaces/ITodoActor.cs` only supplies the actor's method signatures.
- Swagger attributes and HTTP status codes beyond `Ok`/`NotFound`.
