# modellink engine core, modelled in Dafny

This project models the engine of the modellink extensions. The engine binds
Python behaviour classes to the prims of an opened USD stage and keeps those
bindings in step with the stage. It then routes the host's update, timeline
and custom events to the bound instances. Three parts are modelled:

- **`ModelLinkManager`** (`modellink_manager.dfy`). The singleton that
  holds the three activator tables (class, schema, custom), the members staged
  for classes not yet registered, the link table and the registered-event
  cache. It fires lifecycle notices on its event stream. It is a class whose
  methods update those fields in place; activators are objects whose
  `enabled` flag and `members` are updated in place.
- **`ModelEventRegistry`** (`model_event_registry.dfy`). It turns stage
  open and close, the stage's `ObjectsChanged` notices and the manager's
  notices into link updates, attribute watcher calls and the subscription or
  unsubscription of the event providers.
- **Event providers** (`event_providers.dfy`). An `EventStreamProvider`
  remaps a host stream's raw event ids into the engine's event type space. It
  forwards mapped events while it is subscribed.

Supporting modules:

- `ordered_dict.dfy`: Python's insertion-ordered `dict`.
- `activators.dfy`: detection keys, members, the editmode gate and the decorators.
- `event_types.dfy`: `type_for` as an injective interning.
- `naming.dfy`: the `split` calls the registration code makes.
- `scene.dfy`: prim paths, prim data, stages and change notices.
- `link_table.dfy`: the effect of scans, resyncs, removals and dispatch on the link table, stated on values.

Each loop of the source is a method with a loop, specified by a function on
values. That function's properties are proved as lemmas: precedence,
first-match, idempotence, removal of exactly the selected links, and the
editmode gate.

Behaviour the model keeps as written:

- Opening a stage leaves every provider unsubscribed. `_setup_usd_events`
  clears the providers after `link_entire_stage` has fired its notices
  (`HandleStageOpen` ensures `AllOff()`). Only a later link notice
  subscribes them again.
- Closing a stage removes every link. When the registry hears those removal
  notices, it resubscribes the providers whose types are still registered.
  The activators stay, so those types are still registered.
- Only link notices recompute the providers' subscriptions. Activator
  notices are only logged.
- `clear()` leaves `_event_cache` as it was.
- A cache that holds the empty set counts as unset and is rebuilt.
- The registered event types include the types of disabled activators.
- `create_new_link` on a linked path replaces its link.
- Resyncing a prim does not touch the links of its descendants.
- The editmode gate applies to every event type, not only timeline events.
- The editmode flag belongs to the function, not to one registration. The
  last `register_event` of a function decides for every event it handles:
  `@on_destroy` over `@on_stop` leaves the stop handler gated while paused.

## Model

| member | source | states |
|---|---|---|
| OrderedDict.KeysNotIn | exts/sick.modellink.core/sick/modellink/core/modellink_manager.py:393-394 | the keys left after deleting `gone` are exactly those outside it, in their order, still distinct |
| OrderedDict.ODict.Put | exts/sick.modellink.core/sick/modellink/core/modellink_manager.py:318 | `d[k] = v` keeps an existing key's place and appends a new key at the end |
| OrderedDict.ODict.RemoveAll | exts/sick.modellink.core/sick/modellink/core/modellink_manager.py:551 | deleting keys removes exactly them and keeps the order and values of the rest |
| OrderedDict.ODict.Remove | exts/sick.modellink.core/sick/modellink/core/modellink_manager.py:411 | `pop(k)` removes exactly `k` and keeps the dict valid |
| OrderedDict.ODict.Values | exts/sick.modellink.core/sick/modellink/core/modellink_manager.py:425-427 | `values()` lists the value of every key, one per key, in insertion order |
| OrderedDict.RemoveAllTwice | exts/sick.modellink.core/sick/modellink/core/modellink_manager.py:533-536 | deleting two key sets one after the other is deleting their union |
| OrderedDict.RemoveIdempotent | exts/sick.modellink.core/sick/modellink/core/modellink_manager.py:410-411 | a second `pop` of the same key changes nothing |
| OrderedDict.RemoveAbsent | exts/sick.modellink.core/sick/modellink/core/modellink_manager.py:411 | `pop(k, None)` of an absent key leaves the dict as it was |
| OrderedDict.RemoveEverything | exts/sick.modellink.core/sick/modellink/core/modellink_manager.py:392-394 | deleting every key leaves the empty dict |
| EventTypes.TypeFor | exts/sick.modellink.core/sick/modellink/core/event_providers.py:6-7 | interned ids are non-negative, and 0 only for the empty name |
| EventTypes.TypeForInjective | exts/sick.modellink.core/sick/modellink/core/event_providers.py:6-7 | distinct names never get the same id |
| Naming.SplitFirst | exts/sick.modellink.core/sick/modellink/core/modellink_manager.py:482 | `split(sep)[0]` is a prefix without `sep`, followed by `sep` when shorter |
| Naming.SplitLast | exts/sick.modellink.core/sick/modellink/core/modellink_manager.py:346 | `split(sep)[-1]` holds no `sep` |
| Naming.SplitLastIsSuffix | exts/sick.modellink.core/sick/modellink/core/modellink_manager.py:346 | the last piece is a suffix, preceded by `sep` when it is not the whole string |
| Naming.SplitFirstOfJoined | exts/sick.modellink.core/sick/modellink/core/modellink_manager.py:482 | splitting `a + sep + b` at the first `sep` gives back `a` |
| Naming.SplitLastOfJoined | exts/sick.modellink.core/sick/modellink/core/modellink_manager.py:346 | splitting `a + sep + b` at the last `sep` gives back `b` |
| Naming.ClassNameOf | exts/sick.modellink.core/sick/modellink/core/modellink_manager.py:481-482 | the class name is a prefix of the qualified name without a dot |
| Naming.ClassNameOfMethod | exts/sick.modellink.core/sick/modellink/core/modellink_manager.py:481-482 | the class name of `Class.method` is `Class` |
| Scene.Stage.Traversal | exts/sick.modellink.core/sick/modellink/core/modellink_manager.py:444 | `Traverse()` yields exactly the enumerated prims that exist and are active |
| Activators.DetectionKey | exts/sick.modellink.core/sick/modellink/core/modellink_manager.py:208-222 | no or empty rule files by class name, a schema string by schema, a function under custom as `function;Class` |
| Activators.CustomKeyIdentifies | exts/sick.modellink.core/sick/modellink/core/modellink_manager.py:220-222 | two custom activators share a reference iff they share the function name and the class name |
| Activators.WithHandler | exts/sick.modellink.core/sick/modellink/core/modellink_manager.py:364-369 | registering a handler appends its function to that event's list and leaves every other list and the watchers alone |
| Activators.WithWatcher | exts/sick.modellink.core/sick/modellink/core/modellink_manager.py:352 | a watcher replaces any earlier watcher of that path and leaves the others and the handlers alone |
| Activators.Gated | exts/sick.modellink.core/sick/modellink/core/modellink_manager.py:240-242 | the gate keeps exactly the handlers whose function has its editmode flag set, or all of them while playing, in order |
| Activators.EventTypeOf | exts/sick.modellink.core/sick/modellink/core/modellink_manager.py:355-358 | an integer id is used as it is; a name is interned to a non-negative id, 0 only for the empty name |
| Activators.Registration | exts/sick.modellink.core/sick/modellink/core/modellink_manager.py:12-126 | each decorator registers its own event (`update`, `pre_update`, `destroy`, `play`, `pause`, `stop`, `step`, or the id given to `on_event`); play, pause and stop set the editmode flag, destroy, step and `on_event` clear it, `on_update`/`on_pre_update` set it iff called with `editmode=True` |
| Activators.Activator.constructor | exts/sick.modellink.core/sick/modellink/core/modellink_manager.py:208-212 | a new activator has its class, rule and flag, and no members |
| Activators.Activator.CallAttrChanged | exts/sick.modellink.core/sick/modellink/core/modellink_manager.py:230-235 | a call happens iff the changed attribute's name is watched; it calls that watcher, with the value parameter recorded for the watcher's function if there is one, and with none otherwise |
| Activators.Activator.CallEvent | exts/sick.modellink.core/sick/modellink/core/modellink_manager.py:237-242 | the handlers of the event run in registration order, those whose function's editmode flag is off skipped while paused |
| EventProviders.RemapTypes | exts/sick.modellink.core/sick/modellink/core/event_providers.py:14-26 | the new map holds every raw id of the table, with its name interned |
| EventProviders.RemappedOffers | exts/sick.modellink.core/sick/modellink/core/event_providers.py:23-26 | a provider offers the id of a name iff the name is in its table; two raw ids share an id iff they share a name |
| EventProviders.EventStreamProvider.constructor | exts/sick.modellink.core/sick/modellink/core/event_providers.py:51-55 | a new provider holds the remapped table and its mode, and has no subscription |
| EventProviders.EventStreamProvider.Forward | exts/sick.modellink.core/sick/modellink/core/event_providers.py:61-64 | a mapped raw type is forwarded as its interned id, and any other type is dropped |
| EventProviders.EventStreamProvider.Delivered | exts/sick.modellink.core/sick/modellink/core/event_providers.py:60-69 | an event reaches the callback iff the provider is subscribed and maps its raw type, and what reaches it is the mapped id |
| EventProviders.EventStreamProvider.Activate | exts/sick.modellink.core/sick/modellink/core/event_providers.py:60-69 | subscribes in push mode iff `use_push`, else in pop mode |
| EventProviders.EventStreamProvider.Deactivate | exts/sick.modellink.core/sick/modellink/core/event_providers.py:71-74 | leaves no subscription, and reports whether there was one |
| LinkTable.Relink | exts/sick.modellink.core/sick/modellink/core/modellink_manager.py:438-446 | after a scan, a path is linked iff it was or it was scanned with a target; renewed or new links hold the target; others keep theirs |
| LinkTable.RelinkNotices | exts/sick.modellink.core/sick/modellink/core/modellink_manager.py:401-408 | a scan announces with `LinkAdded` every link it creates or renews, with its class, and nothing else; without `renew_all` only for unlinked paths |
| LinkTable.RelinkCovered | exts/sick.modellink.core/sick/modellink/core/modellink_manager.py:443-446 | a scan over paths that are all linked or have no target changes nothing and fires nothing |
| LinkTable.RescanAddsNothing | exts/sick.modellink.core/sick/modellink/core/modellink_manager.py:438-446 | `update_links()` twice on an unchanged stage: the second run links nothing and fires nothing |
| LinkTable.Unlinked | exts/sick.modellink.core/sick/modellink/core/modellink_manager.py:533-536 | removing an activator's links keeps exactly the other activators' links, unchanged and in order; clearing leaves none |
| LinkTable.Removals | exts/sick.modellink.core/sick/modellink/core/modellink_manager.py:410-416 | the removal notices name exactly the removed paths, each with its class |
| LinkTable.RemovalStep | exts/sick.modellink.core/sick/modellink/core/modellink_manager.py:393-394 | removal over a snapshot of the keys: each step removes the next key iff removal hits it |
| LinkTable.ResyncOutcome | exts/sick.modellink.core/sick/modellink/core/model_event_registry.py:138-144 | a resynced absent prim is unlinked; a resynced present, active prim with an enabled activator is linked to it; every other path keeps its link |
| LinkTable.ResyncNotices | exts/sick.modellink.core/sick/modellink/core/model_event_registry.py:138-144 | every notice of a resync is a link notice about a resynced prim |
| LinkTable.ResyncAnnounced | exts/sick.modellink.core/sick/modellink/core/model_event_registry.py:138-144 | a resync announces every link it changes: `LinkRemoved` with the class for each linked prim that is gone, `LinkAdded` for each prim it links |
| LinkTable.DispatchGate | exts/sick.modellink.core/sick/modellink/core/modellink_manager.py:424-427 | a dispatch calls exactly the handlers of the event on the linked prims whose function passes the editmode gate |
| LinkTable.PausedDispatchRunsEditmodeOnly | exts/sick.modellink.core/sick/modellink/core/modellink_manager.py:240-242 | while paused, only handlers whose function's editmode flag is set are called |
| ModelLinkManager.EventsOf | exts/sick.modellink.core/sick/modellink/core/modellink_manager.py:374-376 | an event type is collected iff some activator has handlers for it |
| ModelLinkManager.CollectEvents | exts/sick.modellink.core/sick/modellink/core/modellink_manager.py:372-376 | the rebuild loop collects the union of the activators' event types |
| ModelLinkManager.DiscardFold | exts/sick.modellink.core/sick/modellink/core/modellink_manager.py:380-390 | a discard loop that selects nothing leaves the table, the links and the stream as they were |
| ModelLinkManager.DiscardFoldTableOrder | exts/sick.modellink.core/sick/modellink/core/modellink_manager.py:380-390 | a discard loop leaves the table's unselected keys in their insertion order |
| ModelLinkManager.DiscardFoldLinksOrder | exts/sick.modellink.core/sick/modellink/core/modellink_manager.py:533-536 | a discard loop leaves the surviving links in their order |
| ModelLinkManager.DiscardLinksOrder | exts/sick.modellink.core/sick/modellink/core/modellink_manager.py:380-390 | over the three tables, the surviving links keep their order |
| ModelLinkManager.AnnounceStep | exts/sick.modellink.core/sick/modellink/core/modellink_manager.py:549-557 | one discarded activator's turn announces each of its links and then itself, on top of what was announced before |
| ModelLinkManager.DiscardFoldOutcome | exts/sick.modellink.core/sick/modellink/core/modellink_manager.py:380-390 | a discard loop removes exactly the selected keys and exactly the links of the selected activators; the rest keep their values |
| ModelLinkManager.DiscardFoldNotices | exts/sick.modellink.core/sick/modellink/core/modellink_manager.py:549-557 | a discard loop announces every link of a discarded activator and every discarded activator, and nothing else |
| ModelLinkManager.DiscardClears | exts/sick.modellink.core/sick/modellink/core/modellink_manager.py:380-390 | after a table's discard, the table holds only original entries and none of them is selected |
| ModelLinkManager.DiscardLinksOutcome | exts/sick.modellink.core/sick/modellink/core/modellink_manager.py:380-390 | over the three tables, exactly the links of the discarded activators go, and the others keep their activator |
| ModelLinkManager.DiscardNoticesOutcome | exts/sick.modellink.core/sick/modellink/core/modellink_manager.py:549-557 | over the three tables, every removed link and activator is announced, and nothing else |
| ModelLinkManager.DiscardTablesOutcome | exts/sick.modellink.core/sick/modellink/core/modellink_manager.py:380-390 | the three loops in turn: each table keeps exactly its unselected activators, the links go as their activators do, and the removals are announced |
| ModelLinkManager.FirstAccepting | exts/sick.modellink.core/sick/modellink/core/modellink_manager.py:520-523 | the custom activator found accepts the prim and is in the table |
| ModelLinkManager.FirstAcceptingIsFirst | exts/sick.modellink.core/sick/modellink/core/modellink_manager.py:520-524 | nothing is found iff no custom detector accepts; otherwise the earliest that does |
| ModelLinkManager.FirstNamed | exts/sick.modellink.core/sick/modellink/core/modellink_manager.py:526-531 | the activator found has that class name |
| ModelLinkManager.FirstNamedIsFirst | exts/sick.modellink.core/sick/modellink/core/modellink_manager.py:526-531 | nothing is found iff no activator has that class name; otherwise the first in table order |
| ModelLinkManager.LinkManager.constructor | exts/sick.modellink.core/sick/modellink/core/modellink_manager.py:454-466 | a new manager has empty tables, no staged members, no links, no cache and no editmode flags |
| ModelLinkManager.LinkManager.RegisteredLength | exts/sick.modellink.core/sick/modellink/core/modellink_manager.py:429-432 | `get_activators()` yields one activator per filed key, and nothing more |
| ModelLinkManager.LinkManager.RegisteredClassFirst | exts/sick.modellink.core/sick/modellink/core/modellink_manager.py:429-432 | `get_activators()` yields the class table's activators first, in insertion order |
| ModelLinkManager.LinkManager.RegisteredSchemaNext | exts/sick.modellink.core/sick/modellink/core/modellink_manager.py:429-432 | the schema table's activators follow, in insertion order |
| ModelLinkManager.LinkManager.RegisteredCustomLast | exts/sick.modellink.core/sick/modellink/core/modellink_manager.py:429-432 | the custom table's activators come last, in insertion order |
| ModelLinkManager.LinkManager.RegisteredCovers | exts/sick.modellink.core/sick/modellink/core/modellink_manager.py:429-432 | `get_activators()` yields every filed activator |
| ModelLinkManager.LinkManager.RegisteredFiled | exts/sick.modellink.core/sick/modellink/core/modellink_manager.py:429-432 | `get_activators()` yields filed activators only |
| ModelLinkManager.LinkManager.FindActivator | exts/sick.modellink.core/sick/modellink/core/modellink_manager.py:506-524 | the activator found is one of the tables' |
| ModelLinkManager.LinkManager.FindActivatorPrecedence | exts/sick.modellink.core/sick/modellink/core/modellink_manager.py:506-524 | a schema match wins, then a class match on `linkedClass`, then the first accepting custom activator |
| ModelLinkManager.LinkManager.Targets | exts/sick.modellink.core/sick/modellink/core/modellink_manager.py:401-403 | a present, active prim gets a link iff its activator is found and enabled |
| ModelLinkManager.LinkManager.FindByClassName | exts/sick.modellink.core/sick/modellink/core/modellink_manager.py:526-531 | the activator found has that class name and is filed |
| ModelLinkManager.LinkManager.FindByClassNameIsFirst | exts/sick.modellink.core/sick/modellink/core/modellink_manager.py:526-531 | nothing is found iff no activator has that class name; otherwise the first of `get_activators()` |
| ModelLinkManager.LinkManager.AddActivator | exts/sick.modellink.core/sick/modellink/core/modellink_manager.py:317-324 | files the activator under its kind and reference (replacing any), other tables unchanged; moves its staged members; clears the cache; fires `ActivatorAdded`; the cache stays sound |
| ModelLinkManager.LinkManager.MoveMembersToActivator | exts/sick.modellink.core/sick/modellink/core/modellink_manager.py:498-504 | the staged members of the name move into the activator and leave the staging map |
| ModelLinkManager.LinkManager.RelinkThenNote | exts/sick.modellink.core/sick/modellink/core/modellink_manager.py:332-337 | the enable path: the context stage is rescanned, then the notice fired |
| ModelLinkManager.LinkManager.SetClassEnabled | exts/sick.modellink.core/sick/modellink/core/modellink_manager.py:327-341 | an unknown class changes nothing; otherwise the flag is set. Enabling rescans the context stage, with the new flag. Disabling removes exactly that activator's links unless `keep_links`. Then the enabled or disabled notice fires |
| ModelLinkManager.LinkManager.AddUsdAttr | exts/sick.modellink.core/sick/modellink/core/modellink_manager.py:344-352 | stages a watcher for the class of the function; the value parameter defaults to the text after the last dot, and is recorded for the function iff the function binds a parameter of that name, replacing the one recorded before |
| ModelLinkManager.LinkManager.RegisterEvent | exts/sick.modellink.core/sick/modellink/core/modellink_manager.py:354-369 | stages the handler after the earlier ones of that event, for the class of the function, and sets the function's editmode flag, which then gates every event the function handles |
| ModelLinkManager.LinkManager.GetRegisteredEvents | exts/sick.modellink.core/sick/modellink/core/modellink_manager.py:371-377 | answers the cached set, or the freshly collected one when the cache is unset or empty; with a sound cache, the registered event types |
| ModelLinkManager.LinkManager.RemoveLink | exts/sick.modellink.core/sick/modellink/core/modellink_manager.py:410-416 | a linked path is unlinked and announced with its class; an unlinked path is a no-op |
| ModelLinkManager.LinkManager.CreateNewLink | exts/sick.modellink.core/sick/modellink/core/modellink_manager.py:401-408 | the path is linked to the enabled activator found and announced, replacing any link; otherwise nothing happens |
| ModelLinkManager.LinkManager.RemoveAt | exts/sick.modellink.core/sick/modellink/core/modellink_manager.py:534-536 | one step keeps links and notices equal to removing the hit keys seen so far of the snapshot |
| ModelLinkManager.LinkManager.RemoveLinks | exts/sick.modellink.core/sick/modellink/core/modellink_manager.py:533-536 | removes exactly the links of that activator (or all of them), announcing each in link order |
| ModelLinkManager.LinkManager.ClearLinks | exts/sick.modellink.core/sick/modellink/core/modellink_manager.py:392-394 | every link is removed and announced in order; the registered events answer and cache soundness stay |
| ModelLinkManager.LinkManager.Clear | exts/sick.modellink.core/sick/modellink/core/modellink_manager.py:396-399 | links, tables and staged members are emptied; the cache is left as it was |
| ModelLinkManager.LinkManager.DiscardAt | exts/sick.modellink.core/sick/modellink/core/modellink_manager.py:382-384 | one step keeps the loop's table, links, notices and cache equal to the discard fold over the keys seen so far |
| ModelLinkManager.LinkManager.DiscardIn | exts/sick.modellink.core/sick/modellink/core/modellink_manager.py:381-384 | the discard loop over one table's key snapshot |
| ModelLinkManager.LinkManager.Discard | exts/sick.modellink.core/sick/modellink/core/modellink_manager.py:549-557 | the class, schema and custom tables are discarded in turn; the tables stay indexed, no selected activator is left, and the cache stays sound |
| ModelLinkManager.LinkManager.DiscardNamespace | exts/sick.modellink.core/sick/modellink/core/modellink_manager.py:380-384 | exactly the activators of a class whose module starts with the prefix leave their tables, the others keep their order; exactly their links go, the others stay unchanged and in order; each removed link and activator is announced and nothing else; the cache stays sound |
| ModelLinkManager.LinkManager.DiscardClass | exts/sick.modellink.core/sick/modellink/core/modellink_manager.py:386-390 | exactly the activators of that class leave their tables, the others keep their order; exactly their links go, the others stay unchanged and in order; each removed link and activator is announced and nothing else; the cache stays sound |
| ModelLinkManager.LinkManager.RelinkAt | exts/sick.modellink.core/sick/modellink/core/modellink_manager.py:445-446 | one step keeps links and notices equal to `Relink` over the paths scanned so far |
| ModelLinkManager.LinkManager.UpdateLinks | exts/sick.modellink.core/sick/modellink/core/modellink_manager.py:438-446 | scans the given stage (else the context stage) and links as `Relink` says; no stage changes nothing |
| ModelLinkManager.LinkManager.LinkEntireStage | exts/sick.modellink.core/sick/modellink/core/modellink_manager.py:448-449 | the scan with `renew_all` |
| ModelLinkManager.LinkManager.PropertyChanged | exts/sick.modellink.core/sick/modellink/core/modellink_manager.py:418-422 | a watcher is called iff the property's prim is linked and its activator watches that name; the call carries the value parameter recorded for the watcher's function, if any |
| ModelLinkManager.LinkManager.Watched | exts/sick.modellink.core/sick/modellink/core/model_event_registry.py:146-148 | the changed-info loop calls exactly the watchers `property_changed` finds for property paths |
| ModelLinkManager.LinkManager.LinkCalls | exts/sick.modellink.core/sick/modellink/core/modellink_manager.py:426-427 | one link's turn runs the handlers of the event of its activator that pass the editmode gate, in order |
| ModelLinkManager.LinkManager.DispatchEvents | exts/sick.modellink.core/sick/modellink/core/modellink_manager.py:424-427 | every link, in link order, runs the handlers of its activator that pass the editmode gate |
| ModelEventRegistry.ScopeOf | exts/sick.modellink.core/sick/modellink/core/model_event_registry.py:92 | the listener is scoped to the given stage, or to none |
| ModelEventRegistry.LinkNoticeSnoc | exts/sick.modellink.core/sick/modellink/core/model_event_registry.py:44-50 | a further notice brings a link notice exactly when it is one |
| ModelEventRegistry.TimelineNames | exts/sick.modellink.core/sick/modellink/core/model_event_registry.py:114-117 | the timeline table maps exactly the play, pause and stop ids, each to its name; when ids coincide the later name wins |
| ModelEventRegistry.SingleName | exts/sick.modellink.core/sick/modellink/core/model_event_registry.py:111-112 | the update and pre-update tables map raw id 0 to their name |
| ModelEventRegistry.SingleNameTypes | exts/sick.modellink.core/sick/modellink/core/model_event_registry.py:111-112 | such a provider offers exactly the id of its name |
| ModelEventRegistry.EventRegistry.constructor | exts/sick.modellink.core/sick/modellink/core/model_event_registry.py:18-29 | registers three pull-mode providers, opens the context stage, and ends with no provider subscribed and both subscriptions held |
| ModelEventRegistry.EventRegistry.OpenAndListen | exts/sick.modellink.core/sick/modellink/core/model_event_registry.py:27-29 | opens the stage, relinking it with `renew_all`, then subscribes to stage events and the manager's notices |
| ModelEventRegistry.EventRegistry.RegisterEventProviders | exts/sick.modellink.core/sick/modellink/core/model_event_registry.py:109-117 | appends the update, pre-update and timeline providers, in pull mode, unsubscribed |
| ModelEventRegistry.EventRegistry.AddNewProvider | exts/sick.modellink.core/sick/modellink/core/model_event_registry.py:111-117 | appends a new pull-mode provider with the remapped table |
| ModelEventRegistry.EventRegistry.AddEventProvider | exts/sick.modellink.core/sick/modellink/core/model_event_registry.py:34-35 | appends the provider |
| ModelEventRegistry.EventRegistry.Clear | exts/sick.modellink.core/sick/modellink/core/model_event_registry.py:37-39 | revokes the listener, unsubscribes every provider and drops the stage event subscription |
| ModelEventRegistry.EventRegistry.OnModelLinkEvent | exts/sick.modellink.core/sick/modellink/core/model_event_registry.py:44-58 | a link notice resubscribes exactly the providers whose types are registered; other notices change nothing |
| ModelEventRegistry.EventRegistry.DeliverAt | exts/sick.modellink.core/sick/modellink/core/modellink_manager.py:468-470 | one delivered notice keeps the providers synced once a link notice came |
| ModelEventRegistry.EventRegistry.DeliverFrom | exts/sick.modellink.core/sick/modellink/core/modellink_manager.py:468-470 | after a link notice the providers are synced; without one they are as before |
| ModelEventRegistry.EventRegistry.DeliverNotices | exts/sick.modellink.core/sick/modellink/core/modellink_manager.py:468-470 | the manager's undelivered notices reach a subscribed registry; after a link notice the providers are synced, otherwise unchanged |
| ModelEventRegistry.EventRegistry.IsEventTypeUsed | exts/sick.modellink.core/sick/modellink/core/model_event_registry.py:61-64 | true iff the provider's types meet the registered event types |
| ModelEventRegistry.EventRegistry.Resubscribe | exts/sick.modellink.core/sick/modellink/core/model_event_registry.py:103-106 | the provider ends subscribed iff its types are registered |
| ModelEventRegistry.EventRegistry.Unsubscribe | exts/sick.modellink.core/sick/modellink/core/model_event_registry.py:104 | `deactivate` leaves no subscription and the manager's answer unchanged |
| ModelEventRegistry.EventRegistry.Subscribe | exts/sick.modellink.core/sick/modellink/core/model_event_registry.py:106 | `activate` subscribes in the provider's mode |
| ModelEventRegistry.EventRegistry.ActivateEventProviders | exts/sick.modellink.core/sick/modellink/core/model_event_registry.py:102-106 | every provider is subscribed iff its types meet the registered event types |
| ModelEventRegistry.EventRegistry.ResubscribeAt | exts/sick.modellink.core/sick/modellink/core/model_event_registry.py:103-106 | one step of that loop keeps the earlier providers' subscriptions |
| ModelEventRegistry.EventRegistry.DeactivateEventProviders | exts/sick.modellink.core/sick/modellink/core/model_event_registry.py:98-100 | no provider is subscribed |
| ModelEventRegistry.EventRegistry.ClearUsdEvents | exts/sick.modellink.core/sick/modellink/core/model_event_registry.py:126-131 | revokes the listener, forgets the stage, unsubscribes every provider |
| ModelEventRegistry.EventRegistry.SetupUsdEvents | exts/sick.modellink.core/sick/modellink/core/model_event_registry.py:89-93 | clears, then listens to the given stage's notices, with no provider subscribed |
| ModelEventRegistry.EventRegistry.HandleStageOpen | exts/sick.modellink.core/sick/modellink/core/model_event_registry.py:73-80 | the context stage is relinked with `renew_all` and listened to; every provider ends unsubscribed |
| ModelEventRegistry.EventRegistry.HandleStageClose | exts/sick.modellink.core/sick/modellink/core/model_event_registry.py:83-86 | no link and no stage are left; every removal is announced; after a removal the providers are synced, otherwise all off |
| ModelEventRegistry.EventRegistry.ClearLinksHeard | exts/sick.modellink.core/sick/modellink/core/model_event_registry.py:85 | every link is removed and announced; once a removal notice is heard the providers are synced, and without one providers that were all off stay all off |
| ModelEventRegistry.EventRegistry.OnStageEvent | exts/sick.modellink.core/sick/modellink/core/model_event_registry.py:66-70 | opened relinks the context stage with `renew_all`, listens to it and leaves every provider off; closed removes and announces every link, forgets the stage and syncs the providers after a removal; any other event, or no subscription, changes nothing |
| ModelEventRegistry.EventRegistry.ResyncAt | exts/sick.modellink.core/sick/modellink/core/model_event_registry.py:139-144 | one step keeps links and notices equal to `Resynced` over the paths seen so far |
| ModelEventRegistry.EventRegistry.ResyncAll | exts/sick.modellink.core/sick/modellink/core/model_event_registry.py:138-144 | the links and notices after the resync loop are `Resynced` and `ResyncNotices` |
| ModelEventRegistry.EventRegistry.WatchAll | exts/sick.modellink.core/sick/modellink/core/model_event_registry.py:146-148 | the changed-info loop's watcher calls, in order |
| ModelEventRegistry.EventRegistry.HandleUsdEvent | exts/sick.modellink.core/sick/modellink/core/model_event_registry.py:133-148 | a notice from another sender changes nothing; otherwise the links and notices are those of resyncing the resynced paths against what the stage holds when the notice arrives, the calls are the watchers of the changed-info paths, and the providers are synced after a link notice and unchanged without one |
| ModelEventRegistry.EventRegistry.OnEvent | exts/sick.modellink.core/sick/modellink/core/model_event_registry.py:95-96 | a provider event is dispatched to every link |
| ModelEventRegistry.EventRegistry.OnStreamEvent | exts/sick.modellink.core/sick/modellink/core/event_providers.py:61-64 | a stream event is dispatched iff the provider is subscribed and maps its raw type |

## Left out

- Instances, dependency injection and attribute values are not modelled.
  `_create`, `_prepare_injection` and `_call` are left out because they
  rest on the `injector` library and on Python reflection. A link is the
  activator that created it, and a call is the function with its value
  parameter. A function's bindings, which `get_bindings` reads from its
  signature, are a field of `Callable`. Its `__meta_value_param__` is the
  manager's `valueParams` entry for it.
- The host's event streams are not modelled, because they are host code.
  The manager's stream, which pushes and pumps each notice right away, is an
  appended `log`. The registry hears each notice (`DeliverNotices`) once
  the manager call that fired it returns.
- `DeliverNotices`: delivery after the call differs from the source when
  the call changes the tables after a link notice. `_discard_intern` fires
  each `LinkRemoved` before it deletes the activator and clears
  `_event_cache`. `clear` removes the links before it clears the tables. In
  the source the registry therefore resubscribes the providers against the
  event types that still include the removed activators' types, and it may
  cache that set. A provider only those activators used stays subscribed
  until the next link notice. The model resubscribes once, against the
  tables after the call. Without a cached set, that provider ends
  unsubscribed. For every other manager call the tables do not change after
  a link notice, and the subscriptions come out the same.
- Exceptions are not modelled. The core catches none, so a failing user
  handler would abort a dispatch loop; this model has no failing handlers.
- `LinkManager.SetClassEnabled`: the source fires
  `sick.modellink.core.MODELLINK_ACTIVATOR_ENABLED` and `..._DISABLED`, but
  the package's `__init__.py` does not define those names. As written,
  `set_class_enabled` therefore raises `AttributeError` after it has set the
  flag and rescanned or removed the links, and no notice is fired. The
  model treats the notice kinds as abstract ids and fires `ActivatorEnabled`
  or `ActivatorDisabled`.
- `EventTypes.TypeFor` stands in for the host's `type_from_string` hash.
  The model assumes that hash has no collisions and maps only the empty
  name to 0. `TypeForInjective`, and the "share an id iff they share a name"
  half of `RemappedOffers`, are properties of this stand-in, not of the
  host.
- A decorated function is identified by its `__qualname__` (`Callable`).
  Its `__meta_editmode__` attribute is the manager's `editFlags` entry for
  it. A function in a handler list without a flag counts as flag off; the
  source would raise there, but every handler went through
  `register_event`, which sets the flag.
- `get_event_stream`, `get_modellinks` and `ModelLink.destroy` are left
  out. They are trivial accessors or a no-op.
- The `carb.log_info` calls of `_on_modellink_event` are left out,
  because logging is I/O.
- The PhysX provider, the commented-out providers, the UI, the vac and
  samples extensions, and `omniverse_di_module.py` are not part of this
  model.
- `_move_members_to_activator` can be called without an activator. In that
  case it falls back to `_find_activator_by_class_name`. No caller in the
  core does this, so the model always passes one.
- `detectFunc` is modelled as one function `detects` of the detector's
  name and the prim. Two detection functions with the same `__name__`
  therefore detect alike.
- `clazz is c` in `discard_class` is modelled as equality of
  `ClassRef(module, name)`, not as object identity.
- The sender filter of the `Tf.Notice` registration is modelled by
  `FromStage`, with a stage identity standing for the stage object. The
  stage is edited by code outside the core, so `HandleUsdEvent` takes what
  it holds when the notice arrives as the parameter `live`, with the same
  identity, and looks the resynced prims up there.
- `EventRegistry.constructor`: it does not restate how the opened stage is
  relinked. `OpenAndListen` and `HandleStageOpen` state it.
- `EventRegistry.Clear`: it does not state what `clear` does to the
  manager's cache. `ClearUsdEvents` states that the cache answer is kept.
- `LinkManager.SetClassEnabled`: it does not state that the cache stays
  sound. It changes neither the tables nor any members, so the cache's
  inputs stay the same.
- `_register_event_providers` uses the timeline's PLAY, PAUSE and STOP ids.
  The model takes them as the parameters `play`, `pause` and `stop` and
  does not require them to be distinct. With equal ids, the later name wins,
  as in a Python dict literal.
