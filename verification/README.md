# todo-fullstack: the realtime sync protocol, in Dafny

This project models the core of a shared to-do list. The list has a NestJS server (`todo-api`) and a Vue client (`vue-todo-app`). The model covers these parts:

- **The item record and its input validators.** These are the `Todo` entity and the create, update and filter DTOs, checked by a global validation pipe that rejects unknown properties.
- **The mutation service.** Its store is a map from primary key to row. An append-only log records the domain events the service hands to the gateway.
- **The gateway.** It keeps a registry from connection id to inbox. Domain events go to every connection. Presence messages go to every connection except the sender's, stamped with the sender's id.
- **The client socket service.** It holds a registry from event name to callbacks, compared by identity. It also unwraps server messages and guards the presence senders against a missing socket.
- **The client composable.** It keeps a cached list scoped to the current filter, patched in place by the `todoCreated`, `todoUpdated` and `todoDeleted` handlers. It also keeps a presence map driven by the edit messages, and guards its input before sending requests.

Modules:
- `Entity`, `Json`, `FilterDto`, `CreateDto`, `UpdateDto`: the record and the validators.
- `Protocol`: the wire messages shared by server and client.
- `Service`: the class `TodoService`.
- `Gateway`: the class `TodoGateway`.
- `Socket`: the class `SocketService`.
- `Listeners`: listener registration and removal.
- `Composable`: the class `UseTodos`, with the reconciliation functions it is proved against.
- `Sync`: end-to-end lemmas.
  - Every item event the service emits keeps the client list an exact mirror of the filtered store.
  - A client never lists itself as an editor.

Server round trips are parameters of the client methods: the list or stats the server answered with, or `None` for a failed request. Generated ids and timestamps are parameters of the service methods.

## Model

| member | source | states |
|---|---|---|
| Entity.ParsePriority | todo-api/src/entities/todo.entity.ts:14-15 | a priority is accepted exactly when it is one of `high`, `medium` or `low`, and reads back as its own spelling |
| Entity.PriorityRoundTrip | todo-api/src/entities/todo.entity.ts:14-15 | the spelling of every priority reads back as that priority |
| Entity.NewTodo | todo-api/src/entities/todo.entity.ts:5-21 | an inserted row keeps its key, text and priority; `completed` takes its default `false`; both timestamps are the insert time; the text fits the 500-character column |
| Json.Extraneous | todo-api/src/main.ts:8-12 | a property is reported exactly when the body has it and the DTO does not declare it |
| FilterDto.FilterErrors | todo-api/src/dto/todo-filter.dto.ts:3-7 | no property is rejected exactly when the query has no property but `filter` and that filter, when present, is `all`, `active` or `completed`; a rejected property is always one of the query's own |
| FilterDto.ParseFilter | todo-api/src/dto/todo-filter.dto.ts:3-7 | a query is accepted exactly when it has no property but `filter` and that filter, when present, is `all`, `active` or `completed`; an absent filter becomes `All`; a rejection names only properties of the query |
| FilterDto.FilterRoundTrip | todo-api/src/dto/todo-filter.dto.ts:4-6 | each filter name reads back as that filter, and the empty query reads back as `All` |
| CreateDto.CreateErrors | todo-api/src/dto/create-todo.dto.ts:3-12 | there are no errors exactly when the text is a non-empty string of at most 500 characters, the priority (if any) is valid, and no other property is present |
| CreateDto.ParseCreate | todo-api/src/dto/create-todo.dto.ts:3-12 | accepted exactly when there are no errors; the text is taken as sent; an absent priority becomes medium and a present one is the priority sent |
| CreateDto.CreateBodyAccepted | todo-api/src/dto/create-todo.dto.ts:4-11 | a body with a text and a priority is accepted exactly when the text has 1 to 500 characters, and then reads back unchanged |
| UpdateDto.UpdateErrors | todo-api/src/dto/update-todo.dto.ts:3-16 | there are no errors exactly when the text (if any) is a string of at most 500 characters, `completed` (if any) is a boolean, the priority (if any) is valid, and no other property is present |
| UpdateDto.ParseUpdate | todo-api/src/dto/update-todo.dto.ts:3-16 | accepted exactly when there are no errors; a field is present in the result exactly when the body has it, with the value sent; no field is defaulted |
| UpdateDto.UpdateBody | todo-api/src/dto/update-todo.dto.ts:3-16 | the encoded body has a property exactly for each field present in the update |
| UpdateDto.UpdateRoundTrip | todo-api/src/dto/update-todo.dto.ts:3-16 | an encoded update reads back unchanged exactly when its text, if any, fits 500 characters; the empty object is a valid update with no fields; `""` passes |
| Service.InsertNewestFirst | todo-api/src/services/todo.service.ts:33 | inserting keeps every entry and adds the new one, as a multiset |
| Service.InsertMembers | todo-api/src/services/todo.service.ts:33 | after insertion an item is in the list exactly when it was there before or is the inserted one |
| Service.InsertKeepsOrder | todo-api/src/services/todo.service.ts:33 | insertion keeps a list ordered by `createdAt`, newest first |
| Service.InsertKeepsUnique | todo-api/src/services/todo.service.ts:33 | inserting an item with a new id keeps ids unique |
| Service.FindOne | todo-api/src/services/todo.service.ts:38-44 | fails with NotFound exactly when no row has the id; otherwise returns that row |
| Service.PartitionCount | todo-api/src/services/todo.service.ts:82-88 | the completed rows and the active rows together number the whole table |
| Service.GetStats | todo-api/src/services/todo.service.ts:82-88 | `total` is the number of rows; `completed` counts the completed rows; `active` counts exactly the rows not completed; `completed + active == total` |
| Service.Assign | todo-api/src/services/todo.service.ts:46-52 | only the fields present in the update change; id and `createdAt` stay; `updatedAt` is the save time; a valid row stays valid |
| Service.WithoutCompleted | todo-api/src/services/todo.service.ts:62-65 | exactly the active rows remain, unchanged |
| Service.SetAllCompleted | todo-api/src/services/todo.service.ts:76 | every row takes the given `completed` value and a new `updatedAt`; no row is added or dropped |
| Service.Toggled | todo-api/src/services/todo.service.ts:72-80 | every row's `completed` becomes the negation of `AllCompleted` ("all rows were completed", line 74); id, text, priority and `createdAt` are unchanged |
| Service.ToggleTwice | todo-api/src/services/todo.service.ts:72-80 | two toggles restore every row's `completed` exactly when all rows started in one state; from a mixed state the two toggles leave every row active |
| Service.ClearCompletedStats | todo-api/src/services/todo.service.ts:62-65 | after clearing completed rows, the stats show no completed row and a total equal to the former active count |
| Service.ClearRoute | todo-api/src/controllers/todo.controller.ts:53-59 | `DELETE /todos` clears everything exactly when `type` is `all`; any other value clears only completed rows |
| Service.TodoService.constructor | todo-api/src/services/todo.service.ts:11-15 | the service starts with an empty table and no events |
| Service.TodoService.Create | todo-api/src/services/todo.service.ts:17-22 | the new row is stored under its fresh key, `todoCreated` with the saved row is emitted exactly once after the store change, and the saved row is returned; the old and new store are related by `Emits` for that event |
| Service.TodoService.FindAll | todo-api/src/services/todo.service.ts:24-36 | the answer holds exactly the rows matching the filter, as stored, each once, newest first; `active` and `completed` select by the flag and anything else selects all, as `ServerMatches` (lines 27-31) says |
| Service.TodoService.Update | todo-api/src/services/todo.service.ts:46-52 | a missing id fails with NotFound, with no change and no event; otherwise only the fields present are overwritten, the row is saved, and `todoUpdated` with it is emitted; the old and new store are related by `Emits` for that event |
| Service.TodoService.Remove | todo-api/src/services/todo.service.ts:54-60 | a missing id fails with NotFound and emits nothing; otherwise the id is gone, `todoDeleted(id)` is emitted once, and the old and new store are related by `Emits` for that event |
| Service.TodoService.ClearCompleted | todo-api/src/services/todo.service.ts:62-65 | exactly the completed rows are deleted, and a bulk delete of type `completed` is always emitted |
| Service.TodoService.ClearAll | todo-api/src/services/todo.service.ts:67-70 | the table is emptied, and a bulk delete of type `all` is emitted |
| Service.TodoService.ToggleAll | todo-api/src/services/todo.service.ts:72-80 | the store becomes `Toggled` of the old store; the full listing is emitted as a bulk update and returned |
| Gateway.SendToAll | todo-api/src/gateways/todo.gateway.ts:35-53 | every connection, and only they, receive the message at the end of their inbox |
| Gateway.SendToOthers | todo-api/src/gateways/todo.gateway.ts:67-95 | every connection but the sender receives the message; the sender's inbox is unchanged |
| Gateway.ToMessage | todo-api/src/gateways/todo.gateway.ts:35-53 | every domain event becomes a well-formed, non-presence message; a delete carries `{ id }` and a bulk delete carries `{ type }` |
| Gateway.BroadcastKeepsNoEcho | todo-api/src/gateways/todo.gateway.ts:35-53 | a domain broadcast never gives a connection a presence message attributed to itself |
| Gateway.RelayKeepsNoEcho | todo-api/src/gateways/todo.gateway.ts:67-95 | a presence relay stamped with the sender's id never reaches the connection it names |
| Gateway.TodoGateway.constructor | todo-api/src/gateways/todo.gateway.ts:19-25 | the gateway starts with no connection |
| Gateway.TodoGateway.HandleConnection | todo-api/src/gateways/todo.gateway.ts:27-29 | a connection joins with an empty inbox, and nothing is sent to anyone |
| Gateway.TodoGateway.HandleDisconnect | todo-api/src/gateways/todo.gateway.ts:31-33 | a connection leaves and every other inbox is unchanged; no synthetic `todoEditEnd` is sent |
| Gateway.TodoGateway.Publish | todo-api/src/gateways/todo.gateway.ts:35-53 | the domain event's message goes to every connection, the requester's included |
| Gateway.TodoGateway.EmitTodoCreated | todo-api/src/gateways/todo.gateway.ts:35-37 | `todoCreated` with the todo goes to every connection |
| Gateway.TodoGateway.EmitTodoUpdated | todo-api/src/gateways/todo.gateway.ts:39-41 | `todoUpdated` with the todo goes to every connection |
| Gateway.TodoGateway.EmitTodoDeleted | todo-api/src/gateways/todo.gateway.ts:43-45 | `todoDeleted` with `{ id }` goes to every connection |
| Gateway.TodoGateway.EmitTodosBulkUpdated | todo-api/src/gateways/todo.gateway.ts:47-49 | `todosBulkUpdated` with the list goes to every connection |
| Gateway.TodoGateway.EmitTodosBulkDeleted | todo-api/src/gateways/todo.gateway.ts:51-53 | `todosBulkDeleted` with `{ type }` goes to every connection |
| Gateway.TodoGateway.EmitTodoEditStart | todo-api/src/gateways/todo.gateway.ts:55-57 | the unused presence emitter sends `todoEditStart` to every connection, the named user's included |
| Gateway.TodoGateway.EmitTodoEditEnd | todo-api/src/gateways/todo.gateway.ts:59-61 | the unused presence emitter sends `todoEditEnd` to every connection |
| Gateway.TodoGateway.EmitTodoEditChange | todo-api/src/gateways/todo.gateway.ts:63-65 | the unused presence emitter sends `todoEditChange` to every connection |
| Gateway.TodoGateway.HandleStartEdit | todo-api/src/gateways/todo.gateway.ts:67-74 | every other connection receives `todoEditStart` with the todo id and the sender's connection id as `userId`; the sender receives nothing; no connection sees presence attributed to itself |
| Gateway.TodoGateway.HandleEndEdit | todo-api/src/gateways/todo.gateway.ts:76-83 | `todoEditEnd` follows the same all-but-sender rule, stamped with the sender's id |
| Gateway.TodoGateway.HandleEditChange | todo-api/src/gateways/todo.gateway.ts:85-95 | `todoEditChange` forwards the text unchanged to all but the sender, stamped with the sender's id |
| Socket.SubscribeEffect | vue-todo-app/src/services/socket.ts:66-71 | `on` (`Subscribe`) appends the callback to the end of the event's list, creating it if absent, and changes no other event |
| Socket.RemoveFirst | vue-todo-app/src/services/socket.ts:76-79 | removes one occurrence of the callback, as a multiset; a callback not in the list changes nothing |
| Socket.RemoveFirstAt | vue-todo-app/src/services/socket.ts:76-79 | splicing at the first occurrence, as `indexOf` finds it, is `RemoveFirst` |
| Socket.UnsubscribeEffect | vue-todo-app/src/services/socket.ts:73-81 | `off` (`Unsubscribe`) with a callback that is not registered for the event leaves the registry unchanged; otherwise it removes exactly one occurrence |
| Socket.UnsubscribeRemovesFirst | vue-todo-app/src/services/socket.ts:73-81 | `off` removes the first entry identical to the callback |
| Socket.UnsubscribeFrame | vue-todo-app/src/services/socket.ts:73-81 | `off` never adds or drops a list and never touches another event |
| Socket.RemoveAppended | vue-todo-app/src/services/socket.ts:66-81 | removing a callback that was just appended to a list without it gives the list back |
| Socket.SubscribeThenUnsubscribe | vue-todo-app/src/services/socket.ts:66-81 | `on` followed by `off` of a fresh callback restores every event's listeners |
| Socket.Unwrap | vue-todo-app/src/services/socket.ts:26-56 | `todoDeleted` hands on only `data.id` and `todosBulkDeleted` only `data.type`; every other event hands on its payload unchanged; the result has the listener's argument shape |
| Socket.IndexOf | vue-todo-app/src/services/socket.ts:76 | the first position of the callback, or -1 exactly when it does not occur |
| Socket.SocketService.constructor | vue-todo-app/src/services/socket.ts:5-6 | no socket and no listeners |
| Socket.SocketService.Connect | vue-todo-app/src/services/socket.ts:8-57 | an already connected socket is kept; otherwise a new socket replaces it and starts connecting |
| Socket.SocketService.TransportChanged | vue-todo-app/src/services/socket.ts:18-24 | the socket's own connect and disconnect notifications only set the connection flag |
| Socket.SocketService.Disconnect | vue-todo-app/src/services/socket.ts:59-64 | afterwards there is no socket |
| Socket.SocketService.IsConnected | vue-todo-app/src/services/socket.ts:90-92 | true exactly when a socket exists and is connected |
| Socket.SocketService.On | vue-todo-app/src/services/socket.ts:66-71 | the registry becomes `Subscribe` of the old one |
| Socket.SocketService.Off | vue-todo-app/src/services/socket.ts:73-81 | the registry becomes `Unsubscribe` of the old one |
| Socket.SocketService.Emit | vue-todo-app/src/services/socket.ts:83-88 | calls every callback of the event once, in registration order, each with the argument; an event without a list calls nothing |
| Socket.SocketService.Receive | vue-todo-app/src/services/socket.ts:26-56 | a server message reaches the callbacks of its event, in order, with the unwrapped payload |
| Socket.SocketService.EmitStartEdit | vue-todo-app/src/services/socket.ts:94-98 | sends `startEdit` when there is a socket; sends nothing otherwise |
| Socket.SocketService.EmitEndEdit | vue-todo-app/src/services/socket.ts:100-104 | sends `endEdit` when there is a socket; sends nothing otherwise |
| Socket.SocketService.EmitEditChange | vue-todo-app/src/services/socket.ts:106-110 | sends `editChange` with the text when there is a socket; sends nothing otherwise |
| Listeners.SubscribeAllStep | vue-todo-app/src/composables/useTodos.ts:158-228 | helper: one more registration extends the fold by one event |
| Listeners.UnsubscribeAllStep | vue-todo-app/src/composables/useTodos.ts:254-263 | helper: one more removal extends the fold by one event |
| Listeners.SetupSocketListeners | vue-todo-app/src/composables/useTodos.ts:158-228 | the registry becomes the old one with one callback per listened event, registered in order |
| Listeners.RemoveSocketListeners | vue-todo-app/src/composables/useTodos.ts:254-263 | the registry becomes the old one after `off` with callbacks created on the spot, in order |
| Listeners.DistinctPrefix | vue-todo-app/src/composables/useTodos.ts:158-228 | helper: a prefix of a list of distinct events is distinct |
| Listeners.SubscribeAllEffect | vue-todo-app/src/composables/useTodos.ts:158-228 | after registering distinct events, each event has gained exactly its own callback, at the end |
| Listeners.SubscribeAllOthers | vue-todo-app/src/composables/useTodos.ts:158-228 | registering for other events leaves an event's listeners alone |
| Listeners.UnsubscribeAllEffect | vue-todo-app/src/composables/useTodos.ts:254-263 | removal for distinct events takes from each event the first occurrence of its own callback |
| Listeners.UnsubscribeAllOthers | vue-todo-app/src/composables/useTodos.ts:254-263 | removal for other events leaves an event's listeners alone |
| Listeners.UnsubscribeAllUnregistered | vue-todo-app/src/services/socket.ts:76-79 | `off` with callbacks that were never registered changes nothing at all |
| Listeners.ListenedEventsDistinct | vue-todo-app/src/composables/useTodos.ts:158-228 | helper: the eight listened events are distinct |
| Listeners.MountedLeavesOthersUnregistered | vue-todo-app/src/composables/useTodos.ts:158-228 | callbacks other than the mount's stay unregistered through the mount |
| Listeners.UnmountKeepsListeners | vue-todo-app/src/composables/useTodos.ts:254-263 | as written, mount then unmount leaves every event with the mount's callback, and a remount adds a second one |
| Listeners.UnmountRestoresListeners | vue-todo-app/src/composables/useTodos.ts:254-263 | removing the very callbacks the mount registered gives every event back its listeners from before the mount |
| Composable.FirstNonBlank | vue-todo-app/src/composables/useTodos.ts:29 | the scan from a position skips only white space and stops at the first non-space or the end |
| Composable.EndNonBlank | vue-todo-app/src/composables/useTodos.ts:29 | the scan back from the end of a range skips only white space and stops just past the last non-space, or at the range's start |
| Composable.BlankJoin | vue-todo-app/src/composables/useTodos.ts:29 | helper: two blank halves make a blank string |
| Composable.TrimEmptyIffBlank | vue-todo-app/src/composables/useTodos.ts:29 | `trim` keeps nothing exactly when the input is blank |
| Composable.Trim | vue-todo-app/src/composables/useTodos.ts:29 | the result is a slice of the input whose dropped prefix and suffix are white space; it is empty exactly when the input is blank, and otherwise starts and ends with a non-space |
| Composable.TrimIdempotent | vue-todo-app/src/composables/useTodos.ts:29 | trimming twice is trimming once |
| Composable.FindIndex | vue-todo-app/src/composables/useTodos.ts:182 | -1 exactly when no entry has the id; otherwise the first position holding it |
| Composable.WithoutConcat | vue-todo-app/src/composables/useTodos.ts:175-204 | dropping an id distributes over concatenation |
| Composable.WithoutMembers | vue-todo-app/src/composables/useTodos.ts:175-204 | an entry survives dropping an id exactly when it is in the list under another id |
| Composable.WithoutAt | vue-todo-app/src/composables/useTodos.ts:182-192 | replacing or splicing out the entry holding an id leaves the other entries, in order, unchanged |
| Composable.RemoveAtUnique | vue-todo-app/src/composables/useTodos.ts:198-202 | splicing out one position keeps ids unique and loses that position's id |
| Composable.CreatedReconciles | vue-todo-app/src/composables/useTodos.ts:159-173 | for `AfterCreated`: the item is prepended only if it belongs under the filter and its id is new, and otherwise the list is unchanged; unique ids and filter membership are kept |
| Composable.UpdatedReconciles | vue-todo-app/src/composables/useTodos.ts:175-196 | for `AfterUpdated`: an entry with the id is present afterwards exactly when the item belongs, and then it is the item; an entry that still belongs is replaced at the same index; all other entries keep their order; ids stay unique |
| Composable.UpdatedReplaces | vue-todo-app/src/composables/useTodos.ts:175-196 | helper: the `UpdatedReconciles` facts when the item belongs and is listed |
| Composable.UpdatedPrepends | vue-todo-app/src/composables/useTodos.ts:175-196 | helper: the `UpdatedReconciles` facts when the item belongs and is not listed |
| Composable.UpdatedDrops | vue-todo-app/src/composables/useTodos.ts:175-196 | helper: the `UpdatedReconciles` facts when the item no longer belongs |
| Composable.DeletedReconciles | vue-todo-app/src/composables/useTodos.ts:198-204 | for `AfterDeleted`: no entry has the id afterwards; the rest keep their order; an unknown id is a no-op; ids stay unique |
| Composable.UpdatedMembers | vue-todo-app/src/composables/useTodos.ts:175-196 | after `todoUpdated` the entries are exactly the item (if it belongs) and every former entry with another id |
| Composable.DeletedMembers | vue-todo-app/src/composables/useTodos.ts:198-204 | after `todoDeleted` the entries are exactly the former entries with another id |
| Composable.CreatedIdempotent | vue-todo-app/src/composables/useTodos.ts:159-173 | delivering the same `todoCreated` twice is delivering it once |
| Composable.UpdatedIdempotent | vue-todo-app/src/composables/useTodos.ts:175-196 | delivering the same `todoUpdated` twice is delivering it once |
| Composable.DeletedIdempotent | vue-todo-app/src/composables/useTodos.ts:198-204 | delivering the same `todoDeleted` twice is delivering it once |
| Composable.EditStarted | vue-todo-app/src/composables/useTodos.ts:214-216 | the item becomes edited by the user with no text, overwriting any earlier entry; other entries stay |
| Composable.EditEnded | vue-todo-app/src/composables/useTodos.ts:218-220 | the entry goes whoever the message names; other entries stay |
| Composable.EditChanged | vue-todo-app/src/composables/useTodos.ts:222-227 | the map changes only when the item is recorded as edited by the message's user, and then only that entry's text is set; keys and editors never change |
| Composable.AddTodoBodyAccepted | vue-todo-app/src/composables/useTodos.ts:28-42 | the server accepts the body `addTodo` sends exactly when the trimmed text fits 500 characters, and then creates it with the trimmed text and the chosen priority; the body is `CreateBody` (line 34) |
| Composable.UpdateTodoBodyAccepted | vue-todo-app/src/composables/useTodos.ts:75-100 | the server accepts the body `updateTodo` sends exactly when a supplied trimmed text fits, and then reads back exactly the supplied fields |
| Composable.ToggleTodoBodyAccepted | vue-todo-app/src/composables/useTodos.ts:58-73 | the body `toggleTodo` sends is always accepted and carries only the new `completed` value |
| Composable.OnMounted | vue-todo-app/src/composables/useTodos.ts:270-274 | requests the list for the client's current filter and returns that filter, takes the fetched list and stats as `loadTodos` does, connects, and registers one callback per listened event |
| Composable.OnUnmounted | vue-todo-app/src/composables/useTodos.ts:276-279 | runs the listener removal as written, then leaves no socket |
| Composable.UseTodos.constructor | vue-todo-app/src/composables/useTodos.ts:6-11 | an empty list, the `all` filter, no editors, zero stats |
| Composable.UseTodos.LoadStats | vue-todo-app/src/composables/useTodos.ts:149-156 | takes the fetched stats; a failed request keeps the old ones |
| Composable.UseTodos.LoadTodos | vue-todo-app/src/composables/useTodos.ts:13-26 | requests the given filter or the current one; on success replaces the list wholesale and reloads the stats; on failure changes nothing |
| Composable.UseTodos.SetFilter | vue-todo-app/src/composables/useTodos.ts:266-268 | a new filter reloads the list for it; the same filter does nothing |
| Composable.UseTodos.AddTodo | vue-todo-app/src/composables/useTodos.ts:28-42 | no request exactly when the text is blank; otherwise a create request with the trimmed text; the list is not touched |
| Composable.UseTodos.ToggleTodo | vue-todo-app/src/composables/useTodos.ts:58-73 | no request exactly when the id is not cached; otherwise an update of `completed` to the negation of the cached item's value |
| Composable.UseTodos.UpdateTodo | vue-todo-app/src/composables/useTodos.ts:75-100 | no request exactly when a supplied text is blank; otherwise an update carrying only the supplied fields, the text trimmed |
| Composable.UseTodos.OnTodoCreated | vue-todo-app/src/composables/useTodos.ts:159-173 | the list becomes `AfterCreated` of the old list; stats are reloaded; unique ids and filter membership are preserved |
| Composable.UseTodos.OnTodoUpdated | vue-todo-app/src/composables/useTodos.ts:175-196 | the list becomes `AfterUpdated` of the old list; stats are reloaded; unique ids and filter membership are preserved |
| Composable.UseTodos.OnTodoDeleted | vue-todo-app/src/composables/useTodos.ts:198-204 | the list becomes `AfterDeleted` of the old list; stats are reloaded; unique ids and filter membership are preserved |
| Composable.UseTodos.OnTodosBulkUpdated | vue-todo-app/src/composables/useTodos.ts:206-208 | a full reload under the current filter |
| Composable.UseTodos.OnTodosBulkDeleted | vue-todo-app/src/composables/useTodos.ts:210-212 | a full reload under the current filter |
| Composable.UseTodos.OnTodoEditStart | vue-todo-app/src/composables/useTodos.ts:214-216 | afterwards the item is being edited by the user, with no text |
| Composable.UseTodos.OnTodoEditEnd | vue-todo-app/src/composables/useTodos.ts:218-220 | afterwards the item is not being edited |
| Composable.UseTodos.OnTodoEditChange | vue-todo-app/src/composables/useTodos.ts:222-227 | the map becomes `EditChanged` of the old map, guarded by the editor's identity |
| Composable.UseTodos.RunListener | vue-todo-app/src/composables/useTodos.ts:158-228 | bulk events reload the list and, when both requests succeed, the stats; item events patch the list as `Reconcile` says and take the reloaded stats when that request succeeds; presence events touch only the presence map |
| Composable.UseTodos.GetEditingText | vue-todo-app/src/composables/useTodos.ts:242-248 | the recorded editor's text; nothing for an item nobody edits |
| Composable.UseTodos.GetEditingUserId | vue-todo-app/src/composables/useTodos.ts:242-252 | defined exactly when `isBeingEdited` (`IsBeingEdited`, lines 242-244) holds, and then it is the editor's id |
| Composable.UseTodos.StartEditing | vue-todo-app/src/composables/useTodos.ts:230-232 | sends `startEdit` through the socket service, and only when there is a socket |
| Composable.UseTodos.EndEditing | vue-todo-app/src/composables/useTodos.ts:234-236 | sends `endEdit` through the socket service, and only when there is a socket |
| Composable.UseTodos.EmitEditChange | vue-todo-app/src/composables/useTodos.ts:238-240 | sends `editChange` through the socket service, and only when there is a socket |
| Sync.Mirrors | vue-todo-app/src/composables/useTodos.ts:145 | a list mirrors a store under a filter when it holds exactly the admitted stored items, each once, as stored |
| Sync.FilterAgreement | vue-todo-app/src/composables/useTodos.ts:161-164 | the client's `shouldShow` (`ShouldShow`) admits exactly what the server's filtered query returns |
| Sync.LoadMirrors | vue-todo-app/src/composables/useTodos.ts:13-26 | a successful load for the current filter is a mirror of the store |
| Sync.CreateEmits | todo-api/src/services/todo.service.ts:17-22 | `create` emits `todoCreated` with the saved row, together with the matching store change |
| Sync.UpdateEmits | todo-api/src/services/todo.service.ts:46-52 | `update` of a present row with a valid body emits `todoUpdated` with the saved row, together with the matching store change |
| Sync.RemoveEmits | todo-api/src/services/todo.service.ts:54-60 | `remove` of a present row emits `todoDeleted` with its id, together with the removal of that row |
| Sync.CreatedKeepsMirror | vue-todo-app/src/composables/useTodos.ts:159-173 | a `todoCreated` for a new item keeps a mirror of the store that gained it |
| Sync.UpdatedKeepsMirror | vue-todo-app/src/composables/useTodos.ts:175-196 | a `todoUpdated` keeps a mirror of the store holding the item's new version |
| Sync.MirrorWithUpdate | vue-todo-app/src/composables/useTodos.ts:175-196 | helper: a list holding the new version when it belongs, and every other entry of a mirror, mirrors the updated store |
| Sync.DeletedKeepsMirror | vue-todo-app/src/composables/useTodos.ts:198-204 | a `todoDeleted` keeps a mirror of the store without the id |
| Sync.EmitsKeepsKeyed | todo-api/src/services/todo.service.ts:17-60 | every item event keeps every row under its own key and within its column domains |
| Sync.DeliveryKeepsMirror | todo-api/src/gateways/todo.gateway.ts:35-45 | one item event, emitted, broadcast, unwrapped and patched in, keeps the client list a mirror |
| Sync.ReplayMirrors | vue-todo-app/src/composables/useTodos.ts:158-204 | starting from a mirror, delivering the service's item events in emission order leaves a mirror of the final store |
| Sync.NoSelf | vue-todo-app/src/composables/useTodos.ts:214-227 | no entry names the client itself as editor |
| Sync.PresenceNeverSelf | vue-todo-app/src/composables/useTodos.ts:214-227 | handling presence messages none of which names the client keeps the client off its own editor list |
| Sync.ClientNeverListsItself | todo-api/src/gateways/todo.gateway.ts:67-95 | a client handling its own inbox from the gateway never lists itself as an editor |
| Sync.EditSessionSeenByPeer | vue-todo-app/src/composables/useTodos.ts:214-227 | another client sees the editor's session as start with no text, then the typed text, then removal; a change attributed to anyone else is ignored |

## Left out

- Async and concurrency: awaits, request races and cross-client ordering are not modelled. Each client applies its messages one at a time, in arrival order.
- The `loading` and `error` flags, the Korean error strings and all logging are not modelled.
- vue-todo-app/src/services/api.ts, the HTTP client, is not part of this model. Its answers are the `fetched` and `stats` parameters, with `None` for a failed request.
- socket.io transport and reconnection are not modelled. `Connect` replaces the socket; the forwarding handlers that a replaced socket still holds are not modelled.
- JSON `null` for optional DTO fields is not modelled. A body value is a string, a boolean or some other value.
- Text length is counted in Unicode characters, as `MaxLength` does. The model also counts the variation selectors U+FE0E and U+FE0F, which `MaxLength` ignores.
- uuid generation and wall-clock timestamps are parameters: a fresh key that is not in the store, and a natural `now`.
- TypeORM's skipping of a save that changes nothing is not modelled: `updatedAt` is refreshed on every save.
- Rows with equal `createdAt` may come from `findAll` in any order, as SQL leaves them.
- The client's `removeTodo`, `clearCompleted`, `clearAll` and `toggleAllTodos` (vue-todo-app/src/composables/useTodos.ts:44-56, 102-142) only await the request. The list and the stats change only when the resulting socket event arrives, which `UseTodos.RunListener` models; they are not separate members.
- `filteredTodos` is the list itself and `todoStats` is the fetched value; neither is a separate member.
- The composable's eight callbacks are opaque handles. What each does when run is `UseTodos.RunListener`.
- The listener registry is keyed by the eight server event names. The client never registers other names.
- Vue reactivity (`ref`, `computed`, `watch`, mount hooks) is modelled as plain fields and methods.
- Service.ToggleTwice: two `toggleAll` calls restore the original values only from a uniform state; from a mixed state the first call completes everything and the second makes everything active.
- UpdateDto.ParseUpdate: an update may set the text to `""`, because the update DTO has no non-empty rule. `Entity.ValidTodo` therefore bounds only the length.
- Composable.UpdatedReconciles: an updated item that starts to match the filter is prepended, not placed by `createdAt`.

## Findings

| source | as written | input that shows it | evidently intended | confidence | as-written member | corrected member |
|---|---|---|---|---|---|---|
| vue-todo-app/src/composables/useTodos.ts:254-263 | `removeSocketListeners` passes to `off` arrow functions created on the spot. `off` compares by identity, so nothing is removed. | Mount, unmount and mount again. Every event then has two callbacks from the composable, so each `todoCreated` runs the handler twice. | Pass the same callbacks that `setupSocketListeners` registered, so that unmounting restores the registry. | high, not executed | Listeners.UnmountKeepsListeners | Listeners.UnmountRestoresListeners |
