# Queue management system — a Dafny model

This project models the core of a ticket-queue system for walk-in customers.
- A customer requests a numbered ticket for a service, remotely or at a kiosk.
- On arrival the customer activates the ticket: it moves from `pending` to `waiting`.
- A staff member at a counter calls the next waiting ticket for the counter's service: it moves to `serving`.

The model covers three layers:

- **The server's handlers**, as one atomic step each on an in-memory table (a class holding a `seq` of rows and the auto-increment `nextId`):
  - tickets: the current TypeScript handlers and the older JavaScript ones;
  - counters and services;
  - the schema validators of the `Ticket` and `users` tables;
  - the bearer-token middleware, and the ticket routes that mount (or fail to mount) it.
- **The client's Redux stores**: tickets, counters, services, the kiosk queue and the session. Each reducer is a method on a class whose fields are the store's state. Thunk payloads are parameters.
- **The two pages' logic**:
  - the staff counter page: the waiting list, counter/service selection and the "Call Next Customer" button;
  - the customer's remote page: the active ticket, people ahead, estimated wait, waiting count per service, and the request form.

Store contents, the clock (`now`), `jwt.verify` and the server's answers are parameters. Dates are integers. JavaScript behaviour the code relies on is written out:
- truthiness (`0`, `""`, `null`, `undefined` and `NaN` are falsy);
- `parseInt` (`None` stands for `NaN`);
- `trim`;
- `split(' ')`;
- `x || default`.

Modules follow the source files:
- `TicketModel` and `UserModel` (schemas);
- `AuthMiddleware`;
- `TicketController`, `TicketRoutes`, `CountersController` and `ServicesController`;
- `TicketsSlice`, `CountersSlice`, `ServicesSlice`, `QueueSlice` and `AuthSlice`;
- `CounterInterface` and `RemoteInterface`.

Helper modules:
- `Lists`: `find`, `findIndex`, `filter`, replace-by-id, remove-by-id and a stable sort, with their lemmas;
- `JsStrings`: `parseInt`, `trim`, `split`/`join`;
- `Http`: status codes and error kinds;
- `Wrappers`: `Option`.

## Model

| member | source | states |
|---|---|---|
| TicketModel.ParseStatus | B-queue-management-system-backend/src/models/ticketModel.js:13-19 | the `isIn` validator accepts exactly the six status names; an accepted string names the status it returns, a refused one names no status |
| TicketModel.ParseStatusName | B-queue-management-system-backend/src/models/ticketModel.js:17 | every status name passes the validator and reads back as that status |
| TicketModel.Violations | B-queue-management-system-backend/src/models/ticketModel.js:9-27 | a row is valid iff `ticketNumber`, `customerName` and `serviceId` are present and a given status passes `isIn` |
| TicketModel.BuildTicket | B-queue-management-system-backend/src/models/ticketModel.js:9-64 | a row is stored iff it is valid; the stored ticket keeps every given column, defaults status to `pending`, sets both timestamps to now, and leaves the nullable columns as given; an invalid row is refused with its violated columns |
| UserModel.ParseRole | B-queue-management-system-backend/src/models/userModel.js:18-25 | the role validator accepts exactly `admin`, `staff`, `customer` |
| UserModel.Violations | B-queue-management-system-backend/src/models/userModel.js:9-29 | a user row is valid iff email, password and fullName are present and a given role passes `isIn` |
| UserModel.UserTable.Create | B-queue-management-system-backend/src/models/userModel.js:9-29 | an invalid row is refused with its columns; a taken email is refused by the unique index; otherwise the user is appended with role defaulting to `customer`, and emails stay unique |
| AuthMiddleware.TokenOf | B-queue-management-system-backend/src/middlewares/authMiddleware.ts:7-8 | a token found is non-empty, has no space, and comes from a header with at least two space-separated words |
| AuthMiddleware.EmptySecondWordHasNoToken | B-queue-management-system-backend/src/middlewares/authMiddleware.ts:7-11 | an empty second word (`"Bearer "`, or two spaces after the scheme even with a token after them) yields no token, so the request gets 401 "Unauthorized" |
| AuthMiddleware.TokenIsSecondWord | B-queue-management-system-backend/src/middlewares/authMiddleware.ts:7 | the token is the second word whatever the first word (the scheme is not checked) and whatever follows |
| AuthMiddleware.OneWordHasNoToken | B-queue-management-system-backend/src/middlewares/authMiddleware.ts:7-11 | a header without a space yields no token |
| AuthMiddleware.Decide | B-queue-management-system-backend/src/middlewares/authMiddleware.ts:6-21 | "Unauthorized" iff no token; "Invalid token" iff verification fails; otherwise the request passes with the decoded payload |
| AuthMiddleware.Exchange.Run | B-queue-management-system-backend/src/middlewares/authMiddleware.ts:6-21 | on acceptance `req.user` is the payload and `next` is called exactly once; on rejection the response is 401 with the message and `next` is not called |
| JsStrings.ParseInt | B-queue-management-system-backend/src/controllers/ticketController.ts:124-128 | `parseInt(s, 10)`: NaN iff, after leading white space (ECMAScript's set) and an optional sign, no decimal digit follows |
| JsStrings.ParseIntOfIntToString | B-queue-management-system-backend/src/controllers/ticketController.ts:14-15 | `parseInt` reads back the decimal string of every integer |
| JsStrings.ParseIntIgnoresTrailingText | B-queue-management-system-backend/src/controllers/ticketController.ts:124-128 | `parseInt` reads an integer's decimal string and ignores any text after it that does not start with a digit (`"12abc"` gives 12) |
| JsStrings.Trim | src/pages/customer/RemoteInterface.tsx:67 | `trim()`: the result is the infix of the string after its leading white space; only white space (tab, LF, VT, FF, CR, the Zs spaces, NBSP, U+2028/9, BOM) is dropped on either side, neither end of the result is white space, and it is empty iff the string is all white space |
| JsStrings.SplitJoin | B-queue-management-system-backend/src/middlewares/authMiddleware.ts:7 | `split(' ')` of words joined by spaces gives back those words |
| TicketController.ExtractUserId | B-queue-management-system-backend/src/controllers/ticketController.ts:8-23 | undefined iff there is no object payload or no id claim; NaN iff the claim is a string `parseInt` refuses; a numeric claim is returned as is |
| TicketController.StringClaimReadsBack | B-queue-management-system-backend/src/controllers/ticketController.ts:14-15 | a string claim holding a number's decimal digits yields that number |
| TicketController.StoredUserId | B-queue-management-system-backend/src/controllers/ticketController.ts:57-66 | the stored `userId` is the extracted id, or null when undefined or NaN |
| TicketController.MaxTicketNumber | B-queue-management-system-backend/src/controllers/ticketController.ts:39-42 | none iff the service has no tickets; otherwise a number that a ticket of the service holds and no ticket of the service exceeds |
| TicketController.NextTicketNumber | B-queue-management-system-backend/src/controllers/ticketController.ts:44-53 | 1 for a service without tickets, else the service's maximum + 1; above every number of the service |
| TicketController.NextNumberIgnoresOtherServices | B-queue-management-system-backend/src/controllers/ticketController.ts:39-42 | the next number depends only on the service's own tickets |
| TicketController.NextNumberAfterCreate | B-queue-management-system-backend/src/controllers/ticketController.ts:57-66 | after creating a ticket with the next number, the service's next number is one higher |
| TicketController.NextNumberAfterOtherService | B-queue-management-system-backend/src/controllers/ticketController.ts:39-53 | a ticket of another service leaves a service's next number unchanged |
| TicketController.NumberedInOrderAppend | B-queue-management-system-backend/src/controllers/ticketController.ts:39-66 | appending a ticket with the next number keeps numbers strictly increasing per service in creation order |
| TicketController.NumbersUniquePerService | B-queue-management-system-backend/src/controllers/ticketController.ts:39-66 | under that ordering, two tickets of one service never share a number |
| TicketController.AnonymousOrUnownedMayActivate | B-queue-management-system-backend/src/controllers/ticketController.ts:138-142 | a caller without a (truthy) id, or a ticket without an owner, is never refused |
| TicketController.OnlyOwnerMayActivate | B-queue-management-system-backend/src/controllers/ticketController.ts:138-142 | for an owned ticket and a signed-in caller, both rules refuse iff the caller is not the owner |
| TicketController.LegacyRuleIsStricter | B-queue-management-system-backend/src/controllers/ticketController.js:80-83 | whatever the current rule refuses, the older rule refuses too |
| TicketController.LegacyRuleRefusesAnonymousTickets | B-queue-management-system-backend/src/controllers/ticketController.js:80-83 | the older rule refuses a signed-in caller an anonymous ticket, which the current rule allows |
| TicketController.FindById | B-queue-management-system-backend/src/controllers/ticketController.ts:130-135 | a position found holds a ticket with that id; none iff no ticket has it |
| TicketController.UserTickets | B-queue-management-system-backend/src/controllers/ticketController.ts:98-101 | exactly the caller's tickets, each as often as in the table, ordered by `createdAt` descending |
| TicketController.OldestWaiting | B-queue-management-system-backend/src/controllers/ticketController.ts:160-163 | none iff the service has no `waiting` ticket; otherwise a `waiting` ticket of the service with the smallest `createdAt`, the first in table order among equals; `pending` tickets are never picked |
| TicketController.Activated | B-queue-management-system-backend/src/controllers/ticketController.ts:144-146 | status `waiting`, `scannedAt` and `updatedAt` now, every other field unchanged |
| TicketController.Claimed | B-queue-management-system-backend/src/controllers/ticketController.ts:168-170 | status `serving`, `counterId` set, `updatedAt` now, every other field unchanged |
| TicketController.TicketTable.Insert | B-queue-management-system-backend/src/controllers/ticketController.ts:57-66 | appends a `pending` ticket with the next id and the service's next number, keeping ids and per-service numbers increasing |
| TicketController.TicketTable.CreateTicket | B-queue-management-system-backend/src/controllers/ticketController.ts:26-73 | 400 without a truthy name and service, and no ticket added; otherwise 201 with a new `pending` ticket with the next number and the caller's id (null when undefined or NaN), appended |
| TicketController.TicketTable.LegacyCreateTicket | B-queue-management-system-backend/src/controllers/ticketController.js:4-34 | the same contract with the caller's raw `id` claim stored |
| TicketController.TicketTable.GetAllTickets | B-queue-management-system-backend/src/controllers/ticketController.ts:76-84 | every ticket, with 200 |
| TicketController.TicketTable.GetUserTickets | B-queue-management-system-backend/src/controllers/ticketController.ts:87-109 | 400 without a truthy caller id; otherwise the caller's tickets newest first |
| TicketController.TicketTable.LegacyGetUserTickets | B-queue-management-system-backend/src/controllers/ticketController.js:48-66 | 400 without a truthy caller id; otherwise the caller's tickets newest first |
| TicketController.TicketTable.Update | B-queue-management-system-backend/src/controllers/ticketController.ts:146 | `save` of one row with unchanged id, number and service keeps the table invariant |
| TicketController.TicketTable.ActivateTicket | B-queue-management-system-backend/src/controllers/ticketController.ts:112-154 | 400 for a missing or unparsable id; 404 for an unknown id; 403 when the current rule refuses; all with the table unchanged; otherwise only that ticket is replaced by its activated copy |
| TicketController.TicketTable.LegacyActivateTicket | B-queue-management-system-backend/src/controllers/ticketController.js:69-94 | 404 for an unparsable or unknown id; 403 when the older rule refuses; otherwise only that ticket is activated |
| TicketController.TicketTable.CallNextTicket | B-queue-management-system-backend/src/controllers/ticketController.ts:156-175 | 404 "No pending tickets" with nothing changed when the service has no `waiting` ticket; otherwise exactly the oldest one is claimed by the counter |
| CountersController.DestroyCount | B-queue-management-system-backend/src/controllers/countersController.ts:29 | with unique ids, `destroy` removes one row when the id exists and none otherwise |
| CountersController.CounterTable.CreateCounter | B-queue-management-system-backend/src/controllers/countersController.ts:4-15 | 400 without a name and nothing created; otherwise 201 with exactly the given name, staff and service, appended with the next id |
| CountersController.CounterTable.GetCounters | B-queue-management-system-backend/src/controllers/countersController.ts:17-24 | every counter, with 200 |
| CountersController.CounterTable.DeleteCounter | B-queue-management-system-backend/src/controllers/countersController.ts:26-38 | the rows with that id are removed, the others keep their order; success with one row fewer when it existed, else 404 with the table unchanged |
| CountersController.CounterTable.AssignServiceToCounter | B-queue-management-system-backend/src/controllers/countersController.ts:41-53 | 404 for an unknown id with no change; otherwise only that counter's `serviceId` changes |
| ServicesController.DeleteCount | B-queue-management-system-backend/src/controllers/servicesController.ts:32 | with unique ids, `destroy` removes one row when the id is listed and none otherwise |
| ServicesController.ServiceTable.CreateService | B-queue-management-system-backend/src/controllers/servicesController.ts:5-16 | 400 without a name and nothing created; otherwise 201 with the given name and description, appended with the next id |
| ServicesController.ServiceTable.GetServices | B-queue-management-system-backend/src/controllers/servicesController.ts:19-26 | every service, with 200 |
| ServicesController.ServiceTable.DeleteService | B-queue-management-system-backend/src/controllers/servicesController.ts:29-41 | the row with that id is removed (one row fewer) with success, or 404 with the table unchanged |
| ServicesController.DeleteServiceWithReferences | B-queue-management-system-backend/src/controllers/servicesController.ts:32 | deleting a service leaves the counters and tickets that refer to it untouched (no cascade) |
| TicketRoutes.GetUserTicketsUnguarded | B-queue-management-system-backend/src/routes/ticketRoutes.ts:18 | mounted without the middleware, `GET /user` always answers 400 |
| TicketRoutes.GetUserTicketsGuarded | B-queue-management-system-backend/src/routes/ticketRoutes.ts:18 | the current handler behind the middleware, placed as `routes/ticketRoutes.js:17` places it: 401 with its message when it rejects; otherwise 400 without a truthy id, else exactly the caller's tickets |
| TicketRoutes.ActivateTicketUnguarded | B-queue-management-system-backend/src/routes/ticketRoutes.ts:19 | mounted without the middleware, activation is never refused with 403 |
| TicketRoutes.ActivateTicketGuarded | B-queue-management-system-backend/src/routes/ticketRoutes.ts:19 | the current handler behind the middleware, placed as `routes/ticketRoutes.js:18` places it: 401 with no change when it rejects; a signed-in caller who does not own the found ticket gets 403 with no change |
| TicketsSlice.RejectionMessage | src/store/slices/ticketsSlice.ts:42 | the server's message when it is non-empty, else the fallback; never empty when the fallback is not |
| TicketsSlice.TicketsState.constructor | src/store/slices/ticketsSlice.ts:27-32 | empty list, no current ticket, not loading, no error |
| TicketsSlice.TicketsState.SetCurrentTicket | src/store/slices/ticketsSlice.ts:120-122 | only `currentTicket` changes |
| TicketsSlice.TicketsState.UpdateTicketStatus | src/store/slices/ticketsSlice.ts:123-133 | only the first ticket with that id gets the status and `updatedAt`; an unknown id changes nothing |
| TicketsSlice.TicketsState.FetchPending | src/store/slices/ticketsSlice.ts:138-141 | loading, error cleared, list kept |
| TicketsSlice.TicketsState.FetchFulfilled | src/store/slices/ticketsSlice.ts:142-145 | not loading, list replaced by the payload |
| TicketsSlice.TicketsState.FetchRejected | src/store/slices/ticketsSlice.ts:146-149 | not loading, error set, list kept |
| TicketsSlice.TicketsState.CreateFulfilled | src/store/slices/ticketsSlice.ts:164-166 | the payload is appended to the unchanged list |
| TicketsSlice.TicketsState.ActivateFulfilled | src/store/slices/ticketsSlice.ts:168-173 | the first ticket with the payload's id is replaced; ids and length kept; no change when absent |
| TicketsSlice.TicketsState.CallNextFulfilled | src/store/slices/ticketsSlice.ts:175-181 | the payload becomes current and replaces its stored copy |
| TicketsSlice.TicketsState.CompleteFulfilled | src/store/slices/ticketsSlice.ts:183-191 | the stored copy is replaced; the current ticket is cleared iff its id is the payload's |
| CountersSlice.Toggled | src/store/slices/countersSlice.ts:113 | `!isActive`: true iff the flag is not `true` (absent counts as false) |
| CountersSlice.ToggleTwice | src/store/slices/countersSlice.ts:110-115 | toggling a defined flag twice restores it |
| CountersSlice.ToggleTwiceFromAbsent | src/store/slices/countersSlice.ts:110-115 | toggling an absent flag twice leaves it `false` |
| CountersSlice.CountersState.constructor | src/store/slices/countersSlice.ts:19-23 | empty list, not loading, no error |
| CountersSlice.CountersState.SetCurrentTicket | src/store/slices/countersSlice.ts:100-109 | only the first counter with that id gets the label; an unknown id changes nothing |
| CountersSlice.CountersState.ToggleCounterActive | src/store/slices/countersSlice.ts:110-115 | only the first counter with that id flips `isActive` |
| CountersSlice.CountersState.FetchPending | src/store/slices/countersSlice.ts:120-123 | loading, error cleared, list kept |
| CountersSlice.CountersState.FetchFulfilled | src/store/slices/countersSlice.ts:124-127 | not loading, list replaced |
| CountersSlice.CountersState.FetchRejected | src/store/slices/countersSlice.ts:128-131 | not loading, error set, list kept |
| CountersSlice.CountersState.AddFulfilled | src/store/slices/countersSlice.ts:133-135 | exactly one counter appended |
| CountersSlice.CountersState.DeleteFulfilled | src/store/slices/countersSlice.ts:137-139 | no counter with that id remains, the others keep their order |
| CountersSlice.CountersState.ReplaceFulfilled | src/store/slices/countersSlice.ts:141-153 | the first counter with the payload's id is replaced, ids and length kept |
| ServicesSlice.ServicesState.constructor | src/store/slices/servicesSlice.ts:18-22 | empty list, not loading, no error |
| ServicesSlice.ServicesState.UpdateAverageServiceTime | src/store/slices/servicesSlice.ts:80-89 | only the first service with that id gets the time; an unknown id changes nothing |
| ServicesSlice.ServicesState.FetchPending | src/store/slices/servicesSlice.ts:94-97 | loading, error cleared, list kept |
| ServicesSlice.ServicesState.FetchFulfilled | src/store/slices/servicesSlice.ts:98-101 | not loading, list replaced |
| ServicesSlice.ServicesState.FetchRejected | src/store/slices/servicesSlice.ts:102-105 | not loading, error set, list kept |
| ServicesSlice.ServicesState.AddFulfilled | src/store/slices/servicesSlice.ts:107-109 | exactly one service appended |
| ServicesSlice.ServicesState.DeleteFulfilled | src/store/slices/servicesSlice.ts:111-113 | no service with that id remains, the others keep their order |
| ServicesSlice.ServicesState.UpdateFulfilled | src/store/slices/servicesSlice.ts:115-120 | the first service with the payload's id is replaced, ids and length kept |
| QueueSlice.QueueState.constructor | src/store/slices/queueSlice.ts:15-17 | the queue starts empty |
| QueueSlice.QueueState.GenerateTicket | src/store/slices/queueSlice.ts:23-29 | one ticket with the clock's id and the given name is appended to the unchanged queue |
| QueueSlice.QueueState.RemoveTicket | src/store/slices/queueSlice.ts:30-32 | no ticket with that id remains, the others keep their order, an absent id changes nothing |
| QueueSlice.RemoveUndoesGenerate | src/store/slices/queueSlice.ts:23-32 | removing a freshly generated ticket whose id was new restores the queue |
| AuthSlice.AuthState.constructor | src/store/slices/authSlice.ts:41-45 | no user, not authenticated, no error |
| AuthSlice.AuthState.Logout | src/store/slices/authSlice.ts:47-53 | user, authentication and error reset; stored token removed |
| AuthSlice.AuthState.LoginFulfilled | src/store/slices/authSlice.ts:57-61 | user from the payload, authenticated, error cleared; a truthy token is stored |
| AuthSlice.AuthState.LoginRejected | src/store/slices/authSlice.ts:62-65 | error set, not authenticated, user untouched |
| CounterInterface.CompareWaitingAgreesWithKey | src/pages/counter/CounterInterface.tsx:130-135 | on queued tickets the comparator as written and the (status rank, number) key order agree, ties included |
| CounterInterface.WaitingTickets | src/pages/counter/CounterInterface.tsx:123-136 | empty without a truthy service; otherwise exactly the service's `waiting`/`pending` tickets (a permutation of them), every `waiting` before every `pending`, ascending number within a status |
| CounterInterface.WaitingOrder | src/pages/counter/CounterInterface.tsx:132-134 | a list sorted by the key puts waiting first and numbers ascending within a status |
| CounterInterface.PendingOnlyListEnablesFruitlessCall | src/pages/counter/CounterInterface.tsx:206 | with only a `pending` ticket listed, the button is enabled while the server has nothing to call |
| CounterInterface.WaitingEntryMeansCallable | src/pages/counter/CounterInterface.tsx:123-136 | a `waiting` entry in the list means the server finds a ticket to call |
| CounterInterface.EnabledButtonSendsRequest | src/pages/counter/CounterInterface.tsx:206 | whenever the button is enabled, the guard of `handleCallNext` holds (so pressing it sends a request) and the service has a queued ticket |
| CounterInterface.UsefulButtonIffCallable | src/pages/counter/CounterInterface.tsx:206 | a button enabled only by a listed `waiting` ticket is enabled exactly when the server finds a ticket to call |
| CounterInterface.CounterPanel.SelectStaffCounter | src/pages/counter/CounterInterface.tsx:67-77 | the first counter staffed by the signed-in user is selected, with its service when truthy; otherwise nothing changes |
| CounterInterface.CounterPanel.HandleCounterChange | src/pages/counter/CounterInterface.tsx:93-103 | the counter with the parsed id (none for NaN or unknown) is selected; the service becomes its truthy service, else none |
| CounterInterface.CounterPanel.HandleServiceChange | src/pages/counter/CounterInterface.tsx:80-90 | the parsed value becomes the service; an assignment request goes out iff a counter is selected |
| CounterInterface.CounterPanel.HandleCallNext | src/pages/counter/CounterInterface.tsx:106-113 | a request with the counter and service goes out iff the guard holds: both are selected and the service is truthy |
| RemoteInterface.ActiveTicket | src/pages/customer/RemoteInterface.tsx:39-46 | a live (`pending`/`waiting`/`serving`) ticket of the list that is at least as new as every live one; none iff no ticket is live |
| RemoteInterface.NewestLive | src/pages/customer/RemoteInterface.tsx:39-46 | in a newest-first list the first live entry is the newest live ticket |
| RemoteInterface.RemotePanel.SyncActiveTicket | src/pages/customer/RemoteInterface.tsx:36-54 | the active ticket and its service are selected; with no live ticket nothing changes |
| RemoteInterface.RemotePanel.PrefillName | src/pages/customer/RemoteInterface.tsx:57-61 | a non-empty account name fills the name field, otherwise it is kept |
| RemoteInterface.WaitingCount | src/pages/customer/RemoteInterface.tsx:248-251 | the number of the service's `waiting`/`pending` tickets, at most the list length |
| RemoteInterface.WaitingCountIsWaitingListLength | src/pages/customer/RemoteInterface.tsx:248-251 | that count equals the length of the counter page's waiting list for the service |
| RemoteInterface.PeopleAhead | src/pages/customer/RemoteInterface.tsx:112-118 | the number of same-service queued tickets with a smaller number; at most the service's tickets and its waiting count; 0 when none is ahead |
| RemoteInterface.AverageTime | src/pages/customer/RemoteInterface.tsx:125-126 | the service's average time when present and non-zero, else 5; never 0 |
| RemoteInterface.CurrentLabel | src/pages/customer/RemoteInterface.tsx:121-122 | the first counter of the service's non-empty label, else "None"; never empty |
| RemoteInterface.QueueStatusOf | src/pages/customer/RemoteInterface.tsx:108-134 | null iff there is no ticket; otherwise people ahead, label and wait = people ahead × average time, the wait being 0 iff nobody is ahead |
| RemoteInterface.PeopleAheadAsFetched | src/pages/customer/RemoteInterface.tsx:29-33 | the count the page shows, over the tickets the page has fetched (the customer's own) |
| RemoteInterface.OthersAheadAreNotCounted | src/pages/customer/RemoteInterface.tsx:112-118 | one other customer's waiting ticket is ahead, yet the page shows 0 people ahead |
| RemoteInterface.WaitingCountAsFetched | src/pages/customer/RemoteInterface.tsx:248-251 | the waiting count the page shows, over the tickets it has fetched (the customer's own) |
| RemoteInterface.OthersWaitingAreNotCounted | src/pages/customer/RemoteInterface.tsx:248-251 | two tickets are queued for the service, yet the page shows a waiting count of 1 |
| RemoteInterface.RemotePanel.RequestTicket | src/pages/customer/RemoteInterface.tsx:64-89 | error cleared; a request with the trimmed name goes out iff a service is selected and the trimmed name is non-empty; otherwise the error asks for both |
| RemoteInterface.RemotePanel.RequestFulfilled | src/pages/customer/RemoteInterface.tsx:72-76 | the new ticket is shown, phone and service reset |
| RemoteInterface.RemotePanel.RequestRejected | src/pages/customer/RemoteInterface.tsx:77-79 | the server's message, or the default; never empty |
| RemoteInterface.RemotePanel.RequestCrashed | src/pages/customer/RemoteInterface.tsx:82-85 | the unexpected-error message is shown |
| RemoteInterface.RemotePanel.ActivateRequest | src/pages/customer/RemoteInterface.tsx:92-94 | the page's ticket id is sent iff the page has a ticket |
| RemoteInterface.RemotePanel.ActivateFulfilled | src/pages/customer/RemoteInterface.tsx:95-97 | the server's copy becomes the page's ticket |
| RemoteInterface.RemotePanel.ClearTicket | src/pages/customer/RemoteInterface.tsx:103-105 | the page forgets its ticket, nothing else changes |

## Left out

- HTTP plumbing is not modelled: routers, app setup, the error handler and JSON marshalling. Responses are a status plus an error kind or value.
- The ticket handlers take `req.user` as a parameter (`user` / `caller`). `TicketRoutes` wires them with and without the auth middleware; the rest of the routing is not modelled.
- Every `catch` that answers 500 is left out: database and library failures are not modelled.
- Concurrency is not modelled. Each handler is one atomic step, so the read-then-write races in numbering and call-next cannot occur in the model.
- `jwt.verify`, bcrypt and the auth controllers/services are cryptography. Verification is a function parameter.
- Thunk bodies, axios and `localStorage` are not modelled, except the session token: `AuthSlice` keeps it as a field written on login and removed on logout.
- `calculateStats` of the admin dashboard is not modelled: it uses floating point and date strings.
- Rendering, store setup and the other pages and components are not modelled.
- There is no server handler for `completeTicket`. Only the client reducer is modelled; the server side is absent from the source.
- `handleCompleteService` of the counter page only dispatches that request and is not modelled.
- Sequelize `ORDER BY` ties are taken in table (insertion) order.
- Counter and service timestamps are not modelled.
- `updatedAt` of a ticket is set to `now` on every `save`.
- Route ids of the counter and service handlers are integers. A non-numeric id there, which the database would reject, is not modelled.
- An absent `serviceId` in the assign body is modelled as null.
- TicketModel.BuildTicket: an explicit `status: null` is not represented. Sequelize applies the `'pending'` default only to an undefined attribute and would store NULL, while `None` here means left out and gets `pending`. Both handlers pass `'pending'`.
- TicketController.ExtractUserId: a NaN id is stored as null when a ticket is created. `TicketController.StoredUserId` makes this explicit.
- TicketController.TicketTable.LegacyCreateTicket: the older handlers' raw `id` claim is taken to be a number. A string claim compared with `!==` is not modelled.
- JsStrings.ParseInt: `parseInt` without a radix on a `0x` string is not modelled. The white-space set is fixed to the Zs characters of current Unicode.
- JsStrings.Trim: the white-space set is fixed to the Zs characters of current Unicode.
- RemoteInterface.AverageTime: `averageServiceTime` is a JavaScript number, modelled as an integer, so a fractional average and the fractional wait estimate it gives are not represented.
- RemoteInterface.QueueStatusOf: the estimated wait is an integer product, for the same reason.
- TicketController.TicketTable.CallNextTicket: `counterId` and `serviceId` are taken as present numbers. A body without them (`undefined`) is not represented.
- The client's `ticketNumber` is typed as a string but holds the server's integer. It is modelled as that integer, so `parseInt(ticketNumber)` is the number itself.
- The client `Counter` type lacks `userId`, but the server's rows carry it and the counter page reads it. It is modelled as present.
- QueueSlice.QueueState.GenerateTicket: the id is the clock value passed in. Two tickets generated in the same millisecond share an id, and `removeTicket` then removes both; `QueueSlice.RemoveUndoesGenerate` requires the id to be new.
- The page's `loading` flag, which also disables the request button, is not modelled.

## Findings

| source | as written | input that shows it | evidently intended | confidence | as-written member | corrected member |
|---|---|---|---|---|---|---|
| src/pages/customer/RemoteInterface.tsx:31 | the page fills the ticket store with `fetchUserTickets`, so "people ahead" (112-118) and the waiting counts (248-251) are computed over the customer's own tickets only | another customer's `waiting` ticket no. 1 and the customer's `pending` ticket no. 2 of the same service: one person is ahead, the page shows 0; two tickets are queued, the page shows 1 | count over all tickets of the service | medium, not executed | RemoteInterface.PeopleAheadAsFetched (with RemoteInterface.OthersAheadAreNotCounted), RemoteInterface.WaitingCountAsFetched (with RemoteInterface.OthersWaitingAreNotCounted) | RemoteInterface.PeopleAhead, RemoteInterface.WaitingCount |
| src/pages/counter/CounterInterface.tsx:206 | the button is enabled by any listed ticket, and the list holds `pending` tickets too (129), but `callNextTicket` only takes `waiting` ones (B-queue-management-system-backend/src/controllers/ticketController.ts:161) and answers 404 | a service whose only ticket is `pending`: the button is enabled and pressing it gets 404 "No pending tickets" | enable the button only when a listed ticket is `waiting` | medium, not executed | CounterInterface.PendingOnlyListEnablesFruitlessCall | CounterInterface.UsefulButtonIffCallable |
| B-queue-management-system-backend/src/routes/ticketRoutes.ts:16-19 | under the comment "Protected routes - require authentication" the handlers are mounted without `authMiddleware`, so `req.user` is always undefined | any request to `GET /tickets/user`: 400; any `PUT /tickets/:id/activate` on another user's ticket: accepted | mount `authMiddleware` in front, as `routes/ticketRoutes.js` does | high, not executed | TicketRoutes.GetUserTicketsUnguarded, TicketRoutes.ActivateTicketUnguarded | TicketRoutes.GetUserTicketsGuarded, TicketRoutes.ActivateTicketGuarded |
