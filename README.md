# Popup manager — a verified Dafny model

`Popup.Manager` is a single-slot popup scheduler. Requests (`PopupTask`s) are
admitted at any time into a priority backlog. At most one request holds the
presentation slot, and it is driven through a six-state machine: `idle`,
`active`, `handleShow`, `handleCancel`, `inProgress`, `handleDismiss`. When the
presented request yields, the highest-priority request waiting is promoted.
A request that sets its `isCanceled` flag by the time it is offered is
withdrawn (`didCanceled`) instead of being presented, and the next one is
tried.

The project models two versions of the manager:

- the current one (`Sources/Popup/PopupManager.swift`). Its active task sits in
  a slot outside the backlog, and a `prioritySet` holds the priorities it has
  reserved. It refuses a duplicate priority (`containsSamePriority`) and a
  yield from a task that is not presented (`finishInactiveTask`).
- the older one (`Popup/Sources/Popup/PopupManager.swift`). Its active task is
  the backlog's `peek()` and it never refuses anything.

The request contract and the type-erasing `AnyPopupTask` wrapper
(`Popup/Sources/Popup/PopupTask.swift`) are modelled as well.

Files:

- `wrappers.dfy`: `Option`.
- `lifecycle.dfy`: the shared `State` type and the transition-legality table
  `canTransit`, with the notion of a legal walk through it.
- `popup.dfy` (module `Popup`):
  - the `Task` class (priority, description, `isCanceled`, `manager`), with
    `resignFocus`;
  - the `AnyPopupTask` wrapper and its `<` and `==`;
  - the backlog: a sequence in descending priority order, with `push` as
    `Insert` and `pop` taking the front;
  - the current `Manager` class.
- `legacy_popup.dfy` (module `LegacyPopup`): the older `Manager` class and its
  proofs.
- `scenarios.dfy` (module `Scenarios`): the behaviour the test suite
  (`Tests/PopupTests/PopupTests.swift`) checks, restated as lemmas, plus the
  finding about the older manager.

How the model is built:

- **Manager state.** Each manager is a class whose methods update its fields
  (`queue`, `activeTask`, `prioritySet`, `state`) as the source does. The
  recursive `transit`/`handleTo*` chain is kept as mutually recursive
  methods; each one decreases `|queue|` and a rank of the target state.
- **Ghost traces.** Two ghost fields record what the manager did:
  - `walk` holds every state entered, self-loops included;
  - `events` holds every lifecycle hook called, as `Event(task, hook)`.
- **Specification functions.** Every method is proved against a pure ghost
  function of the manager's snapshot (`Now()`): `AfterTransit` and
  `AfterHandler` mirror the chain, and `AfterAdd`, `AfterResign` and
  `AfterFinish` give whole public calls. The closed-form lemmas and the
  invariant `AtRest` are proved about these functions.
- **Hooks.** The protocol's default hooks have empty bodies, so a hook call
  appears only as an event. A hook forwarded by `AnyPopupTask` is recorded
  against the wrapped `base` task.
- **Tests as lemmas.** The probe task of `Tests/PopupTests/TestPopupTask.swift`
  is the function `Scenarios.Probe` over the hooks a task received.

Notes on the source:

- The table at `Sources/Popup/PopupManager.swift:124-129` has ten legal pairs
  (`Lifecycle.LegalPairsCount`).
- `isCanceled` is read once, right after `willShow`
  (`Sources/Popup/PopupManager.swift:188-191`).
- `resignFocus` on a task that was never added (`manager == nil`) returns
  silently (`Sources/Popup/PopupManager.swift:113-115`).
- The doc comment "priority, ascend order" (`Popup/Sources/Popup/PopupTask.swift:17`)
  is contradicted by the code and the tests, which serve the highest
  priority first. The model serves the highest priority first.

## Model

| member | source | states |
|---|---|---|
| Lifecycle.CanTransit | Sources/Popup/PopupManager.swift:122-133 | definition of `canTransit`: the switch over (from, to) pairs; its table is stated by `Lifecycle.CanTransitIsTable` and the lemmas after it |
| Lifecycle.CanTransitIsTable | Sources/Popup/PopupManager.swift:122-133 | `canTransit(from, to)` holds exactly for the pairs of the listed table, in both directions |
| Lifecycle.LegalPairsCount | Sources/Popup/PopupManager.swift:123-131 | the table lists exactly ten legal (from, to) pairs |
| Lifecycle.SelfLoops | Sources/Popup/PopupManager.swift:124-128 | a state may transit to itself iff it is `idle` or `inProgress` (the two no-op cases of `transit`) |
| Lifecycle.ForcedSuccessors | Sources/Popup/PopupManager.swift:125-129 | `handleCancel` and `handleDismiss` can only go to `active`; `handleShow` only to `inProgress` or `handleCancel`; `active` only to `handleShow` or `idle` |
| Lifecycle.LegalWalkSnoc | Sources/Popup/PopupManager.swift:140-147 | a checked transition extends a legal walk to a legal walk |
| Lifecycle.LegalWalkConcat | Sources/Popup/PopupManager.swift:140-147 | two legal walks joined at a legal pair form a legal walk |
| Lifecycle.LegalWalkExtend | Sources/Popup/PopupManager.swift:140-147 | a legal continuation from the last state extends a legal walk and fixes its last state |
| Popup.Task.constructor | Tests/PopupTests/TestPopupTask.swift:24-35 | a new task has the given priority and description, is not canceled and has no manager |
| Popup.Task.ResignFocus | Sources/Popup/PopupManager.swift:113-115 | with no manager the call passes and changes nothing; otherwise it fails with `finishInactiveTask` exactly when the task is not the active one, changing nothing then, and otherwise runs the dismissal transit |
| Popup.AnyPopupTask.SetManager | Popup/Sources/Popup/PopupTask.swift:63-66 | setting `manager` on the wrapper writes `base.manager` |
| Popup.AnyPopupTask.SetDescription | Popup/Sources/Popup/PopupTask.swift:68-71 | setting `taskDescription` on the wrapper writes `base.taskDescription` |
| Popup.AnyPopupTask.SetCanceled | Popup/Sources/Popup/PopupTask.swift:73-76 | setting `isCanceled` on the wrapper writes `base.isCanceled` |
| Popup.ForwardingReads | Popup/Sources/Popup/PopupTask.swift:63-76 | the wrapper reports `base`'s priority, manager, description and `isCanceled` |
| Popup.DescriptionsAgree | Popup/Sources/Popup/PopupTask.swift:30-34 | `description` and `debugDescription` of a task and of its wrapper (lines 119-123) all equal `taskDescription` |
| Popup.LessIsStrictOrder | Popup/Sources/Popup/PopupTask.swift:110-112 | `<` holds iff the priorities are ordered; it is irreflexive, asymmetric and transitive, and any two wrappers are `<`-related one way or `==` |
| Popup.EqualsIsPriorityEquality | Popup/Sources/Popup/PopupTask.swift:114-116 | `==` holds iff the priorities are equal; two different tasks with one priority compare `==`; `==` is incomparability under `<` |
| Popup.HooksOfCalls | Popup/Sources/Popup/PopupTask.swift:86-105 | a hook call through the wrapper is received by the wrapped task and by no other task; the presentation, cancellation and dismissal calls reach their task as `willShow, render, didShow`, `willShow, didCanceled` and `willDismiss, didDismiss` |
| Popup.Insert | Sources/Popup/PopupManager.swift:77 | `push` yields the old elements plus the new one (as a multiset) |
| Popup.InsertMembers | Sources/Popup/PopupManager.swift:77 | after `push` the backlog is one longer and holds exactly the old elements and the new one |
| Popup.InsertDescending | Sources/Popup/PopupManager.swift:77 | `push` keeps a descending backlog descending |
| Popup.InsertStrict | Sources/Popup/PopupManager.swift:70-77 | the `push` of a priority not yet present keeps the backlog strictly descending |
| Popup.InsertPriorities | Sources/Popup/PopupManager.swift:75-77 | after `push` the backlog's priorities are the old ones plus the new task's |
| Popup.InsertAbove | Popup/Sources/Popup/PopupManager.swift:51 | a task above the current top becomes the new top, ahead of all the old elements |
| Popup.FrontIsMaximum | Sources/Popup/PopupManager.swift:176 | the element `pop` takes from a descending backlog is not below any element of it |
| Popup.FrontBounds | Sources/Popup/PopupManager.swift:176 | the front of a (strictly) descending backlog is (strictly) above everything behind it |
| Popup.Remove | Popup/Sources/Popup/PopupManager.swift:166 | `remove` shortens the backlog by one when some element is `==` (same priority) to the task and otherwise leaves it as it is; it only drops elements |
| Popup.RemoveIsFirstEqual | Popup/Sources/Popup/PopupManager.swift:166 | when some element is `==` to the task, `remove` drops exactly the first such element, at an index `i` it returns, and keeps all the others in order |
| Popup.RemoveFront | Popup/Sources/Popup/PopupManager.swift:160-166 | removing the top by priority equality removes exactly the top |
| Popup.StrictIsDistinct | Sources/Popup/PopupManager.swift:70-75 | with distinct priorities, no task is queued twice |
| Popup.PrioritiesFront | Sources/Popup/PopupManager.swift:176-202 | popping the front releases exactly the front's priority from a strictly descending backlog |
| Popup.CanceledPrefix | Sources/Popup/PopupManager.swift:168-206 | the count of front tasks that cancel themselves: each of them cancels, and the next one does not |
| Popup.PromotionWalkIsLegal | Sources/Popup/PopupManager.swift:168-206 | the states a promotion enters form a legal walk from `active`, ending in `idle` iff every waiting task cancels itself and in `inProgress` otherwise |
| Popup.PrioritiesSplit | Sources/Popup/PopupManager.swift:202 | once the canceled prefix has released its priorities, those left are the promoted task's and the rest of the backlog's, and the rest stays strictly descending |
| Popup.PromotionCallsSplit | Sources/Popup/PopupManager.swift:182-218 | a promotion's hook calls are the cancellations of the canceled prefix, then the presentation of the first task that does not cancel |
| Popup.Tasks | Sources/Popup/PopupManager.swift:50 | definition of `queue.value.map { $0.base }`: the wrapped tasks of the backlog, in order |
| Popup.Listing | Sources/Popup/PopupManager.swift:49-57 | `allTasks` is the active task (if any) followed by the backlog's tasks in order |
| Popup.AfterTransit | Sources/Popup/PopupManager.swift:140-161 | definition of `transit(to:)` on a snapshot: enter the target state, record it in the walk, and run the handler for it, except for the `idle → idle` and `inProgress → inProgress` no-ops; it requires a legal transition (the `fatalError` guard at 141-143) |
| Popup.AfterHandler | Sources/Popup/PopupManager.swift:163-232 | definition of the six `handleTo*` handlers on a snapshot, mutually recursive with `AfterTransit` and decreasing on the backlog length; their closed forms are `Popup.PromoteFrom` and `Popup.DismissFrom` |
| Popup.BecomeActive | Sources/Popup/PopupManager.swift:83-95 | definition of `becomeActiveIfNeeded`: transit to `active` iff `allTasks` holds exactly one task, otherwise no change |
| Popup.Admit | Sources/Popup/PopupManager.swift:69-81 | definition of the body of `add` past its guard: reserve the priority, push, then `BecomeActive`; its effect is stated by `Popup.AdmitRests`, `Popup.AdmitWhileBusy` and `Popup.AdmitWhenIdle` |
| Popup.ActiveWhenEmpty | Sources/Popup/PopupManager.swift:168-173 | entering `active` with an empty backlog goes to `idle` and changes nothing else |
| Popup.ActiveWhenShown | Sources/Popup/PopupManager.swift:168-218 | entering `active` with a front task that does not cancel pops it into the slot, calls `willShow`, `render`, `didShow` and ends in `inProgress` |
| Popup.ActiveWhenCanceled | Sources/Popup/PopupManager.swift:176-206 | a front task that cancels is popped, offered, receives `didCanceled`, has its priority released and slot cleared, and `active` is entered again |
| Popup.PromoteFrom | Sources/Popup/PopupManager.swift:168-218 | closed form of a promotion: the canceled prefix is withdrawn with its priorities released; the first task that does not cancel is presented and the rest stays queued; if none, the manager is `idle` with an empty backlog |
| Popup.PromoteStep | Sources/Popup/PopupManager.swift:194-206 | a withdrawal followed by a promotion in closed form is a promotion in closed form |
| Popup.PromoteRests | Sources/Popup/PopupManager.swift:168-218 | a promotion from a coherent entry into `active` leaves the manager at rest, with `prioritySet` still the held priorities (the releases at lines 202 and 228) |
| Popup.AdmitRests | Sources/Popup/PopupManager.swift:69-95 | `add` of a free priority keeps the invariant: ordered backlog, `prioritySet` equal to the held priorities, legal walk, and either `idle` with nothing held or `inProgress` with the active task presented |
| Popup.AdmitWhileBusy | Sources/Popup/PopupManager.swift:74-87 | while a task is presented, `add` only pushes the new task and reserves its priority; slot, state and hook calls are unchanged |
| Popup.AdmitWhenIdle | Sources/Popup/PopupManager.swift:69-95 | `add` on an idle manager walks `idle → active → handleShow → inProgress` and presents the task, or, if it cancels, withdraws it and returns to `idle` with nothing reserved |
| Popup.DismissUnfolds | Sources/Popup/PopupManager.swift:220-231 | dismissal calls `willDismiss` then `didDismiss`, releases the priority, clears the slot and enters `active` |
| Popup.DismissCloses | Sources/Popup/PopupManager.swift:220-232 | after a dismissal the promotion's closed form holds with the dismissed task's priority released |
| Popup.DismissPromotes | Sources/Popup/PopupManager.swift:220-232 | a dismissal from rest promotes the backlog and leaves the manager at rest |
| Popup.DismissFrom | Sources/Popup/PopupManager.swift:168-232 | closed form of a dismissal: the dismissal calls, then the promotion of the backlog with the released priorities exactly those given up; at rest afterwards |
| Popup.AfterAdd | Sources/Popup/PopupManager.swift:69-81 | a whole `add` call keeps the manager at rest; a reserved priority leaves everything unchanged |
| Popup.AfterResign | Sources/Popup/PopupManager.swift:99-105 | a whole yield keeps the manager at rest; a yield by anything but the active task changes nothing; one by the active task vacates its slot |
| Popup.Manager.constructor | Sources/Popup/PopupManager.swift:59-65 | a new manager is idle with an empty backlog, no active task and nothing reserved |
| Popup.Manager.Add | Sources/Popup/PopupManager.swift:69-81 | fails with `containsSamePriority` iff the priority is reserved, changing nothing then; otherwise sets `task.manager` and admits the task as `Admit` says; keeps `Valid()` |
| Popup.Manager.BecomeActiveIfNeeded | Sources/Popup/PopupManager.swift:83-95 | starts the machine iff the new task is the only one held, otherwise changes nothing |
| Popup.Manager.TaskResignFocusAction | Sources/Popup/PopupManager.swift:99-105 | fails with `finishInactiveTask` iff the task is not the active one, changing nothing then; otherwise runs the dismissal transit; keeps `Valid()` |
| Popup.Manager.Transit | Sources/Popup/PopupManager.swift:140-161 | requires a legal transition (the `fatalError` guard) and computes `AfterTransit` |
| Popup.Manager.HandleToIdle | Sources/Popup/PopupManager.swift:163-166 | computes `AfterHandler` in `idle` |
| Popup.Manager.HandleToActive | Sources/Popup/PopupManager.swift:168-180 | computes `AfterHandler` in `active` |
| Popup.Manager.HandleToShow | Sources/Popup/PopupManager.swift:182-192 | computes `AfterHandler` in `handleShow` |
| Popup.Manager.HandleToCancel | Sources/Popup/PopupManager.swift:194-206 | computes `AfterHandler` in `handleCancel` |
| Popup.Manager.HandleToInProgress | Sources/Popup/PopupManager.swift:208-218 | computes `AfterHandler` in `inProgress` |
| Popup.Manager.HandleToDismiss | Sources/Popup/PopupManager.swift:220-232 | computes `AfterHandler` in `handleDismiss` |
| Popup.Manager.AllTasks | Sources/Popup/PopupManager.swift:49-57 | definition of `allTasks` on the manager's fields (`Listing(activeTask, queue)`); its properties are `Popup.AllTasksOrdered` |
| Popup.ListingDescends | Sources/Popup/PopupManager.swift:49-57 | after the active task, `allTasks` is in strictly descending priority, in the model's backlog order |
| Popup.ListingDistinct | Sources/Popup/PopupManager.swift:49-57 | no two tasks of `allTasks` share a priority |
| Popup.ListingPriorities | Sources/Popup/PopupManager.swift:49-57 | the priorities in `allTasks` are exactly those of the active task and the backlog |
| Popup.AllTasksOrdered | Sources/Popup/PopupManager.swift:49-57 | on a valid manager, `allTasks` starts with the active task, counts every task held, is strictly descending after it in the model's backlog order, has distinct priorities, and its priorities are exactly `prioritySet` |
| LegacyPopup.AfterTransit | Popup/Sources/Popup/PopupManager.swift:109-130 | definition of the older `transit(to:)` on a snapshot, with the same table and no-op cases as the current one |
| LegacyPopup.AfterHandler | Popup/Sources/Popup/PopupManager.swift:132-197 | definition of the older handlers: the active task is the backlog top; cancellation removes it by priority equality and dismissal pops it; closed forms in `LegacyPopup.PromoteFrom` and `LegacyPopup.DismissFrom` |
| LegacyPopup.BecomeActive | Popup/Sources/Popup/PopupManager.swift:57-69 | definition of the older `becomeActiveIfNeeded`: transit to `active` iff the queue holds exactly one task, which then requires `idle` |
| LegacyPopup.Admit | Popup/Sources/Popup/PopupManager.swift:48-55 | definition of the older `add`: push, then `BecomeActive`, never refused; its effect is stated by `LegacyPopup.AdmitRests`, `LegacyPopup.AdmitWhileBusy`, `LegacyPopup.AdmitWhenIdle` and `LegacyPopup.AdmitPreempts` |
| LegacyPopup.ActiveWhenEmpty | Popup/Sources/Popup/PopupManager.swift:137-141 | entering `active` with an empty queue goes to `idle` |
| LegacyPopup.ActiveWhenShown | Popup/Sources/Popup/PopupManager.swift:137-183 | entering `active` with a top that does not cancel presents it (`willShow`, `render`, `didShow`) and leaves it in the queue as `peek()` |
| LegacyPopup.ActiveWhenCanceled | Popup/Sources/Popup/PopupManager.swift:148-171 | a top that cancels is offered, removed from the queue, receives `didCanceled`, and `active` is entered again |
| LegacyPopup.PromoteFrom | Popup/Sources/Popup/PopupManager.swift:137-183 | closed form: the canceled prefix is removed, and the first task that does not cancel is presented and stays on top; if none, the manager is `idle` with an empty queue |
| LegacyPopup.PromoteRests | Popup/Sources/Popup/PopupManager.swift:137-183 | a promotion leaves the older manager at rest, with the top presented |
| LegacyPopup.AdmitRests | Popup/Sources/Popup/PopupManager.swift:48-69 | `add` always keeps the older manager at rest |
| LegacyPopup.AdmitWhileBusy | Popup/Sources/Popup/PopupManager.swift:48-61 | while a task is presented, `add` only pushes; the state and hook calls are unchanged |
| LegacyPopup.AdmitWhenIdle | Popup/Sources/Popup/PopupManager.swift:48-69 | `add` on an idle manager presents the task, or withdraws it if it cancels |
| LegacyPopup.AdmitPreempts | Popup/Sources/Popup/PopupManager.swift:42-61 | adding a task above the presented one makes it `peek()`, so `activeTask` changes although nothing was shown to it |
| LegacyPopup.DismissUnfolds | Popup/Sources/Popup/PopupManager.swift:185-197 | dismissal calls `willDismiss`, pops the top, calls `didDismiss` and enters `active` |
| LegacyPopup.DismissFrom | Popup/Sources/Popup/PopupManager.swift:137-197 | closed form of a dismissal: the dismissal calls on the top, then the promotion of the rest; at rest afterwards |
| LegacyPopup.AfterFinish | Popup/Sources/Popup/PopupManager.swift:77-83 | a whole finish keeps the manager at rest; a finish by anything but the top changes nothing; one by the top removes a task |
| LegacyPopup.Manager.constructor | Popup/Sources/Popup/PopupManager.swift:40-46 | a new manager is idle with an empty queue |
| LegacyPopup.Manager.Add | Popup/Sources/Popup/PopupManager.swift:48-55 | never refuses; pushes and starts the machine as `Admit` says; keeps `Valid()` |
| LegacyPopup.Manager.BecomeActiveIfNeeded | Popup/Sources/Popup/PopupManager.swift:57-69 | starts the machine iff the queue holds exactly one task; that requires `idle` (the `fatalError` guard) |
| LegacyPopup.Manager.TaskFinishAction | Popup/Sources/Popup/PopupManager.swift:71-83 | a finish from anything but the current top returns with nothing changed; one from the top runs the dismissal transit; keeps `Valid()` |
| LegacyPopup.Manager.Transit | Popup/Sources/Popup/PopupManager.swift:109-130 | requires a legal transition (the same table, `Popup/Sources/Popup/PopupManager.swift:91-102`) and computes `AfterTransit` |
| LegacyPopup.Manager.HandleToIdle | Popup/Sources/Popup/PopupManager.swift:132-135 | computes `AfterHandler` in `idle` |
| LegacyPopup.Manager.HandleToActive | Popup/Sources/Popup/PopupManager.swift:137-146 | computes `AfterHandler` in `active` |
| LegacyPopup.Manager.HandleToShow | Popup/Sources/Popup/PopupManager.swift:148-158 | computes `AfterHandler` in `handleShow` |
| LegacyPopup.Manager.HandleToCancel | Popup/Sources/Popup/PopupManager.swift:160-171 | computes `AfterHandler` in `handleCancel` |
| LegacyPopup.Manager.HandleToInProgress | Popup/Sources/Popup/PopupManager.swift:173-183 | computes `AfterHandler` in `inProgress` |
| LegacyPopup.Manager.HandleToDismiss | Popup/Sources/Popup/PopupManager.swift:185-197 | computes `AfterHandler` in `handleDismiss` |
| LegacyPopup.Manager.AllTasks | Popup/Sources/Popup/PopupManager.swift:38 | definition of the older `allTasks`: the backlog's tasks, the shown one included; stated by `LegacyPopup.ActiveIsMaximum` |
| LegacyPopup.Manager.ActiveTask | Popup/Sources/Popup/PopupManager.swift:42 | definition of the older `activeTask` as `queue.peek()`, the top of the backlog; stated by `LegacyPopup.ActiveIsMaximum` and, for the preemption, `LegacyPopup.AdmitPreempts` |
| LegacyPopup.ActiveIsMaximum | Popup/Sources/Popup/PopupManager.swift:38-42 | `activeTask` is present iff the manager is `inProgress`, and it is not below any queued task; `allTasks` is exactly the queue's tasks in order, the shown one included |
| Scenarios.Probe | Tests/PopupTests/TestPopupTask.swift:13-54 | the probe's state is set by the last of `render`, `didCanceled`, `didDismiss` it received, and stays `idle` if it received none |
| Scenarios.ProbeStates | Tests/PopupTests/TestPopupTask.swift:37-54 | the hooks of a presentation read as `show`, of a presentation then dismissal as `dismissed`, of a cancellation as `canceled` |
| Scenarios.AddedIdle | Sources/Popup/PopupManager.swift:69-95 | an `add` at `idle` presents the task and reserves only its priority |
| Scenarios.AddedBusy | Sources/Popup/PopupManager.swift:69-95 | an `add` at `inProgress` only pushes the task and reserves its priority |
| Scenarios.DismissedLast | Sources/Popup/PopupManager.swift:168-232 | a yield with an empty backlog dismisses the task and leaves nothing held or reserved |
| Scenarios.DismissedNext | Sources/Popup/PopupManager.swift:168-232 | a yield with a single waiting task presents that task next |
| Scenarios.DismissedPastCanceled | Sources/Popup/PopupManager.swift:168-232 | a yield whose next waiting task cancels withdraws it and presents the one after |
| Scenarios.Fresh | Tests/PopupTests/PopupTests.swift:12-35 | a fresh manager is at rest, idle, with no tasks |
| Scenarios.SinglePopupShowThenDismiss | Tests/PopupTests/PopupTests.swift:12-35 | one task is added and shown and is the only task listed; after its yield it is dismissed and nothing is left |
| Scenarios.TwoPopupsWithSamePriority | Tests/PopupTests/PopupTests.swift:37-49 | a second task of a reserved priority is refused and the manager is unchanged |
| Scenarios.TwoPopupsWithSamePriorityButWithinDifferentLoop | Tests/PopupTests/PopupTests.swift:51-63 | after a yield the priority is free again and the same task can be re-added; the task never added receives nothing |
| Scenarios.AddedThree | Tests/PopupTests/PopupTests.swift:65-93 | three adds with distinct priorities keep the first one presented and push the other two |
| Scenarios.Priority | Tests/PopupTests/PopupTests.swift:65-78 | adding priorities 3, 2, 1 lists the tasks as added |
| Scenarios.PriorityOrder | Tests/PopupTests/PopupTests.swift:80-93 | adding priorities 1, 2, 3 lists the presented first task, then 3, then 2 |
| Scenarios.DoublePopupsAdded | Tests/PopupTests/PopupTests.swift:95-110 | after adding 0 then 1, the first task is shown, the second waits idle and two tasks are listed |
| Scenarios.DoublePopupsShowThenDismissOneByOne | Tests/PopupTests/PopupTests.swift:95-122 | the two tasks are shown and dismissed one by one and end with nothing listed; each receives exactly `willShow, render, didShow, willDismiss, didDismiss` |
| Scenarios.CancelCaseAdded | Tests/PopupTests/PopupTests.swift:124-139 | after adding 3, 2, 1, the first is shown and the others wait idle |
| Scenarios.CancelCase | Tests/PopupTests/PopupTests.swift:124-158 | after the first yields, the task that canceled gets `willShow, didCanceled`, the third is shown with one task listed, a yield by the canceled task changes nothing, and after the third yields nothing is listed |
| Scenarios.LegacyFresh | Popup/Sources/Popup/PopupManager.swift:40-46 | a fresh older manager is at rest and idle with an empty queue |
| Scenarios.LegacyDoublePopups | Popup/Sources/Popup/PopupManager.swift:42-197 | on the older manager, adding 0 then 1 makes the waiting task `peek()`; the shown task's finish is ignored; the other task's finish dismisses a task that was never shown and presents the first task a second time |
| Scenarios.LegacySamePriority | Popup/Sources/Popup/PopupManager.swift:48-55 | the older manager accepts two tasks of one priority and queues both |

## Left out

- `Atomic` and its `NSLock` (`Popup/Sources/Popup/Atomic.swift`): the queue
  is a plain field, because the model is sequential.
- `Sources/Popup/Configuration.swift`: floating-point intervals that the
  manager never reads.
- The internals of the external `SwiftPriorityQueue`. The backlog is a
  sequence in descending order. The order among equal priorities in the older
  manager is modelled as first-in, first-out, which the library does not
  promise.
- `print` logging, the `shared` singleton, and `weak` references. A task's
  `manager` back-reference is a plain field.
- The Objective-C `add(task: AnyObject)` overload with its dynamic cast
  (`Popup/Sources/Popup/PopupManager.swift:204-210`): a foreign downcast.
- Hooks that call back into the manager (for example `render` calling
  `resignFocus`). Hooks are modelled as recorded events that do not re-enter.
- Hook bodies: a task's own hooks are not modelled. The probe task of the
  tests is the function `Scenarios.Probe` over the hooks it received, and a
  task's `isCanceled` is whatever it holds when it is offered.
- `fatalError` paths: they become preconditions of the methods that reach
  them (`Transit`, the handlers, `BecomeActiveIfNeeded`), and the public calls
  are proved never to reach them.
- The older manager's `attachCapabilitiesToTask` stores a closure in the
  task's `finishAction`, which the protocol declares as a method. The model
  has `TaskFinishAction(task)` as a manager method instead.
- The scenario lemmas work on snapshots, through the whole-call functions
  `AfterAdd`, `AfterResign` and `AfterFinish`, not on live objects. A task's
  `isCanceled` flag is fixed for a whole scenario. It is read only when the
  task is offered, so the tests' late `task2.isCanceled = true` is the same
  as a flag set from the start.
- Task descriptions in the scenarios: they do not affect scheduling.
- Popup.Remove: when several elements share the removed priority, the
  library's choice among them is not known, so the model removes the first in
  backlog order. The current manager never holds two tasks of one priority.
- Popup.Task: `priority` is a constant. The protocol declares only a getter
  and the test task stores it in a mutable field, so nothing in the source
  fixes it. The model assumes it does not change while the task is held. If
  it did change, the manager would release the new value rather than the
  reserved one (`Sources/Popup/PopupManager.swift:202`, `:228`), the old value
  would stay reserved, and the backlog's order, fixed when the task was
  pushed, would no longer be descending.
- Popup.ListingDescends, Popup.AllTasksOrdered: the strictly descending order
  of the listing after the active task is the model's backlog order.
  `allTasks` maps over the external priority queue, whose iteration order is
  not specified. The tests fix that order only for two waiting tasks, so for
  more than two waiting tasks this says nothing about the library.
- Popup.AfterAdd: does not promise that the new task's priority stays
  reserved. A task that cancels itself when offered gives its priority up at
  once.

## Findings

| source | as written | input that shows it | evidently intended | confidence | as-written member | corrected member |
|---|---|---|---|---|---|---|
| Popup/Sources/Popup/PopupManager.swift:42-83 | the older manager's active task is always `queue.peek()`, so a task added with a higher priority while another is presented silently becomes the "active" task | add a task of priority 0 (shown), then one of priority 1: the shown task's finish is ignored, and the new task's finish calls `willDismiss`/`didDismiss` on a task never shown, then presents the first task a second time | the presented task keeps the slot until it yields; later arrivals wait (as the current manager does, and as `Tests/PopupTests/PopupTests.swift:95-122` expects) | high; not executed | LegacyPopup.AdmitPreempts, Scenarios.LegacyDoublePopups | Popup.AdmitWhileBusy, Scenarios.DoublePopupsShowThenDismissOneByOne |
