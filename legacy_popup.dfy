/**
  The older popup manager (`Popup.Manager` of Popup/Sources/Popup). It has
  no active slot of its own: the active task is whatever the backlog's
  `peek()` returns, the presented task stays in the backlog until it is
  dismissed, and nothing is ever refused. The state machine, the tasks and
  the backlog are those of module `Popup`.
*/
module LegacyPopup {

  import opened Wrappers
  import opened Lifecycle
  import Popup

  /*****************************************************************************
    The older manager as a value
  *****************************************************************************/

  /** Everything the older manager holds, with the same two ghost records as
      the current one: every state it has been set to and every hook call it
      has made. */
  datatype Snapshot = Snapshot(
    queue: seq<Popup.AnyPopupTask>,
    state: State,
    walk: seq<State>,
    events: seq<Popup.Event>)

  ghost function Held(s: Snapshot): set<Popup.Task>
  {
    Popup.Bases(s.queue)
  }

  /** `activeTask`, which is `queue.peek()`. */
  function Peek(q: seq<Popup.AnyPopupTask>): Option<Popup.AnyPopupTask>
  {
    if q == [] then None else Some(q[0])
  }

  /** `self.state = state`, with the new state recorded in the walk. */
  function Enter(s: Snapshot, to: State): Snapshot
  {
    s.(state := to, walk := s.walk + [to])
  }

  /** A hook call on the task at the top of the backlog. */
  function Notify(s: Snapshot, h: Popup.Hook): Snapshot
    requires s.queue != []
  {
    s.(events := s.events + [Popup.Event(s.queue[0].base, h)])
  }

  /** The handlers that use `activeTask` abort when the backlog is empty. */
  ghost predicate Ready(s: Snapshot, to: State)
  {
    && CanTransit(s.state, to)
    && (to == HandleShow || to == HandleCancel || to == InProgress || to == HandleDismiss ==> s.queue != [])
  }

  ghost predicate HandlerReady(s: Snapshot)
  {
    s.state == HandleShow || s.state == HandleCancel || s.state == InProgress || s.state == HandleDismiss ==> s.queue != []
  }

  /** The measure that bounds the `transit` chain: here `handleToActive()`
      does not pop, so it ranks above `handleToShow()`; the handlers that
      shrink the backlog (`handleToCancel()`, `handleToDismiss()`) need no
      rank above the `transit(to: .active)` they make. */
  function HandlerRank(s: State): nat
  {
    match s
    case Idle => 1
    case InProgress => 1
    case HandleCancel => 1
    case HandleDismiss => 1
    case HandleShow => 3
    case Active => 5
  }

  function TransitRank(from: State, to: State): nat
  {
    if from == to then 0 else HandlerRank(to) + 1
  }

  /** `transit(to:)`, as in the current manager. */
  ghost function AfterTransit(s: Snapshot, to: State): Snapshot
    requires Ready(s, to)
    reads Held(s)`isCanceled
    decreases |s.queue|, TransitRank(s.state, to)
  {
    if s.state == to then Enter(s, to) else AfterHandler(Enter(s, to))
  }

  /** The handler of the current state. */
  ghost function AfterHandler(s: Snapshot): Snapshot
    requires HandlerReady(s)
    reads Held(s)`isCanceled
    decreases |s.queue|, HandlerRank(s.state)
  {
    match s.state
    case Idle => AfterTransit(s, Idle)
    case Active => if s.queue == [] then AfterTransit(s, Idle) else AfterTransit(s, HandleShow)
    case HandleShow =>
      var s' := Notify(s, Popup.WillShow);
      if s.queue[0].base.isCanceled then AfterTransit(s', HandleCancel) else AfterTransit(s', InProgress)
    case HandleCancel =>
      var a := s.queue[0];
      Popup.RemoveFront(s.queue);
      Popup.BasesFront(s.queue);
      AfterTransit(s.(queue := Popup.Remove(s.queue, a), events := s.events + [Popup.Event(a.base, Popup.DidCanceled)]), Active)
    case InProgress => AfterTransit(Notify(Notify(s, Popup.Render), Popup.DidShow), InProgress)
    case HandleDismiss =>
      var a := s.queue[0];
      var s' := Notify(s, Popup.WillDismiss);
      Popup.BasesFront(s.queue);
      AfterTransit(s'.(queue := s'.queue[1..], events := s'.events + [Popup.Event(a.base, Popup.DidDismiss)]), Active)
  }

  /** `becomeActiveIfNeeded()`: the machine starts when the backlog holds
      exactly one task; the source aborts if it is then not `idle`. */
  ghost function BecomeActive(s: Snapshot): Snapshot
    requires |s.queue| == 1 ==> s.state == Idle
    reads Held(s)`isCanceled
  {
    if |s.queue| != 1 then s else AfterTransit(s, Active)
  }

  /** Everything `add(task:)` does: push, then start the machine if needed. */
  ghost function Admit(s: Snapshot, w: Popup.AnyPopupTask): Snapshot
    requires s.queue == [] ==> s.state == Idle
    reads Held(s.(queue := Popup.Insert(s.queue, w)))`isCanceled
  {
    Popup.InsertMembers(s.queue, w);
    BecomeActive(s.(queue := Popup.Insert(s.queue, w)))
  }

  /** Some task of the backlog was presented by the last three hook calls. */
  ghost predicate ShownIn(s: Snapshot)
  {
    exists i :: 0 <= i < |s.queue| && Popup.EndsWithShow(s.events, s.queue[i].base)
  }

  /** What holds after every public call: the backlog is in descending order,
      the walk is a legal walk from `idle` to the current state, and the
      manager rests either in `idle` with an empty backlog or in
      `inProgress` with a backlog that holds the task shown last. */
  ghost predicate AtRest(s: Snapshot)
  {
    && Popup.Descending(s.queue)
    && s.walk != [] && s.walk[0] == Idle && LegalWalk(s.walk) && Last(s.walk) == s.state
    && ((s.state == Idle && s.queue == []) || (s.state == InProgress && s.queue != [] && ShownIn(s)))
  }

  /*****************************************************************************
    What the older state machine computes
  *****************************************************************************/

  /** One round of withdrawal: the top task is offered, cancels itself and is
      removed; the manager is `active` again. */
  function Withdraw(s: Snapshot): Snapshot
    requires s.queue != []
  {
    s.(queue := s.queue[1..],
       walk := s.walk + [HandleShow, HandleCancel, Active],
       events := s.events + Popup.CancelCalls(s.queue[0].base))
  }

  lemma ActiveWhenEmpty(s: Snapshot)
    requires s.state == Active && s.queue == []
    ensures AfterHandler(s) == s.(state := Idle, walk := s.walk + [Idle, Idle])
  {
    var s1 := Enter(s, Idle);
    assert AfterHandler(s) == AfterTransit(s, Idle) == AfterHandler(s1);
    assert AfterHandler(s1) == AfterTransit(s1, Idle) == Enter(s1, Idle);
  }

  /** `handleToActive()` with a top task that does not cancel itself presents
      it, and it stays in the backlog. */
  lemma ActiveWhenShown(s: Snapshot)
    requires s.state == Active && s.queue != [] && !s.queue[0].base.isCanceled
    ensures AfterHandler(s) == s.(state := InProgress,
                                  walk := s.walk + [HandleShow, InProgress, InProgress],
                                  events := s.events + Popup.ShowCalls(s.queue[0].base))
  {
    var s2 := Enter(s, HandleShow);
    var s3 := Notify(s2, Popup.WillShow);
    var s4 := Enter(s3, InProgress);
    var s5 := Notify(Notify(s4, Popup.Render), Popup.DidShow);
    assert AfterHandler(s) == AfterTransit(s, HandleShow) == AfterHandler(s2);
    assert AfterHandler(s2) == AfterTransit(s3, InProgress) == AfterHandler(s4);
    assert AfterHandler(s4) == AfterTransit(s5, InProgress) == Enter(s5, InProgress);
  }

  /** `handleToActive()` with a top task that cancels itself removes it and
      enters `active` again. */
  lemma ActiveWhenCanceled(s: Snapshot)
    requires s.state == Active && s.queue != [] && s.queue[0].base.isCanceled
    ensures AfterHandler(s) == AfterHandler(Withdraw(s))
  {
    var a := s.queue[0];
    Popup.RemoveFront(s.queue);
    Popup.BasesFront(s.queue);
    var s2 := Enter(s, HandleShow);
    var s3 := Notify(s2, Popup.WillShow);
    var s4 := Enter(s3, HandleCancel);
    var s5 := s4.(queue := Popup.Remove(s4.queue, a), events := s4.events + [Popup.Event(a.base, Popup.DidCanceled)]);
    var s6 := Enter(s5, Active);
    assert AfterHandler(s) == AfterTransit(s, HandleShow) == AfterHandler(s2);
    assert AfterHandler(s2) == AfterTransit(s3, HandleCancel) == AfterHandler(s4);
    assert AfterHandler(s4) == AfterTransit(s5, Active) == AfterHandler(s6);
    assert s6 == Withdraw(s);
  }

  /** Entering `active`: the tasks at the top of the backlog that cancel
      themselves are offered and removed one after the other; the first that
      does not is presented and stays at the top; if there is none the
      manager goes back to `idle` with an empty backlog. */
  lemma {:induction false} PromoteFrom(s: Snapshot)
    requires s.state == Active
    decreases |s.queue|
    ensures var r := AfterHandler(s); var q := s.queue; var k := Popup.CanceledPrefix(q);
      && r.walk == s.walk + Popup.PromotionWalk(q)
      && r.events == s.events + Popup.PromotionCalls(q)
      && r.queue == q[k..]
      && r.state == (if k < |q| then InProgress else Idle)
  {
    var q := s.queue;
    if q == [] {
      ActiveWhenEmpty(s);
    } else if !q[0].base.isCanceled {
      ActiveWhenShown(s);
    } else {
      var w := Withdraw(s);
      ActiveWhenCanceled(s);
      PromoteFrom(w);
      var k := Popup.CanceledPrefix(q);
      assert k == Popup.CanceledPrefix(q[1..]) + 1;
      assert q[1..][k - 1..] == q[k..];
      assert (s.walk + [HandleShow, HandleCancel, Active]) + Popup.PromotionWalk(q[1..])
        == s.walk + ([HandleShow, HandleCancel, Active] + Popup.PromotionWalk(q[1..]));
      assert (s.events + Popup.CancelCalls(q[0].base)) + Popup.PromotionCalls(q[1..])
        == s.events + (Popup.CancelCalls(q[0].base) + Popup.PromotionCalls(q[1..]));
    }
  }

  /** A promotion from a coherent entry into `active` leaves the manager at
      rest, presenting the new top of the backlog. */
  lemma PromoteRests(s: Snapshot)
    requires s.state == Active && Popup.Descending(s.queue)
    requires s.walk != [] && s.walk[0] == Idle && LegalWalk(s.walk) && Last(s.walk) == Active
    ensures AtRest(AfterHandler(s))
    ensures var r := AfterHandler(s); r.queue != [] ==> Popup.EndsWithShow(r.events, r.queue[0].base)
  {
    var q := s.queue;
    var k := Popup.CanceledPrefix(q);
    var r := AfterHandler(s);
    PromoteFrom(s);
    Popup.PromotionWalkIsLegal(q);
    LegalWalkExtend(s.walk, Popup.PromotionWalk(q));
    Popup.PromotionCallsSplit(q);
    if k < |q| {
      var pre := s.events + Popup.Cancellations(q[..k]);
      assert s.events + Popup.PromotionCalls(q) == pre + Popup.ShowCalls(q[k].base);
      assert r.queue[0] == q[k];
      assert Popup.EndsWithShow(r.events, r.queue[0].base);
    }
  }

  /** `add(task:)` keeps the manager at rest. */
  lemma AdmitRests(s: Snapshot, w: Popup.AnyPopupTask)
    requires AtRest(s)
    ensures AtRest(Admit(s, w))
  {
    var q' := Popup.Insert(s.queue, w);
    Popup.InsertMembers(s.queue, w);
    Popup.InsertDescending(s.queue, w);
    if s.queue == [] {
      var s1 := Enter(s.(queue := q'), Active);
      LegalWalkSnoc(s.walk, Active);
      assert AfterTransit(s.(queue := q'), Active) == AfterHandler(s1);
      PromoteRests(s1);
    } else {
      var i :| 0 <= i < |s.queue| && Popup.EndsWithShow(s.events, s.queue[i].base);
      assert s.queue[i] in q';
      var j :| 0 <= j < |q'| && q'[j] == s.queue[i];
      assert ShownIn(s.(queue := q'));
    }
  }

  /** While the manager is `inProgress`, `add(task:)` only pushes: the state,
      the walk and the hook calls stay as they were. */
  lemma AdmitWhileBusy(s: Snapshot, w: Popup.AnyPopupTask)
    requires AtRest(s) && s.state == InProgress
    ensures Admit(s, w) == s.(queue := Popup.Insert(s.queue, w))
  {
    Popup.InsertMembers(s.queue, w);
  }

  /** `add(task:)` on an idle manager presents the task at once, or, if it
      cancels itself, offers and removes it and goes back to `idle`. */
  lemma AdmitWhenIdle(s: Snapshot, w: Popup.AnyPopupTask)
    requires AtRest(s) && s.state == Idle
    ensures var r := Admit(s, w);
      if !w.base.isCanceled then
        && r.queue == [w] && r.state == InProgress
        && r.walk == s.walk + [Active, HandleShow, InProgress, InProgress]
        && r.events == s.events + Popup.ShowCalls(w.base)
      else
        && r.queue == [] && r.state == Idle
        && r.walk == s.walk + [Active, HandleShow, HandleCancel, Active, Idle, Idle]
        && r.events == s.events + Popup.CancelCalls(w.base)
  {
    var s0 := s.(queue := [w]);
    var s1 := Enter(s0, Active);
    assert Popup.Insert(s.queue, w) == [w];
    assert Admit(s, w) == AfterTransit(s0, Active) == AfterHandler(s1);
    PromoteFrom(s1);
    assert [w][1..] == [];
  }

  /** The defect of the older manager: a task above the one presented, added
      while it is presented, becomes `activeTask` although no hook has been
      called on it, and the presented task is no longer `activeTask`. */
  lemma AdmitPreempts(s: Snapshot, w: Popup.AnyPopupTask)
    requires AtRest(s) && s.queue != [] && s.queue[0].Less(w)
    ensures var r := Admit(s, w);
      && Peek(r.queue) == Some(w) && Peek(s.queue) != Some(w)
      && r.queue == [w] + s.queue && r.state == InProgress && r.events == s.events
  {
    Popup.InsertAbove(s.queue, w);
  }

  /** `transit(to: .handleDismiss)` from rest, unfolded: the top task
      receives `willDismiss` and `didDismiss` and is popped, and the manager
      enters `active`. */
  lemma DismissUnfolds(s: Snapshot)
    requires AtRest(s) && s.queue != []
    ensures Ready(s, HandleDismiss)
    ensures AfterTransit(s, HandleDismiss) == AfterHandler(s.(queue := s.queue[1..], state := Active,
      walk := s.walk + [HandleDismiss, Active], events := s.events + Popup.DismissCalls(s.queue[0].base)))
  {
    var a := s.queue[0];
    Popup.BasesFront(s.queue);
    var s1 := Enter(s, HandleDismiss);
    var s2 := Notify(s1, Popup.WillDismiss);
    var s3 := s2.(queue := s2.queue[1..], events := s2.events + [Popup.Event(a.base, Popup.DidDismiss)]);
    assert AfterTransit(s, HandleDismiss) == AfterHandler(s1);
    assert AfterHandler(s1) == AfterTransit(s3, Active) == AfterHandler(Enter(s3, Active));
    assert s3.events == s.events + Popup.DismissCalls(a.base);
    assert s.walk + [HandleDismiss] + [Active] == s.walk + [HandleDismiss, Active];
    assert Enter(s3, Active) == s.(queue := s.queue[1..], state := Active,
      walk := s.walk + [HandleDismiss, Active], events := s.events + Popup.DismissCalls(a.base));
  }

  /** `transit(to: .handleDismiss)` from rest: the top task receives
      `willDismiss` and `didDismiss` and is popped, and the rest of the
      backlog is promoted as `PromoteFrom` says. */
  lemma DismissFrom(s: Snapshot)
    requires AtRest(s) && s.queue != []
    ensures Ready(s, HandleDismiss)
    ensures var r := AfterTransit(s, HandleDismiss); var a := s.queue[0];
      var q := s.queue[1..]; var k := Popup.CanceledPrefix(q);
      && r.walk == s.walk + [HandleDismiss, Active] + Popup.PromotionWalk(q)
      && r.events == s.events + Popup.DismissCalls(a.base) + Popup.PromotionCalls(q)
      && r.queue == q[k..]
      && r.state == (if k < |q| then InProgress else Idle)
      && AtRest(r)
  {
    DismissUnfolds(s);
    var s4 := s.(queue := s.queue[1..], state := Active,
      walk := s.walk + [HandleDismiss, Active], events := s.events + Popup.DismissCalls(s.queue[0].base));
    Popup.FrontBounds(s.queue);
    assert Popup.Descending(s4.queue);
    PromoteFrom(s4);
    LegalWalkSnoc(s.walk, HandleDismiss);
    LegalWalkSnoc(s.walk + [HandleDismiss], Active);
    assert s.walk + [HandleDismiss] + [Active] == s4.walk;
    PromoteRests(s4);
  }

  /** A whole `taskFinishAction(task:)` call on the older manager at rest: a
      finish from anything but the top of the backlog is ignored, and the
      top's finish dismisses it. Either way the manager is at rest
      afterwards. */
  ghost function AfterFinish(s: Snapshot, t: Popup.Task): (r: Snapshot)
    requires AtRest(s)
    reads Held(s)`isCanceled
    ensures AtRest(r)
    ensures Peek(s.queue).None? || Peek(s.queue).value.base != t ==> r == s
    ensures Peek(s.queue).Some? && Peek(s.queue).value.base == t ==> |r.queue| < |s.queue|
  {
    if Peek(s.queue).None? || Peek(s.queue).value.base != t then s
    else
      DismissFrom(s);
      AfterTransit(s, HandleDismiss)
  }

  /*****************************************************************************
    The older manager
  *****************************************************************************/

  /**
    The older `Popup.Manager`. The backlog `queue` holds every task that has
    been added and not yet dismissed or canceled, the presented one
    included; the ghost `walk` and `events` are as in the current manager.
  */
  class Manager {
    var queue: seq<Popup.AnyPopupTask>
    var state: State
    ghost var walk: seq<State>
    ghost var events: seq<Popup.Event>

    ghost function Now(): Snapshot
      reads this
    {
      Snapshot(queue, state, walk, events)
    }

    ghost predicate Valid()
      reads this
    {
      AtRest(Now())
    }

    constructor ()
      ensures Valid()
      ensures Now() == Snapshot([], Idle, [Idle], [])
    {
      queue := [];
      state := Idle;
      walk := [Idle];
      events := [];
    }

    /** `allTasks`: the whole backlog. */
    function AllTasks(): seq<Popup.Task>
      reads this
    {
      Popup.Tasks(queue)
    }

    /** `activeTask`: the top of the backlog. */
    function ActiveTask(): Option<Popup.AnyPopupTask>
      reads this
    {
      Peek(queue)
    }

    /** `add(task:)`: never refused. `attachCapabilitiesToTask` hands the task
        the route to `TaskFinishAction`; the model has no closure for it. */
    method Add(task: Popup.Task)
      requires Valid()
      modifies this
      ensures Valid()
      ensures Now() == Admit(old(Now()), Popup.AnyPopupTask(task))
    {
      ghost var s := Now();
      Popup.InsertMembers(queue, Popup.AnyPopupTask(task));
      queue := Popup.Insert(queue, Popup.AnyPopupTask(task));
      BecomeActiveIfNeeded();
      AdmitRests(s, Popup.AnyPopupTask(task));
    }

    /** `becomeActiveIfNeeded()`. */
    method BecomeActiveIfNeeded()
      requires |queue| == 1 ==> state == Idle
      modifies this
      ensures Now() == BecomeActive(old(Now()))
    {
      if |queue| != 1 {
        return;
      }
      Transit(Active);
    }

    /** `taskFinishAction(task:)`: a finish from anything but the top of the
        backlog is ignored; a finish from the top dismisses it. */
    method TaskFinishAction(task: Popup.Task)
      requires Valid()
      modifies this
      ensures Valid()
      ensures old(ActiveTask()).None? || old(ActiveTask()).value.base != task ==> unchanged(this)
      ensures old(ActiveTask()).Some? && old(ActiveTask()).value.base == task ==>
        Now() == AfterTransit(old(Now()), HandleDismiss)
      ensures Now() == AfterFinish(old(Now()), task)
    {
      var a := ActiveTask();
      if a.None? || a.value.base != task {
        return;
      }
      ghost var s := Now();
      Transit(HandleDismiss);
      DismissFrom(s);
    }

    /** `transit(to:)`. */
    method Transit(to: State)
      requires Ready(Now(), to)
      modifies this
      decreases |queue|, TransitRank(state, to)
      ensures Now() == AfterTransit(old(Now()), to)
    {
      var from := state;
      state := to;
      walk := walk + [to];
      if from == to {
        return;
      }
      match to
      case Idle => HandleToIdle();
      case Active => HandleToActive();
      case HandleShow => HandleToShow();
      case HandleCancel => HandleToCancel();
      case InProgress => HandleToInProgress();
      case HandleDismiss => HandleToDismiss();
    }

    method HandleToIdle()
      requires state == Idle
      modifies this
      decreases |queue|, HandlerRank(Idle)
      ensures Now() == AfterHandler(old(Now()))
    {
      Transit(Idle);
    }

    /** `handleToActive()`: `idle` if there is no `activeTask`, otherwise
        show it; nothing is popped. */
    method HandleToActive()
      requires state == Active
      modifies this
      decreases |queue|, HandlerRank(Active)
      ensures Now() == AfterHandler(old(Now()))
    {
      if ActiveTask().None? {
        Transit(Idle);
        return;
      }
      Transit(HandleShow);
    }

    /** `handleToShow()`: `willShow` on the top task, then its `isCanceled`
        flag chooses `handleCancel` or `inProgress`. */
    method HandleToShow()
      requires state == HandleShow && queue != []
      modifies this
      decreases |queue|, HandlerRank(HandleShow)
      ensures Now() == AfterHandler(old(Now()))
    {
      var a := ActiveTask().value;
      events := events + [Popup.Event(a.base, Popup.WillShow)];
      if a.IsCanceled() {
        Transit(HandleCancel);
      } else {
        Transit(InProgress);
      }
    }

    /** `handleToCancel()`: remove the top task from the backlog (by `==`),
        `didCanceled` on it, and enter `active` again. */
    method HandleToCancel()
      requires state == HandleCancel && queue != []
      modifies this
      decreases |queue|, HandlerRank(HandleCancel)
      ensures Now() == AfterHandler(old(Now()))
    {
      var a := ActiveTask().value;
      Popup.RemoveFront(queue);
      queue := Popup.Remove(queue, a);
      events := events + [Popup.Event(a.base, Popup.DidCanceled)];
      Transit(Active);
    }

    /** `handleToInProgress()`: `render` and `didShow` on the top task. */
    method HandleToInProgress()
      requires state == InProgress && queue != []
      modifies this
      decreases |queue|, HandlerRank(InProgress)
      ensures Now() == AfterHandler(old(Now()))
    {
      var a := ActiveTask().value;
      events := events + [Popup.Event(a.base, Popup.Render)];
      events := events + [Popup.Event(a.base, Popup.DidShow)];
      Transit(InProgress);
    }

    /** `handleToDismiss()`: `willDismiss` on the top task, pop it,
        `didDismiss` on it, and enter `active` again. */
    method HandleToDismiss()
      requires state == HandleDismiss && queue != []
      modifies this
      decreases |queue|, HandlerRank(HandleDismiss)
      ensures Now() == AfterHandler(old(Now()))
    {
      var a := ActiveTask().value;
      events := events + [Popup.Event(a.base, Popup.WillDismiss)];
      queue := queue[1..];
      events := events + [Popup.Event(a.base, Popup.DidDismiss)];
      Transit(Active);
    }
  }

  /** `activeTask` is present exactly while a task is in progress, and it is
      a maximum of the backlog; `allTasks` is the backlog, presented task
      included. */
  lemma ActiveIsMaximum(m: Manager)
    requires m.Valid()
    ensures m.ActiveTask().Some? <==> m.state == InProgress
    ensures m.ActiveTask().Some? ==> forall w :: w in m.queue ==> !m.ActiveTask().value.Less(w)
    ensures |m.AllTasks()| == |m.queue|
    ensures forall i :: 0 <= i < |m.queue| ==> m.AllTasks()[i] == m.queue[i].base
  {
    if m.queue != [] {
      forall w | w in m.queue ensures !m.queue[0].Less(w) {
        Popup.FrontIsMaximum(m.queue, w);
      }
    }
  }
}
