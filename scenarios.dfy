/**
  The scenarios of the package's test suite, replayed on the snapshots the
  managers' methods are proved to follow, with the probe task of the tests:
  its `render` marks it shown, its `didCanceled` canceled and its
  `didDismiss` dismissed. A call `m.add(task)` becomes `Admit`, and a
  `resignFocus` by the active task becomes `AfterTransit(_, handleDismiss)`.
*/
module Scenarios {

  import opened Wrappers
  import Lifecycle
  import opened Popup
  import LegacyPopup

  /** The probe task's `state`. */
  datatype ProbeState = Idle | Show | Canceled | Dismissed

  /** The probe's state after receiving `hooks`: the last hook that sets it
      decides. */
  function Probe(hooks: seq<Hook>): (r: ProbeState)
    ensures hooks == [] ==> r == Idle
    ensures hooks != [] && hooks[|hooks| - 1] == Render ==> r == Show
    ensures hooks != [] && hooks[|hooks| - 1] == DidCanceled ==> r == Canceled
    ensures hooks != [] && hooks[|hooks| - 1] == DidDismiss ==> r == Dismissed
    ensures r != Idle ==> Render in hooks || DidCanceled in hooks || DidDismiss in hooks
  {
    if hooks == [] then Idle
    else
      match hooks[|hooks| - 1]
      case Render => Show
      case DidCanceled => Canceled
      case DidDismiss => Dismissed
      case _ => Probe(hooks[..|hooks| - 1])
  }

  /** The calls on `t` reach `t`. */
  lemma OwnCalls(t: Task)
    ensures HooksOf(ShowCalls(t), t) == [WillShow, Render, DidShow]
    ensures HooksOf(CancelCalls(t), t) == [WillShow, DidCanceled]
    ensures HooksOf(DismissCalls(t), t) == [WillDismiss, DidDismiss]
  {
    HooksOfCalls(t, t);
  }

  /** The calls on `t` reach no other task. */
  lemma OtherCalls(t: Task, u: Task)
    requires t != u
    ensures HooksOf(ShowCalls(t), u) == [] && HooksOf(CancelCalls(t), u) == [] && HooksOf(DismissCalls(t), u) == []
  {
    HooksOfCalls(t, u);
  }

  /** What `t` received from a trace made of three parts. */
  lemma HooksOf3(a: seq<Event>, b: seq<Event>, c: seq<Event>, t: Task)
    ensures HooksOf(a + b + c, t) == HooksOf(a, t) + HooksOf(b, t) + HooksOf(c, t)
  {
    HooksOfConcat(a, b, t);
    HooksOfConcat(a + b, c, t);
  }

  /** Promoting a backlog of one task that does not cancel itself presents it. */
  lemma PromoteOne(a: AnyPopupTask)
    requires !a.base.isCanceled
    ensures CanceledPrefix([a]) == 0 && PromotionCalls([a]) == ShowCalls(a.base)
    ensures [a][..0] == [] && [a][1..] == [] && Priorities([a]) == {a.Priority()}
  {
    assert a in [a];
  }

  /** Promoting a backlog whose first task cancels itself and whose second
      does not withdraws the first and presents the second. */
  lemma PromoteSecond(a: AnyPopupTask, b: AnyPopupTask)
    requires a.base.isCanceled && !b.base.isCanceled
    ensures CanceledPrefix([a, b]) == 1
    ensures PromotionCalls([a, b]) == CancelCalls(a.base) + ShowCalls(b.base)
    ensures [a, b][..1] == [a] && [a, b][2..] == []
    ensures Priorities([a, b]) - Priorities([a]) == {b.Priority()} - {a.Priority()}
  {
    assert [a, b][1..] == [b];
    assert a in [a, b] && b in [a, b] && a in [a];
  }

  /** What the probe records of its own presentation. */
  lemma ShowTrace(t: Task)
    ensures HooksOf(ShowCalls(t), t) == [WillShow, Render, DidShow]
    ensures Probe([WillShow, Render, DidShow]) == Show
  {
    OwnCalls(t);
  }

  /** What the probe records of its presentation and dismissal. */
  lemma ShowDismissTrace(t: Task)
    ensures HooksOf(ShowCalls(t) + DismissCalls(t), t) == [WillShow, Render, DidShow, WillDismiss, DidDismiss]
    ensures Probe([WillShow, Render, DidShow, WillDismiss, DidDismiss]) == Dismissed
  {
    OwnCalls(t);
    HooksOfConcat(ShowCalls(t), DismissCalls(t), t);
  }

  /** A task that was never added receives nothing. */
  lemma OthersTrace(t: Task, u: Task)
    requires t != u
    ensures HooksOf(ShowCalls(t) + DismissCalls(t) + ShowCalls(t), u) == []
  {
    OtherCalls(t, u);
    HooksOf3(ShowCalls(t), DismissCalls(t), ShowCalls(t), u);
  }

  /** What one task receives from a trace of blocks of calls, block by block. */
  lemma HooksOf4(a: seq<Event>, b: seq<Event>, c: seq<Event>, d: seq<Event>, t: Task)
    ensures HooksOf(a + b + c + d, t) == HooksOf(a, t) + HooksOf(b, t) + HooksOf(c, t) + HooksOf(d, t)
  {
    HooksOf3(a, b, c, t);
    HooksOfConcat(a + b + c, d, t);
  }

  /** Two tasks presented and dismissed one after the other. */
  lemma OneByOneTrace(t: Task, u: Task)
    requires t != u
    ensures var e := ShowCalls(t) + DismissCalls(t) + ShowCalls(u) + DismissCalls(u);
      && HooksOf(e, t) == [WillShow, Render, DidShow, WillDismiss, DidDismiss]
      && HooksOf(e, u) == [WillShow, Render, DidShow, WillDismiss, DidDismiss]
  {
    OwnCalls(t);
    OtherCalls(t, u);
    OtherCalls(u, t);
    OwnCalls(u);
    HooksOf4(ShowCalls(t), DismissCalls(t), ShowCalls(u), DismissCalls(u), t);
    HooksOf4(ShowCalls(t), DismissCalls(t), ShowCalls(u), DismissCalls(u), u);
  }

  /** A presentation reaches the presented task only. */
  lemma ShownOnly(t: Task, u: Task)
    requires t != u
    ensures HooksOf(ShowCalls(t), t) == [WillShow, Render, DidShow] && HooksOf(ShowCalls(t), u) == []
    ensures Probe([WillShow, Render, DidShow]) == Show && Probe([]) == Idle
  {
    OwnCalls(t);
    OtherCalls(t, u);
  }

  /** What one task receives from a trace of four blocks of calls, the last
      two made in one step. */
  lemma HooksOfPairLast(a: seq<Event>, b: seq<Event>, c: seq<Event>, d: seq<Event>, t: Task)
    ensures HooksOf(a + b + (c + d), t) == HooksOf(a, t) + HooksOf(b, t) + (HooksOf(c, t) + HooksOf(d, t))
  {
    HooksOfConcat(c, d, t);
    HooksOf3(a, b, c + d, t);
  }

  /** The trace of the cancel case up to the presentation of its third task. */
  lemma CancelMiddleTrace(t1: Task, t2: Task, t3: Task)
    requires t1 != t2 && t2 != t3 && t1 != t3
    ensures var e := ShowCalls(t1) + DismissCalls(t1) + (CancelCalls(t2) + ShowCalls(t3));
      && HooksOf(e, t1) == [WillShow, Render, DidShow, WillDismiss, DidDismiss]
      && HooksOf(e, t2) == [WillShow, DidCanceled]
      && HooksOf(e, t3) == [WillShow, Render, DidShow]
  {
    OwnCalls(t1);
    OwnCalls(t2);
    OwnCalls(t3);
    OtherCalls(t1, t2);
    OtherCalls(t1, t3);
    OtherCalls(t2, t1);
    OtherCalls(t2, t3);
    OtherCalls(t3, t1);
    OtherCalls(t3, t2);
    HooksOfPairLast(ShowCalls(t1), DismissCalls(t1), CancelCalls(t2), ShowCalls(t3), t1);
    HooksOfPairLast(ShowCalls(t1), DismissCalls(t1), CancelCalls(t2), ShowCalls(t3), t2);
    HooksOfPairLast(ShowCalls(t1), DismissCalls(t1), CancelCalls(t2), ShowCalls(t3), t3);
  }

  /** The whole trace of the cancel case. */
  lemma CancelTrace(t1: Task, t2: Task, t3: Task)
    requires t1 != t2 && t2 != t3 && t1 != t3
    ensures var e := ShowCalls(t1) + DismissCalls(t1) + (CancelCalls(t2) + ShowCalls(t3)) + DismissCalls(t3);
      && HooksOf(e, t1) == [WillShow, Render, DidShow, WillDismiss, DidDismiss]
      && HooksOf(e, t2) == [WillShow, DidCanceled]
      && HooksOf(e, t3) == [WillShow, Render, DidShow, WillDismiss, DidDismiss]
  {
    var e := ShowCalls(t1) + DismissCalls(t1) + (CancelCalls(t2) + ShowCalls(t3));
    CancelMiddleTrace(t1, t2, t3);
    OwnCalls(t3);
    OtherCalls(t3, t1);
    OtherCalls(t3, t2);
    HooksOfConcat(e, DismissCalls(t3), t1);
    HooksOfConcat(e, DismissCalls(t3), t2);
    HooksOfConcat(e, DismissCalls(t3), t3);
  }

  /** The probe states the tests expect. */
  lemma ProbeStates()
    ensures Probe([WillShow, Render, DidShow]) == Show
    ensures Probe([WillShow, Render, DidShow, WillDismiss, DidDismiss]) == Dismissed
    ensures Probe([WillShow, DidCanceled]) == Canceled
  {
    assert [WillShow, Render, DidShow][..2] == [WillShow, Render];
  }

  /** Two pushes, and the tasks of the resulting backlog. */
  lemma PushTwo(a: AnyPopupTask, b: AnyPopupTask)
    ensures Insert([], a) == [a]
    ensures Insert([a], b) == if a.Less(b) then [b, a] else [a, b]
    ensures Tasks([a, b]) == [a.base, b.base] && Tasks([]) == [] && Tasks([a]) == [a.base]
  {
    assert [a][1..] == [];
  }

  /** Two tasks presented one after the other, up to the presentation of the
      second. */
  lemma OneByOneMiddleTrace(t: Task, u: Task)
    requires t != u
    ensures var e := ShowCalls(t) + DismissCalls(t) + ShowCalls(u);
      && HooksOf(e, t) == [WillShow, Render, DidShow, WillDismiss, DidDismiss]
      && HooksOf(e, u) == [WillShow, Render, DidShow]
  {
    OwnCalls(t);
    OtherCalls(t, u);
    OtherCalls(u, t);
    OwnCalls(u);
    HooksOf3(ShowCalls(t), DismissCalls(t), ShowCalls(u), t);
    HooksOf3(ShowCalls(t), DismissCalls(t), ShowCalls(u), u);
  }

  /** What each task receives in the older manager's replay of the double
      popup test. */
  lemma LegacyDoubleTrace(t: Task, u: Task)
    requires t != u
    ensures var e := ShowCalls(t) + DismissCalls(u) + ShowCalls(t);
      && HooksOf(e, t) == [WillShow, Render, DidShow, WillShow, Render, DidShow]
      && HooksOf(e, u) == [WillDismiss, DidDismiss]
  {
    OwnCalls(t);
    OtherCalls(t, u);
    OtherCalls(u, t);
    OwnCalls(u);
    HooksOf3(ShowCalls(t), DismissCalls(u), ShowCalls(t), t);
    HooksOf3(ShowCalls(t), DismissCalls(u), ShowCalls(t), u);
  }


  /*****************************************************************************
    Steps of the current manager
  *****************************************************************************/

  /** `add(task:)` on an idle manager, for a task that does not cancel
      itself: it is presented at once. */
  lemma AddedIdle(s: Snapshot, w: AnyPopupTask, r: Snapshot)
    requires AtRest(s) && s.state == Lifecycle.Idle && !w.base.isCanceled && r == AfterAdd(s, w)
    ensures r.activeTask == Some(w) && r.queue == [] && r.prioritySet == {w.Priority()}
    ensures r.events == s.events + ShowCalls(w.base)
  {
    AdmitWhenIdle(s, w);
  }

  /** `add(task:)` of a free priority while a task is presented: the task
      only joins the backlog. */
  lemma AddedBusy(s: Snapshot, w: AnyPopupTask, r: Snapshot)
    requires AtRest(s) && s.activeTask.Some? && w.Priority() !in s.prioritySet && r == AfterAdd(s, w)
    ensures r.activeTask == s.activeTask && r.queue == Insert(s.queue, w) && r.events == s.events
    ensures r.prioritySet == s.prioritySet + {w.Priority()}
  {
    AdmitWhileBusy(s, w);
  }

  /** The active task yields and the backlog is empty. */
  lemma DismissedLast(s: Snapshot, t: Task, r: Snapshot)
    requires AtRest(s) && s.activeTask == Some(AnyPopupTask(t)) && s.queue == [] && r == AfterResign(s, t)
    ensures r.activeTask == None && r.queue == [] && r.prioritySet == {}
    ensures r.events == s.events + DismissCalls(t)
  {
    DismissFrom(s);
    assert s.events + DismissCalls(t) + [] == s.events + DismissCalls(t);
  }

  /** The active task yields and the one task waiting is presented. */
  lemma DismissedNext(s: Snapshot, t: Task, b: AnyPopupTask, r: Snapshot)
    requires AtRest(s) && s.activeTask == Some(AnyPopupTask(t)) && s.queue == [b] && !b.base.isCanceled
    requires r == AfterResign(s, t)
    ensures r.activeTask == Some(b) && r.queue == []
    ensures r.events == s.events + DismissCalls(t) + ShowCalls(b.base)
  {
    DismissFrom(s);
    PromoteOne(b);
  }

  /** The active task yields; of the two tasks waiting the first cancels
      itself and the second is presented. */
  lemma DismissedPastCanceled(s: Snapshot, t: Task, b: AnyPopupTask, c: AnyPopupTask, r: Snapshot)
    requires AtRest(s) && s.activeTask == Some(AnyPopupTask(t)) && s.queue == [b, c]
    requires b.base.isCanceled && !c.base.isCanceled && r == AfterResign(s, t)
    ensures r.activeTask == Some(c) && r.queue == []
    ensures r.events == s.events + DismissCalls(t) + (CancelCalls(b.base) + ShowCalls(c.base))
  {
    DismissFrom(s);
    PromoteSecond(b, c);
  }

  /*****************************************************************************
    The tests on the current manager
  *****************************************************************************/

  /** The manager as constructed: idle, holding nothing, at rest. */
  function Fresh(): (r: Snapshot)
    ensures AtRest(r) && r.state == Lifecycle.Idle && TaskCount(r) == 0
  {
    Snapshot([], None, {}, Lifecycle.Idle, [Lifecycle.Idle], [])
  }

  /** `testSinglePopupShowThenDismiss`: a task added to a fresh manager is
      presented and listed alone; when it yields it is dismissed and the
      manager is empty and idle again. */
  lemma SinglePopupShowThenDismiss(t: Task)
    requires !t.isCanceled
    ensures var s1 := AfterAdd(Fresh(), AnyPopupTask(t));
      && s1.activeTask == Some(AnyPopupTask(t)) && Listing(s1.activeTask, s1.queue) == [t]
      && Probe(HooksOf(s1.events, t)) == Show
      && var s2 := AfterResign(s1, t);
      && HooksOf(s2.events, t) == [WillShow, Render, DidShow, WillDismiss, DidDismiss]
      && Probe(HooksOf(s2.events, t)) == Dismissed
      && Listing(s2.activeTask, s2.queue) == [] && s2.state == Lifecycle.Idle
  {
    var s1 := AfterAdd(Fresh(), AnyPopupTask(t));
    AddedIdle(Fresh(), AnyPopupTask(t), s1);
    ShowTrace(t);
    var s2 := AfterResign(s1, t);
    DismissedLast(s1, t, s2);
    ShowDismissTrace(t);
  }

  /** `testTwoPopupsWithSamePriority`: once the first task is added its
      priority is reserved, so the second `add(task:)`, of the same priority,
      is refused (`containsSamePriority`) and changes nothing. */
  lemma TwoPopupsWithSamePriority(t1: Task, t2: Task)
    requires t1.priority == t2.priority && !t1.isCanceled
    ensures var s1 := AfterAdd(Fresh(), AnyPopupTask(t1));
      && t2.priority in s1.prioritySet && Listing(s1.activeTask, s1.queue) == [t1]
      && AfterAdd(s1, AnyPopupTask(t2)) == s1
  {
    var s1 := AfterAdd(Fresh(), AnyPopupTask(t1));
    AddedIdle(Fresh(), AnyPopupTask(t1), s1);
  }

  /** `testTwoPopupsWithSamePriorityButWithinDifferentLoop`: once the first
      task has yielded its priority is free, and the task is added and
      presented again; the second task, never added, is not held and has
      received nothing. */
  lemma TwoPopupsWithSamePriorityButWithinDifferentLoop(t1: Task, t2: Task)
    requires t1 != t2 && t1.priority == t2.priority && !t1.isCanceled
    ensures var s1 := AfterAdd(Fresh(), AnyPopupTask(t1));
      && s1.activeTask == Some(AnyPopupTask(t1))
      && var s2 := AfterResign(s1, t1);
      && s2.state == Lifecycle.Idle && t2.priority !in s2.prioritySet
      && var s3 := AfterAdd(s2, AnyPopupTask(t1));
      && s3.activeTask == Some(AnyPopupTask(t1)) && Listing(s3.activeTask, s3.queue) == [t1]
      && t2 !in Held(s3) && HooksOf(s3.events, t2) == []
  {
    var w := AnyPopupTask(t1);
    var s1 := AfterAdd(Fresh(), w);
    AddedIdle(Fresh(), w, s1);
    var s2 := AfterResign(s1, t1);
    DismissedLast(s1, t1, s2);
    var s3 := AfterAdd(s2, w);
    AddedIdle(s2, w, s3);
    OthersTrace(t1, t2);
  }

  /** Three additions of distinct priorities to a fresh manager: the first
      task is presented and the other two are filed. */
  lemma AddedThree(t1: Task, t2: Task, t3: Task)
    requires t1.priority != t2.priority && t1.priority != t3.priority && t2.priority != t3.priority
    requires !t1.isCanceled
    ensures var s := AfterAdd(AfterAdd(AfterAdd(Fresh(), AnyPopupTask(t1)), AnyPopupTask(t2)), AnyPopupTask(t3));
      && s.activeTask == Some(AnyPopupTask(t1)) && s.events == ShowCalls(t1)
      && s.queue == Insert(Insert([], AnyPopupTask(t2)), AnyPopupTask(t3))
  {
    var w1, w2, w3 := AnyPopupTask(t1), AnyPopupTask(t2), AnyPopupTask(t3);
    var s1 := AfterAdd(Fresh(), w1);
    AddedIdle(Fresh(), w1, s1);
    var s2 := AfterAdd(s1, w2);
    AddedBusy(s1, w2, s2);
    var s3 := AfterAdd(s2, w3);
    AddedBusy(s2, w3, s3);
  }

  /** The listing of an active task and a backlog of two. */
  lemma ListingOfThree(a: AnyPopupTask, b: AnyPopupTask, c: AnyPopupTask)
    ensures Listing(Some(a), [b, c]) == [a.base, b.base, c.base]
  {
    assert Tasks([b, c]) == [b.base, c.base];
  }

  /** `testPriority`: tasks added in descending priority are listed in the
      order they were added. */
  lemma Priority(t1: Task, t2: Task, t3: Task)
    requires t1.priority > t2.priority > t3.priority && !t1.isCanceled
    ensures var s := AfterAdd(AfterAdd(AfterAdd(Fresh(), AnyPopupTask(t1)), AnyPopupTask(t2)), AnyPopupTask(t3));
      Listing(s.activeTask, s.queue) == [t1, t2, t3]
  {
    AddedThree(t1, t2, t3);
    PushTwo(AnyPopupTask(t2), AnyPopupTask(t3));
    ListingOfThree(AnyPopupTask(t1), AnyPopupTask(t2), AnyPopupTask(t3));
  }

  /** `testPriorityOrder`: the active task comes first, then the backlog in
      descending priority, whatever the order of the additions. */
  lemma PriorityOrder(t1: Task, t2: Task, t3: Task)
    requires t1.priority < t2.priority < t3.priority && !t1.isCanceled
    ensures var s := AfterAdd(AfterAdd(AfterAdd(Fresh(), AnyPopupTask(t1)), AnyPopupTask(t2)), AnyPopupTask(t3));
      Listing(s.activeTask, s.queue) == [t1, t3, t2]
  {
    AddedThree(t1, t2, t3);
    PushTwo(AnyPopupTask(t2), AnyPopupTask(t3));
    ListingOfThree(AnyPopupTask(t1), AnyPopupTask(t3), AnyPopupTask(t2));
  }

  /** The additions of `testDoublePopupsShowThenDismissOneByOne`: a
      higher-priority task added while another is presented waits for it. */
  lemma DoublePopupsAdded(t1: Task, t2: Task)
    requires t1 != t2 && t1.priority < t2.priority && !t1.isCanceled
    ensures var s := AfterAdd(AfterAdd(Fresh(), AnyPopupTask(t1)), AnyPopupTask(t2));
      && s.activeTask == Some(AnyPopupTask(t1)) && s.queue == [AnyPopupTask(t2)]
      && s.events == ShowCalls(t1) && |Listing(s.activeTask, s.queue)| == 2
      && Probe(HooksOf(s.events, t1)) == Show && Probe(HooksOf(s.events, t2)) == Idle
  {
    var w1, w2 := AnyPopupTask(t1), AnyPopupTask(t2);
    var s1 := AfterAdd(Fresh(), w1);
    AddedIdle(Fresh(), w1, s1);
    var s2 := AfterAdd(s1, w2);
    AddedBusy(s1, w2, s2);
    PushTwo(w2, w1);
    ShownOnly(t1, t2);
  }

  /** `testDoublePopupsShowThenDismissOneByOne`: each task is presented when
      it reaches the slot and dismissed when it yields, and each receives
      every hook once. */
  lemma DoublePopupsShowThenDismissOneByOne(t1: Task, t2: Task)
    requires t1 != t2 && t1.priority < t2.priority && !t1.isCanceled && !t2.isCanceled
    ensures var s2 := AfterAdd(AfterAdd(Fresh(), AnyPopupTask(t1)), AnyPopupTask(t2));
      var s3 := AfterResign(s2, t1);
      && s3.activeTask == Some(AnyPopupTask(t2)) && |Listing(s3.activeTask, s3.queue)| == 1
      && Probe(HooksOf(s3.events, t1)) == Dismissed && Probe(HooksOf(s3.events, t2)) == Show
      && var s4 := AfterResign(s3, t2);
      && Listing(s4.activeTask, s4.queue) == []
      && HooksOf(s4.events, t1) == [WillShow, Render, DidShow, WillDismiss, DidDismiss]
      && HooksOf(s4.events, t2) == [WillShow, Render, DidShow, WillDismiss, DidDismiss]
      && Probe(HooksOf(s4.events, t1)) == Dismissed && Probe(HooksOf(s4.events, t2)) == Dismissed
  {
    DoublePopupsAdded(t1, t2);
    var s2 := AfterAdd(AfterAdd(Fresh(), AnyPopupTask(t1)), AnyPopupTask(t2));
    var s3 := AfterResign(s2, t1);
    DismissedNext(s2, t1, AnyPopupTask(t2), s3);
    OneByOneMiddleTrace(t1, t2);
    ProbeStates();
    var s4 := AfterResign(s3, t2);
    DismissedLast(s3, t2, s4);
    OneByOneTrace(t1, t2);
  }

  /** The additions of `testCancelCase`: three tasks added in descending
      priority; only the first is presented. */
  lemma CancelCaseAdded(t1: Task, t2: Task, t3: Task)
    requires t1 != t2 && t2 != t3 && t1 != t3 && t1.priority > t2.priority > t3.priority && !t1.isCanceled
    ensures var s := AfterAdd(AfterAdd(AfterAdd(Fresh(), AnyPopupTask(t1)), AnyPopupTask(t2)), AnyPopupTask(t3));
      && s.activeTask == Some(AnyPopupTask(t1)) && s.queue == [AnyPopupTask(t2), AnyPopupTask(t3)]
      && s.events == ShowCalls(t1) && |Listing(s.activeTask, s.queue)| == 3
      && Probe(HooksOf(s.events, t1)) == Show
      && Probe(HooksOf(s.events, t2)) == Idle && Probe(HooksOf(s.events, t3)) == Idle
  {
    AddedThree(t1, t2, t3);
    PushTwo(AnyPopupTask(t2), AnyPopupTask(t3));
    ShownOnly(t1, t2);
    ShownOnly(t1, t3);
  }

  /** `testCancelCase`: the waiting task that set `isCanceled` is offered
      when the first yields, and withdraws without being presented; the
      third is presented instead, so the second is not the active task and
      its own `resignFocus` is refused (`finishInactiveTask`) and changes
      nothing. The flag is read only when the task is offered, so setting it
      after the additions, as the test does, has the same effect as holding
      it throughout. */
  lemma CancelCase(t1: Task, t2: Task, t3: Task)
    requires t1 != t2 && t2 != t3 && t1 != t3 && t1.priority > t2.priority > t3.priority
    requires !t1.isCanceled && t2.isCanceled && !t3.isCanceled
    ensures var s3 := AfterAdd(AfterAdd(AfterAdd(Fresh(), AnyPopupTask(t1)), AnyPopupTask(t2)), AnyPopupTask(t3));
      var s4 := AfterResign(s3, t1);
      && s4.activeTask == Some(AnyPopupTask(t3)) && |Listing(s4.activeTask, s4.queue)| == 1
      && Probe(HooksOf(s4.events, t1)) == Dismissed && Probe(HooksOf(s4.events, t2)) == Canceled
      && Probe(HooksOf(s4.events, t3)) == Show
      && s4.activeTask != Some(AnyPopupTask(t2)) && AfterResign(s4, t2) == s4
      && var s5 := AfterResign(s4, t3);
      && Listing(s5.activeTask, s5.queue) == []
      && HooksOf(s5.events, t2) == [WillShow, DidCanceled]
      && Probe(HooksOf(s5.events, t1)) == Dismissed && Probe(HooksOf(s5.events, t3)) == Dismissed
  {
    CancelCaseAdded(t1, t2, t3);
    var s3 := AfterAdd(AfterAdd(AfterAdd(Fresh(), AnyPopupTask(t1)), AnyPopupTask(t2)), AnyPopupTask(t3));
    var s4 := AfterResign(s3, t1);
    DismissedPastCanceled(s3, t1, AnyPopupTask(t2), AnyPopupTask(t3), s4);
    CancelMiddleTrace(t1, t2, t3);
    ProbeStates();
    var s5 := AfterResign(s4, t3);
    DismissedLast(s4, t3, s5);
    CancelTrace(t1, t2, t3);
  }

  /*****************************************************************************
    The tests on the older manager
  *****************************************************************************/

  /** The older manager as constructed. */
  function LegacyFresh(): (r: LegacyPopup.Snapshot)
    ensures LegacyPopup.AtRest(r) && r.state == Lifecycle.Idle && r.queue == []
  {
    LegacyPopup.Snapshot([], Lifecycle.Idle, [Lifecycle.Idle], [])
  }

  /** `testDoublePopupsShowThenDismissOneByOne` on the older manager: the
      second task, of higher priority, takes the top of the queue as soon as
      it is added, with no hook called on it. The first task's finish is
      then ignored, since it is no longer the top, so the first task is still
      shown and the second not, where the test expects the first dismissed
      and the second shown. The second task's finish then dismisses it
      though it was never shown, and the first is presented a second time. */
  lemma LegacyDoublePopups(t1: Task, t2: Task)
    requires t1 != t2 && t1.priority < t2.priority && !t1.isCanceled
    ensures var s1 := LegacyPopup.Admit(LegacyFresh(), AnyPopupTask(t1));
      && LegacyPopup.AtRest(s1) && s1.queue == [AnyPopupTask(t1)] && s1.state == Lifecycle.InProgress
      && var s2 := LegacyPopup.Admit(s1, AnyPopupTask(t2));
      && LegacyPopup.AtRest(s2) && LegacyPopup.Peek(s2.queue) == Some(AnyPopupTask(t2))
      && LegacyPopup.AfterFinish(s2, t1) == s2
      && Probe(HooksOf(s2.events, t1)) == Show && Probe(HooksOf(s2.events, t2)) == Idle
      && var s3 := LegacyPopup.AfterFinish(s2, t2);
      && LegacyPopup.Peek(s3.queue) == Some(AnyPopupTask(t1))
      && HooksOf(s3.events, t2) == [WillDismiss, DidDismiss] && Probe(HooksOf(s3.events, t2)) == Dismissed
      && HooksOf(s3.events, t1) == [WillShow, Render, DidShow, WillShow, Render, DidShow]
  {
    var w1, w2 := AnyPopupTask(t1), AnyPopupTask(t2);
    var s0 := LegacyFresh();
    var s1 := LegacyPopup.Admit(s0, w1);
    LegacyPopup.AdmitWhenIdle(s0, w1);
    LegacyPopup.AdmitRests(s0, w1);
    var s2 := LegacyPopup.Admit(s1, w2);
    LegacyPopup.AdmitPreempts(s1, w2);
    LegacyPopup.AdmitRests(s1, w2);
    ShownOnly(t1, t2);
    LegacyPopup.DismissFrom(s2);
    PromoteOne(w1);
    assert s2.queue[1..] == [w1];
    LegacyDoubleTrace(t1, t2);
  }

  /** `testTwoPopupsWithSamePriority` on the older manager: nothing is
      refused, and both tasks of the same priority are queued. */
  lemma LegacySamePriority(t1: Task, t2: Task)
    requires t1 != t2 && t1.priority == t2.priority && !t1.isCanceled
    ensures var s1 := LegacyPopup.Admit(LegacyFresh(), AnyPopupTask(t1));
      && LegacyPopup.AtRest(s1) && s1.queue != []
      && var s2 := LegacyPopup.Admit(s1, AnyPopupTask(t2));
      && |s2.queue| == 2 && t1 in Tasks(s2.queue) && t2 in Tasks(s2.queue)
  {
    var w1, w2 := AnyPopupTask(t1), AnyPopupTask(t2);
    var s0 := LegacyFresh();
    var s1 := LegacyPopup.Admit(s0, w1);
    LegacyPopup.AdmitWhenIdle(s0, w1);
    LegacyPopup.AdmitRests(s0, w1);
    LegacyPopup.AdmitWhileBusy(s1, w2);
    PushTwo(w1, w2);
  }
}
