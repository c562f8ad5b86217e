/**
  The current popup manager (`Popup.Manager` of Sources/Popup) and the
  request contract it schedules: the `PopupTask` protocol with its default
  lifecycle hooks, the type-erasing `AnyPopupTask` that the backlog stores,
  and the priority backlog itself.

  They share one module because a task keeps a back-reference to the manager
  it was added to while the manager keeps the tasks.
*/
module Popup {

  import opened Wrappers
  import opened Lifecycle

  /** The lifecycle hooks a task receives. `Render` is the hand-off to the
      presentation layer. */
  datatype Hook = WillShow | DidCanceled | DidShow | WillDismiss | DidDismiss | Render

  /** `Popup.Manager.Error`. */
  datatype Error = ContainsSamePriority | FinishInactiveTask

  /** The result of a throwing call: it returned, or it threw `error`. */
  datatype Outcome = Pass | Fail(error: Error)

  /*****************************************************************************
    The request contract
  *****************************************************************************/

  /**
    A request competing for the presentation slot. The protocol's default
    hooks have empty bodies, so what a manager does to a task is which hooks
    it calls on it and in what order; each manager keeps that record itself
    (`Manager.events`).
  */
  class Task {
    const priority: int
    var taskDescription: string
    var isCanceled: bool
    var manager: Manager?

    constructor (priority: int, description: string)
      ensures this.priority == priority && taskDescription == description
      ensures !isCanceled && manager == null
    {
      this.priority := priority;
      taskDescription := description;
      isCanceled := false;
      manager := null;
    }

    /** `description` and `debugDescription` of the protocol extension. */
    function Description(): string
      reads this
    {
      taskDescription
    }

    function DebugDescription(): string
      reads this
    {
      taskDescription
    }

    /**
      `resignFocus()`: the task yields the presentation slot. A task that was
      never added has no manager and the call does nothing; otherwise the
      manager decides (`Manager.TaskResignFocusAction`).
    */
    method ResignFocus() returns (r: Outcome)
      requires manager != null ==> manager.Valid()
      modifies manager
      ensures manager == old(manager)
      ensures manager == null ==> r == Pass
      ensures manager != null ==> manager.Valid()
      ensures manager != null ==>
        (r.Fail? <==> old(manager.activeTask) != Some(AnyPopupTask(this)))
      ensures r.Fail? ==> r.error == FinishInactiveTask
      ensures manager != null && r.Fail? ==> unchanged(manager)
      ensures manager != null && r.Pass? ==> manager.Now() == AfterTransit(old(manager.Now()), HandleDismiss)
    {
      if manager == null {
        r := Pass;
      } else {
        r := manager.TaskResignFocusAction(this);
      }
    }
  }

  /**
    `AnyPopupTask`, the type-erased task the backlog holds. It has no state
    of its own: every property reads or writes through to `base`, and every
    hook it receives is passed on to `base` (so a hook call is recorded
    against the wrapped task). Its comparison operators look only at the
    priority.
  */
  datatype AnyPopupTask = AnyPopupTask(base: Task)
  {
    function Priority(): int
    {
      base.priority
    }

    function GetManager(): Manager?
      reads base
    {
      base.manager
    }

    function GetDescription(): string
      reads base
    {
      base.taskDescription
    }

    function IsCanceled(): bool
      reads base
    {
      base.isCanceled
    }

    /** `description` and `debugDescription` of the wrapper. */
    function Description(): string
      reads base
    {
      GetDescription()
    }

    function DebugDescription(): string
      reads base
    {
      GetDescription()
    }

    /** `<`: the queue's ordering key. */
    predicate Less(rhs: AnyPopupTask)
    {
      Priority() < rhs.Priority()
    }

    /** `==`: two wrappers are equal when their priorities are. */
    predicate Equals(rhs: AnyPopupTask)
    {
      Priority() == rhs.Priority()
    }

    method SetManager(m: Manager?)
      modifies base`manager
      ensures base.manager == m
    {
      base.manager := m;
    }

    method SetDescription(d: string)
      modifies base`taskDescription
      ensures base.taskDescription == d
    {
      base.taskDescription := d;
    }

    method SetCanceled(b: bool)
      modifies base`isCanceled
      ensures base.isCanceled == b
    {
      base.isCanceled := b;
    }
  }

  /** The wrapper's getters report the wrapped task's fields. */
  lemma ForwardingReads(w: AnyPopupTask)
    ensures w.Priority() == w.base.priority
    ensures w.GetManager() == w.base.manager
    ensures w.GetDescription() == w.base.taskDescription
    ensures w.IsCanceled() == w.base.isCanceled
  {
  }

  /** Both descriptions of a task and of its wrapper are its `taskDescription`. */
  lemma DescriptionsAgree(w: AnyPopupTask)
    ensures w.base.Description() == w.base.taskDescription
    ensures w.base.DebugDescription() == w.base.taskDescription
    ensures w.Description() == w.base.Description()
    ensures w.DebugDescription() == w.base.DebugDescription()
  {
  }

  /** `<` is a strict order on priorities, and it is total up to `==`. */
  lemma LessIsStrictOrder(a: AnyPopupTask, b: AnyPopupTask, c: AnyPopupTask)
    ensures a.Less(b) <==> a.Priority() < b.Priority()
    ensures !a.Less(a)
    ensures a.Less(b) ==> !b.Less(a)
    ensures a.Less(b) && b.Less(c) ==> a.Less(c)
    ensures a.Less(b) || b.Less(a) || a.Equals(b)
  {
  }

  /** `==` holds exactly when the priorities agree, whichever tasks are wrapped:
      two different tasks of one priority are equal wrappers. */
  lemma EqualsIsPriorityEquality(a: AnyPopupTask, b: AnyPopupTask)
    ensures a.Equals(b) <==> a.Priority() == b.Priority()
    ensures a.base != b.base && a.base.priority == b.base.priority ==> a.Equals(b) && a != b
    ensures a.Equals(b) <==> !a.Less(b) && !b.Less(a)
  {
  }

  /*****************************************************************************
    The backlog

    `SwiftPriorityQueue.PriorityQueue` is not part of this model; the backlog
    is a sequence kept in descending priority order, so `peek` is the first
    element and `pop` removes it.
  *****************************************************************************/

  ghost function Bases(q: seq<AnyPopupTask>): set<Task>
  {
    set w | w in q :: w.base
  }

  /** `queue.value.map { $0.base }`. */
  function Tasks(q: seq<AnyPopupTask>): seq<Task>
  {
    seq(|q|, i requires 0 <= i < |q| => q[i].base)
  }

  ghost function Priorities(q: seq<AnyPopupTask>): set<int>
  {
    set w | w in q :: w.Priority()
  }

  ghost predicate Descending(q: seq<AnyPopupTask>)
  {
    forall i, j :: 0 <= i < j < |q| ==> q[i].Priority() >= q[j].Priority()
  }

  ghost predicate StrictlyDescending(q: seq<AnyPopupTask>)
  {
    forall i, j :: 0 <= i < j < |q| ==> q[i].Priority() > q[j].Priority()
  }

  ghost predicate DistinctBases(q: seq<AnyPopupTask>)
  {
    forall i, j :: 0 <= i < j < |q| ==> q[i].base != q[j].base
  }

  /** `push`: the new element goes after every element that is not below it. */
  function Insert(q: seq<AnyPopupTask>, w: AnyPopupTask): (r: seq<AnyPopupTask>)
    ensures multiset(r) == multiset(q) + multiset{w}
  {
    if q == [] || q[0].Less(w) then
      [w] + q
    else
      assert q == [q[0]] + q[1..];
      [q[0]] + Insert(q[1..], w)
  }

  /** After `push` the backlog holds the old elements and the new one. */
  lemma InsertMembers(q: seq<AnyPopupTask>, w: AnyPopupTask)
    ensures |Insert(q, w)| == |q| + 1
    ensures forall x :: x in Insert(q, w) <==> x in q || x == w
  {
    var r := Insert(q, w);
    assert |r| == |multiset(r)| == |q| + 1;
    forall x ensures x in r <==> x in q || x == w {
      assert x in r <==> x in multiset(r);
      assert x in q <==> x in multiset(q);
    }
  }

  /** In a descending backlog the front is not below anything behind it. */
  lemma FrontBounds(q: seq<AnyPopupTask>)
    requires q != []
    ensures Descending(q) ==> forall x :: x in q[1..] ==> q[0].Priority() >= x.Priority()
    ensures StrictlyDescending(q) ==> forall x :: x in q[1..] ==> q[0].Priority() > x.Priority()
  {
    forall x | x in q[1..] ensures exists k :: 0 < k < |q| && q[k] == x {
      var k :| 0 <= k < |q[1..]| && q[1..][k] == x;
      assert q[k + 1] == x;
    }
  }

  /** An element not below anything of a descending backlog can go in front. */
  lemma ConsDescending(x: AnyPopupTask, q: seq<AnyPopupTask>)
    requires Descending(q) && forall y :: y in q ==> x.Priority() >= y.Priority()
    ensures Descending([x] + q)
  {
    var r := [x] + q;
    forall i, j | 0 <= i < j < |r| ensures r[i].Priority() >= r[j].Priority() {
      assert r[j] == q[j - 1];
      if i > 0 {
        assert r[i] == q[i - 1];
      }
    }
  }

  /** An element above everything of a strictly descending backlog can go in
      front. */
  lemma ConsStrict(x: AnyPopupTask, q: seq<AnyPopupTask>)
    requires StrictlyDescending(q) && forall y :: y in q ==> x.Priority() > y.Priority()
    ensures StrictlyDescending([x] + q)
  {
    var r := [x] + q;
    forall i, j | 0 <= i < j < |r| ensures r[i].Priority() > r[j].Priority() {
      assert r[j] == q[j - 1];
      if i > 0 {
        assert r[i] == q[i - 1];
      }
    }
  }

  /** `push` keeps the backlog in descending order. */
  lemma {:induction false} InsertDescending(q: seq<AnyPopupTask>, w: AnyPopupTask)
    requires Descending(q)
    ensures Descending(Insert(q, w))
  {
    if q == [] || q[0].Less(w) {
      ConsDescending(w, q);
    } else {
      assert Descending(q[1..]);
      InsertDescending(q[1..], w);
      FrontBounds(q);
      var r' := Insert(q[1..], w);
      forall y | y in r' ensures q[0].Priority() >= y.Priority() {
        assert y in multiset(r');
        assert y in q[1..] || y == w;
      }
      ConsDescending(q[0], r');
    }
  }

  /** `push` of a priority not yet present keeps the order strict. */
  lemma {:induction false} InsertStrict(q: seq<AnyPopupTask>, w: AnyPopupTask)
    requires StrictlyDescending(q) && w.Priority() !in Priorities(q)
    ensures StrictlyDescending(Insert(q, w))
  {
    if q == [] || q[0].Less(w) {
      FrontBoundsAll(q, w);
    } else {
      assert q[0] in q && q[0].Priority() in Priorities(q);
      assert q[0].Priority() > w.Priority();
      assert Priorities(q[1..]) <= Priorities(q);
      assert StrictlyDescending(q[1..]);
      InsertStrict(q[1..], w);
      FrontBounds(q);
      var r' := Insert(q[1..], w);
      forall y | y in r' ensures q[0].Priority() > y.Priority() {
        assert y in multiset(r');
        assert y in q[1..] || y == w;
      }
      ConsStrict(q[0], r');
    }
  }

  /** A priority above the front of a strictly descending backlog is above
      all of it. */
  lemma FrontBoundsAll(q: seq<AnyPopupTask>, w: AnyPopupTask)
    requires StrictlyDescending(q) && (q == [] || q[0].Less(w))
    ensures StrictlyDescending([w] + q)
  {
    var r := [w] + q;
    forall i, j | 0 <= i < j < |r| ensures r[i].Priority() > r[j].Priority() {
      if i == 0 {
        assert r[j] == q[j - 1];
        assert q[0].Priority() >= q[j - 1].Priority();
      } else {
        assert r[i] == q[i - 1] && r[j] == q[j - 1];
      }
    }
  }

  /** `push` adds exactly the new task's priority to the backlog's. */
  lemma InsertPriorities(q: seq<AnyPopupTask>, w: AnyPopupTask)
    ensures Priorities(Insert(q, w)) == Priorities(q) + {w.Priority()}
  {
    var r := Insert(q, w);
    forall p | p in Priorities(r) ensures p in Priorities(q) + {w.Priority()} {
      var x :| x in r && x.Priority() == p;
      assert x in multiset(r);
      assert x in multiset(q) || x == w;
    }
    forall p | p in Priorities(q) ensures p in Priorities(r) {
      var x :| x in q && x.Priority() == p;
      assert x in multiset(q);
      assert x in multiset(r);
    }
    assert w in multiset(r);
  }

  /** At least one element `==` to `w`. */
  ghost predicate Holds(q: seq<AnyPopupTask>, w: AnyPopupTask)
  {
    exists i :: 0 <= i < |q| && q[i].Equals(w)
  }

  /** `remove`: drops the first element `==` to `w` (same priority), if any. */
  function Remove(q: seq<AnyPopupTask>, w: AnyPopupTask): (r: seq<AnyPopupTask>)
    ensures if Holds(q, w) then |r| == |q| - 1 else r == q
    ensures multiset(r) <= multiset(q)
  {
    if q == [] then
      []
    else if q[0].Equals(w) then
      assert q == [q[0]] + q[1..];
      q[1..]
    else
      assert q == [q[0]] + q[1..];
      assert Holds(q, w) <==> Holds(q[1..], w) by {
        if Holds(q, w) {
          var i :| 0 <= i < |q| && q[i].Equals(w);
          assert q[1..][i - 1] == q[i];
        }
        if Holds(q[1..], w) {
          var i :| 0 <= i < |q[1..]| && q[1..][i].Equals(w);
          assert q[i + 1] == q[1..][i];
        }
      }
      [q[0]] + Remove(q[1..], w)
  }

  /** When some element is `==` to `w`, `remove` drops exactly the first of
      them, at index `i`, and keeps every other element in order. */
  lemma {:induction false} RemoveIsFirstEqual(q: seq<AnyPopupTask>, w: AnyPopupTask) returns (i: nat)
    requires Holds(q, w)
    ensures i < |q| && q[i].Equals(w)
    ensures forall j :: 0 <= j < i ==> !q[j].Equals(w)
    ensures Remove(q, w) == q[..i] + q[i + 1..]
  {
    if q[0].Equals(w) {
      i := 0;
    } else {
      var k :| 0 <= k < |q| && q[k].Equals(w);
      assert q[1..][k - 1] == q[k];
      var i' := RemoveIsFirstEqual(q[1..], w);
      i := i' + 1;
      assert q[..i] == [q[0]] + q[1..][..i'];
      assert q[i + 1..] == q[1..][i' + 1..];
      forall j | 0 <= j < i ensures !q[j].Equals(w) {
        if j > 0 {
          assert q[j] == q[1..][j - 1];
        }
      }
    }
  }

  /** A new priority above all others goes to the top (`peek` changes). */
  lemma InsertAbove(q: seq<AnyPopupTask>, w: AnyPopupTask)
    requires q != [] && q[0].Less(w)
    ensures Insert(q, w) == [w] + q
  {
  }

  /** The front of a descending backlog is a maximum: `peek`/`pop` give the
      highest priority. */
  lemma FrontIsMaximum(q: seq<AnyPopupTask>, w: AnyPopupTask)
    requires Descending(q) && q != [] && w in q
    ensures !q[0].Less(w)
  {
  }

  /** In a descending backlog the front is the first element `==` to itself,
      so removing it by `==` removes exactly the front. */
  lemma RemoveFront(q: seq<AnyPopupTask>)
    requires q != []
    ensures Remove(q, q[0]) == q[1..]
  {
  }

  /** Distinct priorities mean distinct tasks. */
  lemma StrictIsDistinct(q: seq<AnyPopupTask>)
    requires StrictlyDescending(q)
    ensures DistinctBases(q)
  {
  }

  /** Splitting off the front of a backlog. */
  lemma PrioritiesFront(q: seq<AnyPopupTask>)
    requires q != []
    ensures Priorities(q) == {q[0].Priority()} + Priorities(q[1..])
    ensures StrictlyDescending(q) ==> q[0].Priority() !in Priorities(q[1..])
  {
    assert q == [q[0]] + q[1..];
    FrontBounds(q);
  }

  /** How many tasks at the front of `q` cancel themselves in `willShow`
      before one does not. */
  function CanceledPrefix(q: seq<AnyPopupTask>): (k: nat)
    reads Bases(q)`isCanceled
    ensures k <= |q|
    ensures forall i :: 0 <= i < k ==> q[i].base.isCanceled
    ensures k < |q| ==> !q[k].base.isCanceled
  {
    if q == [] || !q[0].base.isCanceled then 0 else 1 + CanceledPrefix(q[1..])
  }

  /** The states a manager passes through after entering `active` with
      backlog `q`: one round `handleShow, handleCancel, active` per task
      that cancels itself, then either `handleShow, inProgress, inProgress`
      (the `inProgress` self-loop) or `idle, idle`. */
  ghost function PromotionWalk(q: seq<AnyPopupTask>): seq<State>
    reads Bases(q)`isCanceled
  {
    if q == [] then
      [Idle, Idle]
    else if q[0].base.isCanceled then
      [HandleShow, HandleCancel, Active] + PromotionWalk(q[1..])
    else
      [HandleShow, InProgress, InProgress]
  }

  /** Entering `active` starts a legal walk that comes to rest in `idle`
      exactly when every backlog task cancels itself. */
  lemma {:induction false} PromotionWalkIsLegal(q: seq<AnyPopupTask>)
    ensures LegalWalk([Active] + PromotionWalk(q))
    ensures Last([Active] + PromotionWalk(q)) == if CanceledPrefix(q) == |q| then Idle else InProgress
  {
    if q == [] {
    } else if q[0].base.isCanceled {
      PromotionWalkIsLegal(q[1..]);
      var tail := [Active] + PromotionWalk(q[1..]);
      assert [Active] + PromotionWalk(q) == [Active, HandleShow, HandleCancel] + tail;
      LegalWalkConcat([Active, HandleShow, HandleCancel], tail);
    } else {
    }
  }

  /** Splitting off the front of a backlog, for its tasks. */
  lemma BasesFront(q: seq<AnyPopupTask>)
    requires q != []
    ensures Bases(q) == {q[0].base} + Bases(q[1..])
  {
    assert q == [q[0]] + q[1..];
  }

  /** Cutting a strictly descending backlog at position `k`: what is left of
      its priorities once those of `q[..k]` are released is the priority of
      `q[k]` and those after it, and the rest is still strictly descending. */
  lemma PrioritiesSplit(q: seq<AnyPopupTask>, k: nat)
    requires StrictlyDescending(q) && k < |q|
    ensures Priorities(q) - Priorities(q[..k]) == {q[k].Priority()} + Priorities(q[k + 1..])
    ensures q[k].Priority() !in Priorities(q[k + 1..])
    ensures StrictlyDescending(q[k + 1..])
  {
    ReleasedAreBefore(q, k);
    KeptAreNotBefore(q, k);
    SuffixBelow(q, k);
  }

  /** A priority of `q` that `q[..k]` does not hold is held from `k` on. */
  lemma ReleasedAreBefore(q: seq<AnyPopupTask>, k: nat)
    requires k < |q|
    ensures Priorities(q) - Priorities(q[..k]) <= {q[k].Priority()} + Priorities(q[k + 1..])
  {
    var pre, post := q[..k], q[k + 1..];
    forall p | p in Priorities(q) - Priorities(pre) ensures p in {q[k].Priority()} + Priorities(post) {
      var x :| x in q && x.Priority() == p;
      var i :| 0 <= i < |q| && q[i] == x;
      if i > k {
        assert post[i - k - 1] == x;
      }
    }
  }

  /** In a strictly descending backlog, no priority held from `k` on is held
      before `k`. */
  lemma KeptAreNotBefore(q: seq<AnyPopupTask>, k: nat)
    requires StrictlyDescending(q) && k < |q|
    ensures {q[k].Priority()} + Priorities(q[k + 1..]) <= Priorities(q) - Priorities(q[..k])
  {
    var pre, post := q[..k], q[k + 1..];
    forall p | p in {q[k].Priority()} + Priorities(post) ensures p in Priorities(q) - Priorities(pre) {
      var i := HeldFrom(q, k, p);
      assert q[i] in q;
      forall y | y in pre ensures y.Priority() != p {
        var m :| 0 <= m < |pre| && pre[m] == y;
        assert q[m] == y;
        assert q[m].Priority() > q[i].Priority();
      }
    }
  }

  /** The position, from `k` on, of a priority held there. */
  lemma HeldFrom(q: seq<AnyPopupTask>, k: nat, p: int) returns (i: nat)
    requires k < |q| && p in {q[k].Priority()} + Priorities(q[k + 1..])
    ensures k <= i < |q| && q[i].Priority() == p
  {
    if p == q[k].Priority() {
      i := k;
    } else {
      var post := q[k + 1..];
      var x :| x in post && x.Priority() == p;
      var j :| 0 <= j < |post| && post[j] == x;
      i := j + k + 1;
      assert q[i] == x;
    }
  }

  /** What follows `q[k]` in a strictly descending backlog is below it and
      strictly descending. */
  lemma SuffixBelow(q: seq<AnyPopupTask>, k: nat)
    requires StrictlyDescending(q) && k < |q|
    ensures q[k].Priority() !in Priorities(q[k + 1..])
    ensures StrictlyDescending(q[k + 1..])
  {
    var post := q[k + 1..];
    forall x | x in post ensures x.Priority() != q[k].Priority() {
      var j :| 0 <= j < |post| && post[j] == x;
      assert q[j + k + 1] == x;
    }
    forall i, j | 0 <= i < j < |post| ensures post[i].Priority() > post[j].Priority() {
      assert post[i] == q[i + k + 1] && post[j] == q[j + k + 1];
    }
  }

  /*****************************************************************************
    Hook calls
  *****************************************************************************/

  /** One call of `hook` on `task`. */
  datatype Event = Event(task: Task, hook: Hook)

  /** `willShow`, `render`, `didShow`: the calls that present `t`. */
  function ShowCalls(t: Task): seq<Event>
  {
    [Event(t, WillShow), Event(t, Render), Event(t, DidShow)]
  }

  /** `willShow`, `didCanceled`: the calls on a task that cancels itself. */
  function CancelCalls(t: Task): seq<Event>
  {
    [Event(t, WillShow), Event(t, DidCanceled)]
  }

  /** `willDismiss`, `didDismiss`: the calls that retire a presented task. */
  function DismissCalls(t: Task): seq<Event>
  {
    [Event(t, WillDismiss), Event(t, DidDismiss)]
  }

  /** `CancelCalls` of each task of `q`, in order. */
  function Cancellations(q: seq<AnyPopupTask>): seq<Event>
  {
    if q == [] then [] else CancelCalls(q[0].base) + Cancellations(q[1..])
  }

  /** The hook calls of the promotion that entering `active` with backlog `q`
      starts: every task that cancels itself is offered and withdrawn, and
      the first that does not is presented. */
  ghost function PromotionCalls(q: seq<AnyPopupTask>): seq<Event>
    reads Bases(q)`isCanceled
  {
    if q == [] then []
    else if q[0].base.isCanceled then CancelCalls(q[0].base) + PromotionCalls(q[1..])
    else ShowCalls(q[0].base)
  }

  /** The hooks `t` received among `events`, in order. */
  function HooksOf(events: seq<Event>, t: Task): seq<Hook>
  {
    if events == [] then []
    else (if events[0].task == t then [events[0].hook] else []) + HooksOf(events[1..], t)
  }

  /** What each task received from a trace made of two parts. */
  lemma {:induction false} HooksOfConcat(a: seq<Event>, b: seq<Event>, t: Task)
    ensures HooksOf(a + b, t) == HooksOf(a, t) + HooksOf(b, t)
  {
    if a != [] {
      assert (a + b)[0] == a[0];
      assert (a + b)[1..] == a[1..] + b;
      HooksOfConcat(a[1..], b, t);
      var h := if a[0].task == t then [a[0].hook] else [];
      assert HooksOf(a + b, t) == h + HooksOf(a[1..] + b, t);
      assert HooksOf(a, t) == h + HooksOf(a[1..], t);
      assert h + (HooksOf(a[1..], t) + HooksOf(b, t)) == (h + HooksOf(a[1..], t)) + HooksOf(b, t);
    } else {
      assert a + b == b;
    }
  }

  /** The calls that present, withdraw or retire `t` reach `t` and no other
      task. */
  lemma HooksOfCalls(t: Task, u: Task)
    ensures HooksOf(ShowCalls(t), u) == if t == u then [WillShow, Render, DidShow] else []
    ensures HooksOf(CancelCalls(t), u) == if t == u then [WillShow, DidCanceled] else []
    ensures HooksOf(DismissCalls(t), u) == if t == u then [WillDismiss, DidDismiss] else []
  {
    var e := ShowCalls(t);
    assert e[1..] == [Event(t, Render), Event(t, DidShow)] && e[1..][1..] == [Event(t, DidShow)] && e[1..][1..][1..] == [];
    assert HooksOf(e[1..][1..], u) == if t == u then [DidShow] else [];
    assert HooksOf(e[1..], u) == if t == u then [Render, DidShow] else [];
    var c := CancelCalls(t);
    assert c[1..] == [Event(t, DidCanceled)] && c[1..][1..] == [];
    assert HooksOf(c[1..], u) == if t == u then [DidCanceled] else [];
    var d := DismissCalls(t);
    assert d[1..] == [Event(t, DidDismiss)] && d[1..][1..] == [];
    assert HooksOf(d[1..], u) == if t == u then [DidDismiss] else [];
  }

  /** The promotion calls are the withdrawals of the tasks that cancel
      themselves followed by the presentation of the first that does not. */
  lemma {:induction false} PromotionCallsSplit(q: seq<AnyPopupTask>)
    ensures var k := CanceledPrefix(q);
      PromotionCalls(q) == Cancellations(q[..k]) + (if k < |q| then ShowCalls(q[k].base) else [])
  {
    var k := CanceledPrefix(q);
    if q != [] && q[0].base.isCanceled {
      PromotionCallsSplit(q[1..]);
      assert q[..k] == [q[0]] + q[1..][..k - 1];
      assert q[..k][1..] == q[1..][..k - 1];
    } else if q != [] {
      assert q[..k] == [];
    }
  }

  /** The last three calls of `events` present `t`. */
  ghost predicate EndsWithShow(events: seq<Event>, t: Task)
  {
    |events| >= 3 && events[|events| - 3..] == ShowCalls(t)
  }

  /*****************************************************************************
    The current manager as a value

    A `Snapshot` is everything a manager holds, with its two ghost records:
    `walk`, every state it has been set to, and `events`, every hook call it
    has made. `AfterTransit` and `AfterHandler` follow `transit(to:)` and its
    handlers on snapshots; the methods of `Manager` are proved to change
    their manager exactly as these functions say, and the lemmas below say
    in closed form what the functions compute and which invariant they keep.
  *****************************************************************************/

  datatype Snapshot = Snapshot(
    queue: seq<AnyPopupTask>,
    activeTask: Option<AnyPopupTask>,
    prioritySet: set<int>,
    state: State,
    walk: seq<State>,
    events: seq<Event>)

  /** The tasks a snapshot holds: their `isCanceled` flags steer the machine. */
  ghost function Held(s: Snapshot): set<Task>
  {
    Bases(s.queue) + (if s.activeTask.Some? then {s.activeTask.value.base} else {})
  }

  function ActivePriority(a: Option<AnyPopupTask>): set<int>
  {
    if a.Some? then {a.value.Priority()} else {}
  }

  /** `allTasks.count`. */
  function TaskCount(s: Snapshot): nat
  {
    |s.queue| + (if s.activeTask.Some? then 1 else 0)
  }

  /** `self.state = state`, with the new state recorded in the walk. */
  function Enter(s: Snapshot, to: State): Snapshot
  {
    s.(state := to, walk := s.walk + [to])
  }

  /** A hook call on the active task. */
  function Notify(s: Snapshot, h: Hook): Snapshot
    requires s.activeTask.Some?
  {
    s.(events := s.events + [Event(s.activeTask.value.base, h)])
  }

  /** `allTasks`: the active task, if any, then the backlog. */
  function Listing(a: Option<AnyPopupTask>, q: seq<AnyPopupTask>): (r: seq<Task>)
    ensures |r| == |q| + (if a.Some? then 1 else 0)
    ensures a.Some? ==> r[0] == a.value.base
    ensures forall i :: 0 <= i < |q| ==> r[i + |r| - |q|] == q[i].base
  {
    (if a.Some? then [a.value.base] else []) + Tasks(q)
  }

  /** `prioritySet.remove(activeTask.priority)` and `activeTask = nil`. */
  function Release(s: Snapshot): Snapshot
    requires s.activeTask.Some?
  {
    s.(prioritySet := s.prioritySet - {s.activeTask.value.Priority()}, activeTask := None)
  }

  /** `activeTask = queue.pop()`. */
  function Pop(s: Snapshot): Snapshot
    requires s.queue != []
  {
    s.(activeTask := Some(s.queue[0]), queue := s.queue[1..])
  }

  /** `prioritySet.insert(task.priority)` and `queue.push(AnyPopupTask(task))`. */
  function Push(s: Snapshot, w: AnyPopupTask): Snapshot
  {
    s.(prioritySet := s.prioritySet + {w.Priority()}, queue := Insert(s.queue, w))
  }

  /** What `transit(to:)` needs: a legal transition (the source aborts on any
      other), and an active task for the handlers that use one (the source
      aborts without one). */
  ghost predicate Ready(s: Snapshot, to: State)
  {
    && CanTransit(s.state, to)
    && (to == HandleShow || to == HandleCancel || to == InProgress || to == HandleDismiss ==> s.activeTask.Some?)
  }

  /** What the handler of the current state needs: an active task, for the
      handlers that use one. */
  ghost predicate HandlerReady(s: Snapshot)
  {
    s.state == HandleShow || s.state == HandleCancel || s.state == InProgress || s.state == HandleDismiss ==> s.activeTask.Some?
  }

  /** The measure that bounds the `transit` chain: a call `transit(to)` ranks
      just above the handler it runs, and a handler ranks above every
      `transit` it makes without popping the backlog. */
  function HandlerRank(s: State): nat
  {
    match s
    case Idle => 2
    case InProgress => 2
    case Active => 4
    case HandleCancel => 6
    case HandleDismiss => 6
    case HandleShow => 8
  }

  function TransitRank(from: State, to: State): nat
  {
    if from == to then 0 else HandlerRank(to) + 1
  }

  /** `transit(to:)`: record the new state; the self-transitions of `idle`
      and `inProgress` (the only ones the table allows) stop there, every
      other transition runs the handler of the new state. */
  ghost function AfterTransit(s: Snapshot, to: State): Snapshot
    requires Ready(s, to)
    reads Held(s)`isCanceled
    decreases |s.queue|, TransitRank(s.state, to)
  {
    if s.state == to then Enter(s, to) else AfterHandler(Enter(s, to))
  }

  /** The handler of the current state, `handleToIdle()` … `handleToDismiss()`. */
  ghost function AfterHandler(s: Snapshot): Snapshot
    requires HandlerReady(s)
    reads Held(s)`isCanceled
    decreases |s.queue|, HandlerRank(s.state)
  {
    match s.state
    case Idle => AfterTransit(s, Idle)
    case Active =>
      if |s.queue| == 0 then AfterTransit(s, Idle)
      else BasesFront(s.queue); AfterTransit(Pop(s), HandleShow)
    case HandleShow =>
      var s' := Notify(s, WillShow);
      if s.activeTask.value.base.isCanceled then AfterTransit(s', HandleCancel) else AfterTransit(s', InProgress)
    case HandleCancel => AfterTransit(Release(Notify(s, DidCanceled)), Active)
    case InProgress => AfterTransit(Notify(Notify(s, Render), DidShow), InProgress)
    case HandleDismiss => AfterTransit(Release(Notify(Notify(s, WillDismiss), DidDismiss)), Active)
  }

  /** `becomeActiveIfNeeded()`: the machine starts when the manager holds
      exactly one task. The source aborts if it is then not `idle`; with the
      active slot empty exactly when the manager is `idle` that cannot be. */
  ghost function BecomeActive(s: Snapshot): Snapshot
    requires s.queue != []
    requires (s.state == Idle && s.activeTask == None) || (s.state == InProgress && s.activeTask.Some?)
    reads Held(s)`isCanceled
  {
    if TaskCount(s) != 1 then s else AfterTransit(s, Active)
  }

  /** Everything `add(task:)` does once the priority is known to be free. */
  ghost function Admit(s: Snapshot, w: AnyPopupTask): Snapshot
    requires (s.state == Idle && s.activeTask == None) || (s.state == InProgress && s.activeTask.Some?)
    reads Held(Push(s, w))`isCanceled
  {
    InsertMembers(s.queue, w);
    BecomeActive(Push(s, w))
  }

  /** What holds after every public call: the backlog is strictly descending,
      `prioritySet` holds exactly the priorities of the tasks held and the
      active task's is not also in the backlog, the walk is a legal walk from
      `idle` to the current state, and the manager rests either in `idle`
      with nothing to do or in `inProgress` with a task presented by the last
      three hook calls. */
  ghost predicate AtRest(s: Snapshot)
  {
    && StrictlyDescending(s.queue)
    && s.prioritySet == Priorities(s.queue) + ActivePriority(s.activeTask)
    && (s.activeTask.Some? ==> s.activeTask.value.Priority() !in Priorities(s.queue))
    && s.walk != [] && s.walk[0] == Idle && LegalWalk(s.walk) && Last(s.walk) == s.state
    && ((s.state == Idle && s.activeTask == None && s.queue == [])
        || (s.state == InProgress && s.activeTask.Some? && EndsWithShow(s.events, s.activeTask.value.base)))
  }

  /*****************************************************************************
    What the state machine computes
  *****************************************************************************/

  /** One round of withdrawal: the front task of the backlog is popped,
      offered, cancels itself and is released; the manager is `active` again. */
  function Withdraw(s: Snapshot): Snapshot
    requires s.queue != []
  {
    s.(queue := s.queue[1..],
       walk := s.walk + [HandleShow, HandleCancel, Active],
       events := s.events + CancelCalls(s.queue[0].base),
       prioritySet := s.prioritySet - {s.queue[0].Priority()})
  }

  /** `handleToActive()` with an empty backlog goes to `idle` and rests there:
      the current manager's own guard (Sources/Popup/PopupManager.swift:168-173),
      over its `Snapshot`, which has the active-task slot and the priority set. */
  lemma ActiveWhenEmpty(s: Snapshot)
    requires s.state == Active && s.queue == []
    ensures AfterHandler(s) == s.(state := Idle, walk := s.walk + [Idle, Idle])
  {
    var s1 := Enter(s, Idle);
    assert AfterHandler(s) == AfterTransit(s, Idle) == AfterHandler(s1);
    assert AfterHandler(s1) == AfterTransit(s1, Idle) == Enter(s1, Idle);
  }

  /** `handleToActive()` with a front task that does not cancel itself pops
      it into the slot and presents it. */
  lemma ActiveWhenShown(s: Snapshot)
    requires s.state == Active && s.queue != [] && !s.queue[0].base.isCanceled
    ensures AfterHandler(s) == s.(activeTask := Some(s.queue[0]), queue := s.queue[1..], state := InProgress,
                                  walk := s.walk + [HandleShow, InProgress, InProgress],
                                  events := s.events + ShowCalls(s.queue[0].base))
  {
    BasesFront(s.queue);
    var s2 := Enter(Pop(s), HandleShow);
    var s3 := Notify(s2, WillShow);
    var s4 := Enter(s3, InProgress);
    var s5 := Notify(Notify(s4, Render), DidShow);
    assert AfterHandler(s) == AfterTransit(Pop(s), HandleShow) == AfterHandler(s2);
    assert AfterHandler(s2) == AfterTransit(s3, InProgress) == AfterHandler(s4);
    assert AfterHandler(s4) == AfterTransit(s5, InProgress) == Enter(s5, InProgress);
  }

  /** `handleToActive()` with a front task that cancels itself withdraws it
      and enters `active` again. */
  lemma ActiveWhenCanceled(s: Snapshot)
    requires s.state == Active && s.activeTask == None && s.queue != [] && s.queue[0].base.isCanceled
    ensures AfterHandler(s) == AfterHandler(Withdraw(s))
  {
    BasesFront(s.queue);
    var s2 := Enter(Pop(s), HandleShow);
    var s3 := Notify(s2, WillShow);
    var s4 := Enter(s3, HandleCancel);
    var s5 := Release(Notify(s4, DidCanceled));
    var s6 := Enter(s5, Active);
    assert AfterHandler(s) == AfterTransit(Pop(s), HandleShow) == AfterHandler(s2);
    assert AfterHandler(s2) == AfterTransit(s3, HandleCancel) == AfterHandler(s4);
    assert AfterHandler(s4) == AfterTransit(s5, Active) == AfterHandler(s6);
    assert s6 == Withdraw(s);
  }

  /** The closed form of a promotion from `s`, an entry into `active` with an
      empty slot, to `r`: the tasks at the front of the backlog that cancel
      themselves are offered and withdrawn one after the other, releasing
      their priorities; the first that does not is popped into the slot and
      presented; if there is none the manager goes back to `idle` with an
      empty backlog. */
  ghost predicate PromotedTo(s: Snapshot, r: Snapshot)
    reads Bases(s.queue)`isCanceled
  {
    var q := s.queue; var k := CanceledPrefix(q);
    && r.walk == s.walk + PromotionWalk(q)
    && r.events == s.events + PromotionCalls(q)
    && (k < |q| ==>
          && r.activeTask == Some(q[k]) && r.queue == q[k + 1..] && r.state == InProgress
          && r.prioritySet == s.prioritySet - Priorities(q[..k]))
    && (k == |q| ==>
          && r.activeTask == None && r.queue == [] && r.state == Idle
          && r.prioritySet == s.prioritySet - Priorities(q))
  }

  /** `handleToActive()` with an empty slot promotes the backlog as
      `PromotedTo` says. */
  lemma {:induction false} PromoteFrom(s: Snapshot)
    requires s.state == Active && s.activeTask == None
    decreases |s.queue|
    ensures PromotedTo(s, AfterHandler(s))
  {
    if s.queue == [] {
      PromoteNone(s);
    } else if !s.queue[0].base.isCanceled {
      PromoteFirst(s);
    } else {
      var w := Withdraw(s);
      ActiveWhenCanceled(s);
      PromoteFrom(w);
      PromoteStep(s, AfterHandler(w));
    }
  }

  /** The promotion of an empty backlog. */
  lemma PromoteNone(s: Snapshot)
    requires s.state == Active && s.activeTask == None && s.queue == []
    ensures PromotedTo(s, AfterHandler(s))
  {
    ActiveWhenEmpty(s);
  }

  /** The promotion of a backlog whose front task does not cancel itself. */
  lemma PromoteFirst(s: Snapshot)
    requires s.state == Active && s.activeTask == None && s.queue != [] && !s.queue[0].base.isCanceled
    ensures PromotedTo(s, AfterHandler(s))
  {
    ActiveWhenShown(s);
    assert s.queue[..0] == [];
  }

  /** How the closed form of a promotion after one withdrawal gives it
      before. */
  lemma PromoteStep(s: Snapshot, r: Snapshot)
    requires s.queue != [] && s.queue[0].base.isCanceled
    requires PromotedTo(Withdraw(s), r)
    ensures PromotedTo(s, r)
  {
    var q := s.queue;
    var a := q[0];
    var k := CanceledPrefix(q);
    assert k == CanceledPrefix(q[1..]) + 1;
    assert (s.walk + [HandleShow, HandleCancel, Active]) + PromotionWalk(q[1..])
      == s.walk + ([HandleShow, HandleCancel, Active] + PromotionWalk(q[1..]));
    assert (s.events + CancelCalls(a.base)) + PromotionCalls(q[1..])
      == s.events + (CancelCalls(a.base) + PromotionCalls(q[1..]));
    PrioritiesFront(q);
    if k < |q| {
      assert q[1..][k - 1] == q[k] && q[1..][k..] == q[k + 1..];
      assert q[..k] == [a] + q[1..][..k - 1];
      PrioritiesFront(q[..k]);
      assert q[..k][1..] == q[1..][..k - 1];
    }
  }

  /** A promotion from a coherent entry into `active` leaves the manager at rest. */
  lemma PromoteRests(s: Snapshot)
    requires s.state == Active && s.activeTask == None
    requires StrictlyDescending(s.queue) && s.prioritySet == Priorities(s.queue)
    requires s.walk != [] && s.walk[0] == Idle && LegalWalk(s.walk) && Last(s.walk) == Active
    ensures AtRest(AfterHandler(s))
  {
    var q := s.queue;
    var k := CanceledPrefix(q);
    PromoteFrom(s);
    PromotionWalkIsLegal(q);
    LegalWalkExtend(s.walk, PromotionWalk(q));
    PromotionCallsSplit(q);
    if k < |q| {
      PrioritiesSplit(q, k);
      var pre := s.events + Cancellations(q[..k]);
      assert s.events + PromotionCalls(q) == pre + ShowCalls(q[k].base);
    }
  }

  /** `add(task:)` of a free priority keeps the manager at rest. */
  lemma AdmitRests(s: Snapshot, w: AnyPopupTask)
    requires AtRest(s) && w.Priority() !in s.prioritySet
    ensures AtRest(Admit(s, w))
  {
    InsertMembers(s.queue, w);
    InsertStrict(s.queue, w);
    InsertPriorities(s.queue, w);
    if s.activeTask == None {
      var s1 := Enter(Push(s, w), Active);
      assert Push(s, w).queue == [w];
      LegalWalkSnoc(s.walk, Active);
      assert AfterTransit(Push(s, w), Active) == AfterHandler(s1);
      PromoteRests(s1);
    }
  }

  /** While a task is presented, `add(task:)` only files the new task: the
      active task, the state, the walk and the hook calls stay as they were,
      however high the new priority — the presented task is never preempted. */
  lemma AdmitWhileBusy(s: Snapshot, w: AnyPopupTask)
    requires AtRest(s) && w.Priority() !in s.prioritySet && s.activeTask.Some?
    ensures var r := Admit(s, w);
      && r.activeTask == s.activeTask && r.state == InProgress
      && r.queue == Insert(s.queue, w) && r.prioritySet == s.prioritySet + {w.Priority()}
      && r.walk == s.walk && r.events == s.events
  {
    InsertMembers(s.queue, w);
  }

  /** `add(task:)` on an idle manager presents the task at once, or, if it
      cancels itself, offers and withdraws it and goes back to `idle`. */
  lemma AdmitWhenIdle(s: Snapshot, w: AnyPopupTask)
    requires AtRest(s) && s.state == Idle
    ensures var r := Admit(s, w);
      if !w.base.isCanceled then
        && r.activeTask == Some(w) && r.queue == [] && r.state == InProgress
        && r.prioritySet == {w.Priority()}
        && r.walk == s.walk + [Active, HandleShow, InProgress, InProgress]
        && r.events == s.events + ShowCalls(w.base)
      else
        && r.activeTask == None && r.queue == [] && r.state == Idle && r.prioritySet == {}
        && r.walk == s.walk + [Active, HandleShow, HandleCancel, Active, Idle, Idle]
        && r.events == s.events + CancelCalls(w.base)
  {
    var s1 := Enter(Push(s, w), Active);
    assert Push(s, w).queue == [w] && [w][1..] == [] && [w][..1] == [w];
    assert AfterTransit(Push(s, w), Active) == AfterHandler(s1);
    PromoteFrom(s1);
    assert Priorities([w]) == {w.Priority()};
    if w.base.isCanceled {
      assert PromotionWalk([w]) == [HandleShow, HandleCancel, Active] + PromotionWalk([]);
      assert PromotionCalls([w]) == CancelCalls(w.base) + PromotionCalls([]);
      assert s1.walk + PromotionWalk([w]) == s.walk + [Active, HandleShow, HandleCancel, Active, Idle, Idle];
    }
  }

  /** `transit(to: .handleDismiss)` from rest with a presented task,
      unfolded: the task receives `willDismiss` and `didDismiss`, its
      priority is released, the slot cleared and the manager enters
      `active`. */
  lemma DismissUnfolds(s: Snapshot)
    requires AtRest(s) && s.activeTask.Some?
    ensures Ready(s, HandleDismiss)
    ensures var a := s.activeTask.value;
      AfterTransit(s, HandleDismiss) == AfterHandler(s.(state := Active, walk := s.walk + [HandleDismiss, Active],
        events := s.events + DismissCalls(a.base), activeTask := None, prioritySet := s.prioritySet - {a.Priority()}))
  {
    var a := s.activeTask.value;
    var s1 := Enter(s, HandleDismiss);
    var s2 := Release(Notify(Notify(s1, WillDismiss), DidDismiss));
    assert AfterTransit(s, HandleDismiss) == AfterHandler(s1) == AfterTransit(s2, Active) == AfterHandler(Enter(s2, Active));
    assert s.walk + [HandleDismiss] + [Active] == s.walk + [HandleDismiss, Active];
    assert s.events + [Event(a.base, WillDismiss)] + [Event(a.base, DidDismiss)] == s.events + DismissCalls(a.base);
  }

  /** The entry into `active` that a dismissal from `s` reaches. */
  ghost function DismissEntry(s: Snapshot): Snapshot
    requires s.activeTask.Some?
  {
    var a := s.activeTask.value;
    s.(state := Active, walk := s.walk + [HandleDismiss, Active],
      events := s.events + DismissCalls(a.base), activeTask := None, prioritySet := s.prioritySet - {a.Priority()})
  }

  /** The closed form of a promotion that follows a dismissal from rest. */
  lemma DismissCloses(s: Snapshot, r: Snapshot)
    requires AtRest(s) && s.activeTask.Some?
    requires PromotedTo(DismissEntry(s), r)
    ensures var a := s.activeTask.value; var q := s.queue; var k := CanceledPrefix(q);
      && r.walk == s.walk + [HandleDismiss, Active] + PromotionWalk(q)
      && r.events == s.events + DismissCalls(a.base) + PromotionCalls(q)
      && (k < |q| ==>
            && r.activeTask == Some(q[k]) && r.queue == q[k + 1..] && r.state == InProgress
            && r.prioritySet == Priorities(q) - Priorities(q[..k]))
      && (k == |q| ==> r.activeTask == None && r.queue == [] && r.state == Idle && r.prioritySet == {})
  {
    assert DismissEntry(s).prioritySet == Priorities(s.queue);
  }

  /** `transit(to: .handleDismiss)` from rest with a presented task: the task
      is dismissed (`willDismiss`, `didDismiss`), its priority released, and
      the backlog promoted as `PromotedTo` says. */
  lemma DismissFrom(s: Snapshot)
    requires AtRest(s) && s.activeTask.Some?
    ensures Ready(s, HandleDismiss)
    ensures var r := AfterTransit(s, HandleDismiss); var a := s.activeTask.value;
      var q := s.queue; var k := CanceledPrefix(q);
      && r.walk == s.walk + [HandleDismiss, Active] + PromotionWalk(q)
      && r.events == s.events + DismissCalls(a.base) + PromotionCalls(q)
      && (k < |q| ==>
            && r.activeTask == Some(q[k]) && r.queue == q[k + 1..] && r.state == InProgress
            && r.prioritySet == Priorities(q) - Priorities(q[..k]))
      && (k == |q| ==> r.activeTask == None && r.queue == [] && r.state == Idle && r.prioritySet == {})
      && AtRest(r)
  {
    DismissPromotes(s);
    DismissCloses(s, AfterTransit(s, HandleDismiss));
  }

  /** A dismissal from rest promotes from `DismissEntry(s)` and leaves the
      manager at rest. */
  lemma DismissPromotes(s: Snapshot)
    requires AtRest(s) && s.activeTask.Some?
    ensures Ready(s, HandleDismiss)
    ensures AfterTransit(s, HandleDismiss) == AfterHandler(DismissEntry(s))
    ensures PromotedTo(DismissEntry(s), AfterTransit(s, HandleDismiss))
    ensures AtRest(AfterTransit(s, HandleDismiss))
  {
    DismissUnfolds(s);
    var s3 := DismissEntry(s);
    PromoteFrom(s3);
    assert s3.prioritySet == Priorities(s.queue);
    LegalWalkSnoc(s.walk, HandleDismiss);
    LegalWalkSnoc(s.walk + [HandleDismiss], Active);
    assert s.walk + [HandleDismiss] + [Active] == s3.walk;
    PromoteRests(s3);
  }

  /** A whole `add(task:)` call on a manager at rest: a reserved priority is
      refused and nothing changes; otherwise the task is admitted. Either way
      the manager is at rest afterwards. */
  ghost function AfterAdd(s: Snapshot, w: AnyPopupTask): (r: Snapshot)
    requires AtRest(s)
    reads Held(Push(s, w))`isCanceled
    ensures AtRest(r)
    ensures w.Priority() in s.prioritySet ==> r == s
  {
    if w.Priority() in s.prioritySet then s
    else
      AdmitRests(s, w);
      Admit(s, w)
  }

  /** A whole `taskResignFocusAction(task:)` call on a manager at rest: a
      yield from anything but the active task is refused and nothing
      changes; the active task's yield dismisses it. Either way the manager
      is at rest afterwards. */
  ghost function AfterResign(s: Snapshot, t: Task): (r: Snapshot)
    requires AtRest(s)
    reads Held(s)`isCanceled
    ensures AtRest(r)
    ensures s.activeTask != Some(AnyPopupTask(t)) ==> r == s
    ensures s.activeTask == Some(AnyPopupTask(t)) ==> r.activeTask != s.activeTask
  {
    if s.activeTask != Some(AnyPopupTask(t)) then s
    else
      DismissFrom(s);
      AfterTransit(s, HandleDismiss)
  }

  /*****************************************************************************
    The current manager
  *****************************************************************************/

  /**
    `Popup.Manager`: a single-slot scheduler. The task being presented sits in
    `activeTask`, outside the backlog `queue`; `prioritySet` reserves the
    priorities of all of them. The ghost `walk` is every state the manager
    has been set to, starting from `idle`, and the ghost `events` every hook
    call it has made on a task.
  */
  class Manager {
    var queue: seq<AnyPopupTask>
    var activeTask: Option<AnyPopupTask>
    var prioritySet: set<int>
    var state: State
    ghost var walk: seq<State>
    ghost var events: seq<Event>

    ghost function Now(): Snapshot
      reads this
    {
      Snapshot(queue, activeTask, prioritySet, state, walk, events)
    }

    ghost predicate Valid()
      reads this
    {
      AtRest(Now())
    }

    constructor ()
      ensures Valid()
      ensures Now() == Snapshot([], None, {}, Idle, [Idle], [])
    {
      queue := [];
      activeTask := None;
      prioritySet := {};
      state := Idle;
      walk := [Idle];
      events := [];
    }

    /** `allTasks`. */
    function AllTasks(): seq<Task>
      reads this
    {
      Listing(activeTask, queue)
    }

    /**
      `add(task:)`. A task whose priority is already reserved is refused with
      `containsSamePriority` and nothing changes. Otherwise the task learns
      its manager, its priority is reserved, it joins the backlog and the
      machine starts if it is the only task (`Admit`).
    */
    method Add(task: Task) returns (r: Outcome)
      requires Valid()
      modifies this, task`manager
      ensures Valid()
      ensures r.Fail? <==> old(task.priority in prioritySet)
      ensures r.Fail? ==> r.error == ContainsSamePriority
      ensures r.Fail? ==> unchanged(this) && unchanged(task)
      ensures r.Pass? ==> task.manager == this && Now() == Admit(old(Now()), AnyPopupTask(task))
      ensures Now() == AfterAdd(old(Now()), AnyPopupTask(task))
    {
      if task.priority in prioritySet {
        return Fail(ContainsSamePriority);
      }
      ghost var s := Now();
      InsertMembers(queue, AnyPopupTask(task));
      task.manager := this;
      prioritySet := prioritySet + {task.priority};
      queue := Insert(queue, AnyPopupTask(task));
      BecomeActiveIfNeeded();
      AdmitRests(s, AnyPopupTask(task));
      r := Pass;
    }

    /** `becomeActiveIfNeeded()`. */
    method BecomeActiveIfNeeded()
      requires queue != []
      requires (state == Idle && activeTask == None) || (state == InProgress && activeTask.Some?)
      modifies this
      ensures Now() == BecomeActive(old(Now()))
    {
      if |AllTasks()| != 1 {
        return;
      }
      assert state == Idle;
      Transit(Active);
    }

    /**
      `taskResignFocusAction(task:)`: a yield from anything but the active
      task is refused with `finishInactiveTask` and nothing changes; a yield
      from the active task dismisses it (`DismissFrom`).
    */
    method TaskResignFocusAction(task: Task) returns (r: Outcome)
      requires Valid()
      modifies this
      ensures Valid()
      ensures r.Fail? <==> old(activeTask) != Some(AnyPopupTask(task))
      ensures r.Fail? ==> r.error == FinishInactiveTask
      ensures r.Fail? ==> unchanged(this)
      ensures r.Pass? ==> Now() == AfterTransit(old(Now()), HandleDismiss)
      ensures Now() == AfterResign(old(Now()), task)
    {
      if activeTask.None? || activeTask.value.base != task {
        return Fail(FinishInactiveTask);
      }
      ghost var s := Now();
      Transit(HandleDismiss);
      DismissFrom(s);
      r := Pass;
    }

    /** `transit(to:)`. The source aborts on an illegal transition and its
        handlers abort without an active task; here both are preconditions. */
    method Transit(to: State)
      requires Ready(Now(), to)
      modifies this
      decreases |queue|, TransitRank(state, to)
      ensures Now() == AfterTransit(old(Now()), to)
    {
      var from := state;
      state := to;
      walk := walk + [to];
      if from == to {
        return;
      }
      match to
      case Idle => HandleToIdle();
      case Active => HandleToActive();
      case HandleShow => HandleToShow();
      case HandleCancel => HandleToCancel();
      case InProgress => HandleToInProgress();
      case HandleDismiss => HandleToDismiss();
    }

    /** `handleToIdle()`: rest in `idle`. */
    method HandleToIdle()
      requires state == Idle
      modifies this
      decreases |queue|, HandlerRank(Idle)
      ensures Now() == AfterHandler(old(Now()))
    {
      Transit(Idle);
    }

    /** `handleToActive()`: an empty backlog sends the manager to `idle`;
        otherwise the highest-priority task is popped into the active slot
        and shown. */
    method HandleToActive()
      requires state == Active
      modifies this
      decreases |queue|, HandlerRank(Active)
      ensures Now() == AfterHandler(old(Now()))
    {
      if |queue| == 0 {
        Transit(Idle);
        return;
      }
      activeTask := Some(queue[0]);
      queue := queue[1..];
      Transit(HandleShow);
    }

    /** `handleToShow()`: `willShow` on the active task, then read its
        `isCanceled` flag once to choose `handleCancel` or `inProgress`. */
    method HandleToShow()
      requires state == HandleShow && activeTask.Some?
      modifies this
      decreases |queue|, HandlerRank(HandleShow)
      ensures Now() == AfterHandler(old(Now()))
    {
      var a := activeTask.value;
      events := events + [Event(a.base, WillShow)];
      if a.IsCanceled() {
        Transit(HandleCancel);
      } else {
        Transit(InProgress);
      }
    }

    /** `handleToCancel()`: `didCanceled` on the active task, release its
        priority, clear the slot and enter `active` again. */
    method HandleToCancel()
      requires state == HandleCancel && activeTask.Some?
      modifies this
      decreases |queue|, HandlerRank(HandleCancel)
      ensures Now() == AfterHandler(old(Now()))
    {
      var a := activeTask.value;
      events := events + [Event(a.base, DidCanceled)];
      prioritySet := prioritySet - {a.Priority()};
      activeTask := None;
      Transit(Active);
    }

    /** `handleToInProgress()`: `render` and `didShow` on the active task,
        then rest in `inProgress` until it yields. */
    method HandleToInProgress()
      requires state == InProgress && activeTask.Some?
      modifies this
      decreases |queue|, HandlerRank(InProgress)
      ensures Now() == AfterHandler(old(Now()))
    {
      var a := activeTask.value;
      events := events + [Event(a.base, Render)];
      events := events + [Event(a.base, DidShow)];
      Transit(InProgress);
    }

    /** `handleToDismiss()`: `willDismiss` then `didDismiss` on the active
        task, release its priority, clear the slot and enter `active` again. */
    method HandleToDismiss()
      requires state == HandleDismiss && activeTask.Some?
      modifies this
      decreases |queue|, HandlerRank(HandleDismiss)
      ensures Now() == AfterHandler(old(Now()))
    {
      var a := activeTask.value;
      events := events + [Event(a.base, WillDismiss)];
      events := events + [Event(a.base, DidDismiss)];
      prioritySet := prioritySet - {a.Priority()};
      activeTask := None;
      Transit(Active);
    }
  }

  /** The backlog part of `allTasks` is in strictly descending priority. */
  lemma ListingDescends(a: Option<AnyPopupTask>, q: seq<AnyPopupTask>)
    requires StrictlyDescending(q)
    ensures var all := Listing(a, q); var off := if a.Some? then 1 else 0;
      forall i, j :: off <= i < j < |all| ==> all[i].priority > all[j].priority
  {
    var all := Listing(a, q);
    var off := if a.Some? then 1 else 0;
    forall i, j | off <= i < j < |all| ensures all[i].priority > all[j].priority {
      var x, y := i - off, j - off;
      assert all[x + |all| - |q|] == q[x].base && all[y + |all| - |q|] == q[y].base;
      assert q[x].Priority() > q[y].Priority();
    }
  }

  /** No two tasks of `allTasks` share a priority when the active task's is
      not among the backlog's. */
  lemma ListingDistinct(a: Option<AnyPopupTask>, q: seq<AnyPopupTask>)
    requires StrictlyDescending(q) && (a.Some? ==> a.value.Priority() !in Priorities(q))
    ensures var all := Listing(a, q);
      forall i, j :: 0 <= i < j < |all| ==> all[i].priority != all[j].priority
  {
    var all := Listing(a, q);
    var off := if a.Some? then 1 else 0;
    forall i, j | 0 <= i < j < |all| ensures all[i].priority != all[j].priority {
      assert all[j] == q[j - off].base;
      if i < off {
        assert q[j - off] in q;
      } else {
        assert all[i] == q[i - off].base;
      }
    }
  }

  /** The priorities of `allTasks` are those of the active task and the
      backlog. */
  lemma ListingPriorities(a: Option<AnyPopupTask>, q: seq<AnyPopupTask>)
    ensures (set t | t in Listing(a, q) :: t.priority) == Priorities(q) + ActivePriority(a)
  {
    var all := Listing(a, q);
    var off := if a.Some? then 1 else 0;
    forall p ensures p in (set t | t in all :: t.priority) <==> p in Priorities(q) + ActivePriority(a) {
      if p in Priorities(q) + ActivePriority(a) {
        if a.Some? && p == a.value.Priority() {
          assert all[0] in all;
        } else {
          var w :| w in q && w.Priority() == p;
          var i :| 0 <= i < |q| && q[i] == w;
          assert all[i + off] == w.base;
          assert all[i + off] in all;
        }
      }
      if p in (set t | t in all :: t.priority) {
        var t :| t in all && t.priority == p;
        var i :| 0 <= i < |all| && all[i] == t;
        if i >= off {
          assert all[i] == q[i - off].base;
          assert q[i - off] in q;
        }
      }
    }
  }

  /** `allTasks` lists the active task first, then the backlog in strictly
      descending priority; no two of its tasks share a priority, and its
      priorities are exactly the reserved ones. */
  lemma AllTasksOrdered(m: Manager)
    requires m.Valid()
    ensures var all := m.AllTasks();
      && (m.activeTask.Some? ==> all != [] && all[0] == m.activeTask.value.base)
      && |all| == TaskCount(m.Now())
      && (forall i, j :: (if m.activeTask.Some? then 1 else 0) <= i < j < |all| ==> all[i].priority > all[j].priority)
      && (forall i, j :: 0 <= i < j < |all| ==> all[i].priority != all[j].priority)
      && (set t | t in all :: t.priority) == m.prioritySet
  {
    ListingDescends(m.activeTask, m.queue);
    ListingDistinct(m.activeTask, m.queue);
    ListingPriorities(m.activeTask, m.queue);
  }
}
