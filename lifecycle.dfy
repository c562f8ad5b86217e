/**
  The six states of the popup manager and the legality table that its
  `transit(to:)` consults before every state change. Both copies of the
  manager (the current one and the older peek-based one) share this table.
*/
module Lifecycle {

  datatype State = Idle | Active | HandleShow | HandleCancel | InProgress | HandleDismiss

  /** `State.canTransit(to:)`: true exactly for the legal (from, to) pairs. */
  predicate CanTransit(from: State, to: State)
  {
    match (from, to)
    case (Idle, Idle) => true
    case (Idle, Active) => true
    case (Active, HandleShow) => true
    case (Active, Idle) => true
    case (HandleShow, InProgress) => true
    case (HandleShow, HandleCancel) => true
    case (HandleCancel, Active) => true
    case (InProgress, InProgress) => true
    case (InProgress, HandleDismiss) => true
    case (HandleDismiss, Active) => true
    case _ => false
  }

  /** The table of legal transitions, written out as a set of pairs. */
  function LegalPairs(): set<(State, State)>
  {
    {(Idle, Idle), (Idle, Active),
     (Active, HandleShow), (Active, Idle),
     (HandleShow, InProgress), (HandleShow, HandleCancel),
     (HandleCancel, Active),
     (InProgress, InProgress), (InProgress, HandleDismiss),
     (HandleDismiss, Active)}
  }

  /** `canTransit` accepts exactly the pairs of the table. */
  lemma CanTransitIsTable(from: State, to: State)
    ensures CanTransit(from, to) <==> (from, to) in LegalPairs()
  {
  }

  /** The table has ten entries: `canTransit` refuses the other 26 of the 36 pairs. */
  lemma LegalPairsCount()
    ensures |LegalPairs()| == 10
  {
  }

  /** Only `idle` and `inProgress` may transit to themselves; these self-loops
      are the points where a walk of the state machine comes to rest. */
  lemma SelfLoops(s: State)
    ensures CanTransit(s, s) <==> s == Idle || s == InProgress
  {
  }

  /** The four states a walk passes through have fixed successors:
      `handleCancel` and `handleDismiss` always go back to `active`,
      `handleShow` goes on to `inProgress` or `handleCancel`, and `active` to
      `handleShow` or `idle`. */
  lemma ForcedSuccessors(to: State)
    ensures CanTransit(HandleCancel, to) <==> to == Active
    ensures CanTransit(HandleDismiss, to) <==> to == Active
    ensures CanTransit(HandleShow, to) <==> to == InProgress || to == HandleCancel
    ensures CanTransit(Active, to) <==> to == HandleShow || to == Idle
  {
  }

  /** A walk of the state machine in which every step is a legal transition. */
  ghost predicate LegalWalk(w: seq<State>)
  {
    forall i :: 0 < i < |w| ==> CanTransit(w[i - 1], w[i])
  }

  function Last(w: seq<State>): State
    requires w != []
  {
    w[|w| - 1]
  }

  /** Appending one legal step to a legal walk gives a legal walk. */
  lemma LegalWalkSnoc(w: seq<State>, s: State)
    requires w != [] && LegalWalk(w) && CanTransit(Last(w), s)
    ensures LegalWalk(w + [s])
  {
    var w' := w + [s];
    forall i | 0 < i < |w'| ensures CanTransit(w'[i - 1], w'[i]) {
      if i < |w| {
        assert w'[i - 1] == w[i - 1] && w'[i] == w[i];
      }
    }
  }

  /** Two legal walks joined by a legal step form one legal walk. */
  lemma {:induction false} LegalWalkConcat(a: seq<State>, b: seq<State>)
    requires LegalWalk(a) && LegalWalk(b)
    requires a != [] && b != [] ==> CanTransit(Last(a), b[0])
    ensures LegalWalk(a + b)
  {
    var w := a + b;
    forall i | 0 < i < |w| ensures CanTransit(w[i - 1], w[i]) {
      if i < |a| {
        assert w[i - 1] == a[i - 1] && w[i] == a[i];
      } else if i == |a| {
        assert w[i - 1] == Last(a) && w[i] == b[0];
      } else {
        assert w[i - 1] == b[i - 1 - |a|] && w[i] == b[i - |a|];
      }
    }
  }

  /** A legal walk continued by `t`, where `t` read from the walk's last state
      on is itself legal, is legal and ends where `t` does. */
  lemma LegalWalkExtend(w: seq<State>, t: seq<State>)
    requires w != [] && LegalWalk(w) && LegalWalk([Last(w)] + t)
    ensures LegalWalk(w + t)
    ensures Last(w + t) == Last([Last(w)] + t)
  {
    if t != [] {
      var u := [Last(w)] + t;
      assert u[0] == Last(w) && u[1] == t[0];
      assert CanTransit(u[0], u[1]);
      forall i | 0 < i < |t| ensures CanTransit(t[i - 1], t[i]) {
        assert u[i] == t[i - 1] && u[i + 1] == t[i];
        assert CanTransit(u[i + 1 - 1], u[i + 1]);
      }
      LegalWalkConcat(w, t);
    }
  }
}
