/** The rules of entering and leaving. */
module Discipline {
  import opened Wrappers
  import opened StateTable
  import opened Dispatcher

  // The rules a log of enter and leave calls has to follow, stated without reference to the dispatcher: `Replay`
  // keeps the stack of active states and rejects a log that enters a state anywhere but on top of its active
  // parent, or leaves a state while one of its children is still active.

  /** An active state and the answer its enter callback gave. */
  datatype Frame = Frame(s: State, a: Answer)

  /**
  `left` of the topmost frames have been left and go away at the next entry. `retry` holds
  while only the top frame has been left and its leave failed, so that it may be left again.
  */
  datatype Trail = Broken | Trail(stack: seq<Frame>, left: nat, retry: bool)

  function States(stack: seq<Frame>): (r: seq<State>)
    ensures |r| == |stack|
    ensures forall i | 0 <= i < |stack| :: r[i] == stack[i].s
  {
    seq(|stack|, i requires 0 <= i < |stack| => stack[i].s)
  }

  /** The enter callback of the frame made the machine go elsewhere. */
  ghost predicate Diverted(t: Table, f: Frame)
    requires Forest(t)
  {
    InTable(t, f.s) && f.a.Raise? && Target(t, f.s, f.a.event).Some?
  }

  /** Whether `s` may be entered next. */
  ghost predicate MayEnter(t: Table, tr: Trail, s: State)
    requires Forest(t)
  {
    && tr.Trail? && InTable(t, s) && tr.left <= |tr.stack|
    && var rest := tr.stack[..|tr.stack| - tr.left];
       if rest == [] then t.states[s].parent == None
       else t.states[s].parent == Some(rest[|rest| - 1].s) && !Diverted(t, rest[|rest| - 1])
  }

  ghost predicate IsRetry(t: Table, tr: Trail, s: State)
    requires Forest(t)
  {
    && tr.Trail? && InTable(t, s) && tr.left == 1 && tr.retry && tr.stack != []
    && tr.stack[|tr.stack| - 1].s == s && Target(t, s, StateError).Some?
  }

  ghost predicate MayLeave(t: Table, tr: Trail, s: State) {
    tr.Trail? && tr.left < |tr.stack| && tr.stack[|tr.stack| - 1 - tr.left].s == s
  }

  ghost function Step(t: Table, tr: Trail, a: Action): Trail
    requires Forest(t)
  {
    match a
    case Report(_) => tr
    case Enter(s, ans) =>
      if MayEnter(t, tr, s) then Trail(tr.stack[..|tr.stack| - tr.left] + [Frame(s, ans)], 0, false) else Broken
    case Leave(s, ok) =>
      if IsRetry(t, tr, s) then Trail(tr.stack, 1, !ok)
      else if MayLeave(t, tr, s) then Trail(tr.stack, tr.left + 1, tr.left == 0 && !ok)
      else Broken
  }

  /** Replays a log that starts with only `init` active. */
  ghost function Replay(t: Table, init: State, log: seq<Action>): Trail
    requires Forest(t)
  {
    if log == [] then Trail([Frame(init, Succeed)], 0, false)
    else Step(t, Replay(t, init, log[..|log| - 1]), log[|log| - 1])
  }

  ghost predicate Obeys(t: Table, init: State, log: seq<Action>)
    requires Forest(t)
  {
    Replay(t, init, log).Trail?
  }

  /** The plain reading of a log: `s` is open when its last enter or leave call was an enter. */
  function Open(init: State, log: seq<Action>, s: State): bool {
    if log == [] then s == init
    else match log[|log| - 1]
      case Enter(x, _) => x == s || Open(init, log[..|log| - 1], s)
      case Leave(x, _) => x != s && Open(init, log[..|log| - 1], s)
      case Report(_) => Open(init, log[..|log| - 1], s)
  }

  /** The state last reported to the UI, if any. */
  function LastReport(log: seq<Action>): Option<State> {
    if log == [] then None
    else if log[|log| - 1].Report? then Some(log[|log| - 1].s)
    else LastReport(log[..|log| - 1])
  }

  lemma ReplayOne(t: Table, init: State, log: seq<Action>, a: Action)
    requires Forest(t)
    ensures Replay(t, init, log + [a]) == Step(t, Replay(t, init, log), a)
  {
    assert (log + [a])[..|log|] == log;
  }

  /** The stack of a replay is a chain of the forest, and only its top frame may have been diverted. */
  ghost predicate Stacked(t: Table, stack: seq<Frame>)
    requires Forest(t)
  {
    && (forall i | 0 <= i < |stack| :: InTable(t, stack[i].s) && t.level[stack[i].s] == i)
    && (forall i, j | 0 <= i && j == i + 1 < |stack| :: InTable(t, stack[j].s) && t.states[stack[j].s].parent == Some(stack[i].s))
    && (forall i | 0 <= i < |stack| - 1 :: !Diverted(t, stack[i]))
  }

  lemma {:induction false} ReplayStacked(t: Table, init: State, log: seq<Action>)
    requires Forest(t) && InTable(t, init) && t.states[init].parent == None && Obeys(t, init, log)
    ensures Stacked(t, Replay(t, init, log).stack)
    ensures Replay(t, init, log).left <= |Replay(t, init, log).stack|
  {
    assert Linked(t, init);
    if log != [] {
      ReplayStacked(t, init, log[..|log| - 1]);
      StepStacked(t, Replay(t, init, log[..|log| - 1]), log[|log| - 1]);
    }
  }

  lemma StepStacked(t: Table, tr: Trail, a: Action)
    requires Forest(t) && tr.Trail? && Stacked(t, tr.stack) && tr.left <= |tr.stack| && Step(t, tr, a).Trail?
    ensures Stacked(t, Step(t, tr, a).stack) && Step(t, tr, a).left <= |Step(t, tr, a).stack|
  {
    if a.Enter? {
      var rest := tr.stack[..|tr.stack| - tr.left];
      assert Linked(t, a.s);
      StackedPush(t, rest, Frame(a.s, a.a));
    }
  }

  lemma StackedPush(t: Table, stack: seq<Frame>, f: Frame)
    requires Forest(t) && Stacked(t, stack) && InTable(t, f.s) && t.level[f.s] == |stack|
    requires stack != [] ==>
               t.states[f.s].parent == Some(stack[|stack| - 1].s) && !Diverted(t, stack[|stack| - 1])
    ensures Stacked(t, stack + [f])
  {
  }

  /** A chain of frames holds exactly the ancestors of its top state. */
  lemma {:induction false} StackIsChain(t: Table, stack: seq<Frame>)
    requires Forest(t) && Stacked(t, stack) && stack != []
    ensures States(stack) == Chain(t, stack[|stack| - 1].s)
    decreases |stack|
  {
    var n := |stack| - 1;
    if n > 0 {
      StackIsChain(t, stack[..n]);
      assert States(stack) == States(stack[..n]) + [stack[n].s];
    } else {
      assert States(stack) == [stack[0].s];
    }
  }

  /**
  In a disciplined log a state is open exactly while it is on the stack and not yet left. So a state
  is entered only while it is closed and all its ancestors are open.
  */
  lemma {:induction false} OpenIffActive(t: Table, init: State, log: seq<Action>, s: State)
    requires Forest(t) && InTable(t, init) && t.states[init].parent == None && Obeys(t, init, log)
    ensures var tr := Replay(t, init, log);
            tr.left <= |tr.stack| && (Open(init, log, s) <==> s in States(tr.stack[..|tr.stack| - tr.left]))
  {
    hide Replay, Step, Target, Diverted, States, Stacked;
    if log != [] {
      var pre, a := log[..|log| - 1], log[|log| - 1];
      assert pre + [a] == log;
      ReplayOne(t, init, pre, a);
      ObeysPrefix(t, init, log, |pre|);
      OpenIffActive(t, init, pre, s);
      ReplayStacked(t, init, pre);
      StepActive(t, Replay(t, init, pre), a, s);
    } else {
      ReplayNothing(t, init);
    }
  }

  lemma ReplayNothing(t: Table, init: State)
    requires Forest(t)
    ensures Replay(t, init, []) == Trail([Frame(init, Succeed)], 0, false)
    ensures var tr := Replay(t, init, []); States(tr.stack[..|tr.stack| - tr.left]) == [init]
  {
    hide Target;
    assert [Frame(init, Succeed)][..1] == [Frame(init, Succeed)];
  }

  /** How one call changes which states are active and not left. */
  lemma StepActive(t: Table, before: Trail, a: Action, s: State)
    requires Forest(t) && before.Trail? && before.left <= |before.stack| && Stacked(t, before.stack)
    requires Step(t, before, a).Trail?
    ensures var after := Step(t, before, a);
            var was := s in States(before.stack[..|before.stack| - before.left]);
            after.left <= |after.stack|
            && (s in States(after.stack[..|after.stack| - after.left]) <==>
                if a.Enter? then a.s == s || was else if a.Leave? then a.s != s && was else was)
  {
    hide Target, Diverted, Stacked;
    var after := Step(t, before, a);
    match a
    case Report(_) =>
    case Enter(x, ans) =>
      var rest := before.stack[..|before.stack| - before.left];
      assert States(after.stack) == States(rest) + [x];
      assert after.stack[..|after.stack| - after.left] == after.stack;
    case Leave(x, ok) =>
      LeaveShrinks(t, before, after, x, ok, s);
  }

  /** Leaving `x` takes it, and nothing else, out of the states that are still open. */
  lemma LeaveShrinks(t: Table, before: Trail, after: Trail, x: State, ok: bool, s: State)
    requires Forest(t) && before.Trail? && before.left <= |before.stack| && Stacked(t, before.stack)
    requires after == Step(t, before, Leave(x, ok)) && after.Trail?
    ensures s in States(after.stack[..|after.stack| - after.left])
            <==> s != x && s in States(before.stack[..|before.stack| - before.left])
  {
    hide Target, Replay;
    var n := |before.stack| - before.left;
    if IsRetry(t, before, x) {
      assert forall f <- before.stack[..n] :: f.s != x by {
        assert t.level[x] == n;
      }
    } else {
      assert States(before.stack[..n]) == States(before.stack[..n - 1]) + [x];
      assert forall f <- before.stack[..n - 1] :: f.s != x by {
        assert t.level[x] == n - 1;
      }
    }
  }

  /** The last enter or leave call of a log. */
  function LastCall(log: seq<Action>): Option<Action> {
    if log == [] then None
    else if !log[|log| - 1].Report? then Some(log[|log| - 1])
    else LastCall(log[..|log| - 1])
  }

  /** A leave may be run again only right after it failed. */
  lemma {:induction false} RetryFollowsFailure(t: Table, init: State, log: seq<Action>)
    requires Forest(t) && Obeys(t, init, log)
    ensures var tr := Replay(t, init, log);
            tr.retry ==> tr.stack != [] && LastCall(log) == Some(Leave(tr.stack[|tr.stack| - 1].s, false))
    decreases |log|
  {
    hide Target, Diverted;
    if log != [] {
      RetryFollowsFailure(t, init, log[..|log| - 1]);
    }
  }

  /**
  Main reading of the discipline. At every enter and leave call of a disciplined log all proper ancestors of the
  state are open. A state entered was closed before. A state left was open before, or the call before this one
  was its own leave, which failed; and no state below it is open: children are left before their parents.
  */
  lemma Nesting(t: Table, init: State, log: seq<Action>, i: nat)
    requires Forest(t) && InTable(t, init) && t.states[init].parent == None
    requires i < |log| && !log[i].Report? && Obeys(t, init, log[..i + 1])
    ensures InTable(t, log[i].s)
    ensures forall u <- ProperChain(t, log[i].s) :: Open(init, log[..i], u)
    ensures log[i].Enter? ==> !Open(init, log[..i], log[i].s)
    ensures log[i].Leave? ==>
              Open(init, log[..i], log[i].s)
              || (LastCall(log[..i]) == Some(Leave(log[i].s, false)) && Target(t, log[i].s, StateError).Some?)
    ensures log[i].Leave? ==>
              forall u: State | InTable(t, u) && log[i].s in ProperChain(t, u) :: !Open(init, log[..i], u)
  {
    hide Replay, Step, Target, Diverted, Stacked, LastCall;
    var pre := log[..i];
    assert log[..i + 1] == pre + [log[i]];
    ReplayOne(t, init, pre, log[i]);
    ObeysPrefix(t, init, log[..i + 1], i);
    assert log[..i + 1][..i] == pre;
    ReplayStacked(t, init, pre);
    RetryFollowsFailure(t, init, pre);
    StepHeight(t, Replay(t, init, pre), log[i]);
    OpenIffActive(t, init, pre, log[i].s);
    forall u | u in ProperChain(t, log[i].s)
      ensures Open(init, pre, u)
    {
      AncestorOpen(t, init, pre, log[i], u);
    }
    if log[i].Leave? {
      forall u: State | InTable(t, u) && log[i].s in ProperChain(t, u)
        ensures !Open(init, pre, u)
      {
        OpenIffActive(t, init, pre, u);
        NoneBelow(t, Replay(t, init, pre), log[i], u);
      }
    }
  }

  /** States below the one that is left are not active. */
  lemma NoneBelow(t: Table, tr: Trail, a: Action, u: State)
    requires Forest(t) && tr.Trail? && Stacked(t, tr.stack) && tr.left <= |tr.stack|
    requires a.Leave? && Step(t, tr, a).Trail? && InTable(t, u) && a.s in ProperChain(t, u)
    ensures u !in States(tr.stack[..|tr.stack| - tr.left])
  {
    hide Target, Diverted, Chain;
    var rest := tr.stack[..|tr.stack| - tr.left];
    StepHeight(t, tr, a);
    assert |rest| <= t.level[a.s] + 1;
    assert t.level[u] > t.level[a.s];
    forall i | 0 <= i < |rest| ensures States(rest)[i] != u {
      assert t.level[rest[i].s] == i;
    }
  }

  lemma AncestorOpen(t: Table, init: State, pre: seq<Action>, a: Action, u: State)
    requires Forest(t) && InTable(t, init) && t.states[init].parent == None && Obeys(t, init, pre)
    requires !a.Report? && Step(t, Replay(t, init, pre), a).Trail? && InTable(t, a.s) && u in ProperChain(t, a.s)
    ensures Open(init, pre, u)
  {
    hide Replay, Step, Target, Diverted, Stacked, States, Chain;
    ReplayStacked(t, init, pre);
    AncestorActive(t, Replay(t, init, pre), a, u);
    OpenIffActive(t, init, pre, u);
  }

  lemma AncestorActive(t: Table, tr: Trail, a: Action, u: State)
    requires Forest(t) && tr.Trail? && Stacked(t, tr.stack) && tr.left <= |tr.stack|
    requires !a.Report? && Step(t, tr, a).Trail? && InTable(t, a.s) && u in ProperChain(t, a.s)
    ensures u in States(tr.stack[..|tr.stack| - tr.left])
  {
    StepHeight(t, tr, a);
    AncestorsBelow(t, tr.stack[..|tr.stack| - tr.left], a.s, u);
  }

  /** Where in the stack of states still open the state of an allowed enter or leave call belongs. */
  lemma StepHeight(t: Table, tr: Trail, a: Action)
    requires Forest(t) && tr.Trail? && Stacked(t, tr.stack) && tr.left <= |tr.stack|
    requires !a.Report? && Step(t, tr, a).Trail?
    ensures InTable(t, a.s)
    ensures var rest := tr.stack[..|tr.stack| - tr.left];
            var k := t.level[a.s];
            && k <= |rest| && (k > 0 ==> t.states[a.s].parent == Some(rest[k - 1].s))
            && (a.Enter? ==> a.s !in States(rest))
            && (a.Leave? ==> |rest| <= k + 1)
            && (a.Leave? && a.s !in States(rest) ==>
                  tr.retry && tr.stack != [] && tr.stack[|tr.stack| - 1].s == a.s && Target(t, a.s, StateError).Some?)
  {
    var n := |tr.stack| - tr.left;
    var rest := tr.stack[..n];
    assert Linked(t, a.s);
    if a.Enter? {
      assert forall i | 0 <= i < n :: States(rest)[i] != a.s;
    } else if !IsRetry(t, tr, a.s) {
      assert States(rest)[n - 1] == a.s;
    }
  }

  /** If `s` belongs on top of a frame of the stack, its proper ancestors are the frames up to that one. */
  lemma AncestorsBelow(t: Table, stack: seq<Frame>, s: State, u: State)
    requires Forest(t) && InTable(t, s) && Stacked(t, stack) && t.level[s] <= |stack|
    requires t.level[s] > 0 ==> t.states[s].parent == Some(stack[t.level[s] - 1].s)
    requires u in ProperChain(t, s)
    ensures u in States(stack)
  {
    hide Diverted, Target, States;
    var k := t.level[s];
    if k > 0 {
      StackIsChain(t, stack[..k]);
      assert ProperChain(t, s) == Chain(t, stack[k - 1].s);
      assert States(stack[..k]) == States(stack)[..k];
    }
  }

  /** A log breaks the rules at its first bad call, so every beginning of a disciplined log is disciplined. */
  lemma {:induction false} ObeysPrefix(t: Table, init: State, log: seq<Action>, i: nat)
    requires Forest(t) && i <= |log| && Obeys(t, init, log)
    ensures Obeys(t, init, log[..i])
    decreases |log|
  {
    if i < |log| {
      ObeysPrefix(t, init, log[..|log| - 1], i);
      assert log[..|log| - 1][..i] == log[..i];
    } else {
      assert log[..i] == log;
    }
  }
}
