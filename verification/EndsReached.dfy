/** Every possible end is reached. */
module EndsReached {
  import opened Wrappers
  import opened StateTable
  import opened Dispatcher
  import opened Ends
  import Settling

  // Every possible end is reached: answers, one for each callback, that make the handling of an event end there.

  /** Before and after a part of a run that takes the answers `u` and adds `l` to the log. */
  function Before(s: State, past: seq<Action>, u: seq<Answer>, more: seq<Answer>): Config { Config(s, past, u + more) }
  function After(s: State, past: seq<Action>, l: seq<Action>, more: seq<Answer>): Config { Config(s, past + l, more) }

  /** With the answers `u`, and whatever else, the handling of `e` ends in `y`, having logged `l`. */
  ghost predicate Handles(t: Table, s: State, e: Event, u: seq<Answer>, y: State, l: seq<Action>)
    requires Forest(t) && InTable(t, s)
  {
    && Real(t, l, 0)
    && forall past, more :: Dispatch(t, Before(s, past, u, more), e) == After(y, past, l, more)
  }

  ghost predicate Reaches(t: Table, s: State, e: Event, y: State)
    requires Forest(t) && InTable(t, s)
  {
    exists u, l :: Handles(t, s, e, u, y, l)
  }

  ghost function Possible(t: Table): set<Way>
    requires Forest(t)
  {
    set s: State, e: Event, y: State | s < |t.states| && y < |t.states| && Reaches(t, s, e, y) :: Way(s, e, y)
  }

  ghost predicate EntersBy(t: Table, x: State, e: Event, u: seq<Answer>, y: State, l: seq<Action>)
    requires Forest(t) && InTable(t, x)
  {
    && Real(t, l, 0) && InTable(t, y)
    && forall past, more :: EnterCall(t, Before(x, past, u, more), x, e) == After(y, past, l, more)
  }

  ghost predicate DescendsBy(t: Table, x: State, e: Event, u: seq<Answer>, y: State, l: seq<Action>)
    requires Forest(t) && InTable(t, x)
  {
    && Real(t, l, 0) && InTable(t, y)
    && forall past, more :: Descend(t, Before(x, past, u, more), e) == After(y, past, l, more)
  }

  ghost predicate ParentsBy(t: Table, x: State, path: seq<State>, e: Event, u: seq<Answer>, l: seq<Action>)
    requires Forest(t) && InTable(t, x) && forall s <- path :: InTable(t, s)
  {
    && Real(t, l, 0)
    && forall past, more :: EnterParents(t, Before(x, past, u, more), path, e) == After(x, past, l, more)
  }

  ghost predicate LeavesBy(t: Table, s: State, chain: seq<State>, n: nat, u: seq<Answer>, l: seq<Action>)
    requires forall s <- chain :: InTable(t, s)
  {
    && Real(t, l, 0)
    && forall past, more :: LeaveDown(t, Before(s, past, u, more), chain, n) == After(s, past, l, more)
  }

  /** The transition from the leave of the current state on. */
  ghost predicate MovesBy(t: Table, s: State, x: State, e: Event, u: seq<Answer>, y: State, l: seq<Action>)
    requires Forest(t) && InTable(t, s) && InTable(t, x)
  {
    && Real(t, l, 0) && InTable(t, y)
    && var n := Shared(t, s, x);
       forall past, more ::
         Arrive(t, LeaveDown(t, Before(s, past, u, more), ProperChain(t, s), n), x, n, e) == After(y, past, l, more)
  }

  lemma Join(t: Table, s: State, past: seq<Action>, u: seq<Answer>, v: seq<Answer>, l: seq<Action>, m: seq<Action>, more: seq<Answer>)
    ensures Before(s, past, u + v, more) == Before(s, past, u, v + more)
    ensures After(s, past, l, v + more) == Before(s, past + l, v, more)
    ensures After(s, past + l, m, more) == After(s, past, l + m, more)
    ensures Real(t, l, 0) && Real(t, m, 0) ==> Real(t, l + m, 0)
  {
    assert (u + v) + more == u + (v + more);
    assert (past + l) + m == past + (l + m);
  }

  /** The answer that makes the enter callback of `x` do `a`. */
  function Say(t: Table, x: State, a: Answer): seq<Answer>
    requires InTable(t, x)
  {
    if t.states[x].enter == {} then [] else [a]
  }

  lemma SaysEnter(t: Table, x: State, a: Answer, rest: seq<Answer>)
    requires InTable(t, x) && Given(t, Enter(x, a))
    ensures NextAnswer(t.states[x].enter, Say(t, x, a) + rest) == (a, rest)
  {
    assert ([a] + rest)[1..] == rest;
    assert [] + rest == rest;
  }

  lemma EnterRuns(t: Table, x: State, e: Event, y: State) returns (u: seq<Answer>, l: seq<Action>)
    requires Forest(t) && InTable(t, x) && EntersTo(t, Possible(t), x, e, y)
    ensures EntersBy(t, x, e, u, y, l)
  {
    hide Dispatch;
    var a: Answer :| Given(t, Enter(x, a)) && Causing(Possible(t), x, Consequence(a, e), y);
    var say, enter := Say(t, x, a), [Enter(x, a)];
    match Consequence(a, e) {
      case None =>
        u, l := say, enter;
        forall past, more ensures EnterCall(t, Before(x, past, u, more), x, e) == After(y, past, l, more) {
          SaysEnter(t, x, a, more);
        }
      case Some(ev) =>
        assert Reaches(t, x, ev, y);
        var v, m :| Handles(t, x, ev, v, y, m);
        u, l := say + v, enter + m;
        Join(t, x, [], say, v, enter, m, []);
        forall past, more ensures EnterCall(t, Before(x, past, u, more), x, e) == After(y, past, l, more) {
          Join(t, x, past, say, v, enter, m, more);
          Join(t, y, past, say, v, enter, m, more);
          SaysEnter(t, x, a, v + more);
          assert Dispatch(t, Before(x, past + enter, v, more), ev) == After(y, past + enter, m, more);
        }
    }
  }

  /** The first child's callback made the machine go elsewhere. */
  lemma DescendAway(t: Table, x: State, child: State, e: Event, u: seq<Answer>, y: State, m: seq<Action>)
    requires Forest(t) && InTable(t, x) && t.states[x].firstChild == Some(child) && InTable(t, child)
    requires y != child && EntersBy(t, child, e, u, y, m)
    ensures DescendsBy(t, x, e, u, y, [Report(child)] + m)
  {
    hide EnterCall;
    var report := [Report(child)];
    Join(t, y, [], [], u, report, m, []);
    forall past, more ensures Descend(t, Before(x, past, u, more), e) == After(y, past, report + m, more) {
      Join(t, y, past, [], u, report, m, more);
      assert EnterCall(t, Before(child, past + report, u, more), child, e) == After(y, past + report, m, more);
    }
  }

  lemma DescendOn(t: Table, x: State, child: State, e: Event, v: seq<Answer>, m: seq<Action>, w: seq<Answer>, y: State, d: seq<Action>)
    requires Forest(t) && InTable(t, x) && t.states[x].firstChild == Some(child) && InTable(t, child)
    requires EntersBy(t, child, e, v, child, m) && DescendsBy(t, child, e, w, y, d)
    ensures DescendsBy(t, x, e, v + w, y, [Report(child)] + m + d)
  {
    hide EnterCall;
    var report := [Report(child)];
    Join(t, y, [], v, w, report, m, []);
    Join(t, y, [], v, w, report + m, d, []);
    forall past, more ensures Descend(t, Before(x, past, v + w, more), e) == After(y, past, report + m + d, more) {
      Join(t, child, past, v, w, report, m, w + more);
      Join(t, child, past, v, w, report + m, d, more);
      Join(t, y, past, v, w, report + m, d, more);
      assert EnterCall(t, Before(child, past + report, v, w + more), child, e) == After(child, past + report, m, w + more);
      assert Descend(t, Before(child, past + (report + m), w, more), e) == After(y, past + (report + m), d, more);
    }
  }

  lemma {:induction false} DescendRuns(t: Table, x: State, e: Event, y: State) returns (u: seq<Answer>, l: seq<Action>)
    requires Forest(t) && InTable(t, x) && GoesDownTo(t, Possible(t), x, e, y)
    ensures DescendsBy(t, x, e, u, y, l)
    decreases |t.states| - t.level[x]
  {
    hide EnterCall, EntersTo, Possible, EntersBy;
    assert Linked(t, x);
    match t.states[x].firstChild {
      case None =>
        u, l := [], [];
        forall past, more ensures Descend(t, Before(x, past, u, more), e) == After(y, past, l, more) {
          assert [] + more == more && past + [] == past;
        }
      case Some(child) =>
        if y != child && EntersTo(t, Possible(t), child, e, y) {
          var m;
          u, m := EnterRuns(t, child, e, y);
          l := [Report(child)] + m;
          DescendAway(t, x, child, e, u, y, m);
        } else {
          var v, m := EnterRuns(t, child, e, child);
          var w, d := DescendRuns(t, child, e, y);
          u, l := v + w, [Report(child)] + m + d;
          DescendOn(t, x, child, e, v, m, w, y, d);
        }
    }
  }

  lemma {:induction false} ParentsRuns(t: Table, x: State, path: seq<State>, e: Event) returns (u: seq<Answer>, l: seq<Action>)
    requires Forest(t) && InTable(t, x) && forall s <- path :: InTable(t, s) && Quiet(t, s)
    ensures ParentsBy(t, x, path, e, u, l)
    decreases |path|
  {
    if path == [] {
      u, l := [], [];
      forall past, more ensures EnterParents(t, Before(x, past, u, more), path, e) == After(x, past, l, more) {
        assert [] + more == more && past + [] == past;
      }
    } else {
      var s := path[0];
      var say, enter := Say(t, s, Succeed), [Report(s), Enter(s, Succeed)];
      var v, m := ParentsRuns(t, x, path[1..], e);
      assert Given(t, Enter(s, Succeed)) by { assert t.states[s].enter == {} || Succeed in t.states[s].enter; }
      u, l := say + v, enter + m;
      Join(t, x, [], say, v, enter, m, []);
      forall past, more ensures EnterParents(t, Before(x, past, u, more), path, e) == After(x, past, l, more) {
        Join(t, x, past, say, v, enter, m, more);
        SaysEnter(t, s, Succeed, v + more);
        assert past + [Report(s)] + [Enter(s, Succeed)] == past + enter;
        assert EnterParents(t, Before(x, past + enter, v, more), path[1..], e) == After(x, past + enter, m, more);
      }
    }
  }

  /** An answer of the leave callback, `ok` if that is possible and wanted. */
  lemma LeaveRuns(t: Table, x: State, ok: bool) returns (u: seq<Answer>)
    requires InTable(t, x) && Given(t, Leave(x, ok))
    ensures forall s, past, more :: LeaveCall(t, Before(s, past, u, more), x) == (After(s, past, [Leave(x, ok)], more), ok)
  {
    var leave := t.states[x].leave;
    if leave == {} {
      u := [];
    } else {
      var a :| a in leave && (a != Fail) == ok;
      u := [a];
    }
    forall s, past, more
      ensures LeaveCall(t, Before(s, past, u, more), x) == (After(s, past, [Leave(x, ok)], more), ok)
    {
      if leave == {} { assert [] + more == more; } else { assert (u + more)[1..] == more; }
    }
  }

  lemma {:induction false} LeaveDownRuns(t: Table, s: State, chain: seq<State>, n: nat) returns (u: seq<Answer>, l: seq<Action>)
    requires forall s <- chain :: InTable(t, s)
    ensures LeavesBy(t, s, chain, n, u, l)
    decreases |chain|
  {
    if |chain| <= n {
      u, l := [], [];
      forall past, more ensures LeaveDown(t, Before(s, past, u, more), chain, n) == After(s, past, l, more) {
        assert [] + more == more && past + [] == past;
      }
    } else {
      var x := chain[|chain| - 1];
      assert x in chain;
      var ok := t.states[x].leave != {Fail};
      var leave := [Leave(x, ok)];
      var say := LeaveRuns(t, x, ok);
      var v, m := LeaveDownRuns(t, s, chain[..|chain| - 1], n);
      u, l := say + v, leave + m;
      Join(t, s, [], say, v, leave, m, []);
      forall past, more ensures LeaveDown(t, Before(s, past, u, more), chain, n) == After(s, past, l, more) {
        Join(t, s, past, say, v, leave, m, more);
        assert LeaveCall(t, Before(s, past, say, v + more), x).0 == After(s, past, leave, v + more);
        assert LeaveDown(t, Before(s, past + leave, v, more), chain[..|chain| - 1], n) == After(s, past + leave, m, more);
      }
    }
  }

  ghost predicate ArrivesBy(t: Table, x: State, n: nat, e: Event, u: seq<Answer>, y: State, l: seq<Action>)
    requires Forest(t) && InTable(t, x) && n <= t.level[x]
  {
    && Real(t, l, 0) && InTable(t, y)
    && forall s: State, past, more :: Arrive(t, Before(s, past, u, more), x, n, e) == After(y, past, l, more)
  }

  lemma ArriveAway(t: Table, x: State, n: nat, e: Event, v: seq<Answer>, p: seq<Action>, w: seq<Answer>, y: State, m: seq<Action>)
    requires Forest(t) && InTable(t, x) && n <= t.level[x] && y != x
    requires ParentsBy(t, x, ProperChain(t, x)[n..], e, v, p) && EntersBy(t, x, e, w, y, m)
    ensures ArrivesBy(t, x, n, e, v + w, y, p + m + [Report(y)])
  {
    hide EnterCall, Descend, EnterParents, Chain;
    Join(t, y, [], v, w, p, m, []);
    Join(t, y, [], v, w, p + m, [Report(y)], []);
    forall s: State, past, more
      ensures Arrive(t, Before(s, past, v + w, more), x, n, e) == After(y, past, p + m + [Report(y)], more)
    {
      Join(t, x, past, v, w, p, m, more);
      Join(t, y, past, v, w, p, m, more);
      Join(t, y, past, v, w, p + m, [Report(y)], more);
      assert EnterParents(t, Before(x, past, v, w + more), ProperChain(t, x)[n..], e) == After(x, past, p, w + more);
      assert EnterCall(t, Before(x, past + p, w, more), x, e) == After(y, past + p, m, more);
    }
  }

  lemma ArriveOn(t: Table, x: State, n: nat, e: Event, v: seq<Answer>, p: seq<Action>, w: seq<Answer>, m: seq<Action>,
                 d: seq<Answer>, y: State, b: seq<Action>)
    requires Forest(t) && InTable(t, x) && n <= t.level[x]
    requires ParentsBy(t, x, ProperChain(t, x)[n..], e, v, p) && EntersBy(t, x, e, w, x, m) && DescendsBy(t, x, e, d, y, b)
    ensures ArrivesBy(t, x, n, e, v + (w + d), y, p + m + [Report(x)] + b)
  {
    hide EnterCall, Descend, EnterParents, Chain;
    var report := [Report(x)];
    Join(t, y, [], v, w, p, m, []);
    Join(t, y, [], v, w, p + m, report, []);
    Join(t, y, [], v, w, p + m + report, b, []);
    forall s: State, past, more
      ensures Arrive(t, Before(s, past, v + (w + d), more), x, n, e) == After(y, past, p + m + report + b, more)
    {
      Join(t, x, past, v, w + d, p, m, more);
      Join(t, x, past + p, w, d, m, report, more);
      Join(t, x, past, w, d, p + m, report, more);
      Join(t, x, past, w, d, p, m, d + more);
      Join(t, x, past, w, d, p + m + report, b, more);
      Join(t, y, past, w, d, p + m + report, b, more);
      assert EnterParents(t, Before(x, past, v, w + d + more), ProperChain(t, x)[n..], e) == After(x, past, p, w + d + more);
      assert EnterCall(t, Before(x, past + p, w, d + more), x, e) == After(x, past + p, m, d + more);
      assert Descend(t, Before(x, past + (p + m + report), d, more), e) == After(y, past + (p + m + report), b, more);
    }
  }

  /** Entering the parents and then the target `x` itself, and what lies below it. */
  lemma ArriveRuns(t: Table, x: State, n: nat, e: Event, y: State) returns (u: seq<Answer>, l: seq<Action>)
    requires Forest(t) && InTable(t, x) && n <= t.level[x] && LandsTo(t, Possible(t), x, e, y)
    requires forall i | n <= i < t.level[x] :: Quiet(t, Chain(t, x)[i])
    ensures ArrivesBy(t, x, n, e, u, y, l)
  {
    hide EntersTo, Possible, Chain, GoesDownTo, EntersBy, DescendsBy, ParentsBy, ArrivesBy;
    Settling.PathQuiet(t, x, n);
    var v, p := ParentsRuns(t, x, ProperChain(t, x)[n..], e);
    if y != x && EntersTo(t, Possible(t), x, e, y) {
      var w, m := EnterRuns(t, x, e, y);
      u, l := v + w, p + m + [Report(y)];
      ArriveAway(t, x, n, e, v, p, w, y, m);
    } else {
      var w, m := EnterRuns(t, x, e, x);
      var d, b := DescendRuns(t, x, e, y);
      u, l := v + (w + d), p + m + [Report(x)] + b;
      ArriveOn(t, x, n, e, v, p, w, m, d, y, b);
    }
  }

  lemma MoveRuns(t: Table, s: State, x: State, e: Event, y: State) returns (u: seq<Answer>, l: seq<Action>)
    requires QuietParents(t) && InTable(t, s) && Dispatchable(t, s, e) && Target(t, s, e) == Some(x)
    requires LandsTo(t, Possible(t), x, e, y)
    ensures MovesBy(t, s, x, e, u, y, l)
  {
    hide Arrive, LeaveDown, Target, LandsTo, Possible, Chain;
    assert ParentsQuiet(t, s, e);
    var n := Shared(t, s, x);
    var v, p := LeaveDownRuns(t, s, ProperChain(t, s), n);
    var w, m := ArriveRuns(t, x, n, e, y);
    u, l := v + w, p + m;
    Join(t, s, [], v, w, p, m, []);
    forall past, more
      ensures Arrive(t, LeaveDown(t, Before(s, past, u, more), ProperChain(t, s), n), x, n, e) == After(y, past, l, more)
    {
      Join(t, s, past, v, w, p, m, more);
      Join(t, y, past, v, w, p, m, more);
      assert LeaveDown(t, Before(s, past, v, w + more), ProperChain(t, s), n) == After(s, past, p, w + more);
      assert Arrive(t, Before(s, past + p, w, more), x, n, e) == After(y, past + p, m, more);
    }
  }

  // ----- One event ----------------------------------------------------------------------------

  /** The leave succeeds, or its failure is not looked at. */
  lemma PassRuns(t: Table, s: State, e: Event, y: State)
    requires QuietParents(t) && InTable(t, s) && Dispatchable(t, s, e) && Target(t, s, e).Some?
    requires e == StateError || t.states[s].leave != {Fail}
    requires LandsTo(t, Possible(t), Target(t, s, e).value, e, y)
    ensures Reaches(t, s, e, y)
  {
    hide Arrive, LeaveDown, Target, LandsTo, Possible, Shared;
    var ok := t.states[s].leave != {Fail};
    var leave := [Leave(s, ok)];
    var say := LeaveRuns(t, s, ok);
    var w, m := MoveRuns(t, s, Target(t, s, e).value, e, y);
    Join(t, s, [], say, w, leave, m, []);
    forall past, more ensures Dispatch(t, Before(s, past, say + w, more), e) == After(y, past, leave + m, more) {
      Join(t, s, past, say, w, leave, m, more);
      Join(t, y, past, say, w, leave, m, more);
      assert LeaveCall(t, Before(s, past, say, w + more), s) == (After(s, past, leave, w + more), ok);
      assert After(s, past, leave, w + more) == Before(s, past + leave, w, more);
    }
    assert Handles(t, s, e, say + w, y, leave + m);
  }

  /** The leave fails, and its handling ends elsewhere. */
  lemma FailRuns(t: Table, s: State, e: Event, y: State)
    requires Forest(t) && InTable(t, s) && Target(t, s, e).Some? && e != StateError && Fail in t.states[s].leave
    requires y != s && Reaches(t, s, StateError, y)
    ensures Reaches(t, s, e, y)
  {
    hide Arrive, LeaveDown, Target;
    var leave := [Leave(s, false)];
    var say := LeaveRuns(t, s, false);
    var w, m :| Handles(t, s, StateError, w, y, m);
    Join(t, s, [], say, w, leave, m, []);
    forall past, more ensures Dispatch(t, Before(s, past, say + w, more), e) == After(y, past, leave + m, more) {
      Join(t, s, past, say, w, leave, m, more);
      Join(t, y, past, say, w, leave, m, more);
      assert LeaveCall(t, Before(s, past, say, w + more), s) == (After(s, past, leave, w + more), false);
      assert Dispatch(t, Before(s, past + leave, w, more), StateError) == After(y, past + leave, m, more);
    }
    assert Handles(t, s, e, say + w, y, leave + m);
  }

  /** The leave fails, its handling comes back, and the transition is completed all the same. */
  lemma BackRuns(t: Table, s: State, e: Event, y: State)
    requires QuietParents(t) && InTable(t, s) && Dispatchable(t, s, e) && Target(t, s, e).Some? && e != StateError
    requires Fail in t.states[s].leave && Reaches(t, s, StateError, s)
    requires LandsTo(t, Possible(t), Target(t, s, e).value, e, y)
    ensures Reaches(t, s, e, y)
  {
    hide Arrive, LeaveDown, Target, LandsTo, Possible, Shared;
    var leave := [Leave(s, false)];
    var say := LeaveRuns(t, s, false);
    var v, p :| Handles(t, s, StateError, v, s, p);
    var w, m := MoveRuns(t, s, Target(t, s, e).value, e, y);
    Join(t, s, [], say, v, leave, p, []);
    Join(t, s, [], say, v, leave + p, m, []);
    forall past, more
      ensures Dispatch(t, Before(s, past, say + (v + w), more), e) == After(y, past, leave + p + m, more)
    {
      Join(t, s, past, say, v + w, leave, p, more);
      Join(t, s, past + leave, v, w, leave, p, more);
      Join(t, s, past, v, w, leave, p, w + more);
      Join(t, s, past, v, w, leave + p, m, more);
      Join(t, y, past, v, w, leave + p, m, more);
      assert LeaveCall(t, Before(s, past, say, v + w + more), s) == (After(s, past, leave, v + w + more), false);
      assert Dispatch(t, Before(s, past + leave, v, w + more), StateError) == After(s, past + leave, p, w + more);
    }
    assert Handles(t, s, e, say + (v + w), y, leave + p + m);
  }

  /** What is reached is closed: the dispatcher's rules compose runs of the callbacks' events. */
  lemma PossibleClosed(t: Table)
    requires QuietParents(t)
    ensures Closed(t, Possible(t))
  {
    hide Target, LandsTo, Dispatch, Handles;
    forall s: State, e: Event, y: State | InTable(t, s) && Dispatchable(t, s, e) && LeadsTo(t, Possible(t), s, e, y)
      ensures Way(s, e, y) in Possible(t)
    {
      if Target(t, s, e) == None {
        StayRuns(t, s, e);
      } else if (e == StateError || t.states[s].leave != {Fail}) && LandsTo(t, Possible(t), Target(t, s, e).value, e, y) {
        PassRuns(t, s, e, y);
      } else if y != s && Way(s, StateError, y) in Possible(t) {
        FailRuns(t, s, e, y);
      } else {
        BackRuns(t, s, e, y);
      }
      ReachesState(t, s, e, y);
    }
  }

  lemma StayRuns(t: Table, s: State, e: Event)
    requires Forest(t) && InTable(t, s) && Target(t, s, e) == None
    ensures Reaches(t, s, e, s)
  {
    hide Target;
    forall past, more ensures Dispatch(t, Before(s, past, [], more), e) == After(s, past, [], more) {
      assert [] + more == more && past + [] == past;
    }
    assert Handles(t, s, e, [], s, []);
  }

  lemma ReachesState(t: Table, s: State, e: Event, y: State)
    requires Forest(t) && InTable(t, s) && Reaches(t, s, e, y)
    ensures InTable(t, y) && CanEnd(t, s, e, y)
  {
    hide Dispatch;
    var u, l :| Handles(t, s, e, u, y, l);
    var c := Before(s, [], u, []);
    assert Dispatch(t, c, e) == After(y, [], l, []);
    assert [] + l == l;
  }

  /**
  Where the handling of an event can end, by answers that the callbacks can give, is what every closed set of ways
  contains.
  */
  lemma EndsExactly(t: Table, s: State, e: Event, y: State)
    requires QuietParents(t) && InTable(t, s) && Dispatchable(t, s, e)
    ensures CanEnd(t, s, e, y) <==> forall k: set<Way> | Closed(t, k) :: Way(s, e, y) in k
    ensures CanEnd(t, s, e, y) <==> Reaches(t, s, e, y)
  {
    hide Dispatch, Closed, Reaches;
    if CanEnd(t, s, e, y) {
      var c: Config :| c.cur == s && Dispatch(t, c, e).cur == y && Real(t, Dispatch(t, c, e).log, |c.log|);
      forall k: set<Way> | Closed(t, k) ensures Way(s, e, y) in k {
        DispatchIn(t, k, c, e);
      }
    }
    PossibleClosed(t);
    if Way(s, e, y) in Possible(t) || Reaches(t, s, e, y) {
      ReachesState(t, s, e, y);
    }
  }
}
