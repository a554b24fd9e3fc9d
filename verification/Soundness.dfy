/** The dispatcher keeps the rules. */
module Soundness {
  import opened Wrappers
  import opened StateTable
  import opened Dispatcher
  import opened Discipline
  import opened Growth

  // For every table whose parents are quiet, every script of callback answers and every sequence of events, the
  // dispatcher keeps the discipline as long as the handling of a failed leave does not end where it began: then
  // the states entered and not yet left are the current state and its ancestors, and the machine comes to rest in
  // a leaf that it has reported.

  /** A failed leave of `s` can be handled, in the course of a transition for another event. */
  ghost predicate MayFail(t: Table, s: State)
    requires Forest(t) && InTable(t, s)
  {
    && Fail in t.states[s].leave && Target(t, s, StateError).Some?
    && exists e: Event :: e != StateError && Dispatchable(t, s, e) && Target(t, s, e).Some?
  }

  /** Answers that the callbacks can give make the error handling of `s` end in `s` again. */
  ghost predicate ComesBack(t: Table, s: State)
    requires Forest(t) && InTable(t, s)
  {
    exists c: Config :: c.cur == s && Returns(t, c) && Real(t, Dispatch(t, c, StateError).log, |c.log|)
  }

  ghost predicate Returns(t: Table, c: Config)
    requires Forest(t) && InTable(t, c.cur)
  {
    Dispatch(t, c, StateError).cur == c.cur
  }

  ghost predicate Settled(t: Table)
    requires Forest(t)
  {
    forall s: State :: InTable(t, s) && MayFail(t, s) ==> !ComesBack(t, s)
  }

  /** Settled whatever is answered, also by answers that the callbacks cannot give. */
  ghost predicate Steady(t: Table)
    requires Forest(t)
  {
    forall c: Config :: InTable(t, c.cur) && MayFail(t, c.cur) ==> !Returns(t, c)
  }

  /** The log obeys as long as the callbacks, from index `k` on, did what they can do. */
  ghost predicate Kept(t: Table, init: State, k: nat, log: seq<Action>)
    requires Forest(t)
  {
    forall n | k <= n <= |log| && Real(t, log[..n], k) :: Obeys(t, init, log[..n])
  }

  /** The active states are the current state and its ancestors, `left` of which have been left already. */
  ghost predicate Aligned(t: Table, init: State, c: Config, left: nat)
    requires Forest(t)
  {
    && InTable(t, c.cur) && InTable(t, init) && t.states[init].parent == None
    && Obeys(t, init, c.log)
    && var tr := Replay(t, init, c.log);
       tr.left == left && left <= |tr.stack| && States(tr.stack) == Chain(t, c.cur)
  }

  /** At rest: nothing has been left, the current state is a leaf, and it is the last one reported. */
  ghost predicate AtRest(t: Table, init: State, c: Config)
    requires Forest(t)
  {
    Aligned(t, init, c, 0) && Leaf(t, c.cur) && LastReport(c.log) == Some(c.cur)
  }

  /**
  At rest; or the rules are broken. That takes a table that is not steady; and if the table is settled it takes an
  answer, given since index `k` and before the rules were broken, that the callback cannot give.
  */
  ghost predicate Settles(t: Table, init: State, k: nat, c: Config)
    requires Forest(t)
  {
    AtRest(t, init, c) || (!Obeys(t, init, c.log) && !Steady(t) && (Settled(t) ==> Kept(t, init, k, c.log)))
  }

  /** The first `n` states of `Chain(t, x)` are active and still open, and the machine may go further down. */
  ghost predicate Reached(t: Table, tr: Trail, x: State, n: nat)
    requires Forest(t) && InTable(t, x)
  {
    && tr.Trail? && tr.left <= |tr.stack| && n <= t.level[x] + 1
    && var rest := tr.stack[..|tr.stack| - tr.left];
       States(rest) == Chain(t, x)[..n] && (n > 0 ==> !Diverted(t, rest[n - 1]))
  }

  ghost predicate Entered(t: Table, init: State, c: Config, x: State, n: nat)
    requires Forest(t) && InTable(t, x)
  {
    InTable(t, init) && t.states[init].parent == None && Reached(t, Replay(t, init, c.log), x, n)
  }

  /**
  Main theorem for one event, top-level or nested. If no transition applies nothing changes; otherwise the
  machine comes to rest, whatever the callbacks answered, unless the rules are broken in a table that is not
  settled. `left` is 1 in the nested handling of a failed leave.
  */
  lemma {:induction false} DispatchSound(t: Table, init: State, k: nat, c: Config, e: Event, left: nat)
    requires k <= |c.log| && QuietParents(t) && Aligned(t, init, c, left) && Dispatchable(t, c.cur, e)
    requires left == 0 || (left == 1 && e == StateError && Replay(t, init, c.log).retry)
    ensures var r := Dispatch(t, c, e);
            match Target(t, c.cur, e)
            case None => r == c
            case Some(x) => Settles(t, init, k, r) && (e == StateError && LandsSilently(t, x) ==> AtRest(t, init, r))
    decreases |c.script|, 3, 0
  {
    hide Arrive, LeaveDown, Replay, Settled, Steady, Kept, LandsSilently, Target;
    if Target(t, c.cur, e).Some? {
      var x := Target(t, c.cur, e).value;
      var (c1, ok) := LeaveCall(t, c, c.cur);
      LeaveCurrent(t, init, c, left, e);
      if ok || e == StateError {
        TransitionSound(t, init, k, c1, x, e);
      } else {
        DispatchSound(t, init, k, c1, StateError, 1);
        var c2 := Dispatch(t, c1, StateError);
        if Target(t, c.cur, StateError).None? {
          TransitionSound(t, init, k, c1, x, e);
        } else if c2.cur == c.cur {
          BackBreaks(t, init, k, c, c1, c2, x, e);
        }
      }
    }
  }

  /** The part of a transition after the current state's own leave call. */
  lemma TransitionSound(t: Table, init: State, k: nat, c: Config, x: State, e: Event)
    requires k <= |c.log| && QuietParents(t) && Aligned(t, init, c, 1) && Dispatchable(t, c.cur, e) && Target(t, c.cur, e) == Some(x)
    ensures var n := Shared(t, c.cur, x);
            var r := Arrive(t, LeaveDown(t, c, ProperChain(t, c.cur), n), x, n, e);
            Settles(t, init, k, r) && (e == StateError && LandsSilently(t, x) ==> AtRest(t, init, r))
    decreases |c.script|, 2, 1
  {
    hide Arrive, LeaveDown, Replay, Step, Target, AtRest, Diverted, Landing, Settled, Steady, Kept, LandsSilently;
    var n := Shared(t, c.cur, x);
    var chain := ProperChain(t, c.cur);
    var tr := Replay(t, init, c.log);
    ReplayStacked(t, init, c.log);
    assert |tr.stack| == |States(tr.stack)|;
    LeaveDownReplay(t, init, c, chain, n);
    LeaveDownGrows(t, c, chain, n);
    var c' := LeaveDown(t, c, chain, n);
    var tr' := Replay(t, init, c'.log);
    assert States(tr.stack[..n]) == Chain(t, x)[..n] by {
      assert States(tr.stack[..n]) == States(tr.stack)[..n] == chain[..n];
    }
    assert Entered(t, init, c', x, n);
    assert ParentsQuiet(t, c.cur, e);
    ArriveSound(t, init, k, c', x, n, e);
  }

  /**
  The same for whole runs: between events the machine is at rest, or still untouched where it started; unless the
  rules were broken after an answer that the callback cannot give, which a steady table does not mind either.
  */
  lemma {:induction false} RunSound(t: Table, init: State, script: seq<Answer>, events: seq<Event>)
    requires QuietParents(t) && Settled(t) && InTable(t, init) && t.states[init].parent == None && Leaf(t, init)
    ensures var c0 := Config(init, [], script);
            var r := Run(t, c0, events);
            || (Aligned(t, init, r, 0) && Leaf(t, r.cur) && (AtRest(t, init, r) || r == c0))
            || (!Obeys(t, init, r.log) && !Steady(t) && Kept(t, init, 0, r.log))
    decreases |events|
  {
    hide Settled, Steady, Dispatch, Kept;
    var c0 := Config(init, [], script);
    if events == [] {
      assert States([Frame(init, Succeed)]) == [init];
    } else {
      var c, e := Run(t, c0, events[..|events| - 1]), events[|events| - 1];
      RunSound(t, init, script, events[..|events| - 1]);
      if Aligned(t, init, c, 0) && Leaf(t, c.cur) {
        DispatchSound(t, init, 0, c, e, 0);
      } else {
        DispatchGrows(t, c, e);
        StaysBroken(t, init, 0, c, Dispatch(t, c, e));
      }
    }
  }

  /** What the first callback of a transition from `s` to `x`, after the one that leaves `s`, may answer. */
  ghost function FirstAnswers(t: Table, s: State, x: State): set<Answer>
    requires Forest(t) && InTable(t, s) && InTable(t, x)
  {
    var n := Shared(t, s, x);
    if n < t.level[s] then t.states[Chain(t, s)[t.level[s] - 1]].leave else t.states[Chain(t, x)[n]].enter
  }

  /**
  What goes wrong when the handling of a failed leave comes back: from a current state that is active and has not
  been left, a transition cannot be completed within the rules. Either a parent is left while it is still active
  below, or a state is entered that is no child of it; and that is the very next call.
  */
  lemma UnleftBreaks(t: Table, init: State, c: Config, x: State, e: Event)
    requires Forest(t) && Aligned(t, init, c, 0) && InTable(t, x)
    ensures var n := Shared(t, c.cur, x);
            var log := Arrive(t, LeaveDown(t, c, ProperChain(t, c.cur), n), x, n, e).log;
            var first := FirstAnswers(t, c.cur, x);
            && !Obeys(t, init, log)
            && (first == {} || (c.script != [] && c.script[0] in first) ==> !Kept(t, init, |c.log|, log))
  {
    hide Arrive, LeaveDown, Replay, Step, Target, Diverted, Kept;
    var n := Shared(t, c.cur, x);
    var chain := ProperChain(t, c.cur);
    var c' := LeaveDown(t, c, chain, n);
    var r := Arrive(t, c', x, n, e);
    LeaveDownGrows(t, c, chain, n);
    ArriveGrows(t, c', x, n, e);
    if n < |chain| {
      var s := chain[|chain| - 1];
      var ok := LeaveCall(t, c, s).1;
      EarlyLeave(t, init, c, s, ok);
      BreaksAt(t, init, c, [Leave(s, ok)], r);
    } else {
      var s := Chain(t, x)[n];
      var a := NextAnswer(t.states[s].enter, c.script).0;
      LeaveDownWhole(t, c, chain, n);
      EarlyEnter(t, init, c, s, a);
      if c.log + [Enter(s, a)] <= r.log {
        BreaksAt(t, init, c, [Enter(s, a)], r);
      } else {
        BreaksAt(t, init, c, [Report(s), Enter(s, a)], r);
      }
    }
  }

  /** An enter call that raises or fails to no effect, or not at all, leaves its state on top of the stack. */
  lemma {:induction false} EnterSound(t: Table, init: State, k: nat, c: Config, x: State, e: Event)
    requires k <= |c.log| && QuietParents(t) && InTable(t, x) && c.cur == x && Entered(t, init, c, x, t.level[x])
    ensures var r := EnterCall(t, c, x, e);
            || (Settles(t, init, k, r) && !(e == StateError && RaisesNothing(t, x)))
            || (r.cur == x && Entered(t, init, r, x, t.level[x] + 1) && LastReport(r.log) == LastReport(c.log)
                && Aligned(t, init, r, 0))
    decreases |c.script|, 0, 0
  {
    hide Dispatch, Replay, Step, Settled, Steady, Kept, Chain;
    var (a, rest) := NextAnswer(t.states[x].enter, c.script);
    var c' := Config(x, c.log + [Enter(x, a)], rest);
    EnterLast(t, init, c, c', x, a);
    match Consequence(a, e)
    case None =>
    case Some(ev) =>
      assert Dispatchable(t, x, ev);
      DispatchSound(t, init, k, c', ev, 0);
  }

  lemma {:induction false} ParentsSound(t: Table, init: State, c: Config, x: State, n: nat, e: Event)
    requires Forest(t) && InTable(t, x) && c.cur == x && n <= t.level[x] && Entered(t, init, c, x, n)
    requires forall i | n <= i < t.level[x] :: Quiet(t, Chain(t, x)[i])
    ensures var r := EnterParents(t, c, ProperChain(t, x)[n..], e);
            r.cur == x && Entered(t, init, r, x, t.level[x])
    decreases t.level[x] - n
  {
    hide Replay, Step, Target;
    var path := ProperChain(t, x)[n..];
    if path != [] {
      var s := path[0];
      assert s == Chain(t, x)[n];
      var c1 := c.Log(Report(s));
      LogReport(t, init, c, s);
      assert Entered(t, init, c1, x, n);
      EnterNext(t, init, c1, x, n, Succeed);
      var c2 := EnterCall(t, c1, s, e);
      assert c2.log == c1.log + [Enter(s, Succeed)] && c2.cur == x;
      ParentsSound(t, init, c2, x, n + 1, e);
      assert path[1..] == ProperChain(t, x)[n + 1..];
    }
  }

  lemma {:induction false} DescendSound(t: Table, init: State, k: nat, c: Config, e: Event)
    requires k <= |c.log| && QuietParents(t) && Aligned(t, init, c, 0) && LastReport(c.log) == Some(c.cur)
    requires Entered(t, init, c, c.cur, t.level[c.cur] + 1)
    ensures Settles(t, init, k, Descend(t, c, e))
    ensures e == StateError && LandsSilently(t, c.cur) ==> AtRest(t, init, Descend(t, c, e))
    decreases |c.script|, 1, |t.states| - t.level[c.cur]
  {
    hide EnterCall, Replay, Step, Target, LastReport, Diverted, Chain, Settled, Steady, Kept;
    match t.states[c.cur].firstChild
    case None =>
    case Some(child) =>
      assert Linked(t, c.cur) && Linked(t, child);
      SilentHere(t, child);
      var c1 := Config(child, c.log + [Report(child)], c.script);
      ChildEntered(t, init, c, child);
      EnterSound(t, init, k, c1, child, e);
      EnterGrows(t, c1, child, e);
      var c2 := EnterCall(t, c1, child, e);
      if c2.cur == child {
        if AtRest(t, init, c2) {
        } else if Settles(t, init, k, c2) {
          DescendGrows(t, c2, e);
          StaysBroken(t, init, k, c2, Descend(t, c2, e));
        } else {
          DescendSound(t, init, k, c2, e);
        }
      }
  }

  /** Leaving from the end of a chain down to index `k` marks all but the first `k` frames. */
  lemma {:induction false} LeaveDownReplay(t: Table, init: State, c: Config, chain: seq<State>, k: nat)
    requires Forest(t) && Obeys(t, init, c.log) && k <= |chain|
    requires forall s <- chain :: InTable(t, s)
    requires var tr := Replay(t, init, c.log);
             tr.left >= 1 && |tr.stack| - tr.left == |chain| && Stacked(t, tr.stack)
             && States(tr.stack)[..|chain|] == chain
    ensures var tr := Replay(t, init, c.log);
            var r := LeaveDown(t, c, chain, k);
            var tr' := Replay(t, init, r.log);
            tr'.Trail? && tr'.stack == tr.stack && |tr.stack| - tr'.left == k
    decreases |chain|
  {
    hide Replay, Target;
    if |chain| > k {
      var tr := Replay(t, init, c.log);
      var s := chain[|chain| - 1];
      var (c', ok) := LeaveCall(t, c, s);
      ReplayOne(t, init, c.log, Leave(s, ok));
      assert States(tr.stack)[|chain| - 1] == s;
      assert !IsRetry(t, tr, s) by {
        assert t.level[s] == |chain| - 1;
      }
      LeaveDownReplay(t, init, c', chain[..|chain| - 1], k);
    }
  }

  /** The chain of `x` is being entered from its first `n` states, which are active; `x` is current already. */
  lemma {:induction false} ArriveSound(t: Table, init: State, k: nat, c: Config, x: State, n: nat, e: Event)
    requires k <= |c.log| && QuietParents(t) && InTable(t, x) && n <= t.level[x] && Entered(t, init, c, x, n)
    requires forall i | n <= i < t.level[x] :: Quiet(t, Chain(t, x)[i])
    ensures Settles(t, init, k, Arrive(t, c, x, n, e))
    ensures e == StateError && LandsSilently(t, x) ==> AtRest(t, init, Arrive(t, c, x, n, e))
    decreases |c.script|, 2, 0
  {
    hide Descend, EnterParents, EnterCall, Replay, Target, Settled, Steady, Kept, Chain, LandsSilently;
    ParentsSound(t, init, c.(cur := x), x, n, e);
    ParentsGrow(t, c.(cur := x), ProperChain(t, x)[n..], e);
    var c1 := EnterParents(t, c.(cur := x), ProperChain(t, x)[n..], e);
    EnterSound(t, init, k, c1, x, e);
    EnterGrows(t, c1, x, e);
    var c2 := EnterCall(t, c1, x, e);
    LogReport(t, init, c2, c2.cur);
    var c3 := c2.Log(Report(c2.cur));
    SilentHere(t, x);
    if AtRest(t, init, c2) {
      assert AtRest(t, init, c3);
      LeafStays(t, c3, e);
    } else if Settles(t, init, k, c2) {
      DescendGrows(t, c3, e);
      StaysBroken(t, init, k, c2, c3);
      StaysBroken(t, init, k, c2, Descend(t, c3, e));
    } else {
      DescendSound(t, init, k, c3, e);
    }
  }

  /** The handling of the failed leave came back to the current state. */
  lemma BackBreaks(t: Table, init: State, k: nat, c: Config, c1: Config, c2: Config, x: State, e: Event)
    requires Forest(t) && InTable(t, c.cur) && e != StateError && Dispatchable(t, c.cur, e) && k <= |c1.log|
    requires Target(t, c.cur, e) == Some(x) && Target(t, c.cur, StateError).Some? && Fail in t.states[c.cur].leave
    requires c1.cur == c.cur && c2 == Dispatch(t, c1, StateError) && c2.cur == c.cur && Settles(t, init, k, c2)
    ensures var n := Shared(t, c.cur, x);
            var log := Arrive(t, LeaveDown(t, c2, ProperChain(t, c.cur), n), x, n, e).log;
            && !Obeys(t, init, log) && !Steady(t)
            && (Settled(t) ==> Kept(t, init, k, log))
  {
    hide Arrive, LeaveDown, Replay, Target, Dispatch;
    var n := Shared(t, c.cur, x);
    var c3 := LeaveDown(t, c2, ProperChain(t, c.cur), n);
    var r := Arrive(t, c3, x, n, e);
    LeaveDownGrows(t, c2, ProperChain(t, c.cur), n);
    ArriveGrows(t, c3, x, n, e);
    DispatchGrows(t, c1, StateError);
    assert MayFail(t, c.cur) && Returns(t, c1);
    if AtRest(t, init, c2) {
      UnleftBreaks(t, init, c2, x, e);
      if Settled(t) {
        assert !ComesBack(t, c.cur);
        UnrealKept(t, init, k, c1, c2, r);
      }
    } else {
      StaysBroken(t, init, k, c2, r);
    }
  }

  // ----- One step of the log at a time ---------------------------------------------------------

  /** What follows a log that breaks the rules breaks them too, and no earlier. */
  lemma StaysBroken(t: Table, init: State, k: nat, c: Config, r: Config)
    requires Forest(t) && k <= |c.log| && c.log <= r.log && !Obeys(t, init, c.log)
    ensures !Obeys(t, init, r.log) && (Kept(t, init, k, c.log) ==> Kept(t, init, k, r.log))
  {
    assert r.log[..|c.log|] == c.log == c.log[..|c.log|];
    if Obeys(t, init, r.log) {
      ObeysPrefix(t, init, r.log, |c.log|);
    }
    if Kept(t, init, k, c.log) {
      forall n | k <= n <= |r.log| && Real(t, r.log[..n], k) ensures Obeys(t, init, r.log[..n]) {
        if n < |c.log| {
          assert r.log[..n] == c.log[..n];
        } else {
          RealPart(t, c.log, r.log[..n], k);
        }
      }
    }
  }

  lemma RealPart(t: Table, log: seq<Action>, more: seq<Action>, k: nat)
    requires log <= more
    ensures Real(t, more, k) ==> Real(t, log, k)
  {
    assert forall i | 0 <= i < |log| :: log[i] == more[i];
  }

  /** The rules are broken with the calls `more` after `c`. */
  lemma BreaksAt(t: Table, init: State, c: Config, more: seq<Action>, r: Config)
    requires Forest(t) && c.log + more <= r.log && !Obeys(t, init, c.log + more)
    ensures !Obeys(t, init, r.log)
    ensures (forall a <- more :: Given(t, a)) ==> !Kept(t, init, |c.log|, r.log)
  {
    var n := |c.log + more|;
    assert r.log[..n] == c.log + more;
    if Obeys(t, init, r.log) {
      ObeysPrefix(t, init, r.log, n);
    }
    if forall a <- more :: Given(t, a) {
      assert forall i | |c.log| <= i < n :: r.log[..n][i] == more[i - |c.log|];
      assert Real(t, r.log[..n], |c.log|);
    }
  }

  /** After an answer that cannot be given there is nothing more to keep. */
  lemma UnrealKept(t: Table, init: State, k: nat, c1: Config, c2: Config, r: Config)
    requires Forest(t) && k <= |c1.log| && c1.log <= c2.log <= r.log
    requires Obeys(t, init, c2.log) && !Real(t, c2.log, |c1.log|)
    ensures Kept(t, init, k, r.log)
  {
    forall n | k <= n <= |r.log| && Real(t, r.log[..n], k) ensures Obeys(t, init, r.log[..n]) {
      if n <= |c2.log| {
        ObeysPrefix(t, init, c2.log, n);
        assert r.log[..n] == c2.log[..n];
      } else {
        RealPart(t, c2.log, r.log[..n], |c1.log|);
      }
    }
  }

  lemma ChainParent(t: Table, x: State, n: nat)
    requires Forest(t) && InTable(t, x) && n <= t.level[x]
    ensures var s := Chain(t, x)[n];
            InTable(t, s) && t.states[s].parent == if n == 0 then None else Some(Chain(t, x)[n - 1])
  {
  }

  /** Entering the next state of a chain is allowed. */
  lemma ReachNext(t: Table, tr: Trail, x: State, n: nat, a: Answer)
    requires Forest(t) && InTable(t, x) && n <= t.level[x] && Reached(t, tr, x, n)
    ensures var s := Chain(t, x)[n];
            var tr' := Step(t, tr, Enter(s, a));
            && tr'.Trail? && tr'.left == 0 && |tr'.stack| == n + 1 && tr'.stack[n] == Frame(s, a)
            && States(tr'.stack) == Chain(t, x)[..n + 1] && tr'.stack[..n + 1] == tr'.stack
  {
    var chain := Chain(t, x);
    var rest := tr.stack[..|tr.stack| - tr.left];
    assert |rest| == |States(rest)| == n;
    ChainParent(t, x, n);
    PushFrame(t, tr, rest, chain, n, a);
  }

  lemma PushFrame(t: Table, tr: Trail, rest: seq<Frame>, chain: seq<State>, n: nat, a: Answer)
    requires Forest(t) && tr.Trail? && tr.left <= |tr.stack| && rest == tr.stack[..|tr.stack| - tr.left]
    requires n == |rest| < |chain| && States(rest) == chain[..n] && InTable(t, chain[n])
    requires t.states[chain[n]].parent == if n == 0 then None else Some(chain[n - 1])
    requires n > 0 ==> !Diverted(t, rest[n - 1])
    ensures var s := chain[n];
            var tr' := Step(t, tr, Enter(s, a));
            && tr'.Trail? && tr'.left == 0 && |tr'.stack| == n + 1 && tr'.stack[n] == Frame(s, a)
            && States(tr'.stack) == chain[..n + 1] && tr'.stack[..n + 1] == tr'.stack
  {
    if n > 0 {
      assert rest[n - 1].s == States(rest)[n - 1] == chain[n - 1];
    }
    assert MayEnter(t, tr, chain[n]);
    assert States(rest + [Frame(chain[n], a)]) == States(rest) + [chain[n]];
  }

  lemma EnterNext(t: Table, init: State, c: Config, x: State, n: nat, a: Answer)
    requires Forest(t) && InTable(t, x) && n <= t.level[x] && Entered(t, init, c, x, n)
    ensures var s := Chain(t, x)[n];
            var tr := Replay(t, init, c.log + [Enter(s, a)]);
            && tr.Trail? && tr.left == 0 && |tr.stack| == n + 1 && tr.stack[n] == Frame(s, a)
            && States(tr.stack) == Chain(t, x)[..n + 1] && tr.stack[..n + 1] == tr.stack
  {
    ReachNext(t, Replay(t, init, c.log), x, n, a);
    ReplayOne(t, init, c.log, Enter(Chain(t, x)[n], a));
  }

  lemma LogReport(t: Table, init: State, c: Config, s: State)
    requires Forest(t)
    ensures Replay(t, init, c.Log(Report(s)).log) == Replay(t, init, c.log)
    ensures LastReport(c.Log(Report(s)).log) == Some(s)
  {
    ReplayOne(t, init, c.log, Report(s));
  }

  /** Entering `x` itself completes its chain. */
  lemma EnterLast(t: Table, init: State, c: Config, c': Config, x: State, a: Answer)
    requires Forest(t) && InTable(t, x) && Entered(t, init, c, x, t.level[x])
    requires c'.cur == x && c'.log == c.log + [Enter(x, a)]
    ensures Aligned(t, init, c', 0) && LastReport(c'.log) == LastReport(c.log)
    ensures !Diverted(t, Frame(x, a)) ==> Entered(t, init, c', x, t.level[x] + 1)
  {
    EnterNext(t, init, c, x, t.level[x], a);
    assert Chain(t, x)[..t.level[x] + 1] == Chain(t, x);
  }

  lemma SilentHere(t: Table, x: State)
    requires Forest(t) && InTable(t, x)
    ensures LandsSilently(t, x) ==> RaisesNothing(t, x)
  {
  }

  lemma LeafStays(t: Table, c: Config, e: Event)
    requires Forest(t) && InTable(t, c.cur) && Leaf(t, c.cur)
    ensures Descend(t, c, e) == c
  {
  }

  /** Having entered a state completely is being about to enter its first child. */
  lemma ChildEntered(t: Table, init: State, c: Config, k: State)
    requires Forest(t) && InTable(t, c.cur) && t.states[c.cur].firstChild == Some(k)
    requires InTable(t, k) && t.states[k].parent == Some(c.cur) && t.level[k] == t.level[c.cur] + 1
    requires Entered(t, init, c, c.cur, t.level[c.cur] + 1)
    ensures var c1 := Config(k, c.log + [Report(k)], c.script);
            Entered(t, init, c1, k, t.level[k]) && LastReport(c1.log) == Some(k)
  {
    hide Replay, Step, Target, Diverted;
    LogReport(t, init, c, k);
    assert Chain(t, k)[..t.level[k]] == Chain(t, c.cur) == Chain(t, c.cur)[..t.level[c.cur] + 1];
  }

  /** Leaving the current state: its frame is marked, and stays marked while the failure is looked at. */
  lemma LeaveCurrent(t: Table, init: State, c: Config, left: nat, e: Event)
    requires Forest(t) && Aligned(t, init, c, left)
    requires left == 0 || (left == 1 && e == StateError && Replay(t, init, c.log).retry)
    requires Target(t, c.cur, e).Some?
    ensures var (c1, ok) := LeaveCall(t, c, c.cur);
            && Aligned(t, init, c1, 1) && Replay(t, init, c1.log).retry == !ok
            && Replay(t, init, c1.log).stack == Replay(t, init, c.log).stack
  {
    var (c1, ok) := LeaveCall(t, c, c.cur);
    var tr := Replay(t, init, c.log);
    ReplayOne(t, init, c.log, Leave(c.cur, ok));
    assert |tr.stack| == |States(tr.stack)|;
    assert States(tr.stack)[|tr.stack| - 1] == c.cur;
  }

  lemma LeaveDownWhole(t: Table, c: Config, chain: seq<State>, n: nat)
    requires n >= |chain| && forall s <- chain :: InTable(t, s)
    ensures LeaveDown(t, c, chain, n) == c
  {
  }

  /** Only the current state may be left first. */
  lemma EarlyLeave(t: Table, init: State, c: Config, s: State, ok: bool)
    requires Forest(t) && Aligned(t, init, c, 0) && s != c.cur
    ensures !Obeys(t, init, c.log + [Leave(s, ok)])
  {
    hide Replay, Target;
    var tr := Replay(t, init, c.log);
    ReplayOne(t, init, c.log, Leave(s, ok));
    assert tr.stack[|tr.stack| - 1].s == States(tr.stack)[|tr.stack| - 1] == Chain(t, c.cur)[t.level[c.cur]];
  }

  /** Only a child of the current state may be entered. */
  lemma EarlyEnter(t: Table, init: State, c: Config, s: State, a: Answer)
    requires Forest(t) && Aligned(t, init, c, 0) && InTable(t, s) && t.level[s] <= t.level[c.cur]
    ensures !Obeys(t, init, c.log + [Enter(s, a)]) && !Obeys(t, init, c.log + [Report(s), Enter(s, a)])
  {
    hide Replay, Target, Diverted;
    var tr := Replay(t, init, c.log);
    ReplayOne(t, init, c.log, Enter(s, a));
    ReplayOne(t, init, c.log, Report(s));
    ReplayOne(t, init, c.log + [Report(s)], Enter(s, a));
    assert c.log + [Report(s)] + [Enter(s, a)] == c.log + [Report(s), Enter(s, a)];
    assert tr.stack[|tr.stack| - 1].s == States(tr.stack)[|tr.stack| - 1] == Chain(t, c.cur)[t.level[c.cur]];
    assert tr.stack[..|tr.stack| - 0] == tr.stack;
    assert Linked(t, s);
    assert !MayEnter(t, tr, s);
  }
}
