/** The dispatcher only adds to the log, and never looks at it: what was logged before is a prefix of what is logged after. */
module Growth {
  import opened StateTable
  import opened Dispatcher

  /** The same configuration with a longer past. */
  function Behind(past: seq<Action>, c: Config): Config { c.(log := past + c.log) }

  lemma BehindLog(past: seq<Action>, c: Config, a: Action)
    ensures Behind(past, c).Log(a) == Behind(past, c.Log(a))
  {
  }

  lemma BehindLeave(t: Table, past: seq<Action>, c: Config, s: State)
    requires InTable(t, s)
    ensures var (r, ok) := LeaveCall(t, c, s); LeaveCall(t, Behind(past, c), s) == (Behind(past, r), ok)
  {
    var ok := LeaveCall(t, c, s).1;
    assert past + (c.log + [Leave(s, ok)]) == past + c.log + [Leave(s, ok)];
  }

  lemma {:induction false} BehindLeaveDown(t: Table, past: seq<Action>, c: Config, chain: seq<State>, k: nat)
    requires forall s <- chain :: InTable(t, s)
    ensures LeaveDown(t, Behind(past, c), chain, k) == Behind(past, LeaveDown(t, c, chain, k))
    decreases |chain|
  {
    if |chain| > k {
      var s := chain[|chain| - 1];
      BehindLeave(t, past, c, s);
      BehindLeaveDown(t, past, LeaveCall(t, c, s).0, chain[..|chain| - 1], k);
    }
  }

  lemma {:induction false} BehindEnter(t: Table, past: seq<Action>, c: Config, s: State, e: Event)
    requires Forest(t) && InTable(t, c.cur) && InTable(t, s)
    ensures EnterCall(t, Behind(past, c), s, e) == Behind(past, EnterCall(t, c, s, e))
    decreases |c.script|, 0, 0
  {
    var (a, rest) := NextAnswer(t.states[s].enter, c.script);
    BehindLog(past, Config(c.cur, c.log, rest), Enter(s, a));
    match Consequence(a, e)
    case None =>
    case Some(ev) => BehindDispatch(t, past, Config(c.cur, c.log + [Enter(s, a)], rest), ev);
  }

  lemma {:induction false} BehindParents(t: Table, past: seq<Action>, c: Config, path: seq<State>, e: Event)
    requires Forest(t) && InTable(t, c.cur) && forall s <- path :: InTable(t, s)
    ensures EnterParents(t, Behind(past, c), path, e) == Behind(past, EnterParents(t, c, path, e))
    decreases |c.script|, 1, |path|
  {
    if path != [] {
      var c1 := c.Log(Report(path[0]));
      BehindLog(past, c, Report(path[0]));
      BehindEnter(t, past, c1, path[0], e);
      BehindParents(t, past, EnterCall(t, c1, path[0], e), path[1..], e);
    }
  }

  lemma {:induction false} BehindDescend(t: Table, past: seq<Action>, c: Config, e: Event)
    requires Forest(t) && InTable(t, c.cur)
    ensures Descend(t, Behind(past, c), e) == Behind(past, Descend(t, c, e))
    decreases |c.script|, 1, |t.states| - t.level[c.cur]
  {
    assert Linked(t, c.cur);
    match t.states[c.cur].firstChild
    case None =>
    case Some(k) =>
      var c1 := Config(k, c.log + [Report(k)], c.script);
      BehindLog(past, Config(k, c.log, c.script), Report(k));
      BehindEnter(t, past, c1, k, e);
      var c2 := EnterCall(t, c1, k, e);
      if c2.cur == k {
        BehindDescend(t, past, c2, e);
      }
  }

  lemma {:induction false} BehindArrive(t: Table, past: seq<Action>, c: Config, x: State, n: nat, e: Event)
    requires Forest(t) && InTable(t, x) && n <= t.level[x]
    ensures Arrive(t, Behind(past, c), x, n, e) == Behind(past, Arrive(t, c, x, n, e))
    decreases |c.script|, 2, 0
  {
    var path := ProperChain(t, x)[n..];
    BehindParents(t, past, c.(cur := x), path, e);
    var c1 := EnterParents(t, c.(cur := x), path, e);
    BehindEnter(t, past, c1, c1.cur, e);
    var c2 := EnterCall(t, c1, c1.cur, e);
    BehindLog(past, c2, Report(c2.cur));
    if c2.cur == x {
      BehindDescend(t, past, c2.Log(Report(x)), e);
    }
  }

  lemma {:induction false} BehindDispatch(t: Table, past: seq<Action>, c: Config, e: Event)
    requires Forest(t) && InTable(t, c.cur)
    ensures Dispatch(t, Behind(past, c), e) == Behind(past, Dispatch(t, c, e))
    decreases |c.script|, 3, 0
  {
    hide Arrive, LeaveDown, LeaveCall, Target;
    match Target(t, c.cur, e)
    case None =>
    case Some(x) =>
      var (c1, ok) := LeaveCall(t, c, c.cur);
      BehindLeave(t, past, c, c.cur);
      if !ok && e != StateError {
        BehindDispatch(t, past, c1, StateError);
      }
      var c2 := if ok || e == StateError then c1 else Dispatch(t, c1, StateError);
      if c2.cur == c.cur {
        var n := Shared(t, c.cur, x);
        BehindLeaveDown(t, past, c2, ProperChain(t, c.cur), n);
        BehindArrive(t, past, LeaveDown(t, c2, ProperChain(t, c.cur), n), x, n, e);
      }
  }

  lemma DispatchGrows(t: Table, c: Config, e: Event)
    requires Forest(t) && InTable(t, c.cur)
    ensures c.log <= Dispatch(t, c, e).log
  {
    var c0 := c.(log := []);
    assert Behind(c.log, c0) == c;
    BehindDispatch(t, c.log, c0, e);
  }

  /** The next call after some past, leaving reports aside, is an enter call of `s` with answer `a`. */
  ghost predicate Enters(past: seq<Action>, log: seq<Action>, s: State, a: Answer) {
    past + [Enter(s, a)] <= log || past + [Report(s), Enter(s, a)] <= log
  }

  lemma EntersMore(past: seq<Action>, log: seq<Action>, more: seq<Action>, s: State, a: Answer)
    ensures Enters(past, log, s, a) && log <= more ==> Enters(past, more, s, a)
  {
  }

  lemma EnterGrows(t: Table, c: Config, s: State, e: Event)
    requires Forest(t) && InTable(t, c.cur) && InTable(t, s)
    ensures var (log, a) := (EnterCall(t, c, s, e).log, NextAnswer(t.states[s].enter, c.script).0);
            && c.log <= log && Enters(c.log, log, s, a)
            && (c.log != [] && c.log[|c.log| - 1] == Report(s) ==> Enters(c.log[..|c.log| - 1], log, s, a))
  {
    hide Dispatch;
    var (a, rest) := NextAnswer(t.states[s].enter, c.script);
    match Consequence(a, e)
    case None =>
    case Some(ev) => DispatchGrows(t, Config(c.cur, c.log + [Enter(s, a)], rest), ev);
    assert c.log + [Enter(s, a)] <= EnterCall(t, c, s, e).log;
    if c.log != [] && c.log[|c.log| - 1] == Report(s) {
      assert c.log[..|c.log| - 1] + [Report(s), Enter(s, a)] == c.log + [Enter(s, a)];
    }
  }

  lemma {:induction false} LeaveDownGrows(t: Table, c: Config, chain: seq<State>, k: nat)
    requires forall s <- chain :: InTable(t, s)
    ensures c.log <= LeaveDown(t, c, chain, k).log
    ensures |chain| > k ==>
              var s := chain[|chain| - 1]; c.log + [Leave(s, LeaveCall(t, c, s).1)] <= LeaveDown(t, c, chain, k).log
    decreases |chain|
  {
    if |chain| > k {
      LeaveDownGrows(t, LeaveCall(t, c, chain[|chain| - 1]).0, chain[..|chain| - 1], k);
    }
  }

  lemma {:induction false} ParentsGrow(t: Table, c: Config, path: seq<State>, e: Event)
    requires Forest(t) && InTable(t, c.cur) && forall s <- path :: InTable(t, s)
    ensures c.log <= EnterParents(t, c, path, e).log
    ensures path == [] ==> EnterParents(t, c, path, e) == c
    ensures path != [] ==>
              InTable(t, path[0])
              && Enters(c.log, EnterParents(t, c, path, e).log, path[0], NextAnswer(t.states[path[0]].enter, c.script).0)
    decreases |path|
  {
    hide EnterCall, Enters;
    if path != [] {
      var c1 := c.Log(Report(path[0]));
      EnterGrows(t, c1, path[0], e);
      var c2 := EnterCall(t, c1, path[0], e);
      assert c1.log[..|c1.log| - 1] == c.log;
      ParentsGrow(t, c2, path[1..], e);
      EntersMore(c.log, c2.log, EnterParents(t, c2, path[1..], e).log, path[0], NextAnswer(t.states[path[0]].enter, c.script).0);
    }
  }

  lemma DescendGrows(t: Table, c: Config, e: Event)
    requires Forest(t) && InTable(t, c.cur)
    ensures c.log <= Descend(t, c, e).log
  {
    var c0 := c.(log := []);
    assert Behind(c.log, c0) == c;
    BehindDescend(t, c.log, c0, e);
  }

  /** An arrival begins with entering the first state of the target's chain that is not shared. */
  lemma ArriveGrows(t: Table, c: Config, x: State, n: nat, e: Event)
    requires Forest(t) && InTable(t, x) && n <= t.level[x]
    ensures c.log <= Arrive(t, c, x, n, e).log
    ensures var s := Chain(t, x)[n];
            Enters(c.log, Arrive(t, c, x, n, e).log, s, NextAnswer(t.states[s].enter, c.script).0)
  {
    hide Descend, EnterParents, EnterCall, Enters;
    var path := ProperChain(t, x)[n..];
    var c0 := c.(cur := x);
    ParentsGrow(t, c0, path, e);
    var c1 := EnterParents(t, c0, path, e);
    EnterGrows(t, c1, c1.cur, e);
    var c2 := EnterCall(t, c1, c1.cur, e);
    var c3 := c2.Log(Report(c2.cur));
    DescendGrows(t, c3, e);
    var r := Arrive(t, c, x, n, e);
    assert c2.log <= r.log;
    var s := Chain(t, x)[n];
    var a := NextAnswer(t.states[s].enter, c.script).0;
    if path == [] {
      EntersMore(c.log, c2.log, r.log, x, a);
    } else {
      assert path[0] == s;
      EntersMore(c.log, c1.log, r.log, s, a);
    }
  }
}
