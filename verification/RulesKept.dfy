/** Exactly when the rules are kept. */
module RulesKept {
  import opened Wrappers
  import opened StateTable
  import opened Dispatcher
  import opened Discipline
  import Growth
  import opened SilentErrors
  import opened Soundness
  import opened Ends
  import EndsReached

  // Exactly when the dispatcher keeps the rules, for all answers that the callbacks can give: as an if-and-only-if
  // over all tables with quiet parents, on runs and on the table alone, and for one event whose leave callback
  // failed.

  /** A silent target is a possible end of its own error transition. */
  lemma {:induction false} SilentLands(t: Table, k: set<Way>, x: State)
    requires Forest(t) && InTable(t, x) && LandsSilently(t, x)
    ensures LandsTo(t, k, x, StateError, Landing(t, x))
    decreases |t.states| - t.level[x]
  {
    assert Linked(t, x);
    var a := if t.states[x].enter == {} || Succeed in t.states[x].enter then Succeed else Fail;
    assert Given(t, Enter(x, a)) by { if t.states[x].enter != {} { var b :| b in t.states[x].enter; } }
    assert EntersTo(t, k, x, StateError, x);
    if t.states[x].firstChild.Some? {
      var child := t.states[x].firstChild.value;
      SilentLands(t, k, child);
      LandsDown(t, x);
    }
  }

  lemma {:induction false} LandsDown(t: Table, x: State)
    requires Forest(t) && InTable(t, x)
    ensures t.level[Landing(t, x)] >= t.level[x]
    ensures t.states[x].firstChild.Some? ==> t.level[Landing(t, x)] > t.level[x]
    decreases |t.states| - t.level[x]
  {
    assert Linked(t, x);
    if t.states[x].firstChild.Some? { LandsDown(t, t.states[x].firstChild.value); }
  }

  /** Error targets that raise nothing come back exactly when their landing state is the state itself. */
  lemma SilentComesBack(t: Table, s: State)
    requires QuietParents(t) && InTable(t, s) && MayFail(t, s) && LandsSilently(t, Target(t, s, StateError).value)
    ensures ComesBack(t, s) <==> Landing(t, Target(t, s, StateError).value) == s
  {
    hide Dispatch, Landing, LandsSilently, Target, LandsTo;
    var x := Target(t, s, StateError).value;
    forall c: Config | c.cur == s ensures Dispatch(t, c, StateError).cur == Landing(t, x) {
      ErrorLands(t, c);
    }
    forall k: set<Way> | Closed(t, k) ensures Way(s, StateError, Landing(t, x)) in k {
      SilentLands(t, k, x);
      assert LeadsTo(t, k, s, StateError, Landing(t, x));
    }
    EndsReached.EndsExactly(t, s, StateError, Landing(t, x));
    BackIsEnd(t, s);
  }

  lemma BackIsEnd(t: Table, s: State)
    requires Forest(t) && InTable(t, s)
    ensures ComesBack(t, s) <==> CanEnd(t, s, StateError, s)
  {
    hide Dispatch;
  }

  lemma WellFormedSettles(t: Table)
    requires WellFormed(t)
    ensures Steady(t) && Settled(t)
  {
    hide Landing, LandsSilently, Dispatch;
    forall c: Config | InTable(t, c.cur) && MayFail(t, c.cur) ensures !Returns(t, c) {
      assert ErrorSettles(t, c.cur);
      ErrorLands(t, c);
    }
  }

  /**
  One event whose leave callback failed, with an error transition that raises nothing: the rules are kept if and
  only if that transition lands in another state.
  */
  lemma FailedLeaveExact(t: Table, init: State, c: Config, e: Event)
    requires QuietParents(t) && Aligned(t, init, c, 0) && Dispatchable(t, c.cur, e) && e != StateError
    requires Target(t, c.cur, e).Some? && Target(t, c.cur, StateError).Some? && !LeaveCall(t, c, c.cur).1
    requires LandsSilently(t, Target(t, c.cur, StateError).value)
    ensures Obeys(t, init, Dispatch(t, c, e).log) <==> Landing(t, Target(t, c.cur, StateError).value) != c.cur
  {
    hide Arrive, LeaveDown, Replay, Settled, Steady, Kept, LandsSilently, Landing, Target;
    var c1 := LeaveCall(t, c, c.cur).0;
    LeaveCurrent(t, init, c, 0, e);
    DispatchSound(t, init, 0, c1, StateError, 1);
    ErrorLands(t, c1);
    var c2 := Dispatch(t, c1, StateError);
    if c2.cur == c.cur {
      BackBreaks(t, init, 0, c, c1, c2, Target(t, c.cur, e).value, e);
    }
  }

  /**
  From every configuration in which the active states are those of the current chain, every event keeps the rules for
  as long as the callbacks do what they can do.
  */
  ghost predicate KeepsRules(t: Table)
    requires Forest(t)
  {
    forall init: State, c: Config, e: Event ::
      Aligned(t, init, c, 0) && Dispatchable(t, c.cur, e) ==> Kept(t, init, |c.log|, Dispatch(t, c, e).log)
  }

  /** Every state can be current: entering its chain from the root. */
  lemma {:induction false} Reachable(t: Table, s: State) returns (init: State, c: Config)
    requires Forest(t) && InTable(t, s)
    ensures c.cur == s && Aligned(t, init, c, 0)
    ensures Entered(t, init, c, s, t.level[s] + 1)
    decreases t.level[s]
  {
    hide Step, Target;
    assert Linked(t, s);
    match t.states[s].parent
    case None =>
      init, c := s, Config(s, [], []);
      var stack := [Frame(s, Succeed)];
      assert States(stack) == [s] == Chain(t, s) == Chain(t, s)[..1] && stack[..1] == stack;
    case Some(p) =>
      var c0;
      init, c0 := Reachable(t, p);
      c := Config(s, c0.log + [Enter(s, Succeed)], []);
      assert Chain(t, s)[..t.level[s]] == Chain(t, p) == Chain(t, p)[..t.level[p] + 1];
      EnterLast(t, init, c0, c, s, Succeed);
  }

  /**
  The dispatcher keeps the rules in a table with quiet parents if and only if no handling of a failed leave can
  end where it began.
  */
  lemma KeepsRulesExactly(t: Table)
    requires QuietParents(t)
    ensures KeepsRules(t) <==> Settled(t)
  {
    hide Dispatch, Replay, Target, ComesBack, Kept;
    if Settled(t) {
      forall init: State, c: Config, e: Event | Aligned(t, init, c, 0) && Dispatchable(t, c.cur, e)
        ensures Kept(t, init, |c.log|, Dispatch(t, c, e).log)
      {
        KeepsRulesOnce(t, init, c, e);
      }
    } else {
      var s: State :| InTable(t, s) && MayFail(t, s) && ComesBack(t, s);
      var init, c, e := Breaking(t, s);
      assert !KeepsRules(t);
    }
  }

  lemma KeepsRulesOnce(t: Table, init: State, c: Config, e: Event)
    requires QuietParents(t) && Settled(t) && Aligned(t, init, c, 0) && Dispatchable(t, c.cur, e)
    ensures Kept(t, init, |c.log|, Dispatch(t, c, e).log)
  {
    hide Dispatch, Replay, Target, Settled, Steady;
    var r := Dispatch(t, c, e);
    DispatchSound(t, init, |c.log|, c, e, 0);
    if Obeys(t, init, r.log) {
      forall n | |c.log| <= n <= |r.log| ensures Obeys(t, init, r.log[..n]) {
        ObeysPrefix(t, init, r.log, n);
      }
    }
  }

  /** The run that breaks them: the leave fails, and answers follow that bring the machine back and let it go on. */
  lemma Breaking(t: Table, s: State) returns (init: State, c: Config, e: Event)
    requires QuietParents(t) && InTable(t, s) && MayFail(t, s)
    ensures Aligned(t, init, c, 0) && Dispatchable(t, c.cur, e)
    ensures ComesBack(t, s) ==> !Kept(t, init, |c.log|, Dispatch(t, c, e).log)
  {
    hide Arrive, LeaveDown, Replay, Target, Settled, Steady, Kept, LandsSilently, Dispatch;
    e :| e != StateError && Dispatchable(t, s, e) && Target(t, s, e).Some?;
    init, c := Reachable(t, s);
    if ComesBack(t, s) {
      BackIsEnd(t, s);
      EndsReached.EndsExactly(t, s, StateError, s);
      var u, l :| EndsReached.Handles(t, s, StateError, u, s, l);
      var first := FirstAnswers(t, s, Target(t, s, e).value);
      var more: seq<Answer> := [];
      if first != {} { var a :| a in first; more := [a]; }
      c := Config(s, c.log, [Fail] + (u + more));
      BreaksOn(t, init, c, e, u, l, more);
    }
  }

  lemma BreaksOn(t: Table, init: State, c: Config, e: Event, u: seq<Answer>, l: seq<Action>, more: seq<Answer>)
    requires QuietParents(t) && Aligned(t, init, c, 0) && e != StateError && Dispatchable(t, c.cur, e)
    requires Target(t, c.cur, e).Some? && Target(t, c.cur, StateError).Some? && Fail in t.states[c.cur].leave
    requires EndsReached.Handles(t, c.cur, StateError, u, c.cur, l) && c.script == [Fail] + (u + more)
    requires var first := FirstAnswers(t, c.cur, Target(t, c.cur, e).value); first == {} || (more != [] && more[0] in first)
    ensures !Kept(t, init, |c.log|, Dispatch(t, c, e).log)
  {
    hide Arrive, LeaveDown, Replay, Target, Settled, Steady, Kept, LandsSilently, Chain, FirstAnswers, Obeys;
    var s, past := c.cur, c.log + [Leave(c.cur, false)];
    var x, n := Target(t, s, e).value, Shared(t, s, Target(t, s, e).value);
    var c1 := Config(s, past, u + more);
    var c2 := Config(s, past + l, more);
    assert ([Fail] + (u + more))[1..] == u + more;
    assert LeaveCall(t, c, s) == (c1, false);
    assert c1 == EndsReached.Before(s, past, u, more) && c2 == EndsReached.After(s, past, l, more);
    assert Dispatch(t, c1, StateError) == c2;
    LeaveCurrent(t, init, c, 0, e);
    DispatchSound(t, init, 0, c1, StateError, 1);
    var c3 := LeaveDown(t, c2, ProperChain(t, s), n);
    var r := Arrive(t, c3, x, n, e);
    assert r == Dispatch(t, c, e);
    var sofar := [Leave(s, false)] + l;
    assert c2.log == c.log + sofar;
    Growth.LeaveDownGrows(t, c2, ProperChain(t, s), n);
    Growth.ArriveGrows(t, c3, x, n, e);
    if AtRest(t, init, c2) {
      UnleftBreaks(t, init, c2, x, e);
      StillBroken(t, init, c, sofar, r);
    } else {
      BreaksAt(t, init, c, sofar, r);
    }
  }

  /** A run that breaks the rules by possible answers after possible answers breaks them by possible answers. */
  lemma StillBroken(t: Table, init: State, c: Config, l: seq<Action>, r: Config)
    requires Forest(t) && (forall a <- l :: Given(t, a)) && c.log + l <= r.log && !Kept(t, init, |c.log + l|, r.log)
    ensures !Kept(t, init, |c.log|, r.log)
  {
    var n :| |c.log + l| <= n <= |r.log| && Real(t, r.log[..n], |c.log + l|) && !Obeys(t, init, r.log[..n]);
    forall i | |c.log| <= i < n ensures Given(t, r.log[..n][i]) {
      if i < |c.log + l| { assert r.log[i] == (c.log + l)[i] == l[i - |c.log|]; }
    }
  }

  /**
  The same by a condition on the table alone: some set of ways, closed under what the table makes of the answers that
  callbacks can give, has no way from a failed leave back to the state that was to be left.
  */
  lemma TableExactly(t: Table)
    requires QuietParents(t)
    ensures KeepsRules(t) <==>
            exists k: set<Way> :: Closed(t, k) && forall s: State | InTable(t, s) && MayFail(t, s) :: Way(s, StateError, s) !in k
  {
    hide KeepsRules, ComesBack, Closed, MayFail, CanEnd;
    KeepsRulesExactly(t);
    EndsReached.PossibleClosed(t);
    var k := EndsReached.Possible(t);
    forall s: State | InTable(t, s) && MayFail(t, s)
      ensures ComesBack(t, s) <==> forall k: set<Way> | Closed(t, k) :: Way(s, StateError, s) in k
      ensures ComesBack(t, s) <==> Way(s, StateError, s) in k
    {
      BackIsEnd(t, s);
      assert Dispatchable(t, s, StateError) by { assert MayFail(t, s); FailsHere(t, s); }
      EndsReached.EndsExactly(t, s, StateError, s);
    }
  }

  lemma FailsHere(t: Table, s: State)
    requires Forest(t) && InTable(t, s) && MayFail(t, s)
    ensures Dispatchable(t, s, StateError)
  {
  }

  /** The same where error transitions raise nothing. */
  lemma SilentTableExactly(t: Table)
    requires QuietParents(t)
    requires forall s: State | InTable(t, s) && MayFail(t, s) :: LandsSilently(t, Target(t, s, StateError).value)
    ensures KeepsRules(t)
       <==> forall s: State | InTable(t, s) && MayFail(t, s) :: Landing(t, Target(t, s, StateError).value) != s
  {
    hide KeepsRules, ComesBack, LandsSilently, Landing, Target;
    KeepsRulesExactly(t);
    forall s: State | InTable(t, s) && MayFail(t, s)
      ensures ComesBack(t, s) <==> Landing(t, Target(t, s, StateError).value) == s
    {
      SilentComesBack(t, s);
    }
  }

  /** Two roots; the first may fail to be left, and its error transition comes back to it. */
  function Unsettled(): Table {
    Table([StateDef(map[StateError := 0, OpenFile := 1], None, None, {}, {Succeed, Fail}),
           StateDef(map[], None, None, {}, {})], [0, 0])
  }

  /** Such a table exists, and two answers are enough: the dispatcher enters the target while the state is still active. */
  lemma UnsettledBreaks()
    ensures var t := Unsettled();
            QuietParents(t) && !KeepsRules(t) && !Obeys(t, 0, Dispatch(t, Config(0, [], [Fail, Succeed]), OpenFile).log)
  {
    hide KeepsRules, Dispatch, Obeys;
    var t := Unsettled();
    var c := Config(0, [], [Fail, Succeed]);
    assert Forest(t);
    FlatQuiet(t);
    assert Target(t, 0, StateError) == Some(0) && Target(t, 0, OpenFile) == Some(1) && Landing(t, 0) == 0;
    UnsettledStart(t);
    FailedLeaveExact(t, 0, c, OpenFile);
    assert MayFail(t, 0);
    SilentComesBack(t, 0);
    KeepsRulesExactly(t);
  }

  lemma FlatQuiet(t: Table)
    requires Forest(t) && forall s: State | InTable(t, s) :: t.level[s] == 0
    ensures QuietParents(t)
  {
  }

  lemma UnsettledStart(t: Table)
    requires t == Unsettled() && Forest(t)
    ensures Aligned(t, 0, Config(0, [], [Fail, Succeed]), 0)
  {
    assert Chain(t, 0) == [0] && States([Frame(0, Succeed)]) == [0];
  }

  /** A reader whose leave may fail, with an error state that may start it again. */
  function ReadsAgain(): Table {
    Table([StateDef(map[ReadReady := 2, StateError := 1], None, None, {Fail, Raise(ReadReady)}, {Succeed, Fail}),
           StateDef(map[TokenInserted := 0], None, None, {Succeed, Raise(TokenInserted)}, {}),
           StateDef(map[], None, None, {}, {})], [0, 0, 0])
  }

  /** Everything but resting in the reader, which its own enter callback prevents. */
  function ReadsAgainWays(): set<Way> {
    set s: State, e: Event, y: State | s < 3 && y < 3
      && (y != 0 || (s == 0 && e != ReadReady && e != StateError)) :: Way(s, e, y)
  }

  /**
  It keeps the rules, though its error transition raises events and leads into the reader again: the reader goes on
  or fails, so nothing ends there. Only an answer that it cannot give would bring the machine back.
  */
  lemma ReadsAgainKeeps()
    ensures var t := ReadsAgain();
            && QuietParents(t) && KeepsRules(t) && !Steady(t)
            && !LandsSilently(t, Target(t, 0, StateError).value)
  {
    hide KeepsRules, Returns, Closed, MayFail;
    var t := ReadsAgain();
    assert Forest(t);
    FlatQuiet(t);
    ReadsAgainTargets(t);
    ReadsAgainClosed(t);
    ReadsAgainBack(t);
    TableExactly(t);
    ReadsAgainReturns(t);
  }

  lemma ReadsAgainTargets(t: Table)
    requires t == ReadsAgain() && Forest(t)
    ensures Target(t, 0, ReadReady) == Some(2) && Target(t, 0, StateError) == Some(1) && Target(t, 1, TokenInserted) == Some(0)
    ensures forall s: State, e: Event | InTable(t, s) ::
              Target(t, s, e).Some? ==> (s == 0 && (e == ReadReady || e == StateError)) || (s == 1 && e == TokenInserted)
  {
  }

  lemma ReadsAgainBack(t: Table)
    requires t == ReadsAgain() && Forest(t)
    ensures forall s: State | InTable(t, s) && MayFail(t, s) :: Way(s, StateError, s) !in ReadsAgainWays()
  {
    forall s: State | InTable(t, s) && MayFail(t, s) ensures s == 0 {
      assert Fail in t.states[s].leave;
    }
  }

  /** The answer that cannot be given is the reader's success, after the script is used up. */
  lemma ReadsAgainReturns(t: Table)
    requires t == ReadsAgain() && Forest(t)
    ensures MayFail(t, 0) && Returns(t, Config(0, [], [Succeed, Raise(TokenInserted)]))
  {
    ReadsAgainTargets(t);
    var c := Config(0, [], [Succeed, Raise(TokenInserted)]);
    var c1 := Config(0, [Leave(0, true)], [Raise(TokenInserted)]);
    var c2 := Config(1, c1.log + [Enter(1, Raise(TokenInserted))], []);
    var c3 := Config(1, c2.log + [Leave(1, true)], []);
    assert ProperChain(t, 0) == [] && ProperChain(t, 1) == [];
    assert c.script[1..] == c1.script && c.log + [Leave(0, true)] == c1.log && c1.script[1..] == c2.script;
    assert LeaveCall(t, c, 0) == (c1, true) && LeaveCall(t, c2, 1) == (c3, true);
    assert EnterCall(t, c3.(cur := 0), 0, TokenInserted).cur == 0;
    assert Arrive(t, c3, 0, 0, TokenInserted).cur == 0;
    assert Dispatch(t, c2, TokenInserted).cur == 0;
    assert EnterCall(t, c1.(cur := 1), 1, StateError) == Dispatch(t, c2, TokenInserted);
    assert Arrive(t, c1, 1, 0, StateError).cur == 0;
    assert MayFail(t, 0) by { assert Dispatchable(t, 0, ReadReady); }
  }

  lemma ReadsAgainClosed(t: Table)
    requires t == ReadsAgain() && Forest(t)
    ensures Closed(t, ReadsAgainWays())
  {
    ReadsAgainTargets(t);
    var k := ReadsAgainWays();
    forall s: State, e: Event, y: State | InTable(t, s) && LeadsTo(t, k, s, e, y) ensures Way(s, e, y) in k {
    }
  }
}
