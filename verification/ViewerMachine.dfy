/** What the general theorems say about the viewer's own table. */
module ViewerMachine {
  import opened Wrappers
  import opened StateTable
  import opened Dispatcher
  import opened Discipline
  import opened Settling
  import opened Soundness
  import opened RulesKept
  import opened ViewerTable

  /** The viewer's run on a sequence of events, from the library just opened. */
  ghost function ViewerRun(t: Table, script: seq<Answer>, events: seq<Event>): (r: Config)
    requires IsViewer(t) && Forest(t)
    ensures InTable(t, r.cur)
  {
    Run(t, Config(LIBOPEN, [], script), events)
  }

  /**
  Between events the viewer is at rest: only the current state and its ancestors are active, the current
  state is a leaf, and it is the last one the UI was told about; unless no event has had a transition yet.
  */
  lemma ViewerSound(t: Table, script: seq<Answer>, events: seq<Event>)
    requires IsViewer(t) && Forest(t)
    ensures var r := ViewerRun(t, script, events);
            && Aligned(t, LIBOPEN, r, 0) && Leaf(t, r.cur)
            && (LastReport(r.log) == Some(r.cur) || r == Config(LIBOPEN, [], script))
  {
    IsWellFormed(t);
    WellFormedSettles(t);
    assert t.states[LIBOPEN] == Def(LIBOPEN);
    RunSound(t, LIBOPEN, script, events);
  }

  // ----- Sessions and verification ------------------------------------------------------------

  /** How TOKEN_WAIT answered when it was last entered, if that was since TOKEN was last entered or left. */
  function LastCheck(log: seq<Action>): Option<Answer> {
    if log == [] then None
    else match log[|log| - 1]
      case Enter(s, a) =>
        if s == TOKEN_WAIT then Some(a) else if s == TOKEN then None else LastCheck(log[..|log| - 1])
      case Leave(s, _) => if s == TOKEN then None else LastCheck(log[..|log| - 1])
      case Report(_) => LastCheck(log[..|log| - 1])
  }

  /** Since TOKEN was last entered or left, TOKEN_WAIT was entered and its last verification of the card passed. */
  predicate Verified(log: seq<Action>) {
    LastCheck(log) !in {None, Some(Raise(DataInvalid))}
  }

  ghost function OpenStack(t: Table, log: seq<Action>): (r: seq<Frame>)
    requires IsViewer(t) && Forest(t) && Obeys(t, LIBOPEN, log)
  {
    var tr := Replay(t, LIBOPEN, log);
    if tr.left <= |tr.stack| then tr.stack[..|tr.stack| - tr.left] else []
  }

  lemma ViewerFacts(t: Table)
    requires IsViewer(t)
    ensures WellFormed(t) && t.states[LIBOPEN].parent == None
    ensures InTable(t, TOKEN) && InTable(t, TOKEN_WAIT)
    ensures t.level[TOKEN] == 1 && t.level[TOKEN_WAIT] == 2
    ensures Target(t, TOKEN, StateError) == None
    ensures Target(t, TOKEN_WAIT, DataInvalid) == Some(CARD_INVALID)
    ensures t.states[TOKEN_WAIT].parent == Some(TOKEN)
  {
    IsWellFormed(t);
    IsTarget(t, TOKEN, StateError);
    IsTarget(t, TOKEN_WAIT, DataInvalid);
    assert t.states[LIBOPEN] == Def(LIBOPEN);
    assert t.states[TOKEN_WAIT] == Def(TOKEN_WAIT);
  }

  /** While TOKEN_WAIT is active the log says the card is verified exactly when its enter callback did not object. */
  lemma {:induction false} GateInvariant(t: Table, log: seq<Action>)
    requires IsViewer(t) && Forest(t) && Obeys(t, LIBOPEN, log)
    ensures var st := OpenStack(t, log);
            |st| > 2 && st[2].s == TOKEN_WAIT ==> (Verified(log) <==> st[2].a != Raise(DataInvalid))
    decreases |log|
  {
    if log != [] {
      var pre, a := log[..|log| - 1], log[|log| - 1];
      GateInvariant(t, pre);
      ViewerFacts(t);
      ReplayStacked(t, LIBOPEN, pre);
      ReplayStacked(t, LIBOPEN, log);
      GateStep(t, Replay(t, LIBOPEN, pre), a);
    }
  }

  /** The frame of TOKEN_WAIT, if it is still there after a call, was there before unless the call is its entry. */
  lemma GateStep(t: Table, tr: Trail, a: Action)
    requires IsViewer(t) && Forest(t) && tr.Trail? && Stacked(t, tr.stack) && tr.left <= |tr.stack|
    requires Step(t, tr, a).Trail? && t.level[TOKEN] == 1 && t.level[TOKEN_WAIT] == 2
    ensures var tr' := Step(t, tr, a);
            var n, n' := |tr.stack| - tr.left, |tr'.stack| - tr'.left;
            n' > 2 && tr'.stack[2].s == TOKEN_WAIT ==>
              if a.Enter? && a.s == TOKEN_WAIT then tr'.stack[2].a == a.a
              else n > 2 && tr'.stack[2] == tr.stack[2] && (a.Enter? || a.Leave? ==> a.s != TOKEN)
  {
  }

  /** Entering a child of TOKEN_WAIT needs TOKEN_WAIT on top, with an enter callback that did not raise DATA_INVALID. */
  lemma GateEntry(t: Table, tr: Trail, s: State, a: Answer)
    requires IsViewer(t) && Forest(t) && tr.Trail? && Stacked(t, tr.stack) && tr.left <= |tr.stack|
    requires Step(t, tr, Enter(s, a)).Trail? && InTable(t, s) && InWait(s)
    ensures |tr.stack| - tr.left == 3 && tr.stack[2].s == TOKEN_WAIT && tr.stack[2].a != Raise(DataInvalid)
  {
    hide Replay, Target, Path;
    ViewerFacts(t);
    var rest := tr.stack[..|tr.stack| - tr.left];
    assert t.states[s].parent == Some(TOKEN_WAIT);
    assert rest[|rest| - 1].s == TOKEN_WAIT && t.level[TOKEN_WAIT] == |rest| - 1;
  }

  lemma GateHolds(t: Table, log: seq<Action>, i: nat)
    requires IsViewer(t) && Forest(t) && i < |log| && Obeys(t, LIBOPEN, log) && log[i].Enter? && InWait(log[i].s)
    ensures Verified(log[..i])
  {
    var pre := log[..i];
    ObeysPrefix(t, LIBOPEN, log, i);
    ObeysPrefix(t, LIBOPEN, log, i + 1);
    assert log[..i + 1] == pre + [log[i]];
    ReplayOne(t, LIBOPEN, pre, log[i]);
    ViewerFacts(t);
    ReplayStacked(t, LIBOPEN, pre);
    GateEntry(t, Replay(t, LIBOPEN, pre), log[i].s, log[i].a);
    GateInvariant(t, pre);
  }

  /**
  Over every run: opening and closing the card session (entering and leaving TOKEN) strictly alternate; every
  card read, PIN operation and challenge lies between an opening and its closing; and the states below
  TOKEN_WAIT are entered only after the card was verified since the session was opened.
  */
  lemma SessionSafety(t: Table, script: seq<Answer>, events: seq<Event>, i: nat)
    requires IsViewer(t) && Forest(t)
    requires i < |ViewerRun(t, script, events).log| && !ViewerRun(t, script, events).log[i].Report?
    ensures var log := ViewerRun(t, script, events).log;
            && (log[i].Enter? && log[i].s == TOKEN ==> !Open(LIBOPEN, log[..i], TOKEN))
            && (log[i].Leave? && log[i].s == TOKEN ==> Open(LIBOPEN, log[..i], TOKEN))
            && (InToken(log[i].s) ==> Open(LIBOPEN, log[..i], TOKEN))
            && (log[i].Enter? && InWait(log[i].s) ==> Verified(log[..i]))
  {
    var log := ViewerRun(t, script, events).log;
    ViewerSound(t, script, events);
    ViewerFacts(t);
    ObeysPrefix(t, LIBOPEN, log, i + 1);
    Nesting(t, LIBOPEN, log, i);
    if InToken(log[i].s) {
      IsPath(t, log[i].s);
      PathsInside(log[i].s);
      assert ProperChain(t, log[i].s)[1] == TOKEN;
    }
    if log[i].Enter? && InWait(log[i].s) {
      GateHolds(t, log, i);
    }
  }

  lemma InvalidArrives(t: Table, c: Config)
    requires IsViewer(t) && Forest(t)
    ensures Arrive(t, c, CARD_INVALID, 1, DataInvalid).cur == CARD_INVALID
  {
    IsPath(t, CARD_INVALID);
    assert ProperChain(t, CARD_INVALID)[1..] == [];
    assert t.states[CARD_INVALID] == Def(CARD_INVALID);
  }

  lemma InvalidLeaves(t: Table, c: Config)
    requires IsViewer(t) && Forest(t) && c.cur == TOKEN_WAIT
    ensures Dispatch(t, c, DataInvalid).cur == CARD_INVALID
  {
    ViewerFacts(t);
    assert t.states[TOKEN_WAIT] == Def(TOKEN_WAIT);
    IsPath(t, CARD_INVALID);
    SharesAtLeast(t, TOKEN_WAIT, CARD_INVALID, 1);
    var c1 := LeaveCall(t, c, TOKEN_WAIT).0;
    InvalidArrives(t, LeaveDown(t, c1, ProperChain(t, TOKEN_WAIT), 1));
  }

  /** A failed verification sends the machine from TOKEN_WAIT to CARD_INVALID, out of TOKEN. */
  lemma InvalidCard(t: Table, c: Config, e: Event)
    requires IsViewer(t) && Forest(t) && c.cur == TOKEN_WAIT && c.script != [] && c.script[0] == Raise(DataInvalid)
    ensures EnterCall(t, c, TOKEN_WAIT, e).cur == CARD_INVALID
    ensures TOKEN !in Chain(t, CARD_INVALID)
  {
    ViewerFacts(t);
    assert t.states[TOKEN_WAIT] == Def(TOKEN_WAIT);
    IsPath(t, CARD_INVALID);
    InvalidLeaves(t, Config(TOKEN_WAIT, c.log + [Enter(TOKEN_WAIT, Raise(DataInvalid))], c.script[1..]));
  }

  // ----- Termination and rest -----------------------------------------------------------------

  function RankOf(s: State): nat {
    if s == TOKEN_ID then 3
    else if s == TOKEN_CERTS || s == FILE_EXPORT_PHOTO then 2
    else if s in {TOKEN_WAIT, TOKEN_PINOP, TOKEN_SERIALIZE, TOKEN_CHALLENGE, TOKEN_EXPORT_PHOTO, FILE_READING, FILE_WAIT}
    then 1
    else 0
  }

  const Ranks: seq<nat> := seq(STATE_COUNT, (s: nat) => RankOf(s))

  /** The states entered after `s` along first children. */
  function Below(s: State): seq<State> {
    if s == CALLBACKS then [NO_TOKEN, NO_READER]
    else if s == TOKEN then [TOKEN_ID]
    else if s == TOKEN_WAIT then [TOKEN_IDLE]
    else if s == FILE then [FILE_READING]
    else if s == NO_TOKEN then [NO_READER]
    else []
  }

  lemma {:induction false} LandsBelowIs(t: Table, s: State, r: nat)
    requires IsViewer(t) && Forest(t) && InTable(t, s) && RankOf(s) < r && forall k <- Below(s) :: RankOf(k) < r
    ensures LandsBelow(t, Ranks, s, r)
    decreases |Below(s)|
  {
    assert Linked(t, s) && t.states[s] == Def(s);
    if Def(s).firstChild.Some? {
      var k := Def(s).firstChild.value;
      assert Below(s) == [k] + Below(k);
      LandsBelowIs(t, k, r);
    }
  }

  lemma NotRestless(t: Table, s: State)
    requires IsViewer(t) && Forest(t) && InTable(t, s) && s != TOKEN_ID && s != TOKEN_CERTS
    ensures !Restless(t, s)
  {
    assert t.states[s] == Def(s);
  }

  lemma AreRestless(t: Table)
    requires IsViewer(t) && Forest(t)
    ensures Restless(t, TOKEN_ID) && Restless(t, TOKEN_CERTS)
  {
    assert t.states[TOKEN_ID] == Def(TOKEN_ID) && t.states[TOKEN_CERTS] == Def(TOKEN_CERTS);
    forall s, ev: Event | s in {TOKEN_ID, TOKEN_CERTS} && Causes(t, s, ev)
      ensures Target(t, s, ev).Some?
    {
      IsTarget(t, s, ev);
    }
  }

  lemma {:induction false} LandsCalmlyIs(t: Table, s: State)
    requires IsViewer(t) && Forest(t) && InTable(t, s) && s != TOKEN && s != TOKEN_ID && s != TOKEN_CERTS
    ensures LandsCalmly(t, s)
    decreases |Below(s)|
  {
    assert Linked(t, s) && t.states[s] == Def(s);
    NotRestless(t, s);
    if Def(s).firstChild.Some? {
      var k := Def(s).firstChild.value;
      assert Below(s) == [k] + Below(k);
      LandsCalmlyIs(t, k);
    }
  }

  lemma RankDropsAt(t: Table, s: State, ev: Event)
    requires IsViewer(t) && Forest(t) && InTable(t, s)
    ensures RankDrops(t, Ranks, s, ev)
  {
    IsTarget(t, s, ev);
    assert t.states[s] == Def(s);
    if Causes(t, s, ev) && Leads(s, ev).Some? {
      RankStep(s, ev);
      LandsBelowIs(t, Leads(s, ev).value, Ranks[s]);
    }
  }

  lemma ErrorTargets(s: State)
    requires s < STATE_COUNT && Leads(s, StateError).Some?
    ensures Leads(s, StateError).value in {TOKEN_ERROR, TOKEN_IDLE, NO_TOKEN, FILE_WAIT}
  {
  }

  lemma ErrorsCalmAt(t: Table, s: State)
    requires IsViewer(t) && Forest(t) && InTable(t, s)
    ensures ErrorsCalm(t, s)
  {
    IsTarget(t, s, StateError);
    if Leads(s, StateError).Some? {
      ErrorTargets(s);
      LandsCalmlyIs(t, Leads(s, StateError).value);
    }
  }

  lemma IsRanked(t: Table)
    requires IsViewer(t)
    ensures WellFormed(t) && Ranked(t, Ranks) && Levels(t, 4)
  {
    IsWellFormed(t);
    forall s: State, ev: Event | InTable(t, s)
      ensures RankDrops(t, Ranks, s, ev)
    {
      RankDropsAt(t, s, ev);
    }
    forall s: State | InTable(t, s)
      ensures ErrorsCalm(t, s) && t.level[s] < 4
    {
      ErrorsCalmAt(t, s);
    }
  }

  lemma RankStep(s: State, ev: Event)
    requires s < STATE_COUNT && (Raise(ev) in Def(s).enter || (ev == StateError && Fail in Def(s).enter))
    requires Leads(s, ev).Some?
    ensures var x := Leads(s, ev).value;
            x < STATE_COUNT && RankOf(x) < RankOf(s) && forall k <- Below(x) :: RankOf(k) < RankOf(s)
  {
    if Raise(ev) in Def(s).enter {
      assert s in {TOKEN_ID, TOKEN_CERTS, TOKEN_WAIT};
    } else {
      ErrorTargets(s);
    }
  }

  /**
  Every event ends after at most 33 callbacks, whatever they answer, and the machine comes to rest in a leaf
  that is neither TOKEN_ID nor TOKEN_CERTS, unless the answers were used up.
  */
  lemma ViewerSettles(t: Table, c: Config, e: Event)
    requires IsViewer(t) && Forest(t) && InTable(t, c.cur) && Leaf(t, c.cur) && Target(t, c.cur, e).Some?
    ensures var d := Dispatch(t, c, e);
            && Leaf(t, d.cur) && |c.script| - |d.script| <= 33
            && (d.script != [] ==> d.cur != TOKEN_ID && d.cur != TOKEN_CERTS)
  {
    hide Dispatch, Target, LandsBelow;
    IsRanked(t);
    AreRestless(t);
    var x := Target(t, c.cur, e).value;
    assert forall s: State :: s < STATE_COUNT ==> RankOf(s) < 4;
    assert forall k <- Below(x) :: k < STATE_COUNT;
    LandsBelowIs(t, x, 4);
    DispatchUsed(t, Ranks, 4, c, e, 4);
    assert Budget(4, 2) == 8 + Budget(4, 1) == 17 && Budget(4, 4) == 8 + Budget(4, 3) == 16 + Budget(4, 2);
  }

  /** The same for whole runs. */
  lemma {:induction false} RunSettles(t: Table, script: seq<Answer>, events: seq<Event>)
    requires IsViewer(t) && Forest(t)
    ensures var r := ViewerRun(t, script, events);
            && |script| - |r.script| <= 33 * |events|
            && Leaf(t, r.cur) && (r.script != [] ==> r.cur != TOKEN_ID && r.cur != TOKEN_CERTS)
    decreases |events|
  {
    hide Dispatch, Target;
    if events == [] {
      assert t.states[LIBOPEN] == Def(LIBOPEN);
    } else {
      var n := |events| - 1;
      var c := ViewerRun(t, script, events[..n]);
      RunSettles(t, script, events[..n]);
      if Target(t, c.cur, events[n]).Some? {
        ViewerSettles(t, c, events[n]);
      } else {
        NoTransition(t, c, events[n]);
      }
    }
  }

  lemma NoTransition(t: Table, c: Config, e: Event)
    requires Forest(t) && InTable(t, c.cur) && Target(t, c.cur, e) == None
    ensures Dispatch(t, c, e) == c
  {
  }
}
