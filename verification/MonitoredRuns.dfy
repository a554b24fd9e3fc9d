/** The monitor and the viewer together. */
module MonitoredRuns {
  import opened Wrappers
  import opened StateTable
  import opened Dispatcher
  import opened Discipline
  import opened ViewerTable
  import opened ViewerMachine
  import Confinement
  import ReaderMonitor

  // What the monitor reports are events of the state machine, among those of the user and of the machine's own callbacks.
  // The card session is open only while the last card that was reported has not been removed.

  /** The states outside TOKEN. */
  function Outside(): (r: set<State>)
    ensures forall s: State :: s in r <==> s < STATE_COUNT && s != TOKEN && !InToken(s)
  {
    set s: State | s < STATE_COUNT && s != TOKEN && !InToken(s) :: s
  }

  lemma {:induction false} LandsOutside(t: Table, s: State)
    requires IsViewer(t) && Forest(t) && InTable(t, s) && s in Outside()
    ensures Confinement.LandsIn(t, Outside(), s)
    decreases |Below(s)|
  {
    hide Path;
    assert Linked(t, s) && t.states[s] == Def(s);
    if Def(s).firstChild.Some? {
      var k := Def(s).firstChild.value;
      assert Below(s) == [k] + Below(k);
      LandsOutside(t, k);
    }
  }

  /** Only the insertion of a card leads to TOKEN. */
  lemma LeadsToToken(s: State, e: Event)
    ensures s < STATE_COUNT && Leads(s, e) == Some(TOKEN) ==> e == TokenInserted
  {
    hide Def, Leads;
    if s < STATE_COUNT && Leads(s, e) == Some(TOKEN) {
      var i := Owner(s, e);
      OutToToken(Path(s)[i], e);
    }
  }

  lemma OutToToken(s: State, e: Event)
    requires s < STATE_COUNT && e in Def(s).out && Def(s).out[e] == TOKEN
    ensures e == TokenInserted
  {
    hide Path;
  }

  lemma TargetOutside(t: Table, s: State, e: Event)
    requires IsViewer(t) && Forest(t) && InTable(t, s) && s in Outside() && Dispatchable(t, s, e) && e != TokenInserted
    ensures Target(t, s, e).Some? ==> Confinement.LandsIn(t, Outside(), Target(t, s, e).value)
  {
    hide Def, Leads, Target, Path;
    IsTarget(t, s, e);
    if Leads(s, e).Some? {
      LeadsInside(t, s, e);
      if Leads(s, e).value == TOKEN { LeadsToToken(s, e); }
      LandsOutside(t, Leads(s, e).value);
    }
  }

  lemma OutsideConfined(t: Table)
    requires IsViewer(t) && Forest(t)
    ensures Confinement.Confined(t, Outside())
  {
    hide Def, Target, Path;
    forall s: State, e: Event | s in Outside() && InTable(t, s) && Confinement.Triggers(t, s, e) && Target(t, s, e).Some?
      ensures Confinement.LandsIn(t, Outside(), Target(t, s, e).value)
    {
      NeverInserts(t, s, e);
      TargetOutside(t, s, e);
    }
  }

  lemma NeverInserts(t: Table, s: State, e: Event)
    requires IsViewer(t) && InTable(t, s)
    ensures Confinement.Triggers(t, s, e) ==> e != TokenInserted && Dispatchable(t, s, e)
  {
    assert t.states[s] == Def(s);
  }

  /** Without an insertion the machine stays outside. */
  lemma StaysOutside(t: Table, c: Config, e: Event)
    requires IsViewer(t) && WellFormed(t) && InTable(t, c.cur) && Leaf(t, c.cur) && c.cur in Outside() && e != TokenInserted
    ensures Dispatch(t, c, e).cur in Outside()
  {
    hide Dispatch, Def, Target, Path, Confinement.Confined;
    OutsideConfined(t);
    TargetOutside(t, c.cur, e);
    Confinement.DispatchStays(t, Outside(), c, e);
  }

  /** The states inside that can be rested in are left without failing. */
  lemma LeavesWell(t: Table, s: State)
    requires IsViewer(t) && InTable(t, s) && Leaf(t, s) && s !in Outside() && s != TOKEN_ID && s != TOKEN_CERTS
    ensures Fail !in t.states[s].leave
  {
    hide Path;
    assert t.states[s] == Def(s);
  }

  lemma {:induction false} RemovedFrom(t: Table, s: State)
    requires IsViewer(t) && Forest(t) && InTable(t, s) && s !in Outside()
    ensures Target(t, s, TokenRemoved) == Some(READY)
    decreases t.level[s]
  {
    hide Path;
    assert Linked(t, s) && t.states[s] == Def(s);
    RemovalHere(s);
    if s != TOKEN { RemovedFrom(t, Def(s).parent.value); }
  }

  lemma RemovalHere(s: State)
    requires s == TOKEN || InToken(s)
    ensures if s == TOKEN then TokenRemoved in Def(s).out && Def(s).out[TokenRemoved] == READY
            else TokenRemoved !in Def(s).out && (Def(s).parent == Some(TOKEN) || Def(s).parent == Some(TOKEN_WAIT))
  {
  }

  /** A removal closes the session. */
  lemma RemovalLeaves(t: Table, c: Config)
    requires IsViewer(t) && WellFormed(t) && InTable(t, c.cur) && Leaf(t, c.cur) && c.cur !in Outside()
    requires c.script != [] ==> c.cur != TOKEN_ID && c.cur != TOKEN_CERTS
    ensures Dispatch(t, c, TokenRemoved).cur in Outside()
  {
    hide Arrive, LeaveDown, Def, Target, Path, Confinement.Confined;
    RemovedFrom(t, c.cur);
    OutsideConfined(t);
    if c.script != [] { LeavesWell(t, c.cur); }
    var c1 := LeaveCall(t, c, c.cur).0;
    var n := Shared(t, c.cur, READY);
    assert ParentsQuiet(t, c.cur, TokenRemoved);
    LandsOutside(t, READY);
    Confinement.ArriveStays(t, Outside(), LeaveDown(t, c1, ProperChain(t, c.cur), n), READY, n, TokenRemoved);
  }

  /** The last event about a card. */
  function LastCard(events: seq<Event>): Option<Event> {
    if events == [] then None
    else
      var e := events[|events| - 1];
      if e == TokenInserted || e == TokenRemoved then Some(e) else LastCard(events[..|events| - 1])
  }

  /** In every run the card session is open only if the last event about a card was an insertion. */
  lemma {:induction false} InsideInserted(t: Table, script: seq<Answer>, events: seq<Event>)
    requires IsViewer(t) && Forest(t)
    ensures ViewerRun(t, script, events).cur !in Outside() ==> LastCard(events) == Some(TokenInserted)
    decreases |events|
  {
    hide Dispatch, Outside, IsViewer;
    ViewerFacts(t);
    if events == [] {
      StartsOutside();
    } else {
      var n := |events| - 1;
      var c, e := ViewerRun(t, script, events[..n]), events[n];
      InsideInserted(t, script, events[..n]);
      RunSettles(t, script, events[..n]);
      if e == TokenRemoved && c.cur !in Outside() {
        RemovalLeaves(t, c);
      } else if e != TokenInserted && c.cur in Outside() {
        StaysOutside(t, c, e);
      }
    }
  }

  lemma StartsOutside()
    ensures LIBOPEN in Outside()
  {
  }

  lemma TokenOnPath(s: State)
    requires s < STATE_COUNT
    ensures TOKEN in Path(s) <==> s == TOKEN || InToken(s)
  {
  }

  lemma SessionOpen(t: Table, script: seq<Answer>, events: seq<Event>)
    requires IsViewer(t) && Forest(t)
    ensures var r := ViewerRun(t, script, events); Open(LIBOPEN, r.log, TOKEN) <==> r.cur !in Outside()
  {
    hide Replay, Def, ViewerRun, Path;
    var r := ViewerRun(t, script, events);
    ViewerFacts(t);
    ViewerSound(t, script, events);
    OpenIffActive(t, LIBOPEN, r.log, TOKEN);
    IsPath(t, r.cur);
    TokenOnPath(r.cur);
    var stack := Replay(t, LIBOPEN, r.log).stack;
    assert stack[..|stack|] == stack;
  }

  // ----- With the monitor ---------------------------------------------------------------------

  /** The events about cards that reports become. */
  function CardEvents(reports: seq<ReaderMonitor.Report>): seq<Event> {
    if reports == [] then []
    else
      var n := |reports| - 1;
      CardEvents(reports[..n]) + match reports[n]
                                 case Inserted(_) => [TokenInserted]
                                 case Removed(_) => [TokenRemoved]
                                 case ReaderFound(_) => []
  }

  /** Those among all events. */
  function AboutCards(events: seq<Event>): seq<Event> {
    if events == [] then []
    else
      var n := |events| - 1;
      AboutCards(events[..n]) + if events[n] == TokenInserted || events[n] == TokenRemoved then [events[n]] else []
  }

  lemma {:induction false} LastAboutCards(events: seq<Event>)
    ensures var cards := AboutCards(events);
            LastCard(events) == if cards == [] then None else Some(cards[|cards| - 1])
    decreases |events|
  {
    if events != [] { LastAboutCards(events[..|events| - 1]); }
  }

  lemma {:induction false} LastReported(reports: seq<ReaderMonitor.Report>)
    ensures var cards := CardEvents(reports);
            cards != [] && cards[|cards| - 1] == TokenInserted <==> ReaderMonitor.Outstanding(reports) != None
    decreases |reports|
  {
    if reports != [] { LastReported(reports[..|reports| - 1]); }
  }

  /**
  The monitor's reports reach the machine in order, among any other events. At every moment, when it has handled the first
  `n` of them, the card session is open only while an insertion among these is outstanding; when it has handled all of
  them, only while the monitor has a current card.
  */
  lemma SessionNeedsCard(t: Table, script: seq<Answer>, events: seq<Event>, steps: seq<ReaderMonitor.Step>, n: nat)
    requires IsViewer(t) && Forest(t) && ReaderMonitor.Usual(steps)
    requires n <= |ReaderMonitor.Run(ReaderMonitor.Start, steps).reports|
    requires AboutCards(events) == CardEvents(ReaderMonitor.Run(ReaderMonitor.Start, steps).reports[..n])
    ensures var s := ReaderMonitor.Run(ReaderMonitor.Start, steps);
            Open(LIBOPEN, ViewerRun(t, script, events).log, TOKEN) ==>
              ReaderMonitor.Outstanding(s.reports[..n]) != None && (n == |s.reports| ==> s.current != None)
  {
    hide ReaderMonitor.Run, ReaderMonitor.Outstanding, ViewerRun, Outside, Open, IsViewer;
    var s := ReaderMonitor.Run(ReaderMonitor.Start, steps);
    SessionOpen(t, script, events);
    InsideInserted(t, script, events);
    LastAboutCards(events);
    LastReported(s.reports[..n]);
    ReaderMonitor.ReportsTakeTurns(steps);
    assert n == |s.reports| ==> s.reports[..n] == s.reports;
  }
}
