/** Where each event takes the user. */
module Journeys {
  import opened Wrappers
  import opened StateTable
  import opened Dispatcher
  import opened Growth
  import opened ViewerTable
  import CardRuns
  import CardReading
  import Soundness

  // By event, as the user sees it: from a state that is rested in to the next, when all callbacks succeed.

  predicate InSession(s: State) { InToken(s) && s != TOKEN_WAIT }
  predicate InFile(s: State) { s in {FILE_READING, FILE_WAIT, FILE_EXPORT_PHOTO} }

  /** The states that are rested in. */
  predicate Rested(s: State) {
    s in {LIBOPEN, READY, NO_READER, CARD_INVALID, TOKEN_ERROR, TOKEN_IDLE, TOKEN_PINOP, TOKEN_SERIALIZE, TOKEN_CHALLENGE,
          TOKEN_EXPORT_PHOTO, FILE_READING, FILE_WAIT, FILE_EXPORT_PHOTO}
  }

  /** The state that a request of the user is worked on in. */
  function Own(e: Event): Option<State> {
    match e
    case DoPinop => Some(TOKEN_PINOP)
    case Serialize => Some(TOKEN_SERIALIZE)
    case DoChallenge => Some(TOKEN_CHALLENGE)
    case ExportPhoto => Some(TOKEN_EXPORT_PHOTO)
    case _ => None
  }

  /** Every event but the insertion of a card, which is read first. */
  function Goes(s: State, e: Event): State {
    match e
    case SetCallbacks => if s == LIBOPEN then NO_READER else s
    case ReaderFound => if s == NO_READER then READY else s
    case ReaderLost => if s == READY || s == CARD_INVALID || InSession(s) then NO_READER else s
    case TokenRemoved => if s == CARD_INVALID || InSession(s) then READY else s
    case DataInvalid => if InSession(s) then CARD_INVALID else s
    case OpenFile => if s == READY || s == NO_READER then FILE_READING else s
    case CloseFile => if InFile(s) then NO_READER else s
    case ReadReady => if s == FILE_READING then FILE_WAIT else s
    case ExportPhoto => if InWait(s) then TOKEN_EXPORT_PHOTO else if s == FILE_WAIT then FILE_EXPORT_PHOTO else s
    case DoPinop => if InWait(s) then TOKEN_PINOP else s
    case Serialize => if InWait(s) then TOKEN_SERIALIZE else s
    case DoChallenge => if InWait(s) then TOKEN_CHALLENGE else s
    case PinopReady => if s == TOKEN_PINOP then TOKEN_IDLE else s
    case SerializeReady => if s == TOKEN_SERIALIZE then TOKEN_IDLE else s
    case ChallengeReady => if s == TOKEN_CHALLENGE then TOKEN_IDLE else s
    case ExportPhotoReady => if s == TOKEN_EXPORT_PHOTO then TOKEN_IDLE else if s == FILE_EXPORT_PHOTO then FILE_WAIT else s
    case StateError =>
      if s in {TOKEN_PINOP, TOKEN_CHALLENGE, TOKEN_EXPORT_PHOTO} then TOKEN_IDLE
      else if s == TOKEN_SERIALIZE then TOKEN_ERROR
      else if s == FILE_EXPORT_PHOTO then FILE_WAIT
      else if InFile(s) then NO_READER else s
    case TokenInserted => s
    case DeviceChanged => s
  }

  /** The state that the transition itself leads to, if there is one: a state further out in three cases. */
  function Aims(s: State, e: Event): Option<State> {
    if s == LIBOPEN && e == SetCallbacks then Some(CALLBACKS)
    else if InFile(s) && (e == CloseFile || (e == StateError && s != FILE_EXPORT_PHOTO)) then Some(NO_TOKEN)
    else if Goes(s, e) != s || (InWait(s) && Own(e) == Some(s)) then Some(Goes(s, e))
    else None
  }

  // ----- With no answer left every callback succeeds ------------------------------------------

  lemma {:induction false} ParentsSucceed(t: Table, c: Config, path: seq<State>, e: Event)
    requires Forest(t) && InTable(t, c.cur) && c.script == [] && forall s <- path :: InTable(t, s)
    ensures var r := EnterParents(t, c, path, e); r.cur == c.cur && r.script == []
    decreases |path|
  {
    if path != [] {
      ParentsSucceed(t, EnterCall(t, c.Log(Report(path[0])), path[0], e), path[1..], e);
    }
  }

  lemma {:induction false} DescentSucceeds(t: Table, c: Config, e: Event)
    requires Forest(t) && InTable(t, c.cur) && c.script == []
    ensures Descend(t, c, e).cur == Landing(t, c.cur)
    decreases |t.states| - t.level[c.cur]
  {
    assert Linked(t, c.cur);
    match t.states[c.cur].firstChild
    case None =>
    case Some(k) => DescentSucceeds(t, EnterCall(t, Config(k, c.log + [Report(k)], []), k, e), e);
  }

  lemma {:induction false} LeavesSucceed(t: Table, c: Config, chain: seq<State>, n: nat)
    requires c.script == [] && forall s <- chain :: InTable(t, s)
    ensures LeaveDown(t, c, chain, n).script == []
    decreases |chain|
  {
    if |chain| > n {
      LeavesSucceed(t, LeaveCall(t, c, chain[|chain| - 1]).0, chain[..|chain| - 1], n);
    }
  }

  lemma Succeeds(t: Table, c: Config, e: Event)
    requires Forest(t) && InTable(t, c.cur) && c.script == []
    ensures Dispatch(t, c, e).cur == match Target(t, c.cur, e) case None => c.cur case Some(x) => Landing(t, x)
  {
    hide LeaveDown, EnterParents, Descend, Landing, Target;
    if Target(t, c.cur, e).Some? {
      var x := Target(t, c.cur, e).value;
      var n := Shared(t, c.cur, x);
      var c1 := LeaveCall(t, c, c.cur).0;
      LeavesSucceed(t, c1, ProperChain(t, c.cur), n);
      var c2 := LeaveDown(t, c1, ProperChain(t, c.cur), n).(cur := x);
      ParentsSucceed(t, c2, ProperChain(t, x)[n..], e);
      var c3 := EnterCall(t, EnterParents(t, c2, ProperChain(t, x)[n..], e), x, e);
      DescentSucceeds(t, c3.Log(Report(x)), e);
    }
  }

  // ----- The viewer ---------------------------------------------------------------------------

  function Below(s: State): State {
    if s == CALLBACKS || s == NO_TOKEN then NO_READER
    else if s == TOKEN then TOKEN_ID
    else if s == TOKEN_WAIT then TOKEN_IDLE
    else if s == FILE then FILE_READING
    else s
  }

  lemma {:induction false} LandingIs(t: Table, s: State)
    requires IsViewer(t) && Forest(t) && InTable(t, s)
    ensures Landing(t, s) == Below(s)
    decreases |t.states| - t.level[s]
  {
    hide Path;
    assert Linked(t, s) && t.states[s] == Def(s);
    if Def(s).firstChild.Some? { LandingIs(t, Def(s).firstChild.value); }
  }

  lemma LeadsOutside(s: State, e: Event)
    requires s == LIBOPEN || s == READY || s == NO_READER || s == CARD_INVALID
    ensures e != TokenInserted ==> Leads(s, e) == Aims(s, e)
    ensures e != TokenInserted ==> Goes(s, e) == match Leads(s, e) case None => s case Some(x) => Below(x)
  {
  }

  lemma FileLeads(e: Event)
    ensures Leads(FILE, e) == match e
                              case CloseFile => Some(NO_TOKEN)
                              case StateError => Some(NO_TOKEN)
                              case TokenInserted => Some(TOKEN)
                              case _ => None
  {
  }

  lemma SessionLeads(e: Event)
    ensures Leads(TOKEN, e) == match e
                               case TokenRemoved => Some(READY)
                               case DataInvalid => Some(CARD_INVALID)
                               case ReaderLost => Some(NO_READER)
                               case _ => None
    ensures Leads(TOKEN_WAIT, e) == if Own(e) != None then Own(e) else Leads(TOKEN, e)
  {
  }

  lemma LeadsInFile(s: State, e: Event)
    requires InFile(s)
    ensures e != TokenInserted ==> Leads(s, e) == Aims(s, e)
    ensures e != TokenInserted ==> Goes(s, e) == match Leads(s, e) case None => s case Some(x) => Below(x)
  {
    hide Leads, Path;
    FileLeads(e);
    if e !in Def(s).out { LeadsStep(s, e); }
    OwnTransition(s, e);
  }

  lemma OwnTransition(s: State, e: Event)
    ensures e in Def(s).out ==> Leads(s, e) == Some(Def(s).out[e])
  {
    hide Def, Path;
  }

  lemma AimsInSession(s: State, e: Event)
    requires InSession(s) && Rested(s)
    ensures e != TokenInserted ==> Leads(s, e) == Aims(s, e)
  {
    hide Leads, Path;
    SessionLeads(e);
    if e !in Def(s).out { LeadsStep(s, e); }
    OwnTransition(s, e);
  }

  lemma LeadsInSession(s: State, e: Event)
    requires InSession(s) && Rested(s)
    ensures e != TokenInserted ==> Leads(s, e) == Aims(s, e)
    ensures e != TokenInserted ==> Goes(s, e) == match Leads(s, e) case None => s case Some(x) => Below(x)
  {
    hide Leads, Def;
    AimsInSession(s, e);
  }

  lemma LeadsWhere(s: State, e: Event)
    requires Rested(s) && e != TokenInserted
    ensures Leads(s, e) == Aims(s, e)
    ensures Goes(s, e) == match Leads(s, e) case None => s case Some(x) => Below(x)
  {
    hide Leads, Goes, Below, Aims;
    if InFile(s) {
      LeadsInFile(s, e);
    } else if InSession(s) {
      LeadsInSession(s, e);
    } else {
      LeadsOutside(s, e);
    }
  }

  /** From every state that is rested in, every event leads where it has to. */
  lemma Journey(t: Table, c: Config, e: Event)
    requires IsViewer(t) && Forest(t) && Rested(c.cur) && c.script == [] && e != TokenInserted
    ensures InTable(t, c.cur) && Dispatch(t, c, e).cur == Goes(c.cur, e) && Target(t, c.cur, e) == Aims(c.cur, e)
  {
    hide Def, Leads, Goes, Below, Landing, Target, Dispatch, Aims;
    Succeeds(t, c, e);
    IsTarget(t, c.cur, e);
    LeadsWhere(c.cur, e);
    if Leads(c.cur, e).Some? {
      TargetInTable(t, c.cur, e);
      LandingIs(t, Leads(c.cur, e).value);
    }
  }

  lemma TargetInTable(t: Table, s: State, e: Event)
    requires Forest(t) && InTable(t, s)
    ensures Target(t, s, e).Some? ==> InTable(t, Target(t, s, e).value)
  {
  }

  /** An inserted card is taken in READY and in the file states, and nowhere else. */
  lemma InsertionTaken(t: Table, s: State)
    requires IsViewer(t) && Forest(t) && Rested(s)
    ensures InTable(t, s) && Target(t, s, TokenInserted) == if s == READY || InFile(s) then Some(TOKEN) else None
  {
    hide Path, Leads;
    IsTarget(t, s, TokenInserted);
    InsertionLeads(s);
  }

  lemma InsertionLeads(s: State)
    requires Rested(s)
    ensures Leads(s, TokenInserted) == if s == READY || InFile(s) then Some(TOKEN) else None
  {
  }

  /** Which callbacks there are, and what they can do, by kind. */
  lemma CallbacksOf(t: Table, s: State)
    requires IsViewer(t) && InTable(t, s)
    ensures t.states[s].leave == if s in {TOKEN, TOKEN_ID, TOKEN_CERTS} then {Succeed, Fail}
                                 else if s in {TOKEN_PINOP, FILE} then {Succeed} else {}
    ensures t.states[s].enter == if s in {TOKEN_ID, TOKEN_CERTS} then {Fail, Raise(ReadReady)}
                                 else if s == TOKEN_WAIT then {Succeed, Fail, Raise(DataInvalid)}
                                 else if s in {CALLBACKS, NO_TOKEN, CARD_INVALID} then {Succeed}
                                 else if s in {LIBOPEN, NO_READER, FILE, TOKEN_ERROR, TOKEN_IDLE} then {}
                                 else {Succeed, Fail}
  {
    hide Path;
    assert t.states[s] == Def(s);
  }

  /** A request on a verified card is worked on in its own state, which is entered next. */
  lemma RequestEnters(t: Table, c: Config, e: Event)
    requires IsViewer(t) && Forest(t) && c.cur == TOKEN_IDLE && Own(e) != None
    ensures InTable(t, c.cur)
    ensures exists a :: c.log + [Leave(TOKEN_IDLE, true), Enter(Own(e).value, a)] <= Dispatch(t, c, e).log
                        || c.log + [Leave(TOKEN_IDLE, true), Report(Own(e).value), Enter(Own(e).value, a)] <= Dispatch(t, c, e).log
  {
    hide Arrive, LeaveDown, Def, Path, Leads, Target;
    var x := Own(e).value;
    IsTarget(t, TOKEN_IDLE, e);
    RequestLeads(e);
    RequestShared(t, x);
    IdleLeaves(t, c);
    var c1 := LeaveCall(t, c, TOKEN_IDLE).0;
    Soundness.LeaveDownWhole(t, c1, ProperChain(t, TOKEN_IDLE), 3);
    ArriveGrows(t, c1, x, 3, e);
    var a := NextAnswer(t.states[x].enter, c1.script).0;
    assert c1.log == c.log + [Leave(TOKEN_IDLE, true)];
    assert c1.log + [Enter(x, a)] == c.log + [Leave(TOKEN_IDLE, true), Enter(x, a)];
    assert c1.log + [Report(x), Enter(x, a)] == c.log + [Leave(TOKEN_IDLE, true), Report(x), Enter(x, a)];
  }

  lemma RequestLeads(e: Event)
    requires Own(e) != None
    ensures Leads(TOKEN_IDLE, e) == Own(e)
  {
  }

  lemma RequestShared(t: Table, x: State)
    requires IsViewer(t) && Forest(t) && x in {TOKEN_PINOP, TOKEN_SERIALIZE, TOKEN_CHALLENGE, TOKEN_EXPORT_PHOTO}
    ensures InTable(t, TOKEN_IDLE) && InTable(t, x) && Shared(t, TOKEN_IDLE, x) == 3 == t.level[x] == t.level[TOKEN_IDLE]
    ensures Chain(t, x)[3] == x
  {
    hide Def, Path, Chain, Target;
    RequestLevels();
    NoisyShared(t, TOKEN_IDLE, x);
  }

  lemma RequestLevels()
    ensures forall x: State | InWait(x) :: LevelOf(x) == 3
  {
  }

  lemma IdleLeaves(t: Table, c: Config)
    requires IsViewer(t) && Forest(t) && c.cur == TOKEN_IDLE
    ensures LeaveCall(t, c, TOKEN_IDLE) == (c.(log := c.log + [Leave(TOKEN_IDLE, true)]), true)
  {
    assert t.states[TOKEN_IDLE] == Def(TOKEN_IDLE);
  }

  // ----- A card is inserted -------------------------------------------------------------------

  lemma Callbacks(t: Table)
    requires IsViewer(t)
    ensures t.states[TOKEN].enter == {Succeed, Fail} && t.states[TOKEN].leave == {Succeed, Fail}
    ensures t.states[TOKEN_ID].enter == {Fail, Raise(ReadReady)} && t.states[TOKEN_ID].leave == {Succeed, Fail}
    ensures t.states[TOKEN_CERTS].enter == {Fail, Raise(ReadReady)} && t.states[TOKEN_CERTS].leave == {Succeed, Fail}
    ensures t.states[TOKEN_WAIT].enter == {Succeed, Fail, Raise(DataInvalid)}
    ensures t.states[TOKEN_IDLE].enter == {} && t.states[TOKEN_IDLE].firstChild == None
    ensures t.states[TOKEN].firstChild == Some(TOKEN_ID) && t.states[TOKEN_WAIT].firstChild == Some(TOKEN_IDLE)
  {
    assert forall s: State :: s < STATE_COUNT ==> t.states[s] == Def(s);
  }

  lemma Script(a: Answer, rest: seq<Answer>)
    ensures ([a] + rest)[0] == a && ([a] + rest)[1..] == rest
  {
  }

  /** The certificates were read: the card is verified. */
  lemma CertsRead(t: Table, c: Config, rest: seq<Answer>)
    requires IsViewer(t) && WellFormed(t) && c.cur == TOKEN_CERTS && c.script == [Succeed] + ([Succeed] + rest)
    ensures var r := Dispatch(t, c, ReadReady); r.cur == TOKEN_IDLE && r.script == rest
  {
    hide Def, Path, Leads, Target, Shared;
    Callbacks(t);
    Script(Succeed, [Succeed] + rest);
    Script(Succeed, rest);
    IsTarget(t, TOKEN_CERTS, ReadReady);
    ReadersGoOn();
    var c1 := LeaveCall(t, c, TOKEN_CERTS).0;
    CardReading.StaysIn(t, c1, TOKEN_WAIT);
    InnerShared(t, TOKEN_CERTS, TOKEN_WAIT);
    var c2 := EnterCall(t, c1.(cur := TOKEN_WAIT), TOKEN_WAIT, ReadReady);
    assert c2.cur == TOKEN_WAIT && c2.script == rest;
    IdleReached(t, c2.Log(Report(TOKEN_WAIT)), ReadReady);
    assert EnterParents(t, c1.(cur := TOKEN_WAIT), [], ReadReady) == c1.(cur := TOKEN_WAIT);
  }

  lemma IdleReached(t: Table, c: Config, e: Event)
    requires IsViewer(t) && WellFormed(t) && c.cur == TOKEN_WAIT
    ensures var r := Descend(t, c, e); r.cur == TOKEN_IDLE && r.script == c.script
  {
    hide Def, Path;
    Callbacks(t);
    assert Linked(t, TOKEN_WAIT);
    var c1 := Config(TOKEN_IDLE, c.log + [Report(TOKEN_IDLE)], c.script);
    assert EnterCall(t, c1, TOKEN_IDLE, e) == c1.Log(Enter(TOKEN_IDLE, Succeed));
  }

  lemma ReadersGoOn()
    ensures Leads(TOKEN_ID, ReadReady) == Some(TOKEN_CERTS) && Leads(TOKEN_CERTS, ReadReady) == Some(TOKEN_WAIT)
  {
  }

  lemma InnerShared(t: Table, s: State, x: State)
    requires IsViewer(t) && Forest(t) && CardReading.Reads(s) && (x == TOKEN_CERTS || x == TOKEN_WAIT)
    ensures InTable(t, s) && InTable(t, x) && Shared(t, s, x) == 2 == t.level[x] && ProperChain(t, x)[2..] == []
  {
    hide Def, Path, Chain, Target;
    CardReading.ReaderLevels();
    NoisyShared(t, s, x);
  }

  /** The data was read: the certificates are. */
  lemma DataRead(t: Table, c: Config, rest: seq<Answer>)
    requires IsViewer(t) && WellFormed(t) && c.cur == TOKEN_ID
    requires c.script == [Succeed] + ([Raise(ReadReady)] + ([Succeed] + ([Succeed] + rest)))
    ensures var r := Dispatch(t, c, ReadReady); r.cur == TOKEN_IDLE && r.script == rest
  {
    hide Def, Path, Leads, Target, Shared, Dispatch;
    Callbacks(t);
    var later := [Succeed] + ([Succeed] + rest);
    Script(Succeed, [Raise(ReadReady)] + later);
    Script(Raise(ReadReady), later);
    IsTarget(t, TOKEN_ID, ReadReady);
    ReadersGoOn();
    var c1 := LeaveCall(t, c, TOKEN_ID).0;
    CardReading.StaysIn(t, c1, TOKEN_CERTS);
    InnerShared(t, TOKEN_ID, TOKEN_CERTS);
    var c2 := Config(TOKEN_CERTS, c1.log + [Enter(TOKEN_CERTS, Raise(ReadReady))], later);
    CertsRead(t, c2, rest);
    assert EnterCall(t, c1.(cur := TOKEN_CERTS), TOKEN_CERTS, ReadReady) == Dispatch(t, c2, ReadReady);
    assert EnterParents(t, c1.(cur := TOKEN_CERTS), [], ReadReady) == c1.(cur := TOKEN_CERTS);
    Moves(t, c, TOKEN_CERTS, 2);
  }

  lemma Moves(t: Table, c: Config, x: State, n: nat)
    requires Forest(t) && InTable(t, c.cur) && Target(t, c.cur, ReadReady) == Some(x) && Shared(t, c.cur, x) == n
    requires LeaveCall(t, c, c.cur).1
    ensures Dispatch(t, c, ReadReady)
         == Arrive(t, LeaveDown(t, LeaveCall(t, c, c.cur).0, ProperChain(t, c.cur), n), x, n, ReadReady)
  {
    hide Arrive, LeaveDown;
  }

  /** A card inserted in READY is opened, read and verified, and is then ready for requests. */
  lemma CardInserted(t: Table, c: Config, rest: seq<Answer>)
    requires IsViewer(t) && WellFormed(t) && c.cur == READY
    requires c.script == [Succeed] + ([Raise(ReadReady)] + ([Succeed] + ([Raise(ReadReady)] + ([Succeed] + ([Succeed] + rest)))))
    ensures InTable(t, c.cur)
    ensures var r := Dispatch(t, c, TokenInserted); r.cur == TOKEN_IDLE && r.script == rest
  {
    hide Def, Path, Leads, Target, Shared, Arrive, LeaveDown;
    CardRuns.InsertedMoves(t);
    var c1 := LeaveCall(t, c, READY).0;
    CardRuns.LeavesSilently(t, c1);
    var c2 := LeaveDown(t, c1, ProperChain(t, READY), 1);
    TokenEntered(t, c2, rest);
  }

  lemma TokenEntered(t: Table, c: Config, rest: seq<Answer>)
    requires IsViewer(t) && WellFormed(t) && InTable(t, TOKEN) && t.level[TOKEN] == 1
    requires c.script == [Succeed] + ([Raise(ReadReady)] + ([Succeed] + ([Raise(ReadReady)] + ([Succeed] + ([Succeed] + rest)))))
    ensures var r := Arrive(t, c, TOKEN, 1, TokenInserted); r.cur == TOKEN_IDLE && r.script == rest
  {
    hide Def, Path, Leads, Target, Dispatch;
    Callbacks(t);
    var later := [Succeed] + ([Raise(ReadReady)] + ([Succeed] + ([Succeed] + rest)));
    Script(Succeed, [Raise(ReadReady)] + later);
    Script(Raise(ReadReady), later);
    var c0 := c.(cur := TOKEN);
    assert ProperChain(t, TOKEN)[1..] == [] && EnterParents(t, c0, [], TokenInserted) == c0;
    var c1 := EnterCall(t, c0, TOKEN, TokenInserted);
    assert c1.cur == TOKEN && c1.script == [Raise(ReadReady)] + later;
    var c2 := c1.Log(Report(TOKEN));
    var c3 := Config(TOKEN_ID, c2.log + [Report(TOKEN_ID)], c2.script);
    var c4 := Config(TOKEN_ID, c3.log + [Enter(TOKEN_ID, Raise(ReadReady))], later);
    DataRead(t, c4, rest);
    assert EnterCall(t, c3, TOKEN_ID, TokenInserted) == Dispatch(t, c4, ReadReady);
    assert Linked(t, TOKEN);
  }
}
