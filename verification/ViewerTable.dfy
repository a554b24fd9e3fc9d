/** The state table the viewer ships, with what each of its callbacks can answer. */
module ViewerTable {
  import opened Wrappers
  import opened StateTable

  const LIBOPEN: State := 0
  const CALLBACKS: State := 1
  const READY: State := 2
  const TOKEN: State := 3
  const TOKEN_WAIT: State := 4
  const TOKEN_ID: State := 5
  const TOKEN_CERTS: State := 6
  const TOKEN_PINOP: State := 7
  const TOKEN_SERIALIZE: State := 8
  const TOKEN_ERROR: State := 9
  const FILE: State := 10
  const FILE_READING: State := 11
  const FILE_WAIT: State := 12
  const CARD_INVALID: State := 13
  const NO_TOKEN: State := 14
  const NO_READER: State := 15
  const TOKEN_IDLE: State := 16
  const TOKEN_CHALLENGE: State := 17
  const TOKEN_EXPORT_PHOTO: State := 18
  const FILE_EXPORT_PHOTO: State := 19
  const STATE_COUNT := 20

  const None_: set<Answer> := {}
  const Always: set<Answer> := {Succeed}
  const MayFail: set<Answer> := {Succeed, Fail}
  /** The two readers end by handling READ_READY themselves, unless a PKCS#11 call failed first. */
  const Reads: set<Answer> := {Fail, Raise(ReadReady)}
  /** Verification failure raises DATA_INVALID; otherwise building the XML form may fail. */
  const Verifies: set<Answer> := {Succeed, Fail, Raise(DataInvalid)}

  function Def(s: State): StateDef {
    if s == LIBOPEN then StateDef(map[SetCallbacks := CALLBACKS], None, None, None_, None_)
    else if s == CALLBACKS then StateDef(map[], Some(NO_TOKEN), None, Always, None_)
    else if s == READY then
      StateDef(map[TokenInserted := TOKEN, ReaderLost := NO_READER], None, Some(NO_TOKEN), MayFail, None_)
    else if s == TOKEN then
      StateDef(map[TokenRemoved := READY, DataInvalid := CARD_INVALID, ReaderLost := NO_READER],
               Some(TOKEN_ID), Some(CALLBACKS), MayFail, MayFail)
    else if s == TOKEN_WAIT then
      StateDef(map[DoPinop := TOKEN_PINOP, Serialize := TOKEN_SERIALIZE, DoChallenge := TOKEN_CHALLENGE,
                   ExportPhoto := TOKEN_EXPORT_PHOTO], Some(TOKEN_IDLE), Some(TOKEN), Verifies, None_)
    else if s == TOKEN_ID then
      StateDef(map[ReadReady := TOKEN_CERTS, StateError := TOKEN_ERROR], None, Some(TOKEN), Reads, MayFail)
    else if s == TOKEN_CERTS then
      StateDef(map[ReadReady := TOKEN_WAIT, StateError := TOKEN_ERROR], None, Some(TOKEN), Reads, MayFail)
    else if s == TOKEN_PINOP then
      StateDef(map[PinopReady := TOKEN_IDLE, StateError := TOKEN_IDLE], None, Some(TOKEN_WAIT), MayFail, Always)
    else if s == TOKEN_SERIALIZE then
      StateDef(map[SerializeReady := TOKEN_IDLE, StateError := TOKEN_ERROR], None, Some(TOKEN_WAIT), MayFail, None_)
    else if s == TOKEN_ERROR then StateDef(map[], None, Some(TOKEN), None_, None_)
    else if s == FILE then
      StateDef(map[CloseFile := NO_TOKEN, TokenInserted := TOKEN, StateError := NO_TOKEN],
               Some(FILE_READING), Some(CALLBACKS), None_, Always)
    else if s == FILE_READING then StateDef(map[ReadReady := FILE_WAIT], None, Some(FILE), MayFail, None_)
    else if s == FILE_WAIT then StateDef(map[ExportPhoto := FILE_EXPORT_PHOTO], None, Some(FILE), MayFail, None_)
    else if s == CARD_INVALID then
      StateDef(map[TokenRemoved := READY, ReaderLost := NO_READER], None, Some(CALLBACKS), Always, None_)
    else if s == NO_TOKEN then
      StateDef(map[OpenFile := FILE_READING], Some(NO_READER), Some(CALLBACKS), Always, None_)
    else if s == NO_READER then StateDef(map[ReaderFound := READY], None, Some(NO_TOKEN), None_, None_)
    else if s == TOKEN_IDLE then StateDef(map[], None, Some(TOKEN_WAIT), None_, None_)
    else if s == TOKEN_CHALLENGE then
      StateDef(map[ChallengeReady := TOKEN_IDLE, StateError := TOKEN_IDLE], None, Some(TOKEN_WAIT), MayFail, None_)
    else if s == TOKEN_EXPORT_PHOTO then
      StateDef(map[ExportPhotoReady := TOKEN_IDLE, StateError := TOKEN_IDLE], None, Some(TOKEN_WAIT), MayFail, None_)
    else
      StateDef(map[ExportPhotoReady := FILE_WAIT, StateError := FILE_WAIT], None, Some(FILE), MayFail, None_)
  }

  /** The ancestors of `s` and `s` itself, outermost first. */
  function Path(s: State): (r: seq<State>)
    ensures r != [] && r[|r| - 1] == s
  {
    if s == LIBOPEN || s == CALLBACKS then [s]
    else if s == TOKEN || s == FILE || s == CARD_INVALID || s == NO_TOKEN then [CALLBACKS, s]
    else if s == READY || s == NO_READER then [CALLBACKS, NO_TOKEN, s]
    else if s == TOKEN_WAIT || s == TOKEN_ID || s == TOKEN_CERTS || s == TOKEN_ERROR then [CALLBACKS, TOKEN, s]
    else if s == FILE_READING || s == FILE_WAIT || s == FILE_EXPORT_PHOTO then [CALLBACKS, FILE, s]
    else [CALLBACKS, TOKEN, TOKEN_WAIT, s]
  }

  function LevelOf(s: State): nat { |Path(s)| - 1 }

  /** `t` is the table the initialiser builds. */
  ghost predicate IsViewer(t: Table) {
    && |t.states| == |t.level| == STATE_COUNT
    && forall s: State :: s < STATE_COUNT ==> t.states[s] == Def(s) && t.level[s] == LevelOf(s)
  }

  /** The initialiser's loop over the states. */
  method SmInit() returns (t: Table)
    ensures IsViewer(t)
  {
    var states, level := [], [];
    for i := 0 to STATE_COUNT
      invariant |states| == |level| == i
      invariant forall s: State :: s < i ==> states[s] == Def(s) && level[s] == LevelOf(s)
    {
      states, level := states + [Def(i)], level + [LevelOf(i)];
    }
    t := Table(states, level);
  }

  lemma PathStep(s: State)
    requires s < STATE_COUNT
    ensures Path(s) == match Def(s).parent case None => [s] case Some(p) => Path(p) + [s]
  {
  }

  lemma DefLinks(s: State)
    ensures LevelOf(s) < 4 && (Def(s).parent.Some? ==> Def(s).parent.value < STATE_COUNT)
    ensures Def(s).firstChild.Some? ==>
              Def(s).firstChild.value < STATE_COUNT && Def(Def(s).firstChild.value).parent == Some(s)
    ensures forall e <- Def(s).out :: Def(s).out[e] < STATE_COUNT
  {
  }

  lemma IsForest(t: Table)
    requires IsViewer(t)
    ensures Forest(t)
  {
    hide Def, Path;
    forall s: State | InTable(t, s)
      ensures Linked(t, s)
    {
      DefLinks(s);
      PathStep(s);
      if Def(s).firstChild.Some? {
        PathStep(Def(s).firstChild.value);
      }
    }
  }

  lemma {:induction false} IsPath(t: Table, s: State)
    requires IsViewer(t) && Forest(t) && InTable(t, s)
    ensures Chain(t, s) == Path(s)
    decreases LevelOf(s)
  {
    PathStep(s);
    assert Linked(t, s) && t.states[s] == Def(s);
    if Def(s).parent.Some? {
      IsPath(t, Def(s).parent.value);
    }
  }

  /** Where each event leads: the nearest transition along the path. */
  function Leads(s: State, e: Event): Option<State> {
    var p := Path(s);
    if e in Def(s).out then Some(Def(s).out[e])
    else if |p| >= 2 && e in Def(p[|p| - 2]).out then Some(Def(p[|p| - 2]).out[e])
    else if |p| >= 3 && e in Def(p[|p| - 3]).out then Some(Def(p[|p| - 3]).out[e])
    else None
  }

  lemma LeadsStep(s: State, e: Event)
    requires s < STATE_COUNT && e !in Def(s).out
    ensures Leads(s, e) == match Def(s).parent case None => None case Some(p) => Leads(p, e)
  {
    PathStep(s);
  }

  lemma {:induction false} IsTarget(t: Table, s: State, e: Event)
    requires IsViewer(t) && Forest(t) && InTable(t, s)
    ensures Target(t, s, e) == Leads(s, e)
    decreases LevelOf(s)
  {
    PathStep(s);
    assert Linked(t, s) && t.states[s] == Def(s);
    if e !in Def(s).out {
      LeadsStep(s, e);
      if Def(s).parent.Some? {
        IsTarget(t, Def(s).parent.value, e);
      }
    }
  }

  /** Shared ancestors, from a common beginning of the two paths. */
  lemma SharesAtLeast(t: Table, s: State, x: State, n: nat)
    requires IsViewer(t) && Forest(t) && InTable(t, s) && InTable(t, x)
    requires n < |Path(s)| && n < |Path(x)| && Path(s)[..n] == Path(x)[..n]
    ensures Shared(t, s, x) >= n
  {
    hide Path, Chain, Def;
    IsPath(t, s);
    IsPath(t, x);
    assert ProperChain(t, s)[..n] == Path(s)[..n] == ProperChain(t, x)[..n];
    assert forall m | 0 <= m < n :: ProperChain(t, s)[m] == ProperChain(t, s)[..n][m]
                                    && ProperChain(t, x)[m] == ProperChain(t, x)[..n][m];
  }

  /** The state that owns the transition taken from `s`. */
  lemma Owner(s: State, e: Event) returns (i: nat)
    requires s < STATE_COUNT && Leads(s, e).Some?
    ensures i < |Path(s)| && e in Def(Path(s)[i]).out && Leads(s, e).value == Def(Path(s)[i]).out[e]
  {
    var p := Path(s);
    i := if e in Def(s).out then |p| - 1
         else if |p| >= 2 && e in Def(p[|p| - 2]).out then |p| - 2 else |p| - 3;
  }

  predicate InToken(s: State) { s in {TOKEN_WAIT, TOKEN_ID, TOKEN_CERTS, TOKEN_ERROR} || InWait(s) }
  predicate InWait(s: State) {
    s in {TOKEN_IDLE, TOKEN_PINOP, TOKEN_SERIALIZE, TOKEN_CHALLENGE, TOKEN_EXPORT_PHOTO}
  }

  /** Transitions that lead inside TOKEN start inside TOKEN, and those that lead inside TOKEN_WAIT at it or inside. */
  lemma StaysInside(o: State, e: Event)
    requires o < STATE_COUNT && e in Def(o).out
    ensures var x := Def(o).out[e];
            x < STATE_COUNT && (InToken(x) ==> InToken(o)) && (InWait(x) ==> InWait(o) || o == TOKEN_WAIT)
  {
    hide Path;
  }

  lemma PathsInside(s: State)
    requires s < STATE_COUNT
    ensures InToken(s) ==> LevelOf(s) >= 2 && Path(s)[1] == TOKEN
    ensures InWait(s) ==> |Path(s)| == 4 && Path(s)[..3] == [CALLBACKS, TOKEN, TOKEN_WAIT]
    ensures InToken(s) && !InWait(s) ==> |Path(s)| == 3 && Path(s)[..2] == [CALLBACKS, TOKEN]
    ensures !InToken(s) ==> forall i | 0 <= i < LevelOf(s) :: Def(Path(s)[i]).enter <= {Succeed}
    ensures forall i | 0 <= i < |Path(s)| - 1 :: InToken(Path(s)[i]) ==> Path(s)[i] == TOKEN_WAIT && InWait(s)
  {
  }

  /** While TOKEN_WAIT itself is current only its own callback's events are handled, none of which stay inside. */
  lemma WaitLeads(t: Table, e: Event)
    requires IsViewer(t) && Dispatchable(t, TOKEN_WAIT, e) && Leads(TOKEN_WAIT, e).Some?
    ensures !InToken(Leads(TOKEN_WAIT, e).value)
  {
    assert t.states[TOKEN_WAIT] == Def(TOKEN_WAIT);
  }

  lemma LeadsInside(t: Table, s: State, e: Event)
    requires IsViewer(t) && s < STATE_COUNT && Dispatchable(t, s, e) && Leads(s, e).Some?
    ensures var x := Leads(s, e).value;
            x < STATE_COUNT && (InToken(x) ==> InToken(s)) && (InWait(x) ==> InWait(s))
  {
    hide Def, Leads;
    var i := Owner(s, e);
    StaysInside(Path(s)[i], e);
    PathsInside(s);
    if s == TOKEN_WAIT {
      WaitLeads(t, e);
    }
  }

  /** TOKEN and TOKEN_WAIT, the only parents that may fail or raise an event, are shared whenever they are parents. */
  lemma NoisyShared(t: Table, s: State, x: State)
    requires IsViewer(t) && Forest(t) && InTable(t, s) && InTable(t, x)
    requires (InToken(x) ==> InToken(s)) && (InWait(x) ==> InWait(s)) && InToken(x)
    ensures Shared(t, s, x) == t.level[x]
  {
    hide Path, Def, InToken, InWait, Chain, Target;
    PathsInside(s);
    PathsInside(x);
    IsPath(t, x);
    SharesAtLeast(t, s, x, if InWait(x) then 3 else 2);
  }

  lemma OutsideQuiet(t: Table, x: State, j: nat)
    requires IsViewer(t) && Forest(t) && InTable(t, x) && !InToken(x) && j < t.level[x]
    ensures Quiet(t, Chain(t, x)[j])
  {
    IsPath(t, x);
    PathsInside(x);
  }

  /** Every state entered as a parent keeps still. */
  lemma ParentsKeepStill(t: Table, s: State, e: Event)
    requires IsViewer(t) && Forest(t) && InTable(t, s) && Dispatchable(t, s, e)
    ensures ParentsQuiet(t, s, e)
  {
    IsTarget(t, s, e);
    if Leads(s, e).Some? {
      var x := Leads(s, e).value;
      LeadsInside(t, s, e);
      if InToken(x) {
        NoisyShared(t, s, x);
      } else {
        forall j | 0 <= j < t.level[x] ensures Quiet(t, Chain(t, x)[j]) {
          OutsideQuiet(t, x, j);
        }
      }
    }
  }

  lemma ErrorsSettle(t: Table, s: State)
    requires IsViewer(t) && Forest(t) && InTable(t, s)
    ensures ErrorSettles(t, s)
  {
    hide Path;
    IsTarget(t, s, StateError);
    assert t.states[s] == Def(s);
    assert t.states[TOKEN_ERROR] == Def(TOKEN_ERROR);
  }

  lemma IsWellFormed(t: Table)
    requires IsViewer(t)
    ensures WellFormed(t)
  {
    IsForest(t);
    forall s: State, e: Event | InTable(t, s) && Dispatchable(t, s, e)
      ensures ParentsQuiet(t, s, e)
    {
      ParentsKeepStill(t, s, e);
    }
    forall s: State | InTable(t, s)
      ensures ErrorSettles(t, s)
    {
      ErrorsSettle(t, s);
    }
  }
}
