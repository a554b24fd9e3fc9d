/** What each call answers. */
module Results {
  import opened Wrappers
  import opened Attributes
  import opened ObjectTable
  import opened Engine
  import SessionSafety

  // The return code of every call, from the tables before it and what the reader and the card report, by the refusals in
  // their order.

  /** The reader's report about a slot as an error. */
  function Trouble(p: P11, s: nat, r: Reading): nat {
    if s >= |p.slots| then CKR_SLOT_ID_INVALID
    else match r
      case NoCard => CKR_OK
      case Failure(code) => code
      case Status(status, known) =>
        if !known && status in {INSERTED, STILL_PRESENT, OTHER} then CKR_TOKEN_NOT_RECOGNIZED else CKR_OK
  }

  /** The reader reports a card, whichever it is. */
  predicate CardThere(r: Reading) { r.Status? && r.status != REMOVED && r.status != NOT_PRESENT }

  lemma UpdateTells(p: P11, s: nat, r: Reading)
    ensures var u := UpdateToken(p, s, r);
            u.rv == Trouble(p, s, r) && (u.rv == CKR_OK ==> u.status == if r.Status? then r.status else NOT_PRESENT)
  {
  }

  /** Whether a session may be used. */
  function Refused(p: P11, h: nat, r: Reading): nat {
    if !IsHandle(p, h) || !p.sessions[h - 1].inUse then CKR_SESSION_HANDLE_INVALID
    else if p.sessions[h - 1].state != STILL_PRESENT then CKR_DEVICE_REMOVED
    else if Trouble(p, p.sessions[h - 1].slot, r) != CKR_OK then Trouble(p, p.sessions[h - 1].slot, r)
    else if r == Status(STILL_PRESENT, true) then CKR_OK
    else CKR_DEVICE_REMOVED
  }

  lemma SessionTells(p: P11, h: nat, r: Reading)
    ensures GetSession(p, h, r).1 == Refused(p, h, r)
    ensures Refused(p, h, r) == CKR_OK ==> GetSession(p, h, r).0 == p && p.sessions[h - 1].slot < |p.slots|
  {
    if IsHandle(p, h) { UpdateTells(p, p.sessions[h - 1].slot, r); }
  }

  /** An opening succeeds exactly when nothing refuses it and the reader reports a card, old or new. */
  lemma OpenTells(p: P11, s: nat, serial: bool, rw: bool, r: Reading)
    ensures Open(p, s, serial, rw, r).1
         == if !serial then CKR_SESSION_PARALLEL_NOT_SUPPORTED
            else if s >= |p.slots| then CKR_SLOT_ID_INVALID
            else if !rw && p.slots[s].loggedIn && p.slots[s].loginType == CKU_SO then CKR_SESSION_READ_WRITE_SO_EXISTS
            else if Trouble(p, s, r) != CKR_OK then Trouble(p, s, r)
            else if CardThere(r) then CKR_OK else CKR_TOKEN_NOT_PRESENT
  {
    hide UpdateToken, Reserve;
    UpdateTells(p.(sessions := Reserve(p.sessions).0), s, r);
  }

  /** The new session is as it was asked for. */
  lemma OpenedSession(p: P11, s: nat, serial: bool, rw: bool, r: Reading)
    requires Open(p, s, serial, rw, r).1 == CKR_OK
    ensures var (q, _, h) := Open(p, s, serial, rw, r);
            IsHandle(q, h) && q.sessions[h - 1].inUse && q.sessions[h - 1].slot == s && q.sessions[h - 1].rw == rw
            && q.sessions[h - 1].state == STILL_PRESENT
  {
    hide UpdateToken, Reserve;
    SessionSafety.ReserveShape(p.sessions);
    SessionSafety.UpdateShape(p.(sessions := Reserve(p.sessions).0), s, r);
  }

  /** A handle is closed whatever the reader says; its answer to being disconnected counts when it is. */
  lemma CloseTells(p: P11, h: nat, r: Reading, bye: nat)
    ensures Close(p, h, r, bye).1
         == if !IsHandle(p, h) then CKR_SESSION_HANDLE_INVALID
            else if p.sessions[h - 1].slot < |p.slots| && p.slots[p.sessions[h - 1].slot].connect <= 1 then bye
            else CKR_OK
    ensures IsHandle(p, h) && p.sessions[h - 1].slot < |p.slots| ==>
              |Close(p, h, r, bye).0.sessions| == |p.sessions| && !Close(p, h, r, bye).0.sessions[h - 1].inUse
  {
    hide UpdateToken;
    if IsHandle(p, h) { UpdateKeepsConnections(p, p.sessions[h - 1].slot, r); }
  }

  /** With the session its active search goes; a template that an ended or refused search left behind stays. */
  lemma ClosedSearch(p: P11, h: nat, r: Reading, bye: nat)
    requires IsHandle(p, h) && p.sessions[h - 1].slot < |p.slots|
    ensures var session := Close(p, h, r, bye).0.sessions;
            h <= |session| && !session[h - 1].finding
            && session[h - 1].search == if p.sessions[h - 1].finding then None else p.sessions[h - 1].search
  {
  }

  lemma UpdateKeepsConnections(p: P11, s: nat, r: Reading)
    ensures var q := UpdateToken(p, s, r).p;
            |q.slots| == |p.slots| && |q.sessions| == |p.sessions|
            && (forall t | 0 <= t < |p.slots| :: q.slots[t].connect == p.slots[t].connect)
            && (forall i | 0 <= i < |p.sessions| :: q.sessions[i].slot == p.sessions[i].slot)
  {
  }

  lemma LoginTells(p: P11, h: nat, user: nat, r: Reading, answer: nat)
    ensures Login(p, h, user, r, answer).1
         == if user != CKU_USER && user != CKU_SO then CKR_USER_TYPE_INVALID
            else if Refused(p, h, r) != CKR_OK then Refused(p, h, r)
            else if p.slots[p.sessions[h - 1].slot].loggedIn then CKR_OK else answer
  {
    hide GetSession;
    SessionTells(p, h, r);
  }

  lemma LogoutTells(p: P11, h: nat, r: Reading, answer: nat)
    ensures Logout(p, h, r, answer).1
         == if Refused(p, h, r) != CKR_OK then Refused(p, h, r)
            else if p.slots[p.sessions[h - 1].slot].loggedIn then answer else CKR_USER_NOT_LOGGED_IN
  {
    hide GetSession;
    SessionTells(p, h, r);
  }

  /** The classes that a search can ask for; any other of eight bytes is refused. */
  predicate Supported(value: Option<seq<Byte>>) {
    value == None || |value.value| != 8
    || value.value in {Ulong(CKO_CERTIFICATE), Ulong(CKO_PRIVATE_KEY), Ulong(CKO_PUBLIC_KEY), Ulong(CKO_SECRET_KEY), Ulong(CKO_DATA)}
  }

  /** A search starts exactly when its class is supported, none is active, and the template is within the limits. */
  lemma FindInitTells(p: P11, h: nat, template: seq<Attr>, r: Reading, load: Load)
    ensures var rv := FindInit(p, h, template, r, load).1;
            var value := Lookup(template, CKA_CLASS);
            if Refused(p, h, r) != CKR_OK then rv == Refused(p, h, r)
            else if !Supported(value) then rv == CKR_ATTRIBUTE_VALUE_INVALID
            else if p.sessions[h - 1].finding then rv == CKR_OPERATION_ACTIVE
            else if !(|template| <= MAX_OBJECT_SIZE && forall a <- template :: |a.value| <= MAX_ATTRIBUTE_SIZE) then
              rv == CKR_ARGUMENTS_BAD
            else value != Some(Ulong(CKO_DATA)) ==> rv == CKR_OK
  {
    hide GetSession, Lookup, Ulong, AddAll;
    SessionTells(p, h, r);
  }

  /** What keeps a search from finding anything: a class that no listed object has, or objects off the token. */
  lemma HopelessExactly(template: seq<Attr>)
    ensures Hopeless(template) <==>
            || Lookup(template, CKA_TOKEN) == Some([0])
            || (Lookup(template, CKA_CLASS) != None && |Lookup(template, CKA_CLASS).value| == 8
                && Lookup(template, CKA_CLASS).value
                   !in {Ulong(CKO_CERTIFICATE), Ulong(CKO_PRIVATE_KEY), Ulong(CKO_PUBLIC_KEY), Ulong(CKO_DATA)})
  {
    hide Lookup, Ulong;
  }

  lemma FindTells(p: P11, h: nat, max: nat, r: Reading)
    ensures FindObjects(p, h, max, r).1
         == if Refused(p, h, r) != CKR_OK then Refused(p, h, r)
            else if !p.sessions[h - 1].finding || p.sessions[h - 1].search == None then CKR_OPERATION_NOT_INITIALIZED
            else CKR_OK
    ensures FindFinal(p, h, r).1
         == if Refused(p, h, r) != CKR_OK then Refused(p, h, r)
            else if !p.sessions[h - 1].finding then CKR_OPERATION_NOT_INITIALIZED else CKR_OK
    ensures Refused(p, h, r) == CKR_OK && (!p.sessions[h - 1].finding || p.sessions[h - 1].search == None) ==>
              FindFinal(p, h, r).0 == p && FindObjects(p, h, max, r).0 == p
  {
    hide GetSession, Hopeless, Scan;
    SessionTells(p, h, r);
  }

  /** Why no attributes are delivered. */
  lemma GetTells(p: P11, h: nat, o: nat, requests: seq<Request>, r: Reading, again: Reading, card: Card)
    ensures var (_, rv, answers) := GetAttributes(p, h, o, requests, r, again, card);
            if Refused(p, h, r) != CKR_OK then rv == Refused(p, h, r) && answers == []
            else
              var objects := p.slots[p.sessions[h - 1].slot].objects;
              if !(0 < o <= |objects|) then rv == CKR_OBJECT_HANDLE_INVALID && answers == []
              else if objects[o - 1].cached then |answers| == |requests|
              else if Trouble(p, p.sessions[h - 1].slot, again) != CKR_OK then
                rv == Trouble(p, p.sessions[h - 1].slot, again) && answers == []
              else if !CardThere(again) then rv == CKR_TOKEN_NOT_PRESENT && answers == []
              else
                var attrs := objects[o - 1].attrs;
                again.status == STILL_PRESENT ==>
                  if Lookup(attrs, CKA_CLASS) == Some(Ulong(CKO_DATA)) then |answers| == |requests|
                  else Lookup(attrs, CKA_CLASS) == None || Lookup(attrs, CKA_ID) == None ==>
                         rv == CKR_ATTRIBUTE_TYPE_INVALID && answers == []
  {
    hide GetSession, AnswerAll, Lookup, Ulong, ReadPair;
    SessionTells(p, h, r);
    if Refused(p, h, r) == CKR_OK { UpdateTells(p, p.sessions[h - 1].slot, again); }
  }

  /** What matching means, one attribute of the template at a time. */
  lemma MatchesNothingMore(o: Object)
    ensures Matches(o, []) <==> o.inUse && !o.hidden
  {
  }

  /** A template that names a label shows hidden objects as well. */
  lemma MatchesExactly(o: Object, template: seq<Attr>)
    ensures Matches(o, template) <==>
            && o.inUse
            && (o.hidden ==> Lookup(template, CKA_LABEL) != None && Lookup(template, CKA_LABEL) != Some([]))
            && forall a <- template :: Lookup(o.attrs, a.kind) == Some(a.value)
  {
    hide Lookup;
  }

  lemma CloseAllTells(p: P11, s: nat, bye: nat)
    ensures s >= |p.slots| ==> CloseAll(p, s, bye) == (p, CKR_SLOT_ID_INVALID)
    ensures s < |p.slots| && p.slots[s].nsessions == 0 ==> CloseAll(p, s, bye) == (p, CKR_OK)
    ensures s < |p.slots| ==> CloseAll(p, s, bye).1 in {CKR_OK, bye}
  {
    if s < |p.slots| { CloseFromTells(p, 0, s, bye, CKR_OK); }
  }

  lemma {:induction false} CloseFromTells(p: P11, i: nat, s: nat, bye: nat, rv: nat)
    requires s < |p.slots|
    ensures CloseFrom(p, i, s, bye, rv).1 in {CKR_OK, bye, rv}
    decreases |p.sessions| - i
  {
    if i < |p.sessions| {
      if On(p.sessions[i], s) {
        var (q, last) := CloseEntry(p, i, bye);
        CloseFromTells(q, i + 1, s, bye, last);
      } else {
        CloseFromTells(p, i + 1, s, bye, rv);
      }
    }
  }
}
