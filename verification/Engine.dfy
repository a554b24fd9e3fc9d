/** The PKCS #11 calls. */
module Engine {
  import opened Wrappers
  import opened Attributes
  import opened ObjectTable

  // What the PKCS #11 calls on sessions, searches and objects do, as functions on the module's tables (p11.c,
  // session.c, object.c and the token tracking of cal.cpp). What a reader reports is an input of each call.

  const CKR_SLOT_ID_INVALID: nat := 3
  const CKR_ATTRIBUTE_VALUE_INVALID: nat := 0x13
  const CKR_DEVICE_REMOVED: nat := 0x32
  const CKR_OBJECT_HANDLE_INVALID: nat := 0x82
  const CKR_OPERATION_ACTIVE: nat := 0x90
  const CKR_OPERATION_NOT_INITIALIZED: nat := 0x91
  const CKR_SESSION_HANDLE_INVALID: nat := 0xB3
  const CKR_SESSION_PARALLEL_NOT_SUPPORTED: nat := 0xB4
  const CKR_SESSION_READ_WRITE_SO_EXISTS: nat := 0xB8
  const CKR_TOKEN_NOT_PRESENT: nat := 0xE0
  const CKR_TOKEN_NOT_RECOGNIZED: nat := 0xE1
  const CKR_USER_NOT_LOGGED_IN: nat := 0x101
  const CKR_USER_TYPE_INVALID: nat := 0x103
  const CKR_BUFFER_TOO_SMALL: nat := 0x150

  const CKU_SO: nat := 0
  const CKU_USER: nat := 1

  const CKO_DATA: nat := 0
  const CKO_CERTIFICATE: nat := 1
  const CKO_PUBLIC_KEY: nat := 2
  const CKO_PRIVATE_KEY: nat := 3
  const CKO_SECRET_KEY: nat := 4

  const INSERTED: nat := 0
  const NOT_PRESENT: nat := 1
  const STILL_PRESENT: nat := 2
  const REMOVED: nat := 3
  const OTHER: nat := 4

  type ErrorCode = n: nat | n > 0 witness 1

  // ---- The tables

  // `epoch` is history: how often this slot was cleaned because its card changed; so is `loginEpoch`, the epoch when a
  // card last accepted a login.
  datatype Slot = Slot(loggedIn: bool, loginType: nat, nsessions: nat, connect: nat,
                       objects: seq<Object>, listed: bool, epoch: nat, loginEpoch: nat)

  datatype Search = Search(template: seq<Attr>, current: nat)

  // `finding` is the active flag of the search operation. `openedIn` is history: the slot's epoch at opening.
  datatype Session = Session(inUse: bool, slot: nat, rw: bool, state: nat, finding: bool, search: Option<Search>, openedIn: nat)

  datatype P11 = P11(slots: seq<Slot>, sessions: seq<Session>)

  const BlankSession := Session(false, 0, false, 0, false, None, 0)
  const SessionStep := [BlankSession, BlankSession, BlankSession, BlankSession, BlankSession,
                        BlankSession, BlankSession, BlankSession, BlankSession, BlankSession]

  function WithSlot(p: P11, s: nat, slot: Slot): P11
    requires s < |p.slots|
  {
    p.(slots := p.slots[s := slot])
  }

  function WithSession(p: P11, i: nat, session: Session): P11
    requires i < |p.sessions|
  {
    p.(sessions := p.sessions[i := session])
  }

  // ---- Token tracking

  // What the reader says when asked: a status and whether the card is a known one, no card, or an error.
  datatype Reading = Status(status: nat, known: bool) | NoCard | Failure(code: ErrorCode)

  datatype Updated = Updated(p: P11, rv: nat, status: nat)

  predicate On(session: Session, s: nat) { session.inUse && session.slot == s }

  function Invalidate(sessions: seq<Session>, s: nat, status: nat): (r: seq<Session>)
    ensures |r| == |sessions|
    ensures forall i | 0 <= i < |r| ::
              r[i] == if On(sessions[i], s) then sessions[i].(state := status) else sessions[i]
  {
    seq(|sessions|, i requires 0 <= i < |sessions| =>
      if On(sessions[i], s) then sessions[i].(state := status) else sessions[i])
  }

  function Cleaned(slot: Slot): Slot {
    slot.(objects := CleanAll(slot.objects), listed := false, epoch := slot.epoch + 1)
  }

  predicate SameSize(p: P11, q: P11) { |q.slots| == |p.slots| && |q.sessions| == |p.sessions| }

  function UpdateToken(p: P11, s: nat, r: Reading): (u: Updated)
    ensures SameSize(p, u.p)
    ensures s < |p.slots| ==> |u.p.slots[s].objects| == |p.slots[s].objects|
    ensures u.rv == CKR_OK ==> s < |p.slots|
  {
    if s >= |p.slots| then Updated(p, CKR_SLOT_ID_INVALID, NOT_PRESENT)
    else match r
      case NoCard => Updated(p, CKR_OK, NOT_PRESENT)
      case Failure(code) => Updated(p, code, NOT_PRESENT)
      case Status(status, known) =>
        if !known && (status == INSERTED || status == STILL_PRESENT || status == OTHER) then
          Updated(p, CKR_TOKEN_NOT_RECOGNIZED, status)
        else if status == STILL_PRESENT then Updated(p, CKR_OK, status)
        else Updated(P11(p.slots[s := Cleaned(p.slots[s])], Invalidate(p.sessions, s, status)), CKR_OK, status)
  }

  predicate Absent(status: nat) { status == REMOVED || status == NOT_PRESENT }

  function Connect(p: P11, s: nat, r: Reading): (c: (P11, nat))
    ensures SameSize(p, c.0)
    ensures c.1 == CKR_OK ==> s < |p.slots|
  {
    var u := UpdateToken(p, s, r);
    if u.rv != CKR_OK then (u.p, u.rv)
    else if Absent(u.status) then (u.p, CKR_TOKEN_NOT_PRESENT)
    else (WithSlot(u.p, s, u.p.slots[s].(connect := u.p.slots[s].connect + 1)), CKR_OK)
  }

  function Validate(p: P11, i: nat, r: Reading): (v: (P11, nat))
    requires i < |p.sessions|
    ensures SameSize(p, v.0)
  {
    if !p.sessions[i].inUse then (p, CKR_SESSION_HANDLE_INVALID)
    else if p.sessions[i].state != STILL_PRESENT then (p, CKR_DEVICE_REMOVED)
    else
      var u := UpdateToken(p, p.sessions[i].slot, r);
      (u.p, if u.rv != CKR_OK then u.rv else if u.status == STILL_PRESENT then CKR_OK else CKR_DEVICE_REMOVED)
  }

  predicate IsHandle(p: P11, h: nat) { 0 < h <= |p.sessions| }

  function GetSession(p: P11, h: nat, r: Reading): (g: (P11, nat))
    ensures SameSize(p, g.0)
    ensures g.1 == CKR_OK ==> IsHandle(g.0, h)
  {
    if IsHandle(p, h) then Validate(p, h - 1, r) else (p, CKR_SESSION_HANDLE_INVALID)
  }

  // ---- Opening and closing

  function FreeSession(sessions: seq<Session>): (i: nat)
    ensures i <= |sessions|
    ensures forall j | 0 <= j < i :: sessions[j].inUse
    ensures i < |sessions| ==> !sessions[i].inUse
  {
    if sessions == [] || !sessions[0].inUse then 0 else 1 + FreeSession(sessions[1..])
  }

  function Reserve(sessions: seq<Session>): (r: (seq<Session>, nat))
    ensures r.1 < |r.0| && |sessions| <= |r.0|
  {
    var i := FreeSession(sessions);
    var table := if i == |sessions| then sessions + SessionStep else sessions;
    (table[i := table[i].(inUse := true)], i)
  }

  // The state, the return code, and the handle written, 0 when none was.
  function Open(p: P11, s: nat, serial: bool, rw: bool, r: Reading): (P11, nat, nat) {
    if !serial then (p, CKR_SESSION_PARALLEL_NOT_SUPPORTED, 0)
    else if s >= |p.slots| then (p, CKR_SLOT_ID_INVALID, 0)
    else if !rw && p.slots[s].loginType == CKU_SO && p.slots[s].loggedIn then (p, CKR_SESSION_READ_WRITE_SO_EXISTS, 0)
    else
      var (table, i) := Reserve(p.sessions);
      var (q, rv) := Connect(p.(sessions := table), s, r);
      if rv != CKR_OK then (WithSession(q, i, q.sessions[i].(inUse := false)), rv, i + 1)
      else
        var entry := q.sessions[i].(slot := s, rw := rw, state := STILL_PRESENT, openedIn := q.slots[s].epoch);
        (WithSlot(WithSession(q, i, entry), s, q.slots[s].(nsessions := q.slots[s].nsessions + 1)), CKR_OK, i + 1)
  }

  function Less(n: nat): nat { if n > 0 then n - 1 else 0 }

  // A slot after one of its sessions went: the last one logs out.
  function Left(slot: Slot): Slot {
    slot.(nsessions := Less(slot.nsessions), connect := Less(slot.connect),
          loggedIn := slot.loggedIn && Less(slot.nsessions) > 0)
  }

  function Closed(session: Session): Session {
    Session(false, 0, false, 0, false, if session.finding then None else session.search, session.openedIn)
  }

  // `bye` is the reader's answer to being disconnected, which it is when the last connection goes.
  function CloseEntry(p: P11, i: nat, bye: nat): (c: (P11, nat))
    requires i < |p.sessions| && p.sessions[i].slot < |p.slots|
    ensures SameSize(p, c.0)
  {
    var s := p.sessions[i].slot;
    var slot := Left(p.slots[s]);
    (WithSession(WithSlot(p, s, slot), i, Closed(p.sessions[i])), if slot.connect < 1 then bye else CKR_OK)
  }

  // An entry that is no longer in use is closed all the same, on slot 0.
  function Close(p: P11, h: nat, r: Reading, bye: nat): (P11, nat) {
    if !IsHandle(p, h) then (p, CKR_SESSION_HANDLE_INVALID)
    else
      var q := Validate(p, h - 1, r).0;
      if q.sessions[h - 1].slot < |q.slots| then CloseEntry(q, h - 1, bye) else (q, CKR_OK)
  }

  function CloseFrom(p: P11, i: nat, s: nat, bye: nat, rv: nat): (P11, nat)
    requires s < |p.slots|
    decreases |p.sessions| - i
  {
    if i >= |p.sessions| then (p, rv)
    else if On(p.sessions[i], s) then
      var (q, last) := CloseEntry(p, i, bye);
      CloseFrom(q, i + 1, s, bye, last)
    else CloseFrom(p, i + 1, s, bye, rv)
  }

  function CloseAll(p: P11, s: nat, bye: nat): (P11, nat) {
    if s >= |p.slots| then (p, CKR_SLOT_ID_INVALID)
    else if p.slots[s].nsessions == 0 then (p, CKR_OK)
    else CloseFrom(p, 0, s, bye, CKR_OK)
  }

  // ---- Logging in and out; `answer` is the card's

  function Login(p: P11, h: nat, user: nat, r: Reading, answer: nat): (P11, nat) {
    if user != CKU_USER && user != CKU_SO then (p, CKR_USER_TYPE_INVALID)
    else
      var (q, rv) := GetSession(p, h, r);
      if rv != CKR_OK then (q, rv)
      else
        var s := q.sessions[h - 1].slot;
        if s >= |q.slots| then (q, CKR_SESSION_HANDLE_INVALID)
        else if q.slots[s].loggedIn then (q, CKR_OK)
        else if answer == CKR_OK then
          (WithSlot(q, s, q.slots[s].(loginType := user, loggedIn := true, loginEpoch := q.slots[s].epoch)), CKR_OK)
        else (q, answer)
  }

  function Logout(p: P11, h: nat, r: Reading, answer: nat): (P11, nat) {
    var (q, rv) := GetSession(p, h, r);
    if rv != CKR_OK then (q, rv)
    else
      var s := q.sessions[h - 1].slot;
      if s >= |q.slots| then (q, CKR_SESSION_HANDLE_INVALID)
      else if q.slots[s].loggedIn then (WithSlot(q, s, q.slots[s].(loggedIn := false)), answer)
      else (q, CKR_USER_NOT_LOGGED_IN)
  }

  // ---- Searching

  // The objects a call finds on the card: keys and certificates to list unless they are (`thrown` when the
  // reader failed under way), then data files, and how reading these ended.
  datatype Load = Load(listing: seq<Filling>, thrown: bool, files: seq<Filling>, rv: nat)

  function AddAll(objects: seq<Object>, fillings: seq<Filling>, epoch: nat): (seq<Object>, nat)
    decreases |fillings|
  {
    if fillings == [] then (objects, CKR_OK)
    else
      var (after, _, rv) := AddFilled(objects, fillings[0], epoch);
      if rv != CKR_OK then (after, rv) else AddAll(after, fillings[1..], epoch)
  }

  function ListObjects(slot: Slot, load: Load): Slot {
    if slot.listed then slot
    else slot.(objects := AddAll(slot.objects, load.listing, slot.epoch).0, listed := !load.thrown)
  }

  // The class a template asks for.
  function ClassOf(template: seq<Attr>): Option<seq<Byte>> {
    var value := Lookup(template, CKA_CLASS);
    if value != None && |value.value| == 8 then value else None
  }

  predicate IsClass(value: Option<seq<Byte>>, objClass: nat) { value == Some(Ulong(objClass)) }

  predicate OnCard(value: Option<seq<Byte>>) {
    IsClass(value, CKO_CERTIFICATE) || IsClass(value, CKO_PRIVATE_KEY) || IsClass(value, CKO_PUBLIC_KEY)
  }

  function FindInit(p: P11, h: nat, template: seq<Attr>, r: Reading, load: Load): (P11, nat) {
    var (q, rv) := GetSession(p, h, r);
    if rv != CKR_OK then (q, rv)
    else
      var s := q.sessions[h - 1].slot;
      if s >= |q.slots| then (q, CKR_SLOT_ID_INVALID)
      else
        var class_ := ClassOf(template);
        var listed := if template == [] || OnCard(class_) || IsClass(class_, CKO_SECRET_KEY)
                      then WithSlot(q, s, ListObjects(q.slots[s], load)) else q;
        if class_ != None && !OnCard(class_) && !IsClass(class_, CKO_SECRET_KEY) && !IsClass(class_, CKO_DATA) then
          (listed, CKR_ATTRIBUTE_VALUE_INVALID)
        else
          var (started, code) := Start(listed, h, template);
          if code == CKR_OK && IsClass(class_, CKO_DATA) then LoadFiles(started, s, load) else (started, code)
  }

  // The search operation is set up; one that is active is left alone.
  function Start(p: P11, h: nat, template: seq<Attr>): (started: (P11, nat))
    requires IsHandle(p, h)
    ensures SameSize(p, started.0)
  {
    var session := p.sessions[h - 1];
    if session.finding then (p, CKR_OPERATION_ACTIVE)
    else if !Copyable(template) then (WithSession(p, h - 1, session.(search := Some(Search([], 1)))), CKR_ARGUMENTS_BAD)
    else (WithSession(p, h - 1, session.(finding := true, search := Some(Search(template, 1)))), CKR_OK)
  }

  function LoadFiles(p: P11, s: nat, load: Load): (P11, nat)
    requires s < |p.slots|
  {
    var (objects, ended) := AddAll(p.slots[s].objects, load.files, p.slots[s].epoch);
    (WithSlot(p, s, p.slots[s].(objects := objects)), if ended != CKR_OK then ended else load.rv)
  }

  // A template that no object can match, whatever the table holds.
  predicate Hopeless(template: seq<Attr>) {
    (ClassOf(template) != None && !OnCard(ClassOf(template)) && !IsClass(ClassOf(template), CKO_DATA))
    || Lookup(template, CKA_TOKEN) == Some([0])
  }

  predicate ShowsHidden(template: seq<Attr>) {
    Lookup(template, CKA_LABEL) != None && Lookup(template, CKA_LABEL) != Some([])
  }

  predicate Matches(o: Object, template: seq<Attr>) {
    o.inUse && (!o.hidden || ShowsHidden(template))
    && forall j | 0 <= j < |template| :: Lookup(o.attrs, template[j].kind) == Some(template[j].value)
  }

  // The handles found from a cursor on, at most `max`, and the cursor afterwards.
  function Scan(objects: seq<Object>, template: seq<Attr>, current: nat, max: nat): (seq<nat>, nat)
    decreases |objects| + 1 - current
  {
    if current > |objects| || max == 0 || current == 0 then ([], current)
    else if Matches(objects[current - 1], template) then
      var (rest, end) := Scan(objects, template, current + 1, max - 1);
      ([current] + rest, end)
    else Scan(objects, template, current + 1, max)
  }

  function FindObjects(p: P11, h: nat, max: nat, r: Reading): (P11, nat, seq<nat>) {
    var (q, rv) := GetSession(p, h, r);
    if rv != CKR_OK then (q, rv, [])
    else
      var session := q.sessions[h - 1];
      if !session.finding || session.search == None then (q, CKR_OPERATION_NOT_INITIALIZED, [])
      else if Hopeless(session.search.value.template) then (q, CKR_OK, [])
      else if session.slot >= |q.slots| then (q, CKR_SLOT_ID_INVALID, [])
      else
        var (found, end) := Scan(q.slots[session.slot].objects, session.search.value.template, session.search.value.current, max);
        (WithSession(q, h - 1, session.(search := Some(session.search.value.(current := end)))), CKR_OK, found)
  }

  function FindFinal(p: P11, h: nat, r: Reading): (P11, nat) {
    var (q, rv) := GetSession(p, h, r);
    if rv != CKR_OK then (q, rv)
    else
      var session := q.sessions[h - 1];
      if !session.finding then (q, CKR_OPERATION_NOT_INITIALIZED)
      else if session.search == None then (q, CKR_OK)
      else (WithSession(q, h - 1, session.(finding := false, search := None)), CKR_OK)
  }

  // ---- Reading attributes

  // What the card gives for one key pair: the values of the certificate and of both keys, whether the id is that of the
  // card key, whose public key has a file of its own, and the error, 0 for none, of asking for the key after reading.
  // Or an error: without a card nothing is looked at, otherwise nothing could be read.
  datatype Card =
    | Pair(certificate: seq<Attr>, private: seq<Attr>, public: seq<Attr>, cardKey: bool, lost: nat)
    | Unread(code: ErrorCode)
    | NoReader(code: ErrorCode)

  function StoreOn(objects: seq<Object>, h: nat, sets: seq<Attr>): (r: (seq<Object>, nat))
    requires h <= |objects|
    ensures |r.0| == |objects|
  {
    if h == 0 then (objects, CKR_OK)
    else
      var (attrs, rv) := UpdateAll(objects[h - 1].attrs, sets);
      (objects[h - 1 := objects[h - 1].(attrs := attrs, cached := rv == CKR_OK || objects[h - 1].cached)], rv)
  }

  function StoreBoth(objects: seq<Object>, h: nat, sets: seq<Attr>, g: nat, others: seq<Attr>): (r: (seq<Object>, nat))
    requires h <= |objects| && g <= |objects|
    ensures |r.0| == |objects|
  {
    var (first, rv) := StoreOn(objects, h, sets);
    if rv != CKR_OK then (first, rv) else StoreOn(first, g, others)
  }

  // The values go to the objects with the handles given; 0 stands for an object that is missing.
  function StorePair(objects: seq<Object>, private: nat, public: nat, certificate: nat, card: Card): (r: (seq<Object>, nat))
    requires private <= |objects| && public <= |objects| && certificate <= |objects|
    ensures |r.0| == |objects|
  {
    match card
    case NoReader(code) => (objects, code)
    case Unread(code) => (objects, if certificate == 0 && public == 0 then CKR_OK else code)
    case Pair(values, ofPrivate, ofPublic, cardKey, lost) =>
      if certificate != 0 then
        var (first, rv) := StoreOn(objects, certificate, values);
        if rv != CKR_OK then (first, rv)
        else if lost != CKR_OK then (first, lost)
        else StoreBoth(first, private, ofPrivate, public, ofPublic)
      else if public == 0 || !cardKey then (objects, CKR_OK)
      else if lost != CKR_OK then (objects, lost)
      else StoreBoth(objects, public, ofPublic, private, ofPrivate)
  }

  function ReadPair(objects: seq<Object>, id: seq<Byte>, card: Card): (r: (seq<Object>, nat))
    ensures |r.0| == |objects|
  {
    StorePair(objects, Find(objects, CKO_PRIVATE_KEY, id), Find(objects, CKO_PUBLIC_KEY, id),
              Find(objects, CKO_CERTIFICATE, id), card)
  }

  function ReadObject(p: P11, s: nat, o: nat, r: Reading, card: Card): (read: (P11, nat))
    requires s < |p.slots| && o < |p.slots[s].objects|
    ensures SameSize(p, read.0) && |read.0.slots[s].objects| == |p.slots[s].objects|
  {
    var u := UpdateToken(p, s, r);
    if u.rv != CKR_OK then (u.p, u.rv)
    else if Absent(u.status) then (u.p, CKR_TOKEN_NOT_PRESENT)
    else
      var objects := u.p.slots[s].objects;
      var class_, id := Lookup(objects[o].attrs, CKA_CLASS), Lookup(objects[o].attrs, CKA_ID);
      if class_ == None then (u.p, CKR_ATTRIBUTE_TYPE_INVALID)
      else if IsClass(class_, CKO_DATA) then (u.p, CKR_OK)
      else if id == None then (u.p, CKR_ATTRIBUTE_TYPE_INVALID)
      else
        var (read, rv) := ReadPair(objects, id.value, card);
        (WithSlot(u.p, s, u.p.slots[s].(objects := read)), rv)
  }

  // A request without room asks for the length only.
  datatype Request = Request(kind: nat, room: Option<nat>)

  // `None` as length is the all-ones value of an answer that could not be given.
  datatype Answer = Answer(length: Option<nat>, value: Option<seq<Byte>>)

  function Answered(attrs: seq<Attr>, q: Request): (Answer, nat) {
    var value := Lookup(attrs, q.kind);
    if value == None then (Answer(None, None), CKR_ATTRIBUTE_TYPE_INVALID)
    else if q.room == None then (Answer(Some(|value.value|), None), CKR_OK)
    else if |value.value| > q.room.value then (Answer(None, None), CKR_BUFFER_TOO_SMALL)
    else (Answer(Some(|value.value|), value), CKR_OK)
  }

  // All requests are answered; the last error is the one returned.
  function AnswerAll(attrs: seq<Attr>, requests: seq<Request>): (r: (seq<Answer>, nat))
    ensures |r.0| == |requests|
  {
    if requests == [] then ([], CKR_OK)
    else
      var n := |requests| - 1;
      var (answers, rv) := AnswerAll(attrs, requests[..n]);
      var (answer, code) := Answered(attrs, requests[n]);
      (answers + [answer], if code != CKR_OK then code else rv)
  }

  function GetAttributes(p: P11, h: nat, o: nat, requests: seq<Request>, r: Reading, again: Reading, card: Card)
    : (P11, nat, seq<Answer>)
  {
    var (q, rv) := GetSession(p, h, r);
    if rv != CKR_OK then (q, rv, [])
    else
      var s := q.sessions[h - 1].slot;
      if s >= |q.slots| then (q, CKR_SLOT_ID_INVALID, [])
      else if !(0 < o <= |q.slots[s].objects|) then (q, CKR_OBJECT_HANDLE_INVALID, [])
      else
        var (read, code) := if q.slots[s].objects[o - 1].cached then (q, CKR_OK) else ReadObject(q, s, o - 1, again, card);
        if code != CKR_OK then (read, code, [])
        else
          var (answers, last) := AnswerAll(read.slots[s].objects[o - 1].attrs, requests);
          (read, last, answers)
  }

  // ---- Calls and runs

  // `Poll` is any other call that asks for the state of the token.
  datatype Op =
    | OpOpen(s: nat, serial: bool, rw: bool, r: Reading)
    | OpClose(h: nat, r: Reading, bye: nat)
    | OpCloseAll(s: nat, bye: nat)
    | OpLogin(h: nat, user: nat, r: Reading, answer: nat)
    | OpLogout(h: nat, r: Reading, answer: nat)
    | OpFindInit(h: nat, template: seq<Attr>, r: Reading, load: Load)
    | OpFind(h: nat, max: nat, r: Reading)
    | OpFindFinal(h: nat, r: Reading)
    | OpGet(h: nat, o: nat, requests: seq<Request>, r: Reading, again: Reading, card: Card)
    | OpPoll(s: nat, r: Reading)

  datatype Reply = Reply(rv: nat, handles: seq<nat>, answers: seq<Answer>)

  function Call(p: P11, op: Op): (P11, Reply) {
    match op
    case OpOpen(s, serial, rw, r) => var (q, rv, h) := Open(p, s, serial, rw, r); (q, Reply(rv, [h], []))
    case OpClose(h, r, bye) => var (q, rv) := Close(p, h, r, bye); (q, Reply(rv, [], []))
    case OpCloseAll(s, bye) => var (q, rv) := CloseAll(p, s, bye); (q, Reply(rv, [], []))
    case OpLogin(h, user, r, answer) => var (q, rv) := Login(p, h, user, r, answer); (q, Reply(rv, [], []))
    case OpLogout(h, r, answer) => var (q, rv) := Logout(p, h, r, answer); (q, Reply(rv, [], []))
    case OpFindInit(h, template, r, load) => var (q, rv) := FindInit(p, h, template, r, load); (q, Reply(rv, [], []))
    case OpFind(h, max, r) => var (q, rv, found) := FindObjects(p, h, max, r); (q, Reply(rv, found, []))
    case OpFindFinal(h, r) => var (q, rv) := FindFinal(p, h, r); (q, Reply(rv, [], []))
    case OpGet(h, o, requests, r, again, card) =>
      var (q, rv, answers) := GetAttributes(p, h, o, requests, r, again, card); (q, Reply(rv, [], answers))
    case OpPoll(s, r) => var u := UpdateToken(p, s, r); (u.p, Reply(u.rv, [], []))
  }

  function After(p: P11, ops: seq<Op>): P11
    decreases |ops|
  {
    if ops == [] then p else After(Call(p, ops[0]).0, ops[1..])
  }

  const BlankSlot := Slot(false, 0, 0, 0, [], false, 0, 0)

  predicate Fresh(p: P11) { p.sessions == [] && forall s | 0 <= s < |p.slots| :: p.slots[s] == BlankSlot }
}
