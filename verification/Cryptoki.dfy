/** The PKCS #11 module itself. */
module Cryptoki {
  import opened Wrappers
  import opened Attributes
  import opened ObjectTable
  import opened Engine
  import opened Answering

  // The PKCS #11 module itself: two tables that the calls search, grow and overwrite in place.

  // ---- Where the loops over the tables stand

  lemma {:induction false} FirstFree(sessions: seq<Session>, i: nat)
    requires i <= |sessions| && (forall j | 0 <= j < i :: sessions[j].inUse) && (i < |sessions| ==> !sessions[i].inUse)
    ensures FreeSession(sessions) == i
  {
  }

  lemma FirstFreeObject(objects: seq<Object>, i: nat)
    requires i <= |objects| && (forall j | 0 <= j < i :: objects[j].inUse) && (i < |objects| ==> !objects[i].inUse)
    ensures FreeEntry(objects) == i
  {
    hide FreeEntry;
    var free := FreeEntry(objects);
    assert !(free < i) && !(i < free);
  }

  class Tables {
    var slots: seq<Slot>
    var sessions: seq<Session>

    function Now(): P11
      reads this
    {
      P11(slots, sessions)
    }

    constructor (readers: nat)
      ensures Fresh(Now()) && |slots| == readers
    {
      slots := seq(readers, _ => BlankSlot);
      sessions := [];
    }

    // ---- p11.c: the object table of a slot

    method NewSlotObject(s: nat) returns (h: nat)
      requires s < |slots|
      modifies this
      ensures |slots| == |old(slots)| && (slots[s].objects, h) == Allocate(old(slots[s].objects), slots[s].epoch)
      ensures Now() == WithSlot(old(Now()), s, old(slots[s]).(objects := slots[s].objects))
    {
      var i := 0;
      while i < |slots[s].objects| && slots[s].objects[i].inUse
        invariant i <= |slots[s].objects|
        invariant forall j | 0 <= j < i :: slots[s].objects[j].inUse
      {
        i := i + 1;
      }
      FirstFreeObject(slots[s].objects, i);
      if i == |slots[s].objects| {
        slots := slots[s := slots[s].(objects := slots[s].objects + ObjectStep)];
      }
      var o := slots[s].objects[i].(inUse := true, addedIn := slots[s].epoch);
      slots := slots[s := slots[s].(objects := slots[s].objects[i := o])];
      h := i + 1;
    }

    // p11_add_slot_object and p11_add_slot_ID_object, which differ in what they set.
    method AddSlotObject(s: nat, f: Filling) returns (h: nat, rv: nat)
      requires s < |slots|
      modifies this
      ensures |slots| == |old(slots)| && (slots[s].objects, h, rv) == AddFilled(old(slots[s].objects), f, slots[s].epoch)
      ensures Now() == WithSlot(old(Now()), s, old(slots[s]).(objects := slots[s].objects))
    {
      h := NewSlotObject(s);
      var template := Template(f.kinds);
      var attrs: seq<Attr>;
      attrs, rv := CopyObject(template);
      if rv != CKR_OK {
        attrs := Template(Zeros(|f.kinds|));
      } else {
        var i := 0;
        while i < |f.sets| && rv == CKR_OK
          invariant i <= |f.sets|
          invariant rv == CKR_OK ==> UpdateAll(template, f.sets) == UpdateAll(attrs, f.sets[i..])
          invariant rv != CKR_OK ==> UpdateAll(template, f.sets) == (attrs, rv)
          modifies {}
        {
          attrs, rv := SetAttributeValue(attrs, f.sets[i].kind, f.sets[i].value);
          i := i + 1;
        }
      }
      var o := slots[s].objects[h - 1].(attrs := attrs);
      if rv == CKR_OK && f.cached {
        o := o.(cached := true, hidden := f.hidden);
      }
      slots := slots[s := slots[s].(objects := slots[s].objects[h - 1 := o])];
    }

    method FindSlotObject(s: nat, objClass: nat, id: seq<Byte>) returns (h: nat)
      requires s < |slots| && |id| == 8
      ensures h == Find(slots[s].objects, objClass, id)
    {
      var objects := slots[s].objects;
      for i := 0 to |objects|
        invariant forall j | 0 <= j < i :: !IsKey(objects[j], objClass, id)
      {
        var value, rv := GetAttributeValue(objects[i].attrs, CKA_ID);
        if rv == CKR_OK && |value.value| == 8 && value.value == id {
          value, rv := GetAttributeValue(objects[i].attrs, CKA_CLASS);
          if rv == CKR_OK && |value.value| == 8 && value.value == Ulong(objClass) {
            return i + 1;
          }
        }
      }
      return 0;
    }

    // ---- cal.cpp: following the card

    method InvalidateSessions(s: nat, status: nat)
      modifies this`sessions
      ensures sessions == Invalidate(old(sessions), s, status)
    {
      for i := 0 to |sessions|
        invariant |sessions| == |old(sessions)|
        invariant forall j | 0 <= j < |sessions| ::
                    sessions[j] == if j < i then Invalidate(old(sessions), s, status)[j] else old(sessions)[j]
      {
        if On(sessions[i], s) {
          sessions := sessions[i := sessions[i].(state := status)];
        }
      }
    }

    method CleanObjects(s: nat)
      requires s < |slots|
      modifies this`slots
      ensures slots == old(slots)[s := old(slots)[s].(objects := CleanAll(old(slots)[s].objects))]
    {
      for i := 0 to |slots[s].objects|
        invariant |slots| == |old(slots)| && |slots[s].objects| == |old(slots)[s].objects|
        invariant slots == old(slots)[s := old(slots)[s].(objects := slots[s].objects)]
        invariant forall j | 0 <= j < |slots[s].objects| ::
                    slots[s].objects[j] == if j < i then Clean(old(slots)[s].objects[j]) else old(slots)[s].objects[j]
      {
        var o := slots[s].objects[i];
        if |o.attrs| <= MAX_OBJECT_SIZE {
          o := o.(inUse := false, cached := false, attrs := [], hidden := false);
        }
        slots := slots[s := slots[s].(objects := slots[s].objects[i := o])];
      }
      assert slots[s].objects == CleanAll(old(slots)[s].objects);
    }

    method UpdateToken(s: nat, r: Reading) returns (status: nat, rv: nat)
      modifies this
      ensures Engine.UpdateToken(old(Now()), s, r) == Updated(Now(), rv, status)
    {
      if s >= |slots| {
        return NOT_PRESENT, CKR_SLOT_ID_INVALID;
      }
      match r
      case NoCard => return NOT_PRESENT, CKR_OK;
      case Failure(code) => return NOT_PRESENT, code;
      case Status(reported, known) =>
        status := reported;
        if (status == INSERTED || status == STILL_PRESENT || status == OTHER) && !known {
          return status, CKR_TOKEN_NOT_RECOGNIZED;
        }
        if status != STILL_PRESENT {
          CleanObjects(s);
          slots := slots[s := slots[s].(listed := false, epoch := slots[s].epoch + 1)];
          InvalidateSessions(s, status);
        }
        rv := CKR_OK;
    }

    method Connect(s: nat, r: Reading) returns (rv: nat)
      modifies this
      ensures (Now(), rv) == Engine.Connect(old(Now()), s, r)
    {
      var status;
      status, rv := UpdateToken(s, r);
      if rv != CKR_OK {
        return;
      }
      if Absent(status) {
        return CKR_TOKEN_NOT_PRESENT;
      }
      slots := slots[s := slots[s].(connect := slots[s].connect + 1)];
    }

    method ValidateSession(i: nat, r: Reading) returns (rv: nat)
      requires i < |sessions|
      modifies this
      ensures (Now(), rv) == Validate(old(Now()), i, r)
    {
      if !sessions[i].inUse {
        return CKR_SESSION_HANDLE_INVALID;
      }
      if sessions[i].state != STILL_PRESENT {
        return CKR_DEVICE_REMOVED;
      }
      var status;
      status, rv := UpdateToken(sessions[i].slot, r);
      if rv == CKR_OK && status != STILL_PRESENT {
        rv := CKR_DEVICE_REMOVED;
      }
    }

    method GetSession(h: nat, r: Reading) returns (rv: nat)
      modifies this
      ensures (Now(), rv) == Engine.GetSession(old(Now()), h, r)
    {
      if h == 0 || h > |sessions| {
        return CKR_SESSION_HANDLE_INVALID;
      }
      rv := ValidateSession(h - 1, r);
    }

    // ---- session.c

    method GetFreeSession() returns (i: nat)
      modifies this`sessions
      ensures (sessions, i) == Reserve(old(sessions))
    {
      i := 0;
      while i < |sessions| && sessions[i].inUse
        invariant i <= |sessions|
        invariant forall j | 0 <= j < i :: sessions[j].inUse
      {
        i := i + 1;
      }
      FirstFree(sessions, i);
      if i == |sessions| {
        sessions := sessions + SessionStep;
      }
      sessions := sessions[i := sessions[i].(inUse := true)];
    }

    method OpenSession(s: nat, serial: bool, rw: bool, r: Reading) returns (rv: nat, h: nat)
      modifies this
      ensures (Now(), rv, h) == Open(old(Now()), s, serial, rw, r)
    {
      h := 0;
      if !serial {
        return CKR_SESSION_PARALLEL_NOT_SUPPORTED, h;
      }
      if s >= |slots| {
        return CKR_SLOT_ID_INVALID, h;
      }
      if !rw && slots[s].loginType == CKU_SO && slots[s].loggedIn {
        return CKR_SESSION_READ_WRITE_SO_EXISTS, h;
      }
      var i := GetFreeSession();
      h := i + 1;
      rv := Connect(s, r);
      if rv != CKR_OK {
        sessions := sessions[i := sessions[i].(inUse := false)];
        return;
      }
      sessions := sessions[i := sessions[i].(slot := s, rw := rw, state := STILL_PRESENT, openedIn := slots[s].epoch)];
      slots := slots[s := slots[s].(nsessions := slots[s].nsessions + 1)];
    }

    // p11_close_session together with the disconnect that it makes.
    method CloseEntry(i: nat, bye: nat) returns (rv: nat)
      requires i < |sessions| && sessions[i].slot < |slots|
      modifies this
      ensures (Now(), rv) == Engine.CloseEntry(old(Now()), i, bye)
    {
      var s := sessions[i].slot;
      var slot := slots[s];
      if slot.nsessions > 0 {
        slot := slot.(nsessions := slot.nsessions - 1);
      }
      if slot.nsessions < 1 && slot.loggedIn {
        slot := slot.(loggedIn := false);
      }
      if slot.connect > 0 {
        slot := slot.(connect := slot.connect - 1);
      }
      rv := if slot.connect < 1 then bye else CKR_OK;
      slots := slots[s := slot];
      if sessions[i].finding {
        sessions := sessions[i := sessions[i].(search := None, finding := false)];
      }
      sessions := sessions[i := sessions[i].(state := 0, inUse := false, rw := false, slot := 0)];
      assert sessions == old(sessions)[i := Closed(old(sessions)[i])];
    }

    method CloseSession(h: nat, r: Reading, bye: nat) returns (rv: nat)
      modifies this
      ensures (Now(), rv) == Close(old(Now()), h, r, bye)
    {
      if h == 0 || h > |sessions| {
        return CKR_SESSION_HANDLE_INVALID;
      }
      var ignored := ValidateSession(h - 1, r);
      if sessions[h - 1].slot >= |slots| {
        return CKR_OK;
      }
      rv := CloseEntry(h - 1, bye);
    }

    method CloseAllSessions(s: nat, bye: nat) returns (rv: nat)
      modifies this
      ensures (Now(), rv) == CloseAll(old(Now()), s, bye)
    {
      if s >= |slots| {
        return CKR_SLOT_ID_INVALID;
      }
      if slots[s].nsessions == 0 {
        return CKR_OK;
      }
      rv := CKR_OK;
      for i := 0 to |sessions|
        invariant |slots| == |old(slots)| && |sessions| == |old(sessions)|
        invariant CloseFrom(Now(), i, s, bye, rv) == CloseFrom(old(Now()), 0, s, bye, CKR_OK)
      {
        if On(sessions[i], s) {
          rv := CloseEntry(i, bye);
        }
      }
    }

    method Login(h: nat, user: nat, r: Reading, answer: nat) returns (rv: nat)
      modifies this
      ensures (Now(), rv) == Engine.Login(old(Now()), h, user, r, answer)
    {
      if user != CKU_USER && user != CKU_SO {
        return CKR_USER_TYPE_INVALID;
      }
      rv := GetSession(h, r);
      if rv != CKR_OK {
        return;
      }
      var s := sessions[h - 1].slot;
      if s >= |slots| {
        return CKR_SESSION_HANDLE_INVALID;
      }
      if slots[s].loggedIn {
        return CKR_OK;
      }
      rv := answer;
      if rv == CKR_OK {
        slots := slots[s := slots[s].(loginType := user, loggedIn := true, loginEpoch := slots[s].epoch)];
      }
    }

    method Logout(h: nat, r: Reading, answer: nat) returns (rv: nat)
      modifies this
      ensures (Now(), rv) == Engine.Logout(old(Now()), h, r, answer)
    {
      rv := GetSession(h, r);
      if rv != CKR_OK {
        return;
      }
      var s := sessions[h - 1].slot;
      if s >= |slots| {
        return CKR_SESSION_HANDLE_INVALID;
      }
      if !slots[s].loggedIn {
        return CKR_USER_NOT_LOGGED_IN;
      }
      slots := slots[s := slots[s].(loggedIn := false)];
      rv := answer;
    }

    // ---- object.c

    method AddObjects(s: nat, fillings: seq<Filling>) returns (rv: nat)
      requires s < |slots|
      modifies this
      ensures |slots| == |old(slots)| && (slots[s].objects, rv) == AddAll(old(slots[s].objects), fillings, slots[s].epoch)
      ensures Now() == WithSlot(old(Now()), s, old(slots[s]).(objects := slots[s].objects))
    {
      rv := CKR_OK;
      var i := 0;
      while i < |fillings| && rv == CKR_OK
        invariant i <= |fillings| && |slots| == |old(slots)|
        invariant Now() == WithSlot(old(Now()), s, old(slots[s]).(objects := slots[s].objects))
        invariant rv == CKR_OK ==>
                    AddAll(slots[s].objects, fillings[i..], slots[s].epoch) == AddAll(old(slots[s].objects), fillings, slots[s].epoch)
        invariant rv != CKR_OK ==> (slots[s].objects, rv) == AddAll(old(slots[s].objects), fillings, slots[s].epoch)
      {
        var h;
        h, rv := AddSlotObject(s, fillings[i]);
        i := i + 1;
      }
    }

    // cal_init_objects
    method ListCardObjects(s: nat, load: Load)
      requires s < |slots|
      modifies this
      ensures Now() == WithSlot(old(Now()), s, ListObjects(old(slots[s]), load))
    {
      if slots[s].listed {
        return;
      }
      var ignored := AddObjects(s, load.listing);
      slots := slots[s := slots[s].(listed := !load.thrown)];
    }

    method FindObjectsInit(h: nat, template: seq<Attr>, r: Reading, load: Load) returns (rv: nat)
      modifies this
      ensures (Now(), rv) == FindInit(old(Now()), h, template, r, load)
    {
      hide Engine.UpdateToken, Engine.GetSession, Validate, AddAll, ListObjects, Lookup, Ulong, OnCard, IsClass, Start;
      rv := GetSession(h, r);
      if rv != CKR_OK {
        return;
      }
      var s := sessions[h - 1].slot;
      if s >= |slots| {
        return CKR_SLOT_ID_INVALID;
      }
      var value, found := GetAttributeValue(template, CKA_CLASS);
      var class_ := if found == CKR_OK && |value.value| == 8 then value else None;
      if template == [] || OnCard(class_) || IsClass(class_, CKO_SECRET_KEY) {
        ListCardObjects(s, load);
      }
      if class_ != None && !OnCard(class_) && !IsClass(class_, CKO_SECRET_KEY) && !IsClass(class_, CKO_DATA) {
        return CKR_ATTRIBUTE_VALUE_INVALID;
      }
      rv := StartSearch(h, template);
      if rv == CKR_OK && IsClass(class_, CKO_DATA) {
        rv := AddObjects(s, load.files);
        if rv == CKR_OK {
          rv := load.rv;
        }
      }
    }

    method StartSearch(h: nat, template: seq<Attr>) returns (rv: nat)
      requires IsHandle(Now(), h)
      modifies this`sessions
      ensures (Now(), rv) == Start(old(Now()), h, template)
    {
      if sessions[h - 1].finding {
        return CKR_OPERATION_ACTIVE;
      }
      ghost var before := sessions;
      sessions := sessions[h - 1 := sessions[h - 1].(search := Some(Search([], 1)))];
      var copy;
      copy, rv := CopyObject(template);
      if rv != CKR_OK {
        return;
      }
      sessions := sessions[h - 1 := sessions[h - 1].(search := Some(Search(copy, 1)), finding := true)];
      assert sessions == before[h - 1 := before[h - 1].(finding := true, search := Some(Search(template, 1)))];
    }

    method Match(o: Object, template: seq<Attr>, showHidden: bool) returns (matches: bool)
      requires showHidden == ShowsHidden(template)
      ensures matches == Matches(o, template)
    {
      if !o.inUse || (o.hidden && !showHidden) {
        return false;
      }
      for j := 0 to |template|
        invariant forall k | 0 <= k < j :: Lookup(o.attrs, template[k].kind) == Some(template[k].value)
      {
        var value, rv := GetAttributeValue(o.attrs, template[j].kind);
        if rv != CKR_OK || |template[j].value| != |value.value| || template[j].value != value.value {
          return false;
        }
      }
      return true;
    }

    method FindObjects(h: nat, max: nat, r: Reading) returns (rv: nat, handles: seq<nat>)
      modifies this
      ensures (Now(), rv, handles) == Engine.FindObjects(old(Now()), h, max, r)
    {
      hide Engine.UpdateToken, Validate, Scan, Lookup, Ulong, OnCard, IsClass;
      handles := [];
      rv := GetSession(h, r);
      if rv != CKR_OK {
        return;
      }
      if !sessions[h - 1].finding || sessions[h - 1].search == None {
        return CKR_OPERATION_NOT_INITIALIZED, handles;
      }
      var template := sessions[h - 1].search.value.template;
      var value, found := GetAttributeValue(template, CKA_CLASS);
      if found == CKR_OK && |value.value| == 8 && !OnCard(value) && !IsClass(value, CKO_DATA) {
        return CKR_OK, handles;
      }
      value, found := GetAttributeValue(template, CKA_TOKEN);
      if found == CKR_OK && value.value == [0] {
        return CKR_OK, handles;
      }
      value, found := GetAttributeValue(template, CKA_LABEL);
      var showHidden := found == CKR_OK && |value.value| > 0;
      assert showHidden == ShowsHidden(template);
      var s := sessions[h - 1].slot;
      if s >= |slots| {
        return CKR_SLOT_ID_INVALID, handles;
      }
      handles := Advance(h, template, showHidden, max);
      return CKR_OK, handles;
    }

    // The loop of C_FindObjects.
    method Advance(h: nat, template: seq<Attr>, showHidden: bool, max: nat) returns (handles: seq<nat>)
      requires IsHandle(Now(), h) && sessions[h - 1].slot < |slots| && showHidden == ShowsHidden(template)
      requires sessions[h - 1].search != None && sessions[h - 1].search.value.template == template
      modifies this`sessions
      ensures var session := old(sessions)[h - 1];
              var (found, end) := Scan(slots[session.slot].objects, template, session.search.value.current, max);
              handles == found && sessions == old(sessions)[h - 1 := session.(search := Some(Search(template, end)))]
    {
      hide Matches, ShowsHidden;
      handles := [];
      var objects := slots[sessions[h - 1].slot].objects;
      ghost var session := sessions[h - 1];
      ghost var start := session.search.value.current;
      var g := sessions[h - 1].search.value.current;
      assert sessions == sessions[h - 1 := session];
      while 0 < g <= |objects| && |handles| < max
        invariant IsHandle(Now(), h) && slots == old(slots)
        invariant sessions == old(sessions)[h - 1 := session.(search := Some(Search(template, g)))]
        invariant |handles| <= max
        invariant Scan(objects, template, start, max).0 == handles + Scan(objects, template, g, max - |handles|).0
        invariant Scan(objects, template, start, max).1 == Scan(objects, template, g, max - |handles|).1
        decreases |objects| - g
      {
        var matches := Match(objects[g - 1], template, showHidden);
        if matches {
          handles := handles + [g];
        }
        g := g + 1;
        sessions := sessions[h - 1 := sessions[h - 1].(search := Some(Search(template, g)))];
      }
    }

    method FindObjectsFinal(h: nat, r: Reading) returns (rv: nat)
      modifies this
      ensures (Now(), rv) == FindFinal(old(Now()), h, r)
    {
      rv := GetSession(h, r);
      if rv != CKR_OK {
        return;
      }
      if !sessions[h - 1].finding {
        return CKR_OPERATION_NOT_INITIALIZED;
      }
      if sessions[h - 1].search == None {
        return CKR_OK;
      }
      sessions := sessions[h - 1 := sessions[h - 1].(search := None, finding := false)];
    }

    // The part of cal_read_object that stores what was read on one object; 0 stands for no object.
    method Store(s: nat, h: nat, sets: seq<Attr>) returns (rv: nat)
      requires s < |slots| && h <= |slots[s].objects|
      modifies this
      ensures |slots| == |old(slots)| && (slots[s].objects, rv) == StoreOn(old(slots[s].objects), h, sets)
      ensures Now() == WithSlot(old(Now()), s, old(slots[s]).(objects := slots[s].objects))
    {
      rv := CKR_OK;
      if h == 0 {
        return;
      }
      var attrs := slots[s].objects[h - 1].attrs;
      var i := 0;
      while i < |sets| && rv == CKR_OK
        invariant i <= |sets|
        invariant rv == CKR_OK ==> UpdateAll(slots[s].objects[h - 1].attrs, sets) == UpdateAll(attrs, sets[i..])
        invariant rv != CKR_OK ==> UpdateAll(slots[s].objects[h - 1].attrs, sets) == (attrs, rv)
        modifies {}
      {
        attrs, rv := SetAttributeValue(attrs, sets[i].kind, sets[i].value);
        i := i + 1;
      }
      var o := slots[s].objects[h - 1].(attrs := attrs);
      if rv == CKR_OK {
        o := o.(cached := true);
      }
      slots := slots[s := slots[s].(objects := slots[s].objects[h - 1 := o])];
    }

    method StorePair(s: nat, private: nat, public: nat, certificate: nat, card: Card) returns (rv: nat)
      requires s < |slots|
      requires private <= |slots[s].objects| && public <= |slots[s].objects| && certificate <= |slots[s].objects|
      modifies this
      ensures |slots| == |old(slots)| && (slots[s].objects, rv) == Engine.StorePair(old(slots[s].objects), private, public, certificate, card)
      ensures Now() == WithSlot(old(Now()), s, old(slots[s]).(objects := slots[s].objects))
    {
      match card
      case NoReader(code) => return code;
      case Unread(code) => return if certificate == 0 && public == 0 then CKR_OK else code;
      case Pair(values, ofPrivate, ofPublic, cardKey, lost) =>
        if certificate != 0 {
          rv := Store(s, certificate, values);
          if rv != CKR_OK {
            return;
          }
          if lost != CKR_OK {
            return lost;
          }
          rv := Store(s, private, ofPrivate);
          if rv == CKR_OK {
            rv := Store(s, public, ofPublic);
          }
        } else if public == 0 || !cardKey {
          return CKR_OK;
        } else if lost != CKR_OK {
          return lost;
        } else {
          rv := Store(s, public, ofPublic);
          if rv == CKR_OK {
            rv := Store(s, private, ofPrivate);
          }
        }
    }

    method ReadObject(s: nat, o: nat, r: Reading, card: Card) returns (rv: nat)
      requires s < |slots| && o < |slots[s].objects|
      modifies this
      ensures (Now(), rv) == Engine.ReadObject(old(Now()), s, o, r, card)
    {
      hide Engine.UpdateToken, Engine.StorePair, Lookup, Ulong;
      var status;
      status, rv := UpdateToken(s, r);
      if rv != CKR_OK {
        return;
      }
      if Absent(status) {
        return CKR_TOKEN_NOT_PRESENT;
      }
      var attrs := slots[s].objects[o].attrs;
      var value, id;
      value, rv := GetAttributeValue(attrs, CKA_CLASS);
      if rv != CKR_OK {
        return;
      }
      if value.value == Ulong(CKO_DATA) {
        return;
      }
      id, rv := GetAttributeValue(attrs, CKA_ID);
      if rv != CKR_OK {
        return;
      }
      var private, public, certificate := 0, 0, 0;
      if |id.value| == 8 {
        private := FindSlotObject(s, CKO_PRIVATE_KEY, id.value);
        public := FindSlotObject(s, CKO_PUBLIC_KEY, id.value);
        certificate := FindSlotObject(s, CKO_CERTIFICATE, id.value);
      }
      rv := StorePair(s, private, public, certificate, card);
    }

    method GetAttributeValues(h: nat, o: nat, requests: seq<Request>, r: Reading, again: Reading, card: Card)
      returns (rv: nat, answers: seq<Answer>)
      modifies this
      ensures (Now(), rv, answers) == GetAttributes(old(Now()), h, o, requests, r, again, card)
    {
      hide Engine.UpdateToken, Engine.GetSession, Engine.ReadObject, AnswerAll;
      answers := [];
      rv := GetSession(h, r);
      if rv != CKR_OK {
        return;
      }
      var s := sessions[h - 1].slot;
      if s >= |slots| {
        return CKR_SLOT_ID_INVALID, answers;
      }
      if o < 1 || o > |slots[s].objects| {
        return CKR_OBJECT_HANDLE_INVALID, answers;
      }
      if !slots[s].objects[o - 1].cached {
        rv := ReadObject(s, o - 1, again, card);
        if rv != CKR_OK {
          return;
        }
      }
      answers, rv := AnswerRequests(slots[s].objects[o - 1].attrs, requests);
    }

    method AnswerRequests(attrs: seq<Attr>, requests: seq<Request>) returns (answers: seq<Answer>, rv: nat)
      ensures (answers, rv) == AnswerAll(attrs, requests)
      ensures forall j | 0 <= j < |requests| :: IsAnswer(Lookup(attrs, requests[j].kind), requests[j], answers[j])
    {
      AnsweredByValue(attrs, requests);
      answers, rv := [], CKR_OK;
      for j := 0 to |requests|
        invariant (answers, rv) == AnswerAll(attrs, requests[..j])
      {
        assert requests[..j + 1][..j] == requests[..j];
        var value, found := GetAttributeValue(attrs, requests[j].kind);
        var answer;
        if found != CKR_OK {
          answer, rv := Answer(None, None), found;
        } else if requests[j].room == None {
          answer := Answer(Some(|value.value|), None);
        } else if |value.value| > requests[j].room.value {
          answer, rv := Answer(None, None), CKR_BUFFER_TOO_SMALL;
        } else {
          answer := Answer(Some(|value.value|), value);
        }
        answers := answers + [answer];
      }
      assert requests[..|requests|] == requests;
    }
  }

  // Every request is answered by its own value, and the call succeeds exactly when each kind exists and each buffer suffices.
  lemma AnswersEach(attrs: seq<Attr>, requests: seq<Request>)
    ensures var (answers, rv) := AnswerAll(attrs, requests);
            && (forall j | 0 <= j < |requests| :: IsAnswer(Lookup(attrs, requests[j].kind), requests[j], answers[j]))
            && (rv == CKR_OK <==>
                forall j | 0 <= j < |requests| ::
                  Lookup(attrs, requests[j].kind) != None
                  && (requests[j].room != None ==> |Lookup(attrs, requests[j].kind).value| <= requests[j].room.value))
  {
    hide Lookup, AnswerAll;
    AnsweredByValue(attrs, requests);
  }
}
