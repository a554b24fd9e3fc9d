/** What C_GetAttributeValue delivers. */
module Answering {
  import opened Wrappers
  import opened Attributes
  import opened ObjectTable
  import opened Engine
  import opened Evolution
  import opened SessionSafety

  // Each request is answered from the attribute list alone; the length is that of the value, never that of the buffer.

  /** What one request has to get, by the value of its kind, if any. */
  predicate IsAnswer(value: Option<seq<Byte>>, q: Request, a: Answer) {
    && (value == None ==> a.length == None && a.value == None)
    && (value != None && q.room == None ==> a.length == Some(|value.value|) && a.value == None)
    && (value != None && q.room != None && |value.value| <= q.room.value ==> a.length == Some(|value.value|) && a.value == value)
    && (value != None && q.room != None && |value.value| > q.room.value ==> a.length == None && a.value == None)
  }

  /** The error of one request, if any. */
  function ErrorOf(value: Option<seq<Byte>>, q: Request): nat {
    if value == None then CKR_ATTRIBUTE_TYPE_INVALID
    else if q.room != None && |value.value| > q.room.value then CKR_BUFFER_TOO_SMALL
    else CKR_OK
  }

  /** Every request is answered by its own value, and the error returned is that of the last request that has one. */
  lemma {:induction false} AnsweredByValue(attrs: seq<Attr>, requests: seq<Request>)
    ensures var (answers, rv) := AnswerAll(attrs, requests);
            && (forall j | 0 <= j < |requests| :: IsAnswer(Lookup(attrs, requests[j].kind), requests[j], answers[j]))
            && (rv == CKR_OK <==> forall j | 0 <= j < |requests| :: ErrorOf(Lookup(attrs, requests[j].kind), requests[j]) == CKR_OK)
            && (rv != CKR_OK ==>
                  exists j :: 0 <= j < |requests| && rv == ErrorOf(Lookup(attrs, requests[j].kind), requests[j])
                              && forall i | j < i < |requests| :: ErrorOf(Lookup(attrs, requests[i].kind), requests[i]) == CKR_OK)
    decreases |requests|
  {
    hide Lookup;
    if requests != [] {
      var n := |requests| - 1;
      AnsweredByValue(attrs, requests[..n]);
      assert forall j | 0 <= j < n :: requests[..n][j] == requests[j];
      if AnswerAll(attrs, requests).1 != CKR_OK {
        if ErrorOf(Lookup(attrs, requests[n].kind), requests[n]) == CKR_OK {
          var j :| 0 <= j < n && AnswerAll(attrs, requests).1 == ErrorOf(Lookup(attrs, requests[j].kind), requests[..n][j])
                   && forall i | j < i < n :: ErrorOf(Lookup(attrs, requests[..n][i].kind), requests[..n][i]) == CKR_OK;
        }
      }
    }
  }

  function Query(kinds: seq<nat>): (r: seq<Request>)
    ensures |r| == |kinds| && forall j | 0 <= j < |r| :: r[j] == Request(kinds[j], None)
  {
    seq(|kinds|, j requires 0 <= j < |kinds| => Request(kinds[j], None))
  }

  function Get(kinds: seq<nat>, answers: seq<Answer>): (r: seq<Request>)
    requires |answers| == |kinds|
    ensures |r| == |kinds| && forall j | 0 <= j < |r| :: r[j] == Request(kinds[j], answers[j].length)
  {
    seq(|kinds|, j requires 0 <= j < |kinds| => Request(kinds[j], answers[j].length))
  }

  /** Asking for the lengths first: with buffers of just these lengths every value is delivered, and none is refused. */
  lemma QueryThenGet(attrs: seq<Attr>, kinds: seq<nat>)
    requires forall j | 0 <= j < |kinds| :: Lookup(attrs, kinds[j]) != None
    ensures var (lengths, queried) := AnswerAll(attrs, Query(kinds));
            var (answers, rv) := AnswerAll(attrs, Get(kinds, lengths));
            queried == CKR_OK && rv == CKR_OK
            && forall j | 0 <= j < |kinds| :: answers[j].value == Lookup(attrs, kinds[j])
                                              && answers[j].length == Some(|Lookup(attrs, kinds[j]).value|)
  {
    hide Lookup, AnswerAll;
    AnsweredByValue(attrs, Query(kinds));
    AnsweredByValue(attrs, Get(kinds, AnswerAll(attrs, Query(kinds)).0));
  }

  // ---- The first read after a listing

  /** The values that the card gives for an object of a class. */
  function OfClass(card: Card, objClass: nat): seq<Attr>
    requires card.Pair?
  {
    if objClass == CKO_CERTIFICATE then card.certificate else if objClass == CKO_PRIVATE_KEY then card.private else card.public
  }

  /**
  Reading a certificate or key that was only listed so far: with the card still there and its values stored, every request
  gets what the card gave for an object of this class and id, and what it was listed with for kinds that the card gave no
  value for.
  */
  lemma FirstRead(p: P11, h: nat, o: nat, requests: seq<Request>, r: Reading, card: Card, objClass: nat, id: seq<Byte>)
    requires GetSession(p, h, r).1 == CKR_OK && IsHandle(p, h) && p.sessions[h - 1].slot < |p.slots|
    requires objClass == CKO_CERTIFICATE || objClass == CKO_PRIVATE_KEY || objClass == CKO_PUBLIC_KEY
    requires var objects := p.slots[p.sessions[h - 1].slot].objects;
             && 0 < o <= |objects| && !objects[o - 1].cached && Find(objects, objClass, id) == o
             && Find(objects, CKO_CERTIFICATE, id) != 0 && card.Pair? && ReadPair(objects, id, card).1 == CKR_OK
    ensures var objects := p.slots[p.sessions[h - 1].slot].objects;
            var (_, rv, answers) := GetAttributes(p, h, o, requests, r, Status(STILL_PRESENT, true), card);
            var value := (q: Request) => Given(OfClass(card, objClass), objects[o - 1].attrs, q.kind);
            && |answers| == |requests|
            && (forall j | 0 <= j < |requests| :: IsAnswer(value(requests[j]), requests[j], answers[j]))
            && (rv == CKR_OK <==> forall j | 0 <= j < |requests| :: ErrorOf(value(requests[j]), requests[j]) == CKR_OK)
  {
    hide UpdateToken, ReadPair, Find, Lookup, Ulong, AnswerAll, Given, LastSet;
    GetEvolves(p, h, r, 0);
    var s := p.sessions[h - 1].slot;
    var objects := p.slots[s].objects;
    StillSame(p, s);
    KeyIsNoData(objects[o - 1], objClass, id);
    var read := ReadPair(objects, id, card).0;
    assert ReadObject(p, s, o - 1, Status(STILL_PRESENT, true), card).0.slots[s].objects == read;
    forall j | 0 <= j < |requests|
      ensures Lookup(read[o - 1].attrs, requests[j].kind) == Given(OfClass(card, objClass), objects[o - 1].attrs, requests[j].kind)
    {
      PairReads(objects, id, card, requests[j].kind);
    }
    AnsweredByValue(read[o - 1].attrs, requests);
  }

  lemma KeyIsNoData(o: Object, objClass: nat, id: seq<Byte>)
    requires objClass == CKO_CERTIFICATE || objClass == CKO_PRIVATE_KEY || objClass == CKO_PUBLIC_KEY
    requires IsKey(o, objClass, id)
    ensures Lookup(o.attrs, CKA_ID) == Some(id) && Lookup(o.attrs, CKA_CLASS) != None && !IsClass(Lookup(o.attrs, CKA_CLASS), CKO_DATA)
  {
    hide LittleEndian;
    UlongInjective(objClass, CKO_DATA);
  }

  /** An object that was read before is answered without the card. */
  lemma CachedRead(p: P11, h: nat, o: nat, requests: seq<Request>, r: Reading, again: Reading, card: Card)
    requires GetSession(p, h, r).1 == CKR_OK && IsHandle(p, h) && p.sessions[h - 1].slot < |p.slots|
    requires var objects := p.slots[p.sessions[h - 1].slot].objects; 0 < o <= |objects| && objects[o - 1].cached
    ensures var attrs := p.slots[p.sessions[h - 1].slot].objects[o - 1].attrs;
            var (q, rv, answers) := GetAttributes(p, h, o, requests, r, again, card);
            q == p && |answers| == |requests|
            && forall j | 0 <= j < |requests| :: IsAnswer(Lookup(attrs, requests[j].kind), requests[j], answers[j])
  {
    hide UpdateToken, AnswerAll, Lookup;
    GetEvolves(p, h, r, 0);
    AnsweredByValue(p.slots[p.sessions[h - 1].slot].objects[o - 1].attrs, requests);
  }

  /** Without a certificate only the card key's own file is read, for both keys of the pair. */
  lemma KeyFileReads(objects: seq<Object>, id: seq<Byte>, card: Card, kind: nat)
    requires card.Pair? && Find(objects, CKO_CERTIFICATE, id) == 0
    ensures var (q, rv) := ReadPair(objects, id, card);
            var k, u := Find(objects, CKO_PRIVATE_KEY, id), Find(objects, CKO_PUBLIC_KEY, id);
            if u == 0 || !card.cardKey then q == objects && rv == CKR_OK
            else if card.lost != CKR_OK then q == objects && rv == card.lost
            else rv == CKR_OK ==>
                   IsRead(objects, q, k, card.private, kind) && IsRead(objects, q, u, card.public, kind)
                   && forall j | 0 <= j < |objects| && j + 1 != k && j + 1 != u :: q[j] == objects[j]
  {
    hide Find, StoreOn, IsKey, Given, Lookup;
    KeysDiffer(objects, id);
    var k, u := Find(objects, CKO_PRIVATE_KEY, id), Find(objects, CKO_PUBLIC_KEY, id);
    if u != 0 && card.cardKey && card.lost == CKR_OK && ReadPair(objects, id, card).1 == CKR_OK {
      StoreIsRead(objects, u, card.public, kind);
      StoreIsRead(StoreOn(objects, u, card.public).0, k, card.private, kind);
    }
  }

  /** What a reader's failure leaves: nothing stored, and its error, unless there is neither certificate nor public key to read. */
  lemma FailureStoresNothing(objects: seq<Object>, id: seq<Byte>, card: Card)
    requires !card.Pair?
    ensures var (q, rv) := ReadPair(objects, id, card);
            q == objects
            && (rv == CKR_OK <==> card.Unread? && Find(objects, CKO_CERTIFICATE, id) == 0 && Find(objects, CKO_PUBLIC_KEY, id) == 0)
            && (rv != CKR_OK ==> rv == card.code)
  {
  }

  /** An object counts as read from the first time that all its values were stored. */
  lemma ReadOnce(objects: seq<Object>, h: nat, sets: seq<Attr>)
    requires 0 < h <= |objects|
    ensures var (q, rv) := StoreOn(objects, h, sets); q[h - 1].cached <==> rv == CKR_OK || objects[h - 1].cached
  {
  }

  /** When all values of a pair with a certificate can be stored. */
  lemma PairStored(objects: seq<Object>, id: seq<Byte>, card: Card)
    requires card.Pair? && Find(objects, CKO_CERTIFICATE, id) != 0
    ensures ReadPair(objects, id, card).1 == CKR_OK <==>
            && card.lost == CKR_OK
            && Takes(objects, Find(objects, CKO_CERTIFICATE, id), card.certificate)
            && Takes(objects, Find(objects, CKO_PRIVATE_KEY, id), card.private)
            && Takes(objects, Find(objects, CKO_PUBLIC_KEY, id), card.public)
  {
    hide Find, IsKey, UpdateAll, Lookup, LastSet;
    KeysDiffer(objects, id);
    var k, u, c := Find(objects, CKO_PRIVATE_KEY, id), Find(objects, CKO_PUBLIC_KEY, id), Find(objects, CKO_CERTIFICATE, id);
    UpdateAllSucceeds(objects[c - 1].attrs, card.certificate);
    if k > 0 { UpdateAllSucceeds(objects[k - 1].attrs, card.private); }
    if u > 0 { UpdateAllSucceeds(objects[u - 1].attrs, card.public); }
  }

  /** The object with handle `h`, if there is one, has room for each of the values. */
  predicate Takes(objects: seq<Object>, h: nat, sets: seq<Attr>)
    requires h <= |objects|
  {
    h > 0 ==>
      forall i | 0 <= i < |sets| :: |sets[i].value| <= MAX_ATTRIBUTE_SIZE && Lookup(objects[h - 1].attrs, sets[i].kind) != None
  }
}
