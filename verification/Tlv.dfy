/** The TLV extractor. */
module Tlv {
  import opened Wrappers

  // The tag-length-value extractor of the minidriver (tlv.c): one byte at a time against the list of fields.

  const ERROR_INSUFFICIENT_BUFFER: nat := 122

  // ---- Fields and their encoding: a length is a sum of bytes, of which all but the last are 0xFF

  datatype Field = Field(tag: Byte, value: seq<Byte>)

  function EncodeLength(n: nat): (r: seq<Byte>)
    ensures |r| >= 1
  {
    if n >= 255 then [255] + EncodeLength(n - 255) else [n]
  }

  function Encode(f: Field): seq<Byte> { [f.tag] + EncodeLength(|f.value|) + f.value }

  function EncodeAll(fields: seq<Field>): seq<Byte> {
    if fields == [] then [] else Encode(fields[0]) + EncodeAll(fields[1..])
  }

  function First(fields: seq<Field>, tag: Byte): Option<seq<Byte>> {
    if fields == [] then None
    else if fields[0].tag == tag then Some(fields[0].value)
    else First(fields[1..], tag)
  }

  // ---- What the extractor finds in any byte string: a length, and as much of the value as there is

  datatype Found = Missing | Got(length: nat, value: seq<Byte>)

  function Wrap(n: nat): (r: nat)
    ensures n < 0x1_0000_0000 ==> r == n
  {
    n % 0x1_0000_0000
  }

  function Cut(file: seq<Byte>, start: nat, n: nat): (r: seq<Byte>)
    requires start <= |file|
    ensures |r| <= n
  {
    if start + n <= |file| then file[start..start + n] else file[start..]
  }

  function Look(file: seq<Byte>, i: nat, tag: Byte): (r: Found)
    ensures r.Got? ==> |r.value| <= r.length
    decreases |file| - i
  {
    if i >= |file| then Missing else Measure(file, i + 1, tag, file[i] == tag, 0)
  }

  function Measure(file: seq<Byte>, i: nat, tag: Byte, matches: bool, sum: nat): (r: Found)
    ensures r.Got? ==> |r.value| <= r.length
    decreases |file| - i
  {
    if i >= |file| then Missing
    else
      var length := Wrap(sum + file[i]);
      if file[i] == 0xFF then Measure(file, i + 1, tag, matches, length)
      else if matches then Got(length, Cut(file, i + 1, length))
      else Look(file, i + 1 + length, tag)
  }

  datatype Awaited = Tag | Length | Value

  function Bytes(buffer: array?<Byte>): (b: seq<Byte>)
    reads buffer
    ensures buffer != null ==> |b| == buffer.Length
  {
    if buffer == null then [] else buffer[..]
  }

  // What a caller gets for what was found: without a buffer the length only, in a buffer with enough room the value as
  // far as the file has it, and nothing else in the buffer changes.
  predicate Delivered(r: Found, query: bool, was: seq<Byte>, now: seq<Byte>, room: nat, rv: nat, size: Option<nat>) {
    match r
    case Missing => rv == 0 && size == None && now == was
    case Got(length, value) =>
      size == Some(length)
      && if query then rv == 0
         else if length > room then rv == ERROR_INSUFFICIENT_BUFFER && now == was
         else rv == 0 && |value| <= |was| && now == value + was[|value|..]
  }

  /**
  TLVGetField. `size` is what *pdwDataLen is set to, `None` when it is left alone; a null buffer asks for the size.
  The method ends on every byte string.
  */
  method GetField(file: seq<Byte>, buffer: array?<Byte>, room: nat, field: Byte) returns (rv: nat, size: Option<nat>)
    requires buffer != null ==> room <= buffer.Length
    modifies buffer
    ensures Delivered(Look(file, 0, field), buffer == null, old(Bytes(buffer)), Bytes(buffer), room, rv, size)
  {
    hide Wrap, Cut, Look, Measure, Scanning, Filled, Delivered;
    ghost var start, was := 0, Bytes(buffer);
    var index: nat, length: nat, at: nat := 0, 0, 0;
    var found, next := false, Tag;
    rv, size := 0, None;
    ScanStart(file, field);
    while index < |file|
      invariant index <= |file| && rv == 0 && Scanning(file, field, next, found, index, start, length)
      invariant next == Tag ==> !found
      invariant next == Value ==> at < length && index == start + at
      invariant next == Value && found ==> buffer != null && length <= room && size == Some(length)
      invariant next != Value || !found ==> size == None
      invariant if next == Value && found then Filled(Bytes(buffer), file, start, index, was) else Bytes(buffer) == was
      decreases |file| - index
    {
      var b := file[index];
      ScanStep(file, field, next, found, index, start, length);
      match next {
        case Tag =>
          if b == field {
            found := true;
          }
          next := Length;
          length := 0;
        case Length =>
          length := Wrap(length + b);
          if b != 0xFF {
            next := if length != 0 then Value else Tag;
            if found {
              size := Some(length);
              SizeEnds(file, field, index + 1, length, buffer == null, was, room);
              if buffer == null {
                return;
              }
              if length == 0 {
                return;
              }
              if length > room {
                return ERROR_INSUFFICIENT_BUFFER, size;
              }
            }
          }
          at := 0;
          start := index + 1;
          FillNone(file, start, was);
        case Value =>
          if found && buffer != null {
            Put(buffer, at, file, start, index, was);
          }
          at := at + 1;
          if at == length {
            next := Tag;
            if found {
              ValueEnds(file, field, start, index + 1, length, was, Bytes(buffer), room);
              return;
            }
          }
      }
      index := index + 1;
    }
    ScanEnd(file, field, next, found, index, start, length);
    if next == Value && found {
      ValueEnds(file, field, start, index, length, was, Bytes(buffer), room);
    } else {
      NothingFound(buffer == null, was, room);
    }
  }

  // The three ways in which the scan ends.
  lemma SizeEnds(file: seq<Byte>, tag: Byte, start: nat, length: nat, query: bool, was: seq<Byte>, room: nat)
    requires start <= |file| && Look(file, 0, tag) == Got(length, Cut(file, start, length))
    ensures query || length == 0 ==> Delivered(Look(file, 0, tag), query, was, was, room, 0, Some(length))
    ensures !query && length > room ==>
              Delivered(Look(file, 0, tag), query, was, was, room, ERROR_INSUFFICIENT_BUFFER, Some(length))
  {
    hide Look;
  }

  lemma ValueEnds(file: seq<Byte>, tag: Byte, start: nat, index: nat, length: nat, was: seq<Byte>, now: seq<Byte>, room: nat)
    requires start <= |file| && Look(file, 0, tag) == Got(length, Cut(file, start, length)) && length <= room
    requires Filled(now, file, start, index, was) && index <= start + length
    requires index == start + length || index == |file|
    ensures Delivered(Look(file, 0, tag), false, was, now, room, 0, Some(length))
  {
    hide Look;
  }

  lemma NothingFound(query: bool, was: seq<Byte>, room: nat)
    ensures Delivered(Missing, query, was, was, room, 0, None)
  {
  }

  // What the scan knows before the byte at `index`.
  predicate Scanning(file: seq<Byte>, tag: Byte, next: Awaited, found: bool, index: nat, start: nat, length: nat) {
    match next
    case Tag => Look(file, 0, tag) == Look(file, index, tag)
    case Length => Look(file, 0, tag) == Measure(file, index, tag, found, length)
    case Value =>
      start <= index < start + length && start <= |file|
      && Look(file, 0, tag) == if found then Got(length, Cut(file, start, length)) else Look(file, start + length, tag)
  }

  lemma ScanStart(file: seq<Byte>, tag: Byte)
    ensures Scanning(file, tag, Tag, false, 0, 0, 0)
  {
  }

  // One byte on.
  lemma ScanStep(file: seq<Byte>, tag: Byte, next: Awaited, found: bool, index: nat, start: nat, length: nat)
    requires index < |file| && Scanning(file, tag, next, found, index, start, length)
    ensures match next
      case Tag => Scanning(file, tag, Length, file[index] == tag, index + 1, start, 0)
      case Length =>
        var longer := Wrap(length + file[index]);
        if file[index] == 0xFF then Scanning(file, tag, Length, found, index + 1, index + 1, longer)
        else if found then
          Look(file, 0, tag) == Got(longer, Cut(file, index + 1, longer))
          && (longer != 0 ==> Scanning(file, tag, Value, true, index + 1, index + 1, longer))
        else Scanning(file, tag, if longer == 0 then Tag else Value, false, index + 1, index + 1, longer)
      case Value =>
        (found ==> start <= |file| && Look(file, 0, tag) == Got(length, Cut(file, start, length)))
        && if index + 1 < start + length then Scanning(file, tag, Value, found, index + 1, start, length)
           else !found ==> Scanning(file, tag, Tag, false, index + 1, start, length)
  {
    hide Wrap, Cut, Look, Measure;
    match next
    case Tag => LookHere(file, index, tag);
    case Length => MeasureHere(file, index, tag, found, length);
    case Value =>
  }

  lemma ScanEnd(file: seq<Byte>, tag: Byte, next: Awaited, found: bool, index: nat, start: nat, length: nat)
    requires index == |file| && Scanning(file, tag, next, found, index, start, length)
    ensures if next == Value && found then start <= |file| && Look(file, 0, tag) == Got(length, Cut(file, start, length))
            else Look(file, 0, tag) == Missing
  {
    hide Wrap, Cut, Look, Measure;
    LookPast(file, index, tag, found, length);
  }

  // The buffer holds the file's bytes from `start` to `index`, and behind them what was there before.
  predicate Filled(now: seq<Byte>, file: seq<Byte>, start: nat, index: nat, was: seq<Byte>) {
    start <= index <= |file| && index - start <= |was| && now == file[start..index] + was[index - start..]
  }

  lemma FillNone(file: seq<Byte>, start: nat, was: seq<Byte>)
    requires start <= |file|
    ensures Filled(was, file, start, start, was)
  {
  }

  lemma PutByte(now: seq<Byte>, file: seq<Byte>, start: nat, index: nat, was: seq<Byte>)
    requires Filled(now, file, start, index, was) && index < |file| && index - start < |was|
    ensures |now| == |was| && Filled(now[index - start := file[index]], file, start, index + 1, was)
  {
  }

  method Put(buffer: array<Byte>, at: nat, file: seq<Byte>, ghost start: nat, index: nat, ghost was: seq<Byte>)
    requires at < buffer.Length == |was| && index == start + at < |file| && Filled(Bytes(buffer), file, start, index, was)
    modifies buffer
    ensures Filled(Bytes(buffer), file, start, index + 1, was)
  {
    hide Filled;
    ghost var before := buffer[..];
    PutByte(before, file, start, index, was);
    buffer[at] := file[index];
    assert buffer[..] == before[at := file[index]];
  }

  // The two states of the scan, one byte on.
  lemma LookHere(file: seq<Byte>, i: nat, tag: Byte)
    requires i < |file|
    ensures Look(file, i, tag) == Measure(file, i + 1, tag, file[i] == tag, 0)
  {
  }

  lemma MeasureHere(file: seq<Byte>, i: nat, tag: Byte, matches: bool, sum: nat)
    requires i < |file|
    ensures var length := Wrap(sum + file[i]);
            Measure(file, i, tag, matches, sum) ==
            if file[i] == 0xFF then Measure(file, i + 1, tag, matches, length)
            else if matches then Got(length, Cut(file, i + 1, length))
            else Look(file, i + 1 + length, tag)
  {
  }

  lemma LookPast(file: seq<Byte>, i: nat, tag: Byte, matches: bool, sum: nat)
    requires i >= |file|
    ensures Measure(file, i, tag, matches, sum) == Missing
    ensures forall j: nat | j >= |file| :: Look(file, j, tag) == Missing
  {
  }

  // ---- On encoded fields this is the first field with the tag

  lemma {:induction false} MeasureEncoded(file: seq<Byte>, i: nat, n: nat, tag: Byte, matches: bool, sum: nat)
    requires sum + n < 0x1_0000_0000
    requires i + |EncodeLength(n)| <= |file| && file[i..i + |EncodeLength(n)|] == EncodeLength(n)
    ensures var start := i + |EncodeLength(n)|;
            Measure(file, i, tag, matches, sum) ==
            if matches then Got(sum + n, Cut(file, start, sum + n)) else Look(file, start + sum + n, tag)
    decreases n
  {
    hide Wrap, Cut, Look;
    var code := EncodeLength(n);
    assert file[i] == code[0];
    if n >= 255 {
      assert code[1..] == EncodeLength(n - 255);
      assert file[i + 1..i + |code|] == code[1..];
      MeasureEncoded(file, i + 1, n - 255, tag, matches, sum + 255);
    }
  }

  // ---- Encoded fields, whole or cut off anywhere

  // How many bytes stand in front of the first field with the tag.
  function Offset(fields: seq<Field>, tag: Byte): nat {
    if fields == [] || fields[0].tag == tag then 0 else |Encode(fields[0])| + Offset(fields[1..], tag)
  }

  // What can be found in the first k bytes: nothing before the header of the field is whole, then its length and
  // as much of its value as there is.
  function Remains(fields: seq<Field>, tag: Byte, k: nat): Found {
    match First(fields, tag)
    case None => Missing
    case Some(value) =>
      var head := Offset(fields, tag) + 1 + |EncodeLength(|value|)|;
      if k < head then Missing else Got(|value|, if k < head + |value| then value[..k - head] else value)
  }

  // A length that is cut off is never complete.
  lemma {:induction false} MeasureCut(file: seq<Byte>, i: nat, n: nat, tag: Byte, matches: bool, sum: nat)
    requires i <= |file| && |file| - i < |EncodeLength(n)| && file[i..] == EncodeLength(n)[..|file| - i]
    ensures Measure(file, i, tag, matches, sum) == Missing
    decreases n
  {
    hide Wrap, Cut, Look;
    var code := EncodeLength(n);
    if i < |file| {
      assert n >= 255 && file[i] == file[i..][0] == code[0] == 255;
      assert code[1..] == EncodeLength(n - 255);
      assert file[i + 1..] == file[i..][1..] == code[1..][..|file| - i - 1];
      MeasureCut(file, i + 1, n - 255, tag, matches, Wrap(sum + 255));
    }
  }

  lemma {:induction false} LookCut(file: seq<Byte>, i: nat, fields: seq<Field>, tag: Byte)
    requires forall f <- fields :: |f.value| < 0x1_0000_0000
    requires i <= |file| && file[i..] <= EncodeAll(fields)
    ensures Look(file, i, tag) == Remains(fields, tag, |file| - i)
    decreases |fields|
  {
    hide Measure, EncodeLength, Wrap;
    if i == |file| || fields == [] {
      assert i == |file|;
    } else {
      var f := fields[0];
      var code, n, tail := EncodeLength(|f.value|), |f.value|, EncodeAll(fields[1..]);
      var start := i + 1 + |code|;
      CutPieces(file, i, f.tag, code, f.value, tail);
      if start > |file| {
        MeasureCut(file, i + 1, n, tag, f.tag == tag, 0);
      } else {
        MeasureEncoded(file, i + 1, n, tag, f.tag == tag, 0);
        if f.tag != tag && start + n <= |file| {
          LookCut(file, start + n, fields[1..], tag);
        } else if f.tag != tag {
          LookPast(file, start + n, tag, false, 0);
        }
      }
    }
  }

  // A field that may be cut off anywhere, taken apart.
  lemma CutPieces(file: seq<Byte>, i: nat, tag: Byte, code: seq<Byte>, value: seq<Byte>, tail: seq<Byte>)
    requires i < |file| && file[i..] <= [tag] + code + value + tail
    ensures var start, n := i + 1 + |code|, |value|;
            file[i] == tag
            && if start > |file| then file[i + 1..] == code[..|file| - i - 1]
               else
                 file[i + 1..start] == code
                 && if start + n > |file| then file[start..] == value[..|file| - start]
                    else file[start..start + n] == value && file[start + n..] <= tail
  {
    var rest, whole, m := file[i..], [tag] + code + value + tail, |file| - i;
    assert rest == whole[..m] && file[i] == rest[0];
    if m < 1 + |code| {
      assert file[i + 1..] == rest[1..] == whole[1..m] == code[..m - 1];
    } else {
      assert file[i + 1..i + 1 + |code|] == rest[1..1 + |code|] == whole[1..1 + |code|] == code;
      CutTail(file, i + 1 + |code|, value, tail, rest, whole, 1 + |code|, m);
    }
  }

  lemma CutTail(file: seq<Byte>, start: nat, value: seq<Byte>, tail: seq<Byte>, rest: seq<Byte>, whole: seq<Byte>, h: nat, m: nat)
    requires h <= m <= |whole| && whole[h..] == value + tail && rest == whole[..m]
    requires start <= |file| && file[start..] == rest[h..]
    ensures var n := |value|;
            if start + n > |file| then file[start..] == value[..|file| - start]
            else file[start..start + n] == value && file[start + n..] <= tail
  {
    var left := file[start..];
    assert left == (value + tail)[..m - h];
    if start + |value| > |file| {
      assert left == value[..m - h];
    } else {
      assert file[start..start + |value|] == left[..|value|] == value;
      assert file[start + |value|..] == left[|value|..] == tail[..m - h - |value|];
    }
  }

  /**
  Every beginning of a list of fields. Nothing is found as long as no header with the tag is whole; after that the
  whole length of the first such field is reported, with the part of its value that is there, without an error. What
  is delivered is the value if and only if the field ends within the beginning.
  */
  lemma CutShort(fields: seq<Field>, tag: Byte, k: nat)
    requires (forall f <- fields :: |f.value| < 0x1_0000_0000) && k <= |EncodeAll(fields)|
    ensures var r := Look(EncodeAll(fields)[..k], 0, tag);
            match First(fields, tag)
            case None => r == Missing
            case Some(value) =>
              var head := Offset(fields, tag) + 1 + |EncodeLength(|value|)|;
              (r == Missing <==> k < head)
              && (k >= head ==>
                    r == Got(|value|, if k < head + |value| then value[..k - head] else value)
                    && (r.value == value <==> head + |value| <= k))
  {
    hide EncodeLength, Look, Offset;
    var file := EncodeAll(fields)[..k];
    assert file[0..] == file;
    LookCut(file, 0, fields, tag);
  }

  // The extractor finds the first field with the tag and nothing else, whatever the values of the fields look like.
  lemma FindsFirst(fields: seq<Field>, tag: Byte)
    requires forall f <- fields :: |f.value| < 0x1_0000_0000
    ensures Look(EncodeAll(fields), 0, tag)
         == match First(fields, tag) case None => Missing case Some(value) => Got(|value|, value)
  {
    hide EncodeLength, Look;
    var file := EncodeAll(fields);
    assert file[0..] == file;
    LookCut(file, 0, fields, tag);
    FieldInside(fields, tag);
  }

  lemma {:induction false} FieldInside(fields: seq<Field>, tag: Byte)
    ensures match First(fields, tag)
      case None => true
      case Some(value) => Offset(fields, tag) + 1 + |EncodeLength(|value|)| + |value| <= |EncodeAll(fields)|
    decreases |fields|
  {
    hide EncodeLength;
    if fields != [] && fields[0].tag != tag {
      FieldInside(fields[1..], tag);
    }
  }

  // The size that a query without buffer gives is enough for the value, and exactly the value is delivered.
  method QueryThenGet(fields: seq<Field>, field: Byte) returns (value: Option<seq<Byte>>)
    requires forall f <- fields :: |f.value| < 0x1_0000_0000
    ensures value == First(fields, field)
  {
    FindsFirst(fields, field);
    var file := EncodeAll(fields);
    var rv, size := GetField(file, null, 0, field);
    if size == None {
      return None;
    }
    var buffer := new Byte[size.value];
    ghost var was := buffer[..];
    rv, size := GetField(file, buffer, buffer.Length, field);
    assert rv == 0 && size == Some(buffer.Length) && was[buffer.Length..] == [];
    assert buffer[..] == First(fields, field).value;
    return Some(buffer[..]);
  }
}
