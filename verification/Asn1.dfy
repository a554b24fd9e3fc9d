/** The DER reader. */
module Asn1 {
  import opened Wrappers

  // The DER reader: skipping items, following a path of child indices, and taking items off a list, over raw
  // memory. Positions are addresses; memory around the data is arbitrary, and the reader may look at it.

  type Memory = int -> Byte
  datatype Outcome<+T> = Ok(value: T) | Error(code: int)

  const E_TAG_LEN := -2
  const E_BAD_LEN := -3
  const E_INCOMPLETE := -4
  const E_NOT_FOUND := -5

  /** Unsigned 32-bit arithmetic. */
  function Wrap(n: int): (r: nat)
    ensures 0 <= n < 0x1_0000_0000 ==> r == n
  {
    n % 0x1_0000_0000
  }

  /** What the reader returns; `raw` is absent when no header was read. */
  datatype Item = Item(tag: nat, data: int, len: nat, raw: Option<int>, rawLen: nat)

  // ----- Specification of the reader ----------------------------------------------------------

  /** The continuation octets of a tag number, at most four; the result ends at the last of them. */
  function HighTag(mem: Memory, p: int, end: int, read: nat, num: nat): (r: Outcome<(nat, int)>)
    requires read <= 4
    ensures r.Ok? ==> r.value.1 > p
    decreases 4 - read
  {
    if read == 4 then Error(E_TAG_LEN)
    else
      var num' := num * 128 + mem(p + 1) % 128;
      if mem(p + 1) >= 128 && p + 1 < end then HighTag(mem, p + 1, end, read + 1, num') else Ok((num', p + 1))
  }

  /** The tag number of the item at `p` and the position of its last identifier octet. */
  function TagNumber(mem: Memory, p: int, end: int): (r: Outcome<(nat, int)>)
    ensures r.Ok? ==> r.value.1 >= p
  {
    if mem(p) % 32 == 31 then HighTag(mem, p, end, 0, 0) else Ok((mem(p) % 32, p))
  }

  function LengthBytes(mem: Memory, p: int, end: int, count: nat, acc: nat): (r: Outcome<(nat, int)>)
    ensures r.Ok? ==> r.value.1 == p + count + 1
    decreases count
  {
    if count == 0 then Ok((acc, p + 1))
    else if p + 1 > end then Error(E_INCOMPLETE)
    else LengthBytes(mem, p + 1, end, count - 1, acc * 256 + mem(p + 1))
  }

  /** The length that follows the last identifier octet `p`, and where the contents start. */
  function LengthAt(mem: Memory, p: int, end: int): (r: Outcome<(nat, int)>)
    ensures r.Ok? ==> r.value.1 >= p + 2
  {
    var b := mem(p + 1);
    if b < 128 then Ok((b, p + 2))
    else if b - 128 > 4 then Error(E_BAD_LEN)
    else LengthBytes(mem, p + 1, end, b - 128, 0)
  }

  predicate EndMark(mem: Memory, p: int) { mem(p) == 0 && mem(p + 1) == 0 }

  function PastZeros(mem: Memory, p: int, end: int): (r: int)
    ensures p <= r
    decreases end - p + 1
  {
    if p <= end && mem(p) == 0 then PastZeros(mem, p + 1, end) else p
  }

  function SkipOne(mem: Memory, p: int, end: int): Outcome<int> {
    if EndMark(mem, p) then Ok(PastZeros(mem, p + 2, end))
    else match TagNumber(mem, p, end)
      case Error(code) => Error(code)
      case Ok((_, q)) =>
        if q > end then Error(E_INCOMPLETE)
        else match LengthAt(mem, q, end)
          case Error(code) => Error(code)
          case Ok((n, d)) => if d + n > end then Error(E_NOT_FOUND) else Ok(d + n)
  }

  /** The position of the item with index `k`, counted from 1, in the list that starts at `p`. */
  function Skip(mem: Memory, p: int, end: int, k: nat): Outcome<int>
    decreases k
  {
    if k <= 1 then Ok(p)
    else match SkipOne(mem, p, end)
      case Error(code) => Error(code)
      case Ok(q) => Skip(mem, q, end, k - 1)
  }

  /** Where the reader stands: at `len` bytes from `p`, the contents of an item with the given header. */
  datatype Cursor = Cursor(p: int, len: nat, cls: nat, constructed: bool, num: nat, raw: Option<int>, head: nat)

  function ItemOf(c: Cursor): Item {
    Item(c.cls + (if c.constructed then 4 else 0) + 8 * c.num, c.p, c.len, c.raw, Wrap(c.head + c.len))
  }

  /** The header of the item at `p`, read as far as `end`. */
  function Head(mem: Memory, p: int, end: int): Outcome<Cursor> {
    var cls, constructed := mem(p) / 64, mem(p) / 32 % 2 == 1;
    if EndMark(mem, p) then
      var d := PastZeros(mem, p + 2, end);
      Ok(Cursor(d, d - (p + 2), cls, constructed, 0, Some(p), 2))
    else match TagNumber(mem, p, end)
      case Error(code) => Error(code)
      case Ok((num, q)) =>
        if q == end then Error(E_INCOMPLETE)
        else match LengthAt(mem, q, end)
          case Error(code) => Error(code)
          case Ok((n, d)) => Ok(Cursor(d, n, cls, constructed, num, Some(p), d - p))
  }

  /**
  One step down: to the item with index `k` inside the current one. The contents of a BIT STRING start with
  an octet that is no item; unless its contents are to be parsed, the walk ends just after it.
  */
  function Advance(mem: Memory, end: int, c: Cursor, k: nat, parseBits: bool): Outcome<(Cursor, bool)> {
    match Skip(mem, c.p, c.p + c.len - 1, k)
    case Error(code) => Error(code)
    case Ok(q) =>
      if c.num == 3 && !parseBits then
        Ok((c.(p := q + 1, len := Wrap(Wrap(c.len - (q - c.p)) - 1)), true))
      else match Head(mem, if c.num == 3 then q + 1 else q, end)
        case Error(code) => Error(code)
        case Ok(c') => Ok((c', false))
  }

  /** Follows `path` from a cursor; `end` is the last byte of the whole input. */
  function Follow(mem: Memory, end: int, c: Cursor, path: seq<nat>, parseBits: bool): Outcome<Item>
    decreases |path|
  {
    if path == [] then Ok(ItemOf(c))
    else match Advance(mem, end, c, path[0], parseBits)
      case Error(code) => Error(code)
      case Ok((c', stop)) => if stop then Ok(ItemOf(c')) else Follow(mem, end, c', path[1..], parseBits)
  }

  /** The item that `path` leads to in the `len` bytes at `p`. */
  function ItemAt(mem: Memory, p: int, len: nat, path: seq<nat>, parseBits: bool): Outcome<Item> {
    Follow(mem, p + len - 1, Cursor(p, len, 0, false, 0, None, 0), path, parseBits)
  }

  // ----- The reader ---------------------------------------------------------------------------

  method PassZeros(mem: Memory, start: int, end: int) returns (dat: int)
    ensures dat == PastZeros(mem, start, end)
  {
    dat := start;
    while mem(dat) == 0 && dat <= end
      invariant PastZeros(mem, start, end) == PastZeros(mem, dat, end)
      decreases end - dat + 1
    {
      dat := dat + 1;
    }
  }

  /** The tag number: five bits, or seven bits from each of up to four further octets. */
  method ReadTag(mem: Memory, dat: int, end: int) returns (r: Outcome<(nat, int)>)
    ensures r == TagNumber(mem, dat, end)
  {
    var num: nat, last := mem(dat) % 32, dat;
    if num == 31 {
      num := 0;
      var read := 0;
      while true
        invariant read <= 4
        invariant HighTag(mem, dat, end, 0, 0) == HighTag(mem, last, end, read, num)
        decreases 4 - read
      {
        if read == 4 {
          return Error(E_TAG_LEN);
        }
        last, read := last + 1, read + 1;
        num := num * 128 + mem(last) % 128;
        if !(mem(last) >= 128 && last < end) {
          break;
        }
      }
    }
    return Ok((num, last));
  }

  method ReadLength(mem: Memory, last: int, end: int) returns (r: Outcome<(nat, int)>)
    ensures r == LengthAt(mem, last, end)
  {
    var dat := last + 1;
    var len: nat := mem(dat);
    if len >= 128 {
      var count := len - 128;
      if count > 4 {
        return Error(E_BAD_LEN);
      }
      len := 0;
      while count > 0
        invariant 0 <= count
        invariant LengthAt(mem, last, end) == LengthBytes(mem, dat, end, count, len)
        decreases count
      {
        dat := dat + 1;
        if dat > end {
          return Error(E_INCOMPLETE);
        }
        len, count := len * 256 + mem(dat), count - 1;
      }
    }
    return Ok((len, dat + 1));
  }

  method PassItem(mem: Memory, start: int, end: int) returns (r: Outcome<int>)
    ensures r == SkipOne(mem, start, end)
  {
    if mem(start) == 0 && mem(start + 1) == 0 {
      var dat := PassZeros(mem, start + 2, end);
      return Ok(dat);
    }
    var tag := ReadTag(mem, start, end);
    if tag.Error? {
      return Error(tag.code);
    }
    if tag.value.1 > end {
      return Error(E_INCOMPLETE);
    }
    var length := ReadLength(mem, tag.value.1, end);
    if length.Error? {
      return Error(length.code);
    }
    var dat := length.value.1 + length.value.0;
    if dat > end {
      return Error(E_NOT_FOUND);
    }
    return Ok(dat);
  }

  /** Skips `path - 1` items; the length left over is computed in 32 bits. */
  method SkipItem(mem: Memory, inDat: int, inLen: nat, path: nat) returns (r: Outcome<(int, nat)>)
    ensures r == match Skip(mem, inDat, inDat + inLen - 1, path)
                 case Error(code) => Error(code)
                 case Ok(q) => Ok((q, Wrap(inLen - (q - inDat))))
  {
    hide SkipOne;
    var dat, end := inDat, inDat + inLen - 1;
    var index := 1;
    while index < path
      invariant 1 <= index && (index <= path || index == 1)
      invariant Skip(mem, inDat, end, path) == Skip(mem, dat, end, if index <= path then path - index + 1 else 0)
      decreases path - index
    {
      var passed := PassItem(mem, dat, end);
      if passed.Error? {
        return Error(passed.code);
      }
      dat := passed.value;
      index := index + 1;
    }
    return Ok((dat, Wrap(inLen - (dat - inDat))));
  }

  /** The header at `dat`: an end mark with the zeros after it, or tag and length. */
  method ReadHead(mem: Memory, dat: int, end: int) returns (r: Outcome<Cursor>)
    ensures r == Head(mem, dat, end)
  {
    var cls, constructed := mem(dat) / 64, mem(dat) / 32 % 2 == 1;
    if mem(dat) == 0 && mem(dat + 1) == 0 {
      var body := PassZeros(mem, dat + 2, end);
      return Ok(Cursor(body, body - (dat + 2), cls, constructed, 0, Some(dat), 2));
    }
    var tag := ReadTag(mem, dat, end);
    if tag.Error? {
      return Error(tag.code);
    }
    if tag.value.1 == end {
      return Error(E_INCOMPLETE);
    }
    var length := ReadLength(mem, tag.value.1, end);
    if length.Error? {
      return Error(length.code);
    }
    return Ok(Cursor(length.value.1, length.value.0, cls, constructed, tag.value.0, Some(dat), length.value.1 - dat));
  }

  method StepInto(mem: Memory, end: int, c: Cursor, k: nat, parseBits: bool) returns (r: Outcome<(Cursor, bool)>)
    ensures r == Advance(mem, end, c, k, parseBits)
  {
    hide Skip, Head, ItemOf;
    var skipped := SkipItem(mem, c.p, c.len, k);
    if skipped.Error? {
      return Error(skipped.code);
    }
    var dat, len: int := skipped.value.0, skipped.value.1;
    if c.num == 3 {
      dat, len := dat + 1, Wrap(len - 1);
      if !parseBits {
        return Ok((c.(p := dat, len := len), true));
      }
    }
    var head := ReadHead(mem, dat, end);
    if head.Error? {
      return Error(head.code);
    }
    return Ok((head.value, false));
  }

  method GetItem(mem: Memory, inDat: int, inLen: nat, path: seq<nat>, parseBits: bool) returns (r: Outcome<Item>)
    ensures r == ItemAt(mem, inDat, inLen, path, parseBits)
  {
    var end := inDat + inLen - 1;
    var c := Cursor(inDat, inLen, 0, false, 0, None, 0);
    var i := 0;
    while i < |path|
      invariant 0 <= i <= |path|
      invariant ItemAt(mem, inDat, inLen, path, parseBits) == Follow(mem, end, c, path[i..], parseBits)
    {
      var step := StepInto(mem, end, c, path[i], parseBits);
      if step.Error? {
        return Error(step.code);
      }
      if step.value.1 {
        return Ok(ItemOf(step.value.0));
      }
      assert path[i..][1..] == path[i + 1..];
      c := step.value.0;
      i := i + 1;
    }
    return Ok(ItemOf(c));
  }

  /** The first item of a list, and the list after it, which never reaches past the end. */
  function Next(mem: Memory, p: int, len: nat): Outcome<(Item, (int, nat))> {
    match ItemAt(mem, p, len, [1], true)
    case Error(code) => Error(code)
    case Ok(x) =>
      var x' := if x.rawLen > len then x.(rawLen := len) else x;
      Ok((x', (p + x'.rawLen, len - x'.rawLen)))
  }

  method NextItem(mem: Memory, p: int, len: nat) returns (r: Outcome<(Item, (int, nat))>)
    ensures r == Next(mem, p, len)
  {
    var got := GetItem(mem, p, len, [1], true);
    if got.Error? {
      return Error(got.code);
    }
    var item := got.value;
    if item.rawLen > len {
      item := item.(rawLen := len);
    }
    return Ok((item, (p + item.rawLen, len - item.rawLen)));
  }
}
