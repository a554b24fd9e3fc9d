/** DER headers. */
module DerHeaders {
  import opened Wrappers
  import opened Asn1

  // For every memory, also one that is no DER: which bytes belong to a header, what they say, and which error is returned
  // when they cannot be read. Headers are read in two places, to skip items and to enter them; these agree.

  /** The octets of the tag, in base 128, after the first one at `p` up to `q`. */
  function Septets(mem: Memory, p: int, q: int): nat
    decreases q - p
  {
    if q <= p then 0 else Septets(mem, p, q - 1) * 128 + mem(q) % 128
  }

  /** The tag at `p` goes as far as `q`: an octet without mark, or the last one of the input. */
  predicate TagEnds(mem: Memory, p: int, end: int, q: int) {
    if mem(p) % 32 != 31 then q == p
    else p < q <= p + 4 && Marked(mem, p, end, q - 1) && (mem(q) < 128 || q >= end)
  }

  predicate TagTooLong(mem: Memory, p: int, end: int) { mem(p) % 32 == 31 && Marked(mem, p, end, p + 4) }

  /** All octets after `p` up to `q` have the mark that says that the tag goes on, and it can. */
  predicate Marked(mem: Memory, p: int, end: int, q: int) { forall j | p < j <= q :: mem(j) >= 128 && j < end }

  lemma TagEndsOnce(mem: Memory, p: int, end: int, q: int, q': int)
    requires TagEnds(mem, p, end, q)
    ensures !TagTooLong(mem, p, end) && (TagEnds(mem, p, end, q') ==> q' == q)
  {
  }

  lemma {:induction false} HighTagIs(mem: Memory, p: int, end: int, read: nat)
    requires read <= 4 && mem(p) % 32 == 31 && Marked(mem, p, end, p + read)
    ensures var r := HighTag(mem, p + read, end, read, Septets(mem, p, p + read));
            if TagTooLong(mem, p, end) then r == Error(E_TAG_LEN)
            else r.Ok? && TagEnds(mem, p, end, r.value.1) && r.value.0 == Septets(mem, p, r.value.1)
    decreases 4 - read
  {
    hide Septets;
    if read == 4 {
      assert TagTooLong(mem, p, end);
    } else {
      var q := p + read + 1;
      OneMore(mem, p, read);
      if mem(q) >= 128 && q < end {
        HighTagIs(mem, p, end, read + 1);
      } else {
        assert TagEnds(mem, p, end, q);
        TagEndsOnce(mem, p, end, q, q);
      }
    }
  }

  lemma OneMore(mem: Memory, p: int, n: nat)
    ensures Septets(mem, p, p + n + 1) == Septets(mem, p, p + n) * 128 + mem(p + n + 1) % 128
  {
  }

  /** The tag number: five bits, or the octets that follow, of which there may be four. */
  lemma TagIs(mem: Memory, p: int, end: int)
    ensures var r := TagNumber(mem, p, end);
            if TagTooLong(mem, p, end) then r == Error(E_TAG_LEN)
            else r.Ok? && TagEnds(mem, p, end, r.value.1)
                 && r.value.0 == if mem(p) % 32 != 31 then mem(p) % 32 else Septets(mem, p, r.value.1)
  {
    if mem(p) % 32 == 31 { HighTagIs(mem, p, end, 0); }
  }

  /** `n` octets from `p` on as a number, most significant first. */
  function Number(mem: Memory, p: int, n: nat): nat {
    if n == 0 then 0 else Number(mem, p, n - 1) * 256 + mem(p + n - 1)
  }

  lemma {:induction false} LengthBytesIs(mem: Memory, p: int, end: int, n: nat, i: nat)
    requires i <= n && (0 < i ==> p + i <= end)
    ensures LengthBytes(mem, p + i, end, n - i, Number(mem, p + 1, i))
         == if n > 0 && p + n > end then Error(E_INCOMPLETE) else Ok((Number(mem, p + 1, n), p + n + 1))
    decreases n - i
  {
    if i < n && p + i + 1 <= end {
      assert Number(mem, p + 1, i + 1) == Number(mem, p + 1, i) * 256 + mem(p + i + 1);
      LengthBytesIs(mem, p, end, n, i + 1);
    }
  }

  /** The length after a tag that ends at `q`: the octet itself, or as many octets as it says, at most four. */
  lemma LengthIs(mem: Memory, q: int, end: int)
    ensures LengthAt(mem, q, end)
         == if mem(q + 1) < 128 then Ok((mem(q + 1), q + 2))
            else if mem(q + 1) > 132 then Error(E_BAD_LEN)
            else if mem(q + 1) > 128 && q + 1 + (mem(q + 1) - 128) > end then Error(E_INCOMPLETE)
            else Ok((Number(mem, q + 2, mem(q + 1) - 128), q + 2 + (mem(q + 1) - 128)))
  {
    if 128 <= mem(q + 1) <= 132 { LengthBytesIs(mem, q + 1, end, mem(q + 1) - 128, 0); }
  }

  /** Zeros are passed as far as the end, and no more than zeros. */
  lemma {:induction false} ZerosAre(mem: Memory, p: int, end: int)
    ensures var r := PastZeros(mem, p, end);
            (forall j | p <= j < r :: mem(j) == 0) && (r > end || mem(r) != 0) && r <= (if p > end then p else end + 1)
    decreases end - p + 1
  {
    if p <= end && mem(p) == 0 {
      ZerosAre(mem, p + 1, end);
      assert PastZeros(mem, p, end) == PastZeros(mem, p + 1, end);
    }
  }

  /** Reading a header: where its contents start, how long they are said to be, and its tag. */
  lemma HeadTells(mem: Memory, p: int, end: int, q: int)
    requires TagEnds(mem, p, end, q) && (mem(p) != 0 || mem(p + 1) != 0)
    ensures var r := Head(mem, p, end);
            var b := mem(q + 1);
            if q == end then r == Error(E_INCOMPLETE)
            else if b > 132 then r == Error(E_BAD_LEN)
            else if b > 128 && q + 1 + (b - 128) > end then r == Error(E_INCOMPLETE)
            else
              r.Ok? && var c := r.value;
              && c.p == q + 2 + (if b < 128 then 0 else b - 128)
              && c.len == (if b < 128 then b else Number(mem, q + 2, b - 128))
              && c.raw == Some(p) && c.head == c.p - p
              && c.cls == mem(p) / 64 && (c.constructed <==> mem(p) / 32 % 2 == 1)
              && c.num == if mem(p) % 32 != 31 then mem(p) % 32 else Septets(mem, p, q)
  {
    hide TagNumber, LengthAt, Number, Septets, PastZeros;
    TagIs(mem, p, end);
    TagEndsOnce(mem, p, end, q, if TagNumber(mem, p, end).Ok? then TagNumber(mem, p, end).value.1 else q);
    LengthIs(mem, q, end);
  }

  /** Skipping an item: where the next one starts, which must be within the input. */
  lemma SkipTells(mem: Memory, p: int, end: int, q: int)
    requires TagEnds(mem, p, end, q) && (mem(p) != 0 || mem(p + 1) != 0)
    ensures var r := SkipOne(mem, p, end);
            var b := mem(q + 1);
            var next := if b < 128 then q + 2 + b else if b <= 132 then q + 2 + (b - 128) + Number(mem, q + 2, b - 128) else 0;
            r == if q > end then Error(E_INCOMPLETE)
                 else if b > 132 then Error(E_BAD_LEN)
                 else if b > 128 && q + 1 + (b - 128) > end then Error(E_INCOMPLETE)
                 else if next > end then Error(E_NOT_FOUND)
                 else Ok(next)
  {
    hide TagNumber, LengthAt, Number, Septets, PastZeros;
    TagIs(mem, p, end);
    TagEndsOnce(mem, p, end, q, if TagNumber(mem, p, end).Ok? then TagNumber(mem, p, end).value.1 else q);
    LengthIs(mem, q, end);
  }

  /** A tag of more than four further octets is an error for both. */
  lemma LongTagTells(mem: Memory, p: int, end: int)
    requires TagTooLong(mem, p, end)
    ensures Head(mem, p, end) == Error(E_TAG_LEN) && SkipOne(mem, p, end) == Error(E_TAG_LEN)
  {
    hide TagNumber, PastZeros;
    TagIs(mem, p, end);
  }

  /** Two zeros, with all that follow them, are passed by both; their number is the length delivered. */
  lemma MarkTells(mem: Memory, p: int, end: int)
    requires mem(p) == 0 && mem(p + 1) == 0
    ensures var d := PastZeros(mem, p + 2, end);
            SkipOne(mem, p, end) == Ok(d)
            && Head(mem, p, end) == Ok(Cursor(d, d - (p + 2), 0, false, 0, Some(p), 2))
            && (forall j | p <= j < d :: mem(j) == 0) && (d > end || mem(d) != 0) && d <= if p + 2 > end then p + 2 else end + 1
  {
    ZerosAre(mem, p + 2, end);
  }

  /**
  An item can be skipped if and only if its header can be read and the item is not the last thing in the input; and it is
  skipped to its end.
  */
  lemma SkippedIfRead(mem: Memory, p: int, end: int)
    requires mem(p) != 0 || mem(p + 1) != 0
    ensures var head, skip := Head(mem, p, end), SkipOne(mem, p, end);
            (skip.Ok? <==> head.Ok? && head.value.p + head.value.len <= end)
            && (skip.Ok? ==> skip.value == head.value.p + head.value.len)
  {
    hide Head, SkipOne, Number, Septets, TagNumber;
    if TagTooLong(mem, p, end) {
      LongTagTells(mem, p, end);
    } else {
      TagIs(mem, p, end);
      var q := TagNumber(mem, p, end).value.1;
      HeadTells(mem, p, end, q);
      SkipTells(mem, p, end, q);
    }
  }

  /** Of the items of a list the next one starts where the one before ends; the first is where the list is. */
  lemma {:induction false} SkipNext(mem: Memory, p: int, end: int, k: nat)
    ensures k <= 1 ==> Skip(mem, p, end, k) == Ok(p)
    ensures k > 0 ==> Skip(mem, p, end, k + 1) == match Skip(mem, p, end, k)
                                                   case Error(code) => Error(code)
                                                   case Ok(q) => SkipOne(mem, q, end)
    decreases k
  {
    hide SkipOne;
    if k == 1 && SkipOne(mem, p, end).Ok? {
      assert Skip(mem, SkipOne(mem, p, end).value, end, 1) == SkipOne(mem, p, end);
    } else if k > 1 && SkipOne(mem, p, end).Ok? {
      SkipNext(mem, SkipOne(mem, p, end).value, end, k - 1);
    }
  }
}
