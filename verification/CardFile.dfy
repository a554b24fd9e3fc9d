/** Reading card files. */
module CardFile {
  import opened Wrappers
  import opened DerTree

  // Reading whole files and certificates from the card in pieces of at most 128 bytes (SmartCard.c of the
  // minidriver).

  const MaxRead: nat := 128
  const Chunk: nat := 1024

  // ---- The card: full reads, the remaining count near the end, an error past it (READ BINARY of ISO 7816-4). That the
  // card takes both offset octets as one 16-bit offset is an assumption: the standard's own plain offsets have 15 bits, and
  // bit 8 of the first octet selects a file.

  datatype Response = Response(data: seq<Byte>, sw1: Byte, sw2: Byte)

  function Serve(file: seq<Byte>, p1: Byte, p2: Byte, le: Byte): Response {
    var off := p1 * 256 + p2;
    if off >= |file| then Response([], 0x6B, 0)
    else if off + le <= |file| then Response(file[off..off + le], 0x90, 0)
    else Response([], 0x6C, |file| - off)
  }

  function Min(a: nat, b: nat): nat { if a < b then a else b }

  // What there is of n bytes from an offset.
  function Piece(file: seq<Byte>, off: nat, n: nat): seq<Byte> {
    if off >= |file| then [] else file[off..Min(off + n, |file|)]
  }

  // What BeidReadFile reads: pieces of at most 128 bytes up to a short one. Offsets reach the card modulo 2^16.
  function Read(file: seq<Byte>, off: nat, n: nat): (data: seq<Byte>)
    ensures |data| <= n
    decreases n
  {
    if n == 0 then []
    else
      var le := Min(n, MaxRead);
      var data := Piece(file, Reach(off), le);
      if |data| < le then data else data + Read(file, off + le, n - le)
  }

  function Reach(off: nat): (a: nat)
    ensures a <= 0xFFFF && (off <= 0xFFFF ==> a == off)
  {
    off % 0x1_0000
  }

  // The condition under which a read to the end of the file comes to one.
  predicate Ends(file: seq<Byte>, off: nat) { |file| < 0x1_0000 + off % 128 }

  // A buffer with some bytes put into it.
  function Placed(was: seq<Byte>, at: nat, data: seq<Byte>): (now: seq<Byte>)
    requires at + |data| <= |was|
    ensures |now| == |was|
  {
    was[..at] + data + was[at + |data|..]
  }

  predicate Clear(faults: seq<nat>) { forall i | 0 <= i < |faults| :: faults[i] == 0 }

  predicate SuffixOf(rest: seq<nat>, faults: seq<nat>) {
    |rest| <= |faults| && rest == faults[|faults| - |rest|..]
  }

  class CardReader {
    const files: map<seq<Byte>, seq<Byte>>
    var selected: seq<Byte>
    // What transmitting will return for the next commands; success when nothing is listed any more.
    var faults: seq<nat>

    constructor (files: map<seq<Byte>, seq<Byte>>, selected: seq<Byte>, faults: seq<nat>)
      ensures this.files == files && this.selected == selected && this.faults == faults
    {
      this.files, this.selected, this.faults := files, selected, faults;
    }

    method Transmit() returns (rv: nat)
      modifies this`faults
      ensures SuffixOf(faults, old(faults)) && (Clear(old(faults)) ==> rv == 0 && Clear(faults))
      ensures rv != 0 ==> rv in old(faults)
    {
      if faults == [] {
        return 0;
      }
      rv := faults[0];
      faults := faults[1..];
    }

    // What one pass of the loop of BeidReadFile asks the card: a READ BINARY, sent again with the count the card corrected it to.
    method ReadBinary(off: nat, le: nat) returns (rv: nat, data: seq<Byte>, more: bool)
      requires 0 < le <= MaxRead
      modifies this`faults
      ensures SuffixOf(faults, old(faults)) && (Clear(old(faults)) ==> rv == 0 && Clear(faults))
      ensures rv != 0 ==> rv in old(faults)
      ensures rv == 0 ==> data == Piece(selected, Reach(off), le) && more == (|data| == le)
    {
      data, more := [], false;
      var p1, p2 := off / 256 % 256, off % 256;
      rv := Transmit();
      if rv != 0 {
        return;
      }
      var answer := Serve(selected, p1, p2, le);
      Address(selected, off, le);
      if answer.sw1 == 0x6C && answer.sw2 <= MaxRead {
        rv := Transmit();
        if rv != 0 {
          return;
        }
        Address(selected, off, answer.sw2);
        answer := Serve(selected, p1, p2, answer.sw2);
        return 0, answer.data, false;
      }
      if answer.sw1 != 0x90 || answer.sw2 != 0 {
        return;
      }
      return 0, answer.data, true;
    }

    // The body of that loop: what was read goes to its place in the buffer.
    method ReadPart(off: nat, le: nat, buffer: array<Byte>, at: nat) returns (rv: nat, got: nat, more: bool)
      requires at + le <= buffer.Length && 0 < le <= MaxRead
      modifies this`faults, buffer
      ensures SuffixOf(faults, old(faults)) && (Clear(old(faults)) ==> rv == 0 && Clear(faults))
      ensures rv != 0 ==> rv in old(faults) && buffer[..] == old(buffer[..])
      ensures rv == 0 ==> got == |Piece(selected, Reach(off), le)| && got <= le && more == (got == le)
                          && buffer[..] == Placed(old(buffer[..]), at, Piece(selected, Reach(off), le))
    {
      hide SuffixOf, Clear, Piece, Reach, Placed;
      got := 0;
      var data;
      rv, data, more := ReadBinary(off, le);
      if rv == 0 {
        PieceShort(selected, Reach(off), le);
        Copy(buffer, at, data);
        got := |data|;
      }
    }

    /**
    BeidReadFile: into `buffer` at position `at`. Without a reader error it delivers what can be read and the count of
    it, nothing else in the buffer changes beyond the n bytes it was given, and it succeeds when the reader does.
    */
    method ReadFile(off: nat, n: nat, buffer: array<Byte>, at: nat) returns (rv: nat, count: nat)
      requires at + n <= buffer.Length
      modifies this`faults, buffer
      ensures SuffixOf(faults, old(faults)) && (Clear(old(faults)) ==> rv == 0 && Clear(faults))
      ensures rv != 0 ==> rv in old(faults) && count == n
      ensures rv == 0 ==> count == |Read(selected, off, n)|
                          && buffer[..] == Placed(old(buffer[..]), at, Read(selected, off, n))
      ensures rv != 0 ==> buffer[..at] == old(buffer[..at]) && buffer[at + n..] == old(buffer[at + n..])
    {
      hide Piece, SuffixOf, Clear, Read, Reach, Placed;
      var read: nat, more := 0, true;
      ghost var was, done: seq<Byte> := buffer[..], [];
      SuffixChain(faults, faults, faults);
      PlacedNone(was, at);
      while n - read > 0 && more
        invariant read == |done| <= n && buffer[..] == Placed(was, at, done)
        invariant Read(selected, off, n) == done + if more then Read(selected, off + read, n - read) else []
        invariant SuffixOf(faults, old(faults)) && (Clear(old(faults)) ==> Clear(faults))
        decreases n - read, more
      {
        var le := if n - read > MaxRead then MaxRead else n - read;
        ghost var before, left := buffer[..], faults;
        var got;
        rv, got, more := ReadPart(off + read, le, buffer, at + read);
        SuffixChain(faults, left, old(faults));
        if rv != 0 {
          Around(was, at, n, done);
          return rv, n;
        }
        ghost var data := Piece(selected, Reach(off + read), le);
        ReadOn(selected, off, n, done, le);
        Splice(was, at, done, data);
        read, done := read + got, done + data;
      }
      rv, count := 0, read;
      if more { ReadNone(selected, off + read); }
      assert done + [] == done;
    }

    /**
    BeidSelectAndReadFile: pieces of 1024 bytes until one is shorter. The file is required to be one on which this comes
    to an end, which `ReadsWhole` shows to be the weakest condition. All bytes from the offset on are delivered. A file
    that cannot be selected leaves the outputs as they were, without an error.
    */
    method SelectAndReadFile(off: nat, id: seq<Byte>) returns (rv: nat, found: bool, count: nat, buffer: array<Byte>)
      requires id in files ==> Ends(files[id], off)
      modifies this
      ensures fresh(buffer)
      ensures Clear(old(faults)) ==> rv == 0
      ensures rv != 0 ==> rv in old(faults) && !found
      ensures rv == 0 ==> found == (id in files)
      ensures found ==> count <= buffer.Length && buffer[..count] == From(files[id], Reach(off))
    {
      found, count := false, 0;
      buffer := new Byte[0];
      rv := Transmit();
      if rv != 0 || id !in files {
        return;
      }
      selected := files[id];
      hide Piece, SuffixOf, Clear;
      ghost var left := faults;
      rv, count, buffer := ReadAll(off);
      SuffixIn(left, old(faults), rv);
      found := rv == 0;
    }

    method ReadAll(off: nat) returns (rv: nat, count: nat, buffer: array<Byte>)
      requires Ends(selected, off)
      modifies this`faults
      ensures fresh(buffer)
      ensures SuffixOf(faults, old(faults)) && (Clear(old(faults)) ==> rv == 0)
      ensures rv != 0 ==> rv in old(faults)
      ensures rv == 0 ==> count <= buffer.Length && buffer[..count] == From(selected, Reach(off))
    {
      hide Piece, SuffixOf, Clear, Read, Reach, Ends, From;
      SuffixChain(faults, faults, faults);
      var read: nat := Chunk;
      var start: nat := off;
      rv, count, buffer := 0, 0, new Byte[0];
      ghost var whole, done: seq<Byte> := From(selected, Reach(off)), [];
      while read == Chunk
        invariant read <= Chunk && fresh(buffer) && count == |done| <= buffer.Length && buffer[..count] == done && rv == 0
        invariant read == Chunk ==> Ends(selected, start)
        invariant whole == done + if read == Chunk then From(selected, Reach(start)) else []
        invariant SuffixOf(faults, old(faults)) && (Clear(old(faults)) ==> Clear(faults))
        decreases read, 0x1_0000 - Reach(start)
      {
        ghost var now := faults;
        ChunkOn(selected, start, whole, done);
        rv, read, buffer := ReadChunk(start, buffer, count);
        SuffixChain(faults, now, old(faults));
        if rv != 0 {
          return rv, 0, buffer;
        }
        done := done + Read(selected, start, Chunk);
        start := start + read;
        count := count + read;
      }
    }

    // The body of the loop: room for 1024 bytes more, and as many of them as can be read.
    method ReadChunk(start: nat, buffer: array<Byte>, count: nat) returns (rv: nat, read: nat, more: array<Byte>)
      requires count <= buffer.Length
      modifies this`faults
      ensures SuffixOf(faults, old(faults)) && (Clear(old(faults)) ==> rv == 0 && Clear(faults))
      ensures rv != 0 ==> rv in old(faults)
      ensures fresh(more) && more.Length == count + Chunk
      ensures rv == 0 ==> read == |Read(selected, start, Chunk)| && read <= Chunk
                          && more[..count + read] == buffer[..count] + Read(selected, start, Chunk)
    {
      hide SuffixOf, Clear, Read;
      more := Grow(buffer, count);
      ghost var before := more[..];
      rv, read := ReadFile(start, Chunk, more, count);
      if rv == 0 {
        assert more[..count + read] == before[..count] + Read(selected, start, Chunk);
      }
    }

    method Grow(buffer: array<Byte>, count: nat) returns (more: array<Byte>)
      requires count <= buffer.Length
      ensures fresh(more) && more.Length == count + Chunk && more[..count] == buffer[..count]
    {
      more := new Byte[count + Chunk](i requires 0 <= i < count + Chunk reads buffer =>
        if i < count then buffer[i] else 0);
      assert forall i | 0 <= i < count :: more[..count][i] == buffer[..count][i];
    }

    // The length that the first four bytes announce; a shorter file leaves some of them as the stack held them.
    method ReadSize() returns (rv: nat, size: nat)
      modifies this`faults
      ensures SuffixOf(faults, old(faults)) && (Clear(old(faults)) ==> rv == 0 && Clear(faults))
      ensures rv != 0 ==> rv in old(faults)
      ensures rv == 0 ==> 4 <= size <= 0x1_0003
      ensures rv == 0 && |selected| >= 4 ==> size == CertLength(selected)
    {
      hide Piece, Read, SuffixOf;
      var head := new Byte[255];
      var read;
      rv, read := ReadFile(0, 4, head, 0);
      size := 0;
      if rv == 0 {
        var high: int, low: int := head[2], head[3];
        size := high * 256 + low + 4;
        if |selected| >= 4 {
          FirstFour(selected);
          assert head[..][0..4] == selected[0..4];
          assert head[0..4] == selected[0..4];
          assert head[2] == head[0..4][2] && head[3] == head[0..4][3];
        }
      }
    }

    /**
    BeidReadCert: the length comes from the first four bytes, so the padding behind the certificate is not read.
    `query` asks for the length only. A file that is shorter than its certificate says leaves the length unset; so does
    one of fewer than four bytes, for which a query answers whatever the stack held.
    */
    method ReadCert(id: seq<Byte>, query: bool) returns (rv: nat, length: Option<nat>, certificate: Option<array<Byte>>)
      modifies this
      ensures Clear(old(faults)) ==> rv == 0
      ensures rv != 0 ==> rv in old(faults) && length == None
      ensures rv == 0 && id !in files ==> length == None && certificate == None
      ensures rv == 0 && id in files && |files[id]| >= 4 ==>
                length == if query || CertLength(files[id]) <= |files[id]| || |files[id]| > 0xFFFF
                          then Some(CertLength(files[id])) else None
      ensures rv == 0 && id in files && |files[id]| < 4 ==>
                if query then length != None && 4 <= length.value <= 0x1_0003 else length == None
      ensures rv == 0 && id in files && |files[id]| >= 4 && !query && length != None ==>
                certificate != None && fresh(certificate.value)
                && certificate.value[..] == Read(files[id], 0, CertLength(files[id]))
    {
      length, certificate := None, None;
      rv := Transmit();
      if rv != 0 || id !in files {
        return;
      }
      hide Piece, Read;
      selected := files[id];
      var size;
      rv, size := ReadSize();
      if rv != 0 {
        return;
      }
      if query {
        return rv, Some(size), None;
      }
      var buffer := new Byte[size];
      CertRead(selected, size);
      ghost var was := buffer[..];
      var read;
      rv, read := ReadFile(0, size, buffer, 0);
      assert read == size ==> was[read..] == [];
      certificate := Some(buffer);
      if rv != 0 || read != size {
        return;
      }
      length := Some(size);
    }
  }

  method Copy(buffer: array<Byte>, at: nat, data: seq<Byte>)
    requires at + |data| <= buffer.Length
    modifies buffer
    ensures buffer[..] == Placed(old(buffer[..]), at, data)
  {
    hide Placed;
    ghost var was := buffer[..];
    PlacedNone(was, at);
    for i := 0 to |data|
      invariant buffer[..] == Placed(was, at, data[..i])
    {
      Splice(was, at, data[..i], [data[i]]);
      PlacedOne(buffer[..], at + i, data[i]);
      ghost var before := buffer[..];
      buffer[at + i] := data[i];
      assert buffer[..] == before[at + i := data[i]];
      assert data[..i] + [data[i]] == data[..i + 1];
    }
    assert data[..|data|] == data;
  }

  // ---- One command

  // Of an offset the card sees the lower sixteen bits.
  lemma Address(file: seq<Byte>, off: nat, le: nat)
    requires 0 < le <= 255
    ensures Reach(off) < |file| ==> var answer := Serve(file, off / 256 % 256, off % 256, le);
              if Reach(off) + le <= |file| then answer == Response(Piece(file, Reach(off), le), 0x90, 0) && |answer.data| == le
              else answer == Response([], 0x6C, |file| - Reach(off))
    ensures Reach(off) >= |file| ==> Serve(file, off / 256 % 256, off % 256, le) == Response([], 0x6B, 0)
  {
    hide Piece;
    Digits(off);
    if Reach(off) + le <= |file| { PieceWhole(file, Reach(off), le); }
  }

  lemma Digits(off: nat)
    ensures off / 256 % 256 * 256 + off % 256 == Reach(off)
  {
    var q, r := off / 256 % 256, off % 256;
    assert off == 256 * (off / 256) + r && off / 256 == 256 * (off / 256 / 256) + q;
    Low(off, off / 256 / 256, 256 * q + r);
  }

  lemma PieceWhole(file: seq<Byte>, off: nat, n: nat)
    requires off + n <= |file|
    ensures Piece(file, off, n) == file[off..off + n]
  {
  }

  lemma PieceShort(file: seq<Byte>, off: nat, n: nat)
    ensures |Piece(file, off, n)| <= n
    ensures |Piece(file, off, n)| < n <==> n > 0 && off + n > |file|
  {
  }

  lemma PieceStops(file: seq<Byte>, off: nat, le: nat, n: nat)
    requires le <= n && |Piece(file, off, le)| < le
    ensures Piece(file, off, n) == Piece(file, off, le)
  {
  }

  lemma PieceJoins(file: seq<Byte>, off: nat, n: nat, more: nat)
    ensures Piece(file, off, n + more) == Piece(file, off, n) + Piece(file, off + n, more)
  {
  }

  // ---- What can be read

  // Offsets that differ by whole pieces are alike modulo 128, and at most 511 pieces into the addressable range.
  lemma Steps(off: nat)
    ensures Reach(off) % 128 == off % 128 && (off + 128) % 128 == off % 128 && (off + 1024) % 128 == off % 128
    ensures Reach(off) <= 0xFF80 + off % 128
    ensures Reach(off) + 128 <= 0xFFFF ==> Reach(off + 128) == Reach(off) + 128
    ensures Reach(off) + 128 > 0xFFFF ==> Reach(off) == 0xFF80 + off % 128 && Reach(off + 128) == off % 128
    ensures Reach(off) + 1024 <= 0xFFFF ==> Reach(off + 1024) == Reach(off) + 1024
  {
    var k, a := off / 0x1_0000, off % 0x1_0000;
    var q, r := a / 128, a % 128;
    assert off == 128 * (512 * k + q) + r;
    Residue(off, 512 * k + q, r);
    assert q <= 511;
    if a + 128 <= 0xFFFF {
      Low(off + 128, k, a + 128);
    } else {
      Low(off + 128, k + 1, r);
    }
    if a + 1024 <= 0xFFFF { Low(off + 1024, k, a + 1024); }
  }

  lemma Residue(off: nat, m: nat, r: nat)
    ensures off == 128 * m + r && r < 128 ==> off % 128 == r && (off + 128) % 128 == r && (off + 1024) % 128 == r
  {
  }

  lemma Low(off: nat, k: nat, a: nat)
    ensures off == 0x1_0000 * k + a && a <= 0xFFFF ==> off % 0x1_0000 == a
  {
  }

  lemma ReadStep(file: seq<Byte>, off: nat, n: nat)
    ensures var le := Min(n, MaxRead);
            var data := Piece(file, Reach(off), le);
            |data| <= le
            && Read(file, off, n) == data + if |data| < le then [] else Read(file, off + le, n - le)
  {
  }

  // One piece more of a read of which some is done.
  lemma ReadOn(file: seq<Byte>, off: nat, n: nat, done: seq<Byte>, le: nat)
    requires |done| < n && le == Min(n - |done|, MaxRead)
    requires Read(file, off, n) == done + Read(file, off + |done|, n - |done|)
    ensures var data := Piece(file, Reach(off + |done|), le);
            |data| <= le
            && Read(file, off, n) == done + data + if |data| < le then [] else Read(file, off + |done + data|, n - |done + data|)
  {
    hide Read, Reach, Piece;
    ReadStep(file, off + |done|, n - |done|);
    var data := Piece(file, Reach(off + |done|), le);
    if |data| == le {
      var rest := Read(file, off + |done| + le, n - |done| - le);
      assert done + (data + rest) == done + data + rest;
    }
  }

  lemma ReadNone(file: seq<Byte>, off: nat)
    ensures Read(file, off, 0) == []
  {
  }

  lemma {:induction false} ReadReach(file: seq<Byte>, off: nat, n: nat)
    ensures Read(file, off, n) == Read(file, Reach(off), n)
    decreases n
  {
    hide Piece;
    if n > 0 {
      var le := Min(n, MaxRead);
      ReadReach(file, off + le, n - le);
      ReadReach(file, Reach(off) + le, n - le);
      assert Reach(off + le) == Reach(Reach(off) + le);
    }
  }

  // Where the pieces from an offset first leave the addressable range, and whether a read gets there.
  predicate Wraps(file: seq<Byte>, off: nat, n: nat) {
    !Ends(file, off) && off + n > 0x1_0000 + off % 128
  }

  // A read that does not get there delivers exactly the bytes there are.
  lemma {:induction false} ReadExact(file: seq<Byte>, off: nat, n: nat)
    requires off <= 0xFFFF && !Wraps(file, off, n)
    ensures Read(file, off, n) == Piece(file, off, n)
    decreases n
  {
    hide Reach, Read, Piece;
    if n == 0 {
      ReadNone(file, off);
      PieceShort(file, off, 0);
    } else {
      var le := Min(n, MaxRead);
      ReadStep(file, off, n);
      PieceShort(file, off, le);
      if |Piece(file, off, le)| < le { PieceStops(file, off, le, n); }
      if |Piece(file, off, le)| == le && n > MaxRead {
        Steps(off);
        assert off + MaxRead <= 0xFFFF;
        ReadExact(file, off + MaxRead, n - MaxRead);
        PieceJoins(file, off, MaxRead, n - MaxRead);
      }
    }
  }

  // One that gets there goes on at the start of the file.
  lemma {:induction false} ReadWraps(file: seq<Byte>, off: nat, n: nat)
    requires off <= 0xFFFF && Wraps(file, off, n)
    ensures var edge := 0x1_0000 + off % 128;
            off <= edge <= |file| && edge - off <= n
            && Read(file, off, n) == file[off..edge] + Read(file, off % 128, n - (edge - off))
    decreases n
  {
    hide Reach, Read, Wraps, Piece;
    var r := off % 128;
    var edge, next := 0x1_0000 + r, off + 128;
    WrapsStep(file, off, n);
    ReadStep(file, off, n);
    if next <= 0xFFFF {
      ReadWraps(file, next, n - 128);
      Slices(file, off, next, edge, Read(file, r, n - (edge - off)));
    } else {
      ReadReach(file, next, n - 128);
    }
  }

  lemma WrapsStep(file: seq<Byte>, off: nat, n: nat)
    requires off <= 0xFFFF && Wraps(file, off, n)
    ensures var r := off % 128;
            n > 128 && off + 128 <= 0x1_0000 + r <= |file| && Reach(off) == off
            && Piece(file, off, 128) == file[off..off + 128]
            && if off + 128 <= 0xFFFF then Wraps(file, off + 128, n - 128) && (off + 128) % 128 == r
               else off + 128 == 0x1_0000 + r && Reach(off + 128) == r
  {
    hide Reach;
    Steps(off);
  }

  lemma Slices(file: seq<Byte>, a: nat, b: nat, c: nat, rest: seq<Byte>)
    requires a <= b <= c <= |file|
    ensures file[a..b] + (file[b..c] + rest) == file[a..c] + rest
  {
  }

  // A file that is too long answers every command in full.
  lemma {:induction false} NeverShort(file: seq<Byte>, off: nat, n: nat)
    requires !Ends(file, off) && n % 128 == 0
    ensures |Read(file, off, n)| == n
    decreases n
  {
    hide Reach, Read;
    if n == 0 {
      ReadNone(file, off);
    } else {
      Steps(off);
      ReadStep(file, off, n);
      PieceShort(file, Reach(off), MaxRead);
      NeverShort(file, off + MaxRead, n - MaxRead);
    }
  }

  // ---- Whole files

  function From(file: seq<Byte>, off: nat): seq<Byte> { if off < |file| then file[off..] else [] }

  lemma ChunkStep(file: seq<Byte>, off: nat)
    requires Ends(file, off)
    ensures var data := Read(file, off, Chunk);
            From(file, Reach(off)) == data + (if |data| == Chunk then From(file, Reach(off + Chunk)) else [])
            && (|data| == Chunk ==> Ends(file, off + Chunk) && Reach(off + Chunk) == Reach(off) + Chunk)
  {
    hide Read, Reach;
    var a := Reach(off);
    Steps(off);
    ReadReach(file, off, Chunk);
    ReadExact(file, a, Chunk);
    PieceShort(file, a, Chunk);
    PieceRest(file, a, Chunk);
  }

  lemma ChunkOn(file: seq<Byte>, start: nat, whole: seq<Byte>, done: seq<Byte>)
    requires Ends(file, start) && whole == done + From(file, Reach(start))
    ensures var data := Read(file, start, Chunk);
            whole == done + data + (if |data| == Chunk then From(file, Reach(start + Chunk)) else [])
            && (|data| == Chunk ==> Ends(file, start + Chunk) && Reach(start + Chunk) == Reach(start) + Chunk)
  {
    hide Read, Reach, From, Ends;
    ChunkStep(file, start);
  }

  lemma PieceRest(file: seq<Byte>, off: nat, n: nat)
    ensures From(file, off) == Piece(file, off, n) + if off + n <= |file| then From(file, off + n) else []
  {
  }

  // What the loop over pieces of 1024 bytes has read when it ends within `count` pieces.
  function Pieces(file: seq<Byte>, off: nat, count: nat): Option<seq<Byte>>
    decreases count
  {
    if count == 0 then None
    else
      var data := Read(file, off, Chunk);
      if |data| < Chunk then Some(data)
      else match Pieces(file, off + Chunk, count - 1)
        case None => None
        case Some(rest) => Some(data + rest)
  }

  lemma {:induction false} PiecesEnd(file: seq<Byte>, off: nat, count: nat)
    requires Ends(file, off) && Reach(off) + 1024 * count > 0x1_0000
    ensures Pieces(file, off, count) == Some(From(file, Reach(off)))
    decreases count
  {
    hide Read, From;
    if count > 0 {
      ChunkStep(file, off);
      var data := Read(file, off, Chunk);
      assert data + [] == data;
      if |data| == Chunk {
        PiecesEnd(file, off + Chunk, count - 1);
      }
    }
  }

  lemma {:induction false} PiecesGoOn(file: seq<Byte>, off: nat, count: nat)
    requires !Ends(file, off)
    ensures Pieces(file, off, count) == None
    decreases count
  {
    hide Read;
    if count > 0 {
      NeverShort(file, off, Chunk);
      Steps(off);
      PiecesGoOn(file, off + Chunk, count - 1);
    }
  }

  /**
  Reading to the end of a file ends if and only if the file is shorter than 2^16 bytes and the part of a command that
  the offset is off a multiple of 128; then it has read all bytes from the offset on. From offset 0 these are the files
  of at most 65535 bytes: one byte more, and the loop goes round in the file for ever.
  */
  lemma ReadsWhole(file: seq<Byte>, off: nat)
    ensures (exists count :: Pieces(file, off, count) != None) <==> |file| < 0x1_0000 + off % 128
    ensures forall count | Pieces(file, off, count) != None && off <= 0xFFFF ::
              Pieces(file, off, count).value == if off < |file| then file[off..] else []
  {
    hide Read;
    if Ends(file, off) {
      PiecesEnd(file, off, 65);
      assert Pieces(file, off, 65) != None;
      forall count | Pieces(file, off, count) != None ensures Pieces(file, off, count).value == From(file, Reach(off)) {
        PiecesAgree(file, off, count, 65);
      }
    } else {
      forall count ensures Pieces(file, off, count) == None {
        PiecesGoOn(file, off, count);
      }
    }
  }

  lemma {:induction false} PiecesAgree(file: seq<Byte>, off: nat, m: nat, n: nat)
    requires Pieces(file, off, m) != None && Pieces(file, off, n) != None
    ensures Pieces(file, off, m) == Pieces(file, off, n)
    decreases m
  {
    hide Read;
    if |Read(file, off, Chunk)| == Chunk {
      PiecesAgree(file, off + Chunk, m - 1, n - 1);
    }
  }

  lemma SuffixChain(a: seq<nat>, b: seq<nat>, c: seq<nat>)
    ensures SuffixOf(c, c)
    ensures SuffixOf(a, b) && SuffixOf(b, c) ==> SuffixOf(a, c)
    ensures forall x | SuffixOf(b, c) && x in b :: x in c
  {
  }

  lemma SuffixIn(a: seq<nat>, b: seq<nat>, x: nat)
    ensures SuffixOf(a, b) && x in a ==> x in b
  {
  }

  lemma PlacedNone(was: seq<Byte>, at: nat)
    requires at <= |was|
    ensures Placed(was, at, []) == was
  {
  }

  lemma PlacedOne(was: seq<Byte>, at: nat, b: Byte)
    requires at < |was|
    ensures Placed(was, at, [b]) == was[at := b]
  {
  }

  // Bytes put behind those that are in their place already.
  lemma Splice(was: seq<Byte>, at: nat, done: seq<Byte>, data: seq<Byte>)
    requires at + |done| + |data| <= |was|
    ensures Placed(Placed(was, at, done), at + |done|, data) == Placed(was, at, done + data)
  {
  }

  lemma Around(was: seq<Byte>, at: nat, n: nat, done: seq<Byte>)
    requires |done| <= n && at + n <= |was|
    ensures Placed(was, at, done)[..at] == was[..at] && Placed(was, at, done)[at + n..] == was[at + n..]
  {
  }

  // The certificate's length by the two length octets behind its tag.
  function CertLength(file: seq<Byte>): nat
    requires |file| >= 4
  {
    (file[2] as int) * 256 + file[3] as int + 4
  }

  lemma FirstFour(file: seq<Byte>)
    requires |file| >= 4
    ensures Read(file, 0, 4) == file[0..4]
  {
    ReadExact(file, 0, 4);
  }

  // How much of a certificate can be read does not depend on where it is read from.
  lemma CertRead(file: seq<Byte>, size: nat)
    requires size <= 0x1_0003
    ensures |Read(file, 0, size)| == size <==> size <= |file| || |file| > 0xFFFF
    ensures size <= |file| && (size <= 0x1_0000 || |file| <= 0xFFFF) ==> Read(file, 0, size) == file[..size]
  {
    if Wraps(file, 0, size) {
      ReadWraps(file, 0, size);
      ReadExact(file, 0, size - 0x1_0000);
    } else {
      ReadExact(file, 0, size);
    }
  }

  // The file of a DER value with contents of 256 to 65535 octets, padded in any way, gives exactly that value's encoding.
  lemma CertLengthExact(cert: Node, padding: seq<Byte>)
    requires Valid(cert) && cert.num < 31 && 0x100 <= |Contents(cert.body)| < 0x1_0000
    ensures var file := Encode(cert) + padding;
            |file| >= 4 && CertLength(file) == |Encode(cert)| && file[..CertLength(file)] == Encode(cert)
            && (CertLength(file) <= 0x1_0000 || |file| <= 0xFFFF ==> Read(file, 0, CertLength(file)) == Encode(cert))
  {
    var n := |Contents(cert.body)|;
    assert Header(cert) == Identifier(cert) + ([0x82] + BigEndian(n, 2));
    assert BigEndian(n, 2) == [n / 256 % 256, n % 256] by {
      assert BigEndian(n / 256, 1) == [n / 256 % 256];
    }
    var file := Encode(cert) + padding;
    assert file[2] == n / 256 % 256 && file[3] == n % 256;
    assert n / 256 % 256 * 256 + n % 256 == n;
    CertRead(file, CertLength(file));
  }
}
