/** Reading certificates. */
module Certificate {
  import opened Wrappers
  import opened Asn1
  import opened DerTree

  // Reading the parts of an X.509 certificate (RFC 5280 section 4.1), and of a card's public key file, out of
  // their DER encodings.

  const E_DECODE := -3
  const E_UNKNOWN_KEYTYPE := -5
  const E_X509_INCOMPLETE := -7

  const ASN_INTEGER := 16
  const ASN_OID := 48
  const OID_RSA: seq<Byte> := [0x2A, 0x86, 0x48, 0x86, 0xF7, 0x0D, 0x01, 0x01, 0x01]
  const OID_EC: seq<Byte> := [0x2A, 0x86, 0x48, 0xCE, 0x3D, 0x02, 0x01]

  datatype CertInfo = CertInfo(
    lcert: nat, subject: seq<Byte>, issuer: seq<Byte>, serial: seq<Byte>, validFrom: seq<Byte>, validTo: seq<Byte>,
    mod: seq<Byte>, exp: seq<Byte>, pkinfo: seq<Byte>, curve: seq<Byte>)

  datatype KeyInfo = KeyInfo(lkey: nat, pkinfo: seq<Byte>, curve: seq<Byte>)

  // ----- Abstract certificates ----------------------------------------------------------------

  datatype PublicKey =
    | Rsa(params: seq<Node>, mod: Node, exp: Node)
    | Ec(curve: Node, params: seq<Node>, point: seq<Byte>)
    | Other(kind: Node, params: seq<Node>, value: Node)

  /** The parts of a certificate with an explicit version; `unused` starts the public key's BIT STRING. */
  datatype Cert = Cert(
    version: Node, serial: Node, algorithm: Node, issuer: Node, notBefore: Node, notAfter: Node, subject: Node,
    key: PublicKey, unused: Byte, more: seq<Node>, signature: seq<Node>)

  function Sequence(kids: seq<Node>): Node { Node(0, true, 16, Kids(kids)) }
  function Oid(bytes: seq<Byte>): Node { Node(0, false, 6, Octets(bytes)) }

  /** SubjectPublicKeyInfo. */
  function KeyTree(key: PublicKey, unused: Byte): Node {
    match key
    case Rsa(params, mod, exp) =>
      Sequence([Sequence([Oid(OID_RSA)] + params),
                Node(0, false, 3, Wrapped(unused, [Sequence([mod, exp])]))])
    case Ec(curve, params, point) =>
      Sequence([Sequence([Oid(OID_EC), curve] + params),
                Node(0, false, 3, Octets([unused] + point))])
    case Other(kind, params, value) => Sequence([Sequence([kind] + params), value])
  }

  /** TBSCertificate. */
  function Fields(c: Cert): seq<Node> {
    [c.version, c.serial, c.algorithm, c.issuer, Sequence([c.notBefore, c.notAfter]), c.subject,
     KeyTree(c.key, c.unused)] + c.more
  }

  function CertTree(c: Cert): Node {
    Sequence([Sequence(Fields(c))] + c.signature)
  }

  ghost predicate GoodKey(key: PublicKey) {
    match key
    case Rsa(params, mod, exp) =>
      AllValid(params) && Valid(mod) && Valid(exp) && Contents(mod.body) != [] && Contents(exp.body) != []
    case Ec(curve, params, point) => Valid(curve) && AllValid(params)
    case Other(kind, params, value) =>
      Valid(kind) && AllValid(params) && Valid(value)
      && (IsA(kind, 6) ==> Contents(kind.body) != OID_RSA && Contents(kind.body) != OID_EC)
  }

  /** A value of the universal type with that number: 2 for an INTEGER, 6 for an OBJECT IDENTIFIER. */
  predicate IsA(n: Node, num: nat) { n.cls == 0 && !n.constructed && n.num == num }

  ghost predicate GoodCert(c: Cert) {
    && Valid(c.version) && Valid(c.serial) && Valid(c.algorithm) && Valid(c.issuer)
    && Valid(c.notBefore) && Valid(c.notAfter) && Valid(c.subject)
    && AllValid(c.more) && AllValid(c.signature) && GoodKey(c.key)
  }

  /** An INTEGER's contents without the octet that keeps it positive. */
  function Unsigned(s: seq<Byte>): seq<Byte> {
    if s != [] && s[0] == 0 then s[1..] else s
  }

  /** What the reader has to report for a key; keys of other types are refused. */
  ghost function WithKey(i: CertInfo, key: PublicKey): Outcome<CertInfo>
    requires GoodKey(key)
  {
    match key
    case Rsa(_, mod, exp) =>
      Ok(i.(mod := Unsigned(Contents(mod.body)), exp := Unsigned(Contents(exp.body)), pkinfo := Encode(Sequence([mod, exp]))))
    case Ec(curve, _, point) => Ok(i.(curve := Encode(curve), pkinfo := point))
    case Other(kind, _, _) => Error(if IsA(kind, 6) then E_UNKNOWN_KEYTYPE else E_DECODE)
  }

  /** What the reader has to report for a certificate; its serial number has to be an INTEGER. */
  ghost function InfoOf(c: Cert): Outcome<CertInfo>
    requires GoodCert(c) && Valid(CertTree(c))
  {
    if !IsA(c.serial, 2) then Error(E_DECODE)
    else
      WithKey(CertInfo(|Encode(CertTree(c))|, Encode(c.subject), Encode(c.issuer), Encode(c.serial),
                       Contents(c.notBefore.body), Contents(c.notAfter.body), [], [], [], []), c.key)
  }

  /** What the reader of key files has to report: it takes nothing but EC keys. */
  ghost function KeyInfoOf(key: PublicKey, unused: Byte): Outcome<KeyInfo>
    requires GoodKey(key) && Valid(KeyTree(key, unused))
  {
    match key
    case Ec(curve, _, point) => Ok(KeyInfo(|Encode(KeyTree(key, unused))|, point, Encode(curve)))
    case Rsa(_, _, _) => Error(E_UNKNOWN_KEYTYPE)
    case Other(_, _, _) => Error(E_UNKNOWN_KEYTYPE)
  }

  // ----- The readers --------------------------------------------------------------------------

  function Slice(mem: Memory, p: int, n: nat): (r: seq<Byte>)
    ensures |r| == n && forall i | 0 <= i < n :: r[i] == mem(p + i)
  {
    seq(n, i => mem(p + i))
  }

  function Raw(mem: Memory, x: Item): seq<Byte> {
    if x.raw.Some? then Slice(mem, x.raw.value, x.rawLen) else []
  }

  /** What the reader can tell of an item: its tag, all its bytes and its contents. */
  datatype Seen = Seen(tag: int, raw: seq<Byte>, rawLen: int, contents: seq<Byte>)

  function See(mem: Memory, r: Outcome<Item>): Option<Seen> {
    match r
    case Ok(x) =>
      if x.len < 0x1_0000_0000 then Some(Seen(x.tag, Raw(mem, x), x.rawLen, Slice(mem, x.data, x.len))) else None
    case Error(_) => None
  }

  /** `n` is what the reader finds at `path`. */
  ghost predicate Reads(mem: Memory, p: int, len: nat, path: seq<nat>, n: Node)
    requires Valid(n)
  {
    See(mem, ItemAt(mem, p, len, path, true))
      == Some(Seen(TagOf(n), Encode(n), |Encode(n)|, Contents(n.body)))
  }

  function TagOf(n: Node): nat { n.cls + (if n.constructed then 4 else 0) + 8 * n.num }

  lemma TagTells(n: Node)
    requires Valid(n)
    ensures (TagOf(n) == ASN_OID <==> IsA(n, 6)) && (TagOf(n) == ASN_INTEGER <==> IsA(n, 2))
  {
  }

  /** `path` leads from `n` to `m`. */
  predicate Reaches(n: Node, path: seq<nat>, m: Node) {
    (path != [] ==> PathInto(n, path)) && Select(n, path) == m
  }

  lemma Down(n: Node, path: seq<nat>, m: Node)
    requires path != [] && !n.body.Octets? && Steps(n.body, n.num, path[0])
    requires Reaches(n.body.kids[path[0] - 1], path[1..], m)
    ensures Reaches(n, path, m)
  {
  }

  /** A path into field `k` of the certificate. */
  lemma IntoField(c: Cert, k: nat, rest: seq<nat>, m: Node)
    requires 1 <= k <= 7 && Reaches(Fields(c)[k - 1], rest, m)
    ensures Reaches(CertTree(c), [1, k] + rest, m)
  {
    var path := [1, k] + rest;
    assert path[1..] == [k] + rest && ([k] + rest)[1..] == rest;
    Down(Sequence(Fields(c)), [k] + rest, m);
    Down(CertTree(c), path, m);
  }

  /** The reader finds what a path reaches. */
  lemma Finds(mem: Memory, p: int, len: nat, root: Node, path: seq<nat>, m: Node)
    requires Valid(root) && At(mem, p, Encode(root)) && |Encode(root)| <= len < 0x1_0000_0000
    requires Valid(m) && Reaches(root, path, m)
    ensures Reads(mem, p, len, [1] + path, m)
  {
    hide Encode, Header, Contents, At, ItemAt, Select, PathInto, Valid;
    var full := [1] + path;
    assert full[1..] == path && full[0] == 1;
    assert AllValid([root]) && [root][0] == root;
    assert EncodeAll([root]) == Encode(root) by { assert EncodeAll([root][1..]) == []; }
    var q := PathSelects(mem, p, len, [root], full, true);
    FoundReads(mem, m, q);
    EncodeIs(m);
  }

  lemma FoundReads(mem: Memory, m: Node, q: int)
    requires Valid(m) && At(mem, q, Encode(m))
    ensures Slice(mem, q, |Encode(m)|) == Encode(m)
    ensures Slice(mem, q + |Header(m)|, |Contents(m.body)|) == Contents(m.body)
  {
    hide Encode, Header, Contents;
    AtSlice(mem, q, Encode(m));
    assert Encode(m) == Header(m) + Contents(m.body) by { EncodeIs(m); }
    AtConcat(mem, q, Header(m), Contents(m.body));
    AtSlice(mem, q + |Header(m)|, Contents(m.body));
  }

  lemma EncodeIs(m: Node)
    requires Valid(m)
    ensures Encode(m) == Header(m) + Contents(m.body)
  {
  }

  lemma AtSlice(mem: Memory, p: int, s: seq<Byte>)
    ensures At(mem, p, s) <==> Slice(mem, p, |s|) == s
  {
  }

  lemma KeyValid(key: PublicKey, unused: Byte)
    requires GoodKey(key)
    ensures Valid(KeyTree(key, unused))
  {
    match key
    case Rsa(params, mod, exp) =>
      var spec, bits := [Oid(OID_RSA)] + params, [Sequence([mod, exp])];
      assert Valid(Sequence(spec)) by { assert forall n <- spec :: Valid(n); }
      assert Valid(Node(0, false, 3, Wrapped(unused, bits))) by { assert forall n <- bits :: Valid(n); }
    case Ec(curve, params, point) =>
      var spec := [Oid(OID_EC), curve] + params;
      assert Valid(Sequence(spec)) by { assert forall n <- spec :: Valid(n); }
      assert Valid(Node(0, false, 3, Octets([unused] + point)));
    case Other(kind, params, value) =>
      var spec := [kind] + params;
      assert Valid(Sequence(spec)) by { assert forall n <- spec :: Valid(n); }
      assert forall n <- [Sequence(spec), value] :: Valid(n);
  }

  lemma CertValid(c: Cert)
    requires GoodCert(c)
    ensures Valid(CertTree(c))
  {
    KeyValid(c.key, c.unused);
    assert Valid(Sequence([c.notBefore, c.notAfter]));
    assert forall n <- Fields(c) :: Valid(n);
    assert Valid(Sequence(Fields(c)));
    assert forall n <- [Sequence(Fields(c))] + c.signature :: Valid(n);
  }

  /** The certificate `c` starts at `p`, followed by anything up to `len`. */
  ghost predicate CertAt(mem: Memory, p: int, len: nat, c: Cert) {
    && GoodCert(c) && Valid(CertTree(c))
    && At(mem, p, Encode(CertTree(c))) && |Encode(CertTree(c))| <= len < 0x1_0000_0000
  }

  /** All the navigations that reading a certificate consists of, with what they find. */
  ghost predicate CertReads(mem: Memory, p: int, len: nat, c: Cert)
    requires CertAt(mem, p, len, c)
  {
    var l := |Encode(CertTree(c))|;
    && Reads(mem, p, len, [1], CertTree(c))
    && Reads(mem, p, l, [1, 1, 6], c.subject)
    && Reads(mem, p, l, [1, 1, 4], c.issuer)
    && Reads(mem, p, l, [1, 1, 2], c.serial)
    && Reads(mem, p, l, [1, 1, 5, 1], c.notBefore)
    && Reads(mem, p, l, [1, 1, 5, 2], c.notAfter)
    && KeyReads(mem, p, l, [1, 1, 7], c.key)
  }

  /** The navigations below a SubjectPublicKeyInfo that `path` leads to. */
  ghost predicate KeyReads(mem: Memory, p: int, l: nat, path: seq<nat>, key: PublicKey)
    requires GoodKey(key)
  {
    match key
    case Rsa(_, mod, exp) =>
      && Reads(mem, p, l, path + [1, 1], Oid(OID_RSA))
      && Reads(mem, p, l, path + [2, 1, 1], mod) && Reads(mem, p, l, path + [2, 1, 2], exp)
      && Reads(mem, p, l, path + [2, 1], Sequence([mod, exp]))
    case Ec(curve, _, point) =>
      && Reads(mem, p, l, path + [1, 1], Oid(OID_EC)) && Reads(mem, p, l, path + [1, 2], curve)
      && var bits := ItemAt(mem, p, l, path + [2, 1], false);
         bits.Ok? && Slice(mem, bits.value.data, bits.value.len) == point
    case Other(kind, _, _) => Reads(mem, p, l, path + [1, 1], kind)
  }

  lemma KeyReaches(key: PublicKey, unused: Byte)
    ensures var t := KeyTree(key, unused);
            match key
            case Rsa(_, mod, exp) =>
              Reaches(t, [1, 1], Oid(OID_RSA)) && Reaches(t, [2, 1], Sequence([mod, exp]))
              && Reaches(t, [2, 1, 1], mod) && Reaches(t, [2, 1, 2], exp)
            case Ec(curve, _, point) =>
              Reaches(t, [1, 1], Oid(OID_EC)) && Reaches(t, [1, 2], curve)
              && Reaches(t, [2], Node(0, false, 3, Octets([unused] + point)))
            case Other(kind, _, _) => Reaches(t, [1, 1], kind)
  {
    var t := KeyTree(key, unused);
    var spec := t.body.kids[0];
    Down(spec, [1], spec.body.kids[0]);
    assert [1, 1][1..] == [1];
    Down(t, [1, 1], spec.body.kids[0]);
    match key
    case Rsa(_, mod, exp) =>
      var bits, pair := t.body.kids[1], Sequence([mod, exp]);
      assert [2, 1, 1][1..] == [1, 1] && [2, 1, 2][1..] == [1, 2] && [2, 1][1..] == [1] && [1, 2][1..] == [2];
      Down(pair, [1], mod);
      Down(pair, [2], exp);
      Down(bits, [1], pair);
      Down(bits, [1, 1], mod);
      Down(bits, [1, 2], exp);
      Down(t, [2, 1], pair);
      Down(t, [2, 1, 1], mod);
      Down(t, [2, 1, 2], exp);
    case Ec(curve, _, _) =>
      assert [1, 2][1..] == [2];
      Down(spec, [2], curve);
      Down(t, [1, 2], curve);
      Down(t, [2], t.body.kids[1]);
    case Other(_, _, _) =>
  }

  /** From where the key's tree is reached, everything below it is. */
  lemma {:induction false} Extend(n: Node, path: seq<nat>, t: Node, rest: seq<nat>, m: Node)
    requires Reaches(n, path, t) && Reaches(t, rest, m)
    ensures Reaches(n, path + rest, m)
    decreases |path|
  {
    if path == [] {
      assert path + rest == rest;
    } else {
      assert (path + rest)[1..] == path[1..] + rest && (path + rest)[0] == path[0];
      Extend(n.body.kids[path[0] - 1], path[1..], t, rest, m);
    }
  }

  /** Reading a BIT STRING without parsing it, at the end of a path that passes no other. */
  lemma FindsBits(mem: Memory, p: int, len: nat, root: Node, path: seq<nat>, unused: Byte, point: seq<Byte>)
    requires Valid(root) && At(mem, p, Encode(root)) && |Encode(root)| <= len < 0x1_0000_0000
    requires Reaches(root, path, Node(0, false, 3, Octets([unused] + point))) && ThroughNoBits(root, path)
    ensures var r := ItemAt(mem, p, len, [1] + path + [1], false);
            r.Ok? && Slice(mem, r.value.data, r.value.len) == point
    ensures |path| > 0 ==>
              var r := ItemAt(mem, p, len, [1] + path, false);
              r.Ok? && r.value.len < 0x1_0000_0000 && Slice(mem, r.value.data, r.value.len) == [unused] + point
  {
    hide Encode, Header, At, ItemAt, Select, PathInto, Valid;
    var full := [1] + path;
    assert full[1..] == path && full[0] == 1;
    assert AllValid([root]) && [root][0] == root;
    assert EncodeAll([root]) == Encode(root) by { assert EncodeAll([root][1..]) == []; }
    var q := PathToBits(mem, p, len, [root], full);
    AtConcat(mem, q, [unused], point);
    AtSlice(mem, q + 1, point);
    var r := PathSelects(mem, p, len, [root], full, false);
    FoundReads(mem, Node(0, false, 3, Octets([unused] + point)), r);
    EncodeIs(Node(0, false, 3, Octets([unused] + point)));
  }

  lemma KeyReadsFrom(mem: Memory, p: int, l: nat, root: Node, path: seq<nat>, key: PublicKey, unused: Byte)
    requires GoodKey(key) && Valid(root) && At(mem, p, Encode(root)) && |Encode(root)| <= l < 0x1_0000_0000
    requires Reaches(root, path, KeyTree(key, unused)) && ThroughNoBits(root, path)
    ensures KeyReads(mem, p, l, [1] + path, key)
  {
    hide Encode, Header, Contents, At, ItemAt, PathInto, Select, ThroughNoBits;
    var t := KeyTree(key, unused);
    KeyReaches(key, unused);
    match key
    case Rsa(_, mod, exp) =>
      FindsBelow(mem, p, l, root, path, t, [1, 1], Oid(OID_RSA));
      FindsBelow(mem, p, l, root, path, t, [2, 1], Sequence([mod, exp]));
      FindsBelow(mem, p, l, root, path, t, [2, 1, 1], mod);
      FindsBelow(mem, p, l, root, path, t, [2, 1, 2], exp);
    case Ec(curve, _, point) =>
      FindsBelow(mem, p, l, root, path, t, [1, 1], Oid(OID_EC));
      FindsBelow(mem, p, l, root, path, t, [1, 2], curve);
      Extend(root, path, t, [2], Node(0, false, 3, Octets([unused] + point)));
      NoBitsBelow(root, path, t);
      FindsBits(mem, p, l, root, path + [2], unused, point);
      assert [1] + (path + [2]) + [1] == [1] + path + [2, 1];
    case Other(kind, _, _) => FindsBelow(mem, p, l, root, path, t, [1, 1], kind);
  }

  lemma FindsBelow(mem: Memory, p: int, l: nat, root: Node, path: seq<nat>, t: Node, rest: seq<nat>, m: Node)
    requires Valid(root) && At(mem, p, Encode(root)) && |Encode(root)| <= l < 0x1_0000_0000
    requires Valid(m) && Reaches(root, path, t) && Reaches(t, rest, m)
    ensures Reads(mem, p, l, [1] + path + rest, m)
  {
    hide Encode, Header, Contents, At, ItemAt, Valid, Select, PathInto;
    Extend(root, path, t, rest, m);
    Finds(mem, p, l, root, path + rest, m);
    assert [1] + (path + rest) == [1] + path + rest;
  }

  lemma {:induction false} NoBitsBelow(n: Node, path: seq<nat>, t: Node)
    requires Reaches(n, path, t) && ThroughNoBits(n, path)
    requires t.body.Kids? && t.num != 3 && |t.body.kids| == 2
    ensures (path + [2] != [] ==> PathInto(n, path + [2])) && ThroughNoBits(n, path + [2])
    decreases |path|
  {
    var longer := path + [2];
    if path == [] {
      assert longer == [2] && [2][1..] == [];
    } else {
      var kid, rest := n.body.kids[path[0] - 1], path[1..];
      assert longer[1..] == rest + [2] && longer[0] == path[0];
      assert rest == [] || PathInto(kid, rest);
      NoBitsBelow(kid, rest, t);
      assert PathInto(kid, longer[1..]) && ThroughNoBits(kid, longer[1..]);
    }
  }

  /** Every navigation in a certificate finds its part. */
  lemma CertReadsAll(mem: Memory, p: int, len: nat, c: Cert)
    requires CertAt(mem, p, len, c)
    ensures CertReads(mem, p, len, c)
  {
    hide Encode, Header, Contents, At, ItemAt, Valid, PathInto, Select, ThroughNoBits;
    var t := CertTree(c);
    var l := |Encode(t)|;
    Here(t);
    assert [1] + [] == [1] && [1, 5] + [1] == [1, 5, 1] && [1, 5] + [2] == [1, 5, 2] && [1, 7] + [] == [1, 7];
    assert [1] + [1, 5, 1] == [1, 1, 5, 1] && [1] + [1, 5, 2] == [1, 1, 5, 2] && [1] + [1, 7] == [1, 1, 7];
    Finds(mem, p, len, t, [], t);
    FieldReads(mem, p, l, c, 6, c.subject);
    FieldReads(mem, p, l, c, 4, c.issuer);
    FieldReads(mem, p, l, c, 2, c.serial);
    var validity := Sequence([c.notBefore, c.notAfter]);
    Here(c.notBefore);
    Here(c.notAfter);
    Down(validity, [1], c.notBefore);
    Down(validity, [2], c.notAfter);
    IntoField(c, 5, [1], c.notBefore);
    IntoField(c, 5, [2], c.notAfter);
    Finds(mem, p, l, t, [1, 5, 1], c.notBefore);
    Finds(mem, p, l, t, [1, 5, 2], c.notAfter);
    Here(KeyTree(c.key, c.unused));
    IntoField(c, 7, [], KeyTree(c.key, c.unused));
    KeyPathPlain(c);
    KeyReadsFrom(mem, p, l, t, [1, 7], c.key, c.unused);
  }

  lemma Here(n: Node)
    ensures Reaches(n, [], n)
  {
  }

  lemma FieldReads(mem: Memory, p: int, l: nat, c: Cert, k: nat, m: Node)
    requires Valid(m) && CertAt(mem, p, l, c) && 1 <= k <= 7 && m == Fields(c)[k - 1]
    ensures Reads(mem, p, l, [1, 1, k], m)
  {
    hide Encode, Header, Contents, At, ItemAt, Valid, PathInto, Select;
    Here(m);
    IntoField(c, k, [], m);
    assert [1, k] + [] == [1, k] && [1] + [1, k] == [1, 1, k];
    Finds(mem, p, l, CertTree(c), [1, k], m);
  }

  lemma KeyPathPlain(c: Cert)
    ensures PathInto(CertTree(c), [1, 7]) && ThroughNoBits(CertTree(c), [1, 7])
  {
    var t := CertTree(c);
    assert [1, 7][1..] == [7] && [7][1..] == [];
    Here(Fields(c)[6]);
    IntoField(c, 7, [], Fields(c)[6]);
    assert t.body.kids[0] == Sequence(Fields(c));
    assert ThroughNoBits(Fields(c)[6], []);
    assert ThroughNoBits(Sequence(Fields(c)), [7]);
  }

  /** An INTEGER item without the octet that keeps it positive, if it starts with one. */
  method Magnitude(mem: Memory, x: Item) returns (r: seq<Byte>)
    ensures x.len < 0x1_0000_0000 && Slice(mem, x.data, x.len) != [] ==> r == Unsigned(Slice(mem, x.data, x.len))
  {
    var data, len: int := x.data, x.len;
    if mem(data) == 0 {
      data, len := data + 1, Wrap(len - 1);
    }
    r := Slice(mem, data, len);
    if x.len > 0 && x.len < 0x1_0000_0000 {
      assert Slice(mem, x.data, x.len)[0] == mem(x.data);
      assert mem(x.data) == 0 ==> r == Slice(mem, x.data, x.len)[1..];
    }
  }

  /** The key's part of the certificate reader, by type of key. */
  method GetKey(mem: Memory, pcert: int, lcert: nat, info: CertInfo) returns (r: Outcome<CertInfo>)
    ensures forall key: PublicKey | GoodKey(key) && KeyReads(mem, pcert, lcert, [1, 1, 7], key) ::
              r == WithKey(info, key)
  {
    hide ItemAt, Encode, Contents, Valid;
    assert [1, 1, 7] + [1, 1] == [1, 1, 7, 1, 1] && [1, 1, 7] + [1, 2] == [1, 1, 7, 1, 2];
    assert [1, 1, 7] + [2, 1] == [1, 1, 7, 2, 1];
    assert [1, 1, 7] + [2, 1, 1] == [1, 1, 7, 2, 1, 1] && [1, 1, 7] + [2, 1, 2] == [1, 1, 7, 2, 1, 2];
    OidContents();
    forall key: PublicKey | key.Other? && GoodKey(key) ensures TagOf(key.kind) == ASN_OID <==> IsA(key.kind, 6) {
      TagTells(key.kind);
    }
    var item := GetItem(mem, pcert, lcert, [1, 1, 7, 1, 1], true);
    if item.Error? { return Error(item.code); }
    if item.value.tag != ASN_OID { return Error(E_DECODE); }
    var oid := Slice(mem, item.value.data, item.value.len);
    var info' := info;
    if oid == OID_RSA {
      item := GetItem(mem, pcert, lcert, [1, 1, 7, 2, 1, 1], true);
      if item.Error? { return Error(item.code); }
      var mod := Magnitude(mem, item.value);
      info' := info'.(mod := mod);
      item := GetItem(mem, pcert, lcert, [1, 1, 7, 2, 1, 2], true);
      if item.Error? { return Error(item.code); }
      var exp := Magnitude(mem, item.value);
      info' := info'.(exp := exp);
      item := GetItem(mem, pcert, lcert, [1, 1, 7, 2, 1], true);
      if item.Error? { return Error(item.code); }
      info' := info'.(pkinfo := Raw(mem, item.value));
    } else if oid == OID_EC {
      item := GetItem(mem, pcert, lcert, [1, 1, 7, 1, 2], true);
      if item.Error? { return Error(item.code); }
      info' := info'.(curve := Raw(mem, item.value));
      item := GetItem(mem, pcert, lcert, [1, 1, 7, 2, 1], false);
      if item.Error? { return Error(item.code); }
      info' := info'.(pkinfo := Slice(mem, item.value.data, item.value.len));
    } else {
      return Error(E_UNKNOWN_KEYTYPE);
    }
    return Ok(info');
  }

  lemma OidContents()
    ensures forall bytes: seq<Byte> :: Valid(Oid(bytes)) && Contents(Oid(bytes).body) == bytes
  {
  }

  /** The input holds the header of `n`, but not all that the header announces. */
  ghost predicate CutShort(mem: Memory, p: int, len: nat, n: Node) {
    Valid(n) && At(mem, p, Header(n)) && |Header(n)| <= len < |Encode(n)| < 0x1_0000_0000
  }

  lemma CutShortIs(mem: Memory, p: int, len: nat, n: Node)
    requires CutShort(mem, p, len, n)
    ensures ItemAt(mem, p, len, [1], true).Ok? && ItemAt(mem, p, len, [1], true).value.rawLen > len
  {
    hide Encode, Header, Contents, At, Valid, TagNumber, LengthAt;
    var end := p + len - 1;
    EncodeIs(n);
    ReadHeader(mem, p, end, n);
    var start := Cursor(p, len, 0, false, 0, None, 0);
    assert Skip(mem, p, end, 1) == Ok(p);
    assert Advance(mem, end, start, 1, true).Ok?;
    assert [1][1..] == [];
  }

  method CertGetInfo(mem: Memory, pcert: int, length: nat) returns (r: Outcome<CertInfo>)
    ensures forall c: Cert | CertAt(mem, pcert, length, c) :: r == InfoOf(c)
    ensures forall c: Cert | GoodCert(c) && CutShort(mem, pcert, length, CertTree(c)) :: r == Error(E_X509_INCOMPLETE)
  {
    hide ItemAt, At, Encode, Header, Contents, Valid, CertTree, Fields;
    forall c: Cert | CertAt(mem, pcert, length, c)
      ensures CertReads(mem, pcert, length, c) && (TagOf(c.serial) == ASN_INTEGER <==> IsA(c.serial, 2))
    {
      CertReadsAll(mem, pcert, length, c);
      TagTells(c.serial);
    }
    forall c: Cert | GoodCert(c) && CutShort(mem, pcert, length, CertTree(c))
      ensures ItemAt(mem, pcert, length, [1], true).Ok? && ItemAt(mem, pcert, length, [1], true).value.rawLen > length
    {
      CutShortIs(mem, pcert, length, CertTree(c));
    }
    var item := GetItem(mem, pcert, length, [1], true);
    if item.Error? { return Error(item.code); }
    if item.value.rawLen > length { return Error(E_X509_INCOMPLETE); }
    var lcert := item.value.rawLen;
    var info := CertInfo(lcert, [], [], [], [], [], [], [], [], []);

    item := GetItem(mem, pcert, lcert, [1, 1, 6], true);
    if item.Error? { return Error(item.code); }
    info := info.(subject := Raw(mem, item.value));

    item := GetItem(mem, pcert, lcert, [1, 1, 4], true);
    if item.Error? { return Error(item.code); }
    info := info.(issuer := Raw(mem, item.value));

    item := GetItem(mem, pcert, lcert, [1, 1, 2], true);
    if item.Error? { return Error(item.code); }
    if item.value.tag != ASN_INTEGER { return Error(E_DECODE); }
    info := info.(serial := Raw(mem, item.value));

    item := GetItem(mem, pcert, lcert, [1, 1, 5, 1], true);
    if item.Error? { return Error(item.code); }
    info := info.(validFrom := Slice(mem, item.value.data, item.value.len));

    item := GetItem(mem, pcert, lcert, [1, 1, 5, 2], true);
    if item.Error? { return Error(item.code); }
    info := info.(validTo := Slice(mem, item.value.data, item.value.len));

    r := GetKey(mem, pcert, lcert, info);
  }

  /** The public key file of a card is one SubjectPublicKeyInfo. */
  method KeyGetInfo(mem: Memory, pkey: int, length: nat) returns (r: Outcome<KeyInfo>)
    ensures forall key: PublicKey, unused: Byte | KeyAt(mem, pkey, length, key, unused) :: r == KeyInfoOf(key, unused)
    ensures forall key: PublicKey, unused: Byte | GoodKey(key) && CutShort(mem, pkey, length, KeyTree(key, unused)) ::
              r == Error(E_X509_INCOMPLETE)
  {
    hide ItemAt, At, Encode, Header, Contents, Valid, KeyTree;
    forall key: PublicKey, unused: Byte | KeyAt(mem, pkey, length, key, unused)
      ensures KeyFileReads(mem, pkey, length, key, unused)
    {
      KeyFileReadsAll(mem, pkey, length, key, unused);
    }
    forall key: PublicKey, unused: Byte | GoodKey(key) && CutShort(mem, pkey, length, KeyTree(key, unused))
      ensures ItemAt(mem, pkey, length, [1], true).Ok? && ItemAt(mem, pkey, length, [1], true).value.rawLen > length
    {
      CutShortIs(mem, pkey, length, KeyTree(key, unused));
    }
    OidContents();
    var item := GetItem(mem, pkey, length, [1], true);
    if item.Error? { return Error(item.code); }
    if item.value.rawLen > length { return Error(E_X509_INCOMPLETE); }
    var info := KeyInfo(item.value.rawLen, [], []);
    var kind := GetItem(mem, pkey, info.lkey, [1, 1, 1], true);
    if kind.Error? || Slice(mem, kind.value.data, kind.value.len) != OID_EC { return Error(E_UNKNOWN_KEYTYPE); }
    item := GetItem(mem, pkey, info.lkey, [1, 1, 2], true);
    if item.Error? { return Error(item.code); }
    info := info.(curve := Raw(mem, item.value));
    item := GetItem(mem, pkey, info.lkey, [1, 2], false);
    if item.Error? { return Error(item.code); }
    var bits := Slice(mem, item.value.data + 1, Wrap(item.value.len as int - 1));
    info := info.(pkinfo := bits);
    return Ok(info);
  }

  /** The type of a key in a key file is told by its contents alone, whatever their tag. */
  ghost predicate KeyAt(mem: Memory, p: int, len: nat, key: PublicKey, unused: Byte) {
    && GoodKey(key) && (key.Other? ==> Contents(key.kind.body) != OID_EC) && Valid(KeyTree(key, unused))
    && At(mem, p, Encode(KeyTree(key, unused))) && |Encode(KeyTree(key, unused))| <= len < 0x1_0000_0000
  }

  ghost predicate KeyFileReads(mem: Memory, p: int, len: nat, key: PublicKey, unused: Byte)
    requires KeyAt(mem, p, len, key, unused)
  {
    var l := |Encode(KeyTree(key, unused))|;
    && Reads(mem, p, len, [1], KeyTree(key, unused))
    && match key
       case Ec(curve, _, point) =>
         && Reads(mem, p, l, [1, 1, 1], Oid(OID_EC)) && Reads(mem, p, l, [1, 1, 2], curve)
         && var bits := ItemAt(mem, p, l, [1, 2], false);
            bits.Ok? && 0 < bits.value.len < 0x1_0000_0000
            && Slice(mem, bits.value.data + 1, bits.value.len - 1) == point
       case Rsa(_, _, _) => Reads(mem, p, l, [1, 1, 1], Oid(OID_RSA))
       case Other(kind, _, _) => Reads(mem, p, l, [1, 1, 1], kind)
  }

  lemma KeyFileReadsAll(mem: Memory, p: int, len: nat, key: PublicKey, unused: Byte)
    requires KeyAt(mem, p, len, key, unused)
    ensures KeyFileReads(mem, p, len, key, unused)
  {
    hide Encode, Header, Contents, At, ItemAt, PathInto, Select, ThroughNoBits;
    var t := KeyTree(key, unused);
    var l := |Encode(t)|;
    Here(t);
    Finds(mem, p, len, t, [], t);
    KeyReaches(key, unused);
    assert [1] + [] == [1] && [1] + [1, 1] == [1, 1, 1] && [1] + [1, 2] == [1, 1, 2] && [1] + [2] == [1, 2];
    match key
    case Ec(curve, _, point) =>
      Finds(mem, p, l, t, [1, 1], Oid(OID_EC));
      Finds(mem, p, l, t, [1, 2], curve);
      BitsPlain(key, unused);
      FindsBits(mem, p, l, t, [2], unused, point);
      var bits := ItemAt(mem, p, l, [1, 2], false).value;
      assert Slice(mem, bits.data + 1, bits.len - 1) == Slice(mem, bits.data, bits.len)[1..];
    case Rsa(_, _, _) => Finds(mem, p, l, t, [1, 1], Oid(OID_RSA));
    case Other(kind, _, _) => Finds(mem, p, l, t, [1, 1], kind);
  }

  lemma BitsPlain(key: PublicKey, unused: Byte)
    requires key.Ec?
    ensures PathInto(KeyTree(key, unused), [2]) && ThroughNoBits(KeyTree(key, unused), [2])
  {
    KeyReaches(key, unused);
    assert [2][1..] == [];
  }

  /**
  The card's key file and a certificate for the same key yield the same curve and the same point, although one
  reader steps into the BIT STRING and the other strips its first octet.
  */
  method ReadBoth(mem: Memory, pcert: int, lcert: nat, pkey: int, lkey: nat)
    returns (cert: Outcome<CertInfo>, file: Outcome<KeyInfo>)
    ensures forall c: Cert, unused: Byte |
              CertAt(mem, pcert, lcert, c) && KeyAt(mem, pkey, lkey, c.key, unused) && IsA(c.serial, 2) && c.key.Ec? ::
              cert.Ok? && file.Ok? && cert.value.curve == file.value.curve && cert.value.pkinfo == file.value.pkinfo
  {
    hide At, Encode, Header, Contents, Valid, CertTree, KeyTree, Fields;
    cert := CertGetInfo(mem, pcert, lcert);
    file := KeyGetInfo(mem, pkey, lkey);
  }
}
