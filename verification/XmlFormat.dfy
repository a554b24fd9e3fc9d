/** The eID file format. */
module XmlFormat {
  import opened Wrappers

  // The eID file format: a tree of element descriptors directs the writer, two maps made from it direct the reader
  // (eidxmllite.cpp, xmlmap.cpp). The XML library is a stream of tokens; the conversions of values are parameters.

  datatype Attribute = Attribute(name: string, key: string, required: bool)

  // A leaf has a label (`key`); an element without one holds attributes and other elements.
  datatype Element = Element(name: string, key: Option<string>, required: bool, b64: bool,
                             kids: seq<Element>, attributes: seq<Attribute>)

  type Value = seq<Byte>
  type Cache = map<string, Value>

  // How a value becomes text by its label, and back; `encode` and `decode` are those of base64 elements.
  datatype Conversions = Conversions(form: (string, Value) -> string, back: (string, string) -> Value,
                                     encode: Value -> string, decode: (string, string) -> Value)

  datatype Token = Start(name: string) | Attr(name: string, value: string) | Text(value: string) | End

  // ---- The data of a descriptor tree: attributes and leaves, in document order

  datatype Field = Field(name: string, key: string, required: bool, leaf: bool, b64: bool)

  function FieldOf(a: Attribute): Field { Field(a.name, a.key, a.required, false, false) }

  function AttributeFields(attributes: seq<Attribute>): seq<Field> {
    if attributes == [] then [] else [FieldOf(attributes[0])] + AttributeFields(attributes[1..])
  }

  function Fields(elements: seq<Element>): seq<Field> {
    if elements == [] then []
    else
      var e := elements[0];
      (if e.key != None then [Field(e.name, e.key.value, e.required, true, e.b64)]
       else AttributeFields(e.attributes) + Fields(e.kids))
      + Fields(elements[1..])
  }

  predicate AnyCached(cache: Cache, fields: seq<Field>) { exists f :: f in fields && f.key in cache }

  // ---- The writer

  function Form(c: Conversions, cache: Cache, f: Field): string
    requires f.key in cache
  {
    if f.b64 then c.encode(cache[f.key]) else c.form(f.key, cache[f.key])
  }

  function AttributesOut(c: Conversions, cache: Cache, attributes: seq<Attribute>): (seq<Token>, int) {
    if attributes == [] then ([], 0)
    else
      var a := attributes[0];
      if a.required && a.key !in cache then ([], -1)
      else
        var (rest, rv) := AttributesOut(c, cache, attributes[1..]);
        if a.key in cache && (a.required || c.form(a.key, cache[a.key]) != "")
        then ([Attr(a.name, c.form(a.key, cache[a.key]))] + rest, rv)
        else (rest, rv)
  }

  // An element without label is left out when it is optional and has no data.
  predicate Skipped(cache: Cache, e: Element) {
    e.key == None && !e.required && !AnyCached(cache, Fields([e]))
  }

  function LeafOut(c: Conversions, cache: Cache, e: Element): seq<Token>
    requires e.key != None && e.key.value in cache
  {
    [Start(e.name), Text(if e.b64 then c.encode(cache[e.key.value]) else c.form(e.key.value, cache[e.key.value])), End]
  }

  // An error of the attributes is forgotten; one of the children ends the writing.
  function ElementsOut(c: Conversions, cache: Cache, elements: seq<Element>): (seq<Token>, int) {
    if elements == [] then ([], 0)
    else
      var e := elements[0];
      if e.key == None then
        if Skipped(cache, e) then ElementsOut(c, cache, elements[1..])
        else
          var head := [Start(e.name)] + AttributesOut(c, cache, e.attributes).0;
          var (inner, rv) := ElementsOut(c, cache, e.kids);
          if rv != 0 then (head + inner, rv)
          else
            var (rest, last) := ElementsOut(c, cache, elements[1..]);
            (head + inner + [End] + rest, last)
      else if e.key.value in cache then
        var (rest, last) := ElementsOut(c, cache, elements[1..]);
        (LeafOut(c, cache, e) + rest, last)
      else if e.required then ([], -1)
      else ElementsOut(c, cache, elements[1..])
  }

  // No required leaf of an element that is written is missing: this is what the writer's result depends on.
  predicate LeavesComplete(cache: Cache, elements: seq<Element>) {
    elements != [] ==>
      var e := elements[0];
      (if e.key != None then e.required ==> e.key.value in cache else Skipped(cache, e) || LeavesComplete(cache, e.kids))
      && LeavesComplete(cache, elements[1..])
  }

  lemma {:induction false} WriterSucceeds(c: Conversions, cache: Cache, elements: seq<Element>)
    ensures ElementsOut(c, cache, elements).1 == 0 <==> LeavesComplete(cache, elements)
    decreases elements
  {
    hide Skipped;
    if elements != [] {
      WriterSucceeds(c, cache, elements[0].kids);
      WriterSucceeds(c, cache, elements[1..]);
    }
  }

  // ---- What is written

  // The tokens that carry data.
  function Carried(tokens: seq<Token>): seq<Token> {
    if tokens == [] then []
    else (if tokens[0].Attr? || tokens[0].Text? then [tokens[0]] else []) + Carried(tokens[1..])
  }

  predicate Shown(c: Conversions, cache: Cache, f: Field) {
    f.key in cache && (f.leaf || f.required || Form(c, cache, f) != "")
  }

  function Emission(c: Conversions, cache: Cache, fields: seq<Field>): seq<Token> {
    if fields == [] then []
    else
      var f := fields[0];
      (if !Shown(c, cache, f) then []
       else if f.leaf then [Text(Form(c, cache, f))] else [Attr(f.name, Form(c, cache, f))])
      + Emission(c, cache, fields[1..])
  }

  lemma {:induction false} CarriedConcat(a: seq<Token>, b: seq<Token>)
    ensures Carried(a + b) == Carried(a) + Carried(b)
  {
    if a == [] {
      assert a + b == b;
    } else {
      var first := if a[0].Attr? || a[0].Text? then [a[0]] else [];
      var ab := a + b;
      assert ab[0] == a[0] && ab[1..] == a[1..] + b;
      CarriedConcat(a[1..], b);
      assert Carried(a) == first + Carried(a[1..]);
      assert Carried(ab) == first + Carried(ab[1..]);
      assert first + (Carried(a[1..]) + Carried(b)) == (first + Carried(a[1..])) + Carried(b);
    }
  }

  lemma {:induction false} EmissionConcat(c: Conversions, cache: Cache, a: seq<Field>, b: seq<Field>)
    ensures Emission(c, cache, a + b) == Emission(c, cache, a) + Emission(c, cache, b)
  {
    hide Shown, Form;
    if a == [] {
      assert a + b == b;
    } else {
      assert (a + b)[1..] == a[1..] + b;
      EmissionConcat(c, cache, a[1..], b);
    }
  }

  lemma {:induction false} EmissionNone(c: Conversions, cache: Cache, fields: seq<Field>)
    requires !AnyCached(cache, fields)
    ensures Emission(c, cache, fields) == []
  {
    if fields != [] {
      assert fields[0] in fields;
      assert forall f | f in fields[1..] :: f in fields;
      EmissionNone(c, cache, fields[1..]);
    }
  }

  predicate Missing(cache: Cache, a: Attribute) { a.required && a.key !in cache }

  // No attribute that has something to show stands behind a missing required one.
  predicate NothingHidden(c: Conversions, cache: Cache, attributes: seq<Attribute>) {
    forall i, j | 0 <= i < j < |attributes| :: Missing(cache, attributes[i]) ==> !Shown(c, cache, FieldOf(attributes[j]))
  }

  // The same for every element that is written.
  predicate Unhidden(c: Conversions, cache: Cache, elements: seq<Element>) {
    elements != [] ==>
      var e := elements[0];
      (e.key != None || Skipped(cache, e) || (NothingHidden(c, cache, e.attributes) && Unhidden(c, cache, e.kids)))
      && Unhidden(c, cache, elements[1..])
  }

  lemma HiddenStep(c: Conversions, cache: Cache, attributes: seq<Attribute>)
    requires attributes != []
    ensures NothingHidden(c, cache, attributes) <==>
            NothingHidden(c, cache, attributes[1..])
            && (Missing(cache, attributes[0]) ==> forall j | 1 <= j < |attributes| :: !Shown(c, cache, FieldOf(attributes[j])))
  {
    hide Shown, Missing;
    var rest := attributes[1..];
    assert forall i | 0 <= i < |rest| :: rest[i] == attributes[i + 1];
    if NothingHidden(c, cache, rest)
       && (Missing(cache, attributes[0]) ==> forall j | 1 <= j < |attributes| :: !Shown(c, cache, FieldOf(attributes[j]))) {
      forall i, j | 0 <= i < j < |attributes| && Missing(cache, attributes[i])
        ensures !Shown(c, cache, FieldOf(attributes[j]))
      {
        if i > 0 { assert rest[i - 1] == attributes[i] && rest[j - 1] == attributes[j]; }
      }
    }
  }

  lemma {:induction false} NothingShown(c: Conversions, cache: Cache, attributes: seq<Attribute>)
    ensures Emission(c, cache, AttributeFields(attributes)) == []
       <==> forall j | 0 <= j < |attributes| :: !Shown(c, cache, FieldOf(attributes[j]))
  {
    hide Shown, Form;
    if attributes != [] {
      var fields, rest := AttributeFields(attributes), attributes[1..];
      assert fields[0] == FieldOf(attributes[0]) && fields[1..] == AttributeFields(rest);
      NothingShown(c, cache, rest);
      assert forall j | 1 <= j < |attributes| :: rest[j - 1] == attributes[j];
    }
  }

  /**
  Of the attributes of an element the writer emits a beginning of what it should. It emits all of it if and only if
  no attribute that has something to show stands behind a missing required one.
  */
  lemma {:induction false} AttributesExactly(c: Conversions, cache: Cache, attributes: seq<Attribute>)
    ensures var out, due := Carried(AttributesOut(c, cache, attributes).0), Emission(c, cache, AttributeFields(attributes));
            out <= due && (out == due <==> NothingHidden(c, cache, attributes))
  {
    hide NothingHidden;
    if attributes == [] {
      assert NothingHidden(c, cache, attributes) by { NoneHidden(c, cache); }
    } else {
      var a, rest := attributes[0], attributes[1..];
      var fields := AttributeFields(attributes);
      assert fields[0] == FieldOf(a) && fields[1..] == AttributeFields(rest);
      HiddenStep(c, cache, attributes);
      if Missing(cache, a) {
        NothingShown(c, cache, rest);
        assert forall j | 1 <= j < |attributes| :: rest[j - 1] == attributes[j];
        MissingHides(c, cache, attributes);
      } else {
        AttributesExactly(c, cache, rest);
        if Shown(c, cache, fields[0]) {
          var t := Attr(a.name, c.form(a.key, cache[a.key]));
          CarriedConcat([t], AttributesOut(c, cache, rest).0);
          CarriesNone(t);
        }
      }
    }
  }

  lemma NoneHidden(c: Conversions, cache: Cache)
    ensures NothingHidden(c, cache, [])
  {
  }

  // Behind a missing required attribute everything that is shown is hidden.
  lemma MissingHides(c: Conversions, cache: Cache, attributes: seq<Attribute>)
    requires attributes != [] && Missing(cache, attributes[0])
    ensures (forall j | 1 <= j < |attributes| :: !Shown(c, cache, FieldOf(attributes[j]))) ==>
              NothingHidden(c, cache, attributes[1..])
  {
    hide Shown, Missing;
    assert forall i | 0 <= i < |attributes[1..]| :: attributes[1..][i] == attributes[i + 1];
  }

  /**
  Never more is written than there is to show. With all required leaves there, all of it is written, in document
  order, if and only if nothing is hidden.
  */
  lemma {:induction false} ElementsExactly(c: Conversions, cache: Cache, elements: seq<Element>)
    requires LeavesComplete(cache, elements)
    ensures ElementsOut(c, cache, elements).1 == 0
    ensures var out, due := Carried(ElementsOut(c, cache, elements).0), Emission(c, cache, Fields(elements));
            |out| <= |due| && (|out| == |due| <==> Unhidden(c, cache, elements)) && (Unhidden(c, cache, elements) ==> out == due)
    decreases elements
  {
    hide NothingHidden, AttributesOut, LeafOut;
    if elements != [] {
      var e := elements[0];
      var rest := ElementsOut(c, cache, elements[1..]).0;
      ElementsExactly(c, cache, elements[1..]);
      if e.key == None {
        var own := AttributeFields(e.attributes) + Fields(e.kids);
        EmissionConcat(c, cache, own, Fields(elements[1..]));
        EmissionConcat(c, cache, AttributeFields(e.attributes), Fields(e.kids));
        if Skipped(cache, e) {
          assert Fields([e]) == own;
          EmissionNone(c, cache, own);
        } else {
          ElementsExactly(c, cache, e.kids);
          AttributesExactly(c, cache, e.attributes);
          var attributes, inner := AttributesOut(c, cache, e.attributes).0, ElementsOut(c, cache, e.kids).0;
          CarriedElement(e.name, attributes, inner, rest);
        }
      } else {
        var own := [Field(e.name, e.key.value, e.required, true, e.b64)];
        EmissionConcat(c, cache, own, Fields(elements[1..]));
        OwnEmission(c, cache, e);
        if e.key.value in cache {
          CarriedLeaf(LeafOut(c, cache, e), rest);
        }
      }
    }
  }

  lemma OwnEmission(c: Conversions, cache: Cache, e: Element)
    requires e.key != None
    ensures Emission(c, cache, [Field(e.name, e.key.value, e.required, true, e.b64)])
         == if e.key.value in cache then [LeafOut(c, cache, e)[1]] else []
    ensures e.key.value in cache ==>
              var t := LeafOut(c, cache, e); |t| == 3 && t[0].Start? && t[1].Text? && t[2] == End
  {
    assert [Field(e.name, e.key.value, e.required, true, e.b64)][1..] == [];
  }

  /**
  The writer's success is truthful, and everything that the tree and the cache have to show is written once and in
  document order, if and only if no required leaf of a written element is missing and no shown attribute of a
  written element stands behind a missing required one.
  */
  lemma WritesEachLabel(c: Conversions, cache: Cache, elements: seq<Element>)
    ensures ElementsOut(c, cache, elements).1 == 0
            && Carried(ElementsOut(c, cache, elements).0) == Emission(c, cache, Fields(elements))
       <==> LeavesComplete(cache, elements) && Unhidden(c, cache, elements)
  {
    hide LeavesComplete, Unhidden, Emission;
    WriterSucceeds(c, cache, elements);
    if LeavesComplete(cache, elements) {
      ElementsExactly(c, cache, elements);
    }
  }

  lemma CarriedElement(name: string, attributes: seq<Token>, inner: seq<Token>, rest: seq<Token>)
    ensures Carried([Start(name)] + attributes + inner + [End] + rest) == Carried(attributes) + Carried(inner) + Carried(rest)
  {
    hide Carried;
    var all := [Start(name)] + attributes + inner + [End] + rest;
    assert all == [Start(name)] + (attributes + (inner + ([End] + rest)));
    CarriedConcat([Start(name)], attributes + (inner + ([End] + rest)));
    CarriesNone(Start(name));
    CarriesNone(End);
    CarriedConcat([End], rest);
    CarriedConcat(attributes, inner + ([End] + rest));
    CarriedConcat(inner, [End] + rest);
  }

  lemma CarriesNone(t: Token)
    ensures Carried([t]) == if t.Attr? || t.Text? then [t] else []
  {
    assert [t][1..] == [];
  }

  lemma CarriedLeaf(leaf: seq<Token>, rest: seq<Token>)
    requires |leaf| == 3 && leaf[0].Start? && leaf[1].Text? && leaf[2] == End
    ensures Carried(leaf + rest) == [leaf[1]] + Carried(rest)
  {
    hide Carried;
    CarriedConcat(leaf, rest);
    assert leaf == [leaf[0]] + ([leaf[1]] + [leaf[2]]);
    CarriedConcat([leaf[0]], [leaf[1]] + [leaf[2]]);
    CarriedConcat([leaf[1]], [leaf[2]]);
    CarriesNone(leaf[0]);
    CarriesNone(leaf[1]);
    CarriesNone(leaf[2]);
  }

  /**
  What is lost: the attributes of an element up to the first missing required one are written, those behind it are
  not, and the children follow, whose success is that of the whole.
  */
  lemma AttributesTruncated(c: Conversions, cache: Cache, e: Element, i: nat)
    requires e.key == None && !Skipped(cache, e) && i < |e.attributes| && Missing(cache, e.attributes[i])
    requires forall j | 0 <= j < i :: !Missing(cache, e.attributes[j])
    ensures var head := [Start(e.name)] + AttributesOut(c, cache, e.attributes[..i]).0;
            var (inner, rv) := ElementsOut(c, cache, e.kids);
            ElementsOut(c, cache, [e]) == (head + inner + if rv == 0 then [End] else [], rv)
  {
    hide AttributesOut, Skipped;
    var es := [e];
    assert es[1..] == [] && ElementsOut(c, cache, es[1..]) == ([], 0);
    Truncated(c, cache, e.attributes, i);
    var head := [Start(e.name)] + AttributesOut(c, cache, e.attributes).0;
    var (inner, rv) := ElementsOut(c, cache, e.kids);
    assert head + inner + [End] + [] == head + inner + [End];
    assert head + inner + [] == head + inner;
  }

  lemma {:induction false} Truncated(c: Conversions, cache: Cache, attributes: seq<Attribute>, i: nat)
    requires i < |attributes| && Missing(cache, attributes[i]) && forall j | 0 <= j < i :: !Missing(cache, attributes[j])
    ensures AttributesOut(c, cache, attributes).0 == AttributesOut(c, cache, attributes[..i]).0
    decreases i
  {
    if i > 0 {
      assert attributes[..i][1..] == attributes[1..][..i - 1];
      Truncated(c, cache, attributes[1..], i - 1);
    }
  }

  // An optional element without label is left out if and only if no label at any depth below it is cached; a required one
  // never is.
  lemma LeftOutExactly(c: Conversions, cache: Cache, e: Element)
    requires e.key == None
    ensures ElementsOut(c, cache, [e]).0 == [] <==> !e.required && forall f <- Fields([e]) :: f.key !in cache
  {
    hide AttributesOut;
    assert [e][1..] == [];
    var out := ElementsOut(c, cache, [e]).0;
    if !Skipped(cache, e) { assert out[0] == Start(e.name); }
  }

  // ---- The reader

  datatype Maps = Maps(elements: map<string, Element>, attributes: map<string, Attribute>)

  const MaxDepth: nat := 8

  // The names of the open elements by depth, the number of open elements, and what was read so far.
  datatype Reader = Reader(names: seq<string>, depth: nat, cache: Cache)

  // Text of this kind is reported as white space.
  predicate Blank(text: string) { forall i | 0 <= i < |text| :: text[i] in {' ', '\t', '\r', '\n'} }

  lemma BlankEach(ch: char, text: string)
    ensures Blank([]) && (Blank([ch] + text) <==> (ch == ' ' || ch == '\t' || ch == '\r' || ch == '\n') && Blank(text))
  {
    var all := [ch] + text;
    assert all[0] == ch && forall i | 0 <= i < |text| :: text[i] == all[i + 1];
  }

  function ReadToken(m: Maps, c: Conversions, st: Reader, t: Token): (r: Reader)
    requires |st.names| == MaxDepth + 1
    ensures |r.names| == MaxDepth + 1
  {
    match t
    case Start(name) => st.(names := if st.depth <= MaxDepth then st.names[st.depth := name] else st.names, depth := st.depth + 1)
    case Attr(name, value) =>
      if name !in m.attributes then st
      else var key := m.attributes[name].key; st.(cache := st.cache[key := c.back(key, value)])
    case Text(value) =>
      if Blank(value) || st.depth > MaxDepth || st.depth == 0 || st.names[st.depth - 1] !in m.elements then st
      else
        var e := m.elements[st.names[st.depth - 1]];
        if e.key == None then st
        else
          var key := e.key.value;
          st.(cache := st.cache[key := if e.b64 then c.decode(key, value) else c.back(key, value)])
    case End => st.(depth := if st.depth > 0 then st.depth - 1 else 0)
  }

  function ReadAll(m: Maps, c: Conversions, st: Reader, tokens: seq<Token>): (r: Reader)
    requires |st.names| == MaxDepth + 1
    ensures |r.names| == MaxDepth + 1
    decreases |tokens|
  {
    if tokens == [] then st else ReadAll(m, c, ReadToken(m, c, st, tokens[0]), tokens[1..])
  }

  lemma {:induction false} ReadConcat(m: Maps, c: Conversions, st: Reader, a: seq<Token>, b: seq<Token>)
    requires |st.names| == MaxDepth + 1
    ensures ReadAll(m, c, st, a + b) == ReadAll(m, c, ReadAll(m, c, st, a), b)
    decreases |a|
  {
    hide ReadToken;
    if a == [] {
      assert a + b == b;
    } else {
      assert (a + b)[1..] == a[1..] + b;
      ReadConcat(m, c, ReadToken(m, c, st, a[0]), a[1..], b);
    }
  }

  // ---- The maps

  function AllElements(elements: seq<Element>): seq<Element>
    decreases elements
  {
    if elements == [] then [] else [elements[0]] + AllElements(elements[0].kids) + AllElements(elements[1..])
  }

  function AllAttributes(elements: seq<Element>): seq<Attribute>
    decreases elements
  {
    if elements == [] then [] else AllAttributes(elements[0].kids) + elements[0].attributes + AllAttributes(elements[1..])
  }

  // Later entries replace earlier ones of the same name.
  function Enter(m: map<string, Element>, elements: seq<Element>): map<string, Element>
    decreases |elements|
  {
    if elements == [] then m else Enter(m[elements[0].name := elements[0]], elements[1..])
  }

  function EnterAttributes(m: map<string, Attribute>, attributes: seq<Attribute>): map<string, Attribute>
    decreases |attributes|
  {
    if attributes == [] then m else EnterAttributes(m[attributes[0].name := attributes[0]], attributes[1..])
  }

  function MapsOf(elements: seq<Element>): Maps {
    Maps(Enter(map[], AllElements(elements)), EnterAttributes(map[], AllAttributes(elements)))
  }

  predicate UniqueNames(elements: seq<Element>) {
    var es, as_ := AllElements(elements), AllAttributes(elements);
    (forall i, j | 0 <= i < j < |es| :: es[i].name != es[j].name)
    && (forall i, j | 0 <= i < j < |as_| :: as_[i].name != as_[j].name)
  }

  lemma {:induction false} EnterFinds(m: map<string, Element>, es: seq<Element>)
    requires forall i, j | 0 <= i < j < |es| :: es[i].name != es[j].name
    ensures forall e <- es :: e.name in Enter(m, es) && Enter(m, es)[e.name] == e
    ensures forall name | name in m && (forall e <- es :: e.name != name) :: name in Enter(m, es) && Enter(m, es)[name] == m[name]
    decreases |es|
  {
    if es != [] {
      var m1 := m[es[0].name := es[0]];
      forall e | e in es[1..] ensures e.name != es[0].name {
        var j :| 0 <= j < |es[1..]| && es[1..][j] == e;
        assert es[j + 1] == e;
      }
      EnterFinds(m1, es[1..]);
      assert forall e <- es :: e == es[0] || e in es[1..];
    }
  }

  lemma {:induction false} EnterAttributesFinds(m: map<string, Attribute>, as_: seq<Attribute>)
    requires forall i, j | 0 <= i < j < |as_| :: as_[i].name != as_[j].name
    ensures forall a <- as_ :: a.name in EnterAttributes(m, as_) && EnterAttributes(m, as_)[a.name] == a
    ensures forall name | name in m && (forall a <- as_ :: a.name != name) ::
              name in EnterAttributes(m, as_) && EnterAttributes(m, as_)[name] == m[name]
    decreases |as_|
  {
    if as_ != [] {
      var m1 := m[as_[0].name := as_[0]];
      forall a | a in as_[1..] ensures a.name != as_[0].name {
        var j :| 0 <= j < |as_[1..]| && as_[1..][j] == a;
        assert as_[j + 1] == a;
      }
      EnterAttributesFinds(m1, as_[1..]);
      assert forall a <- as_ :: a == as_[0] || a in as_[1..];
    }
  }

  // The maps find every descriptor of a tree by its name.
  predicate Finds(m: Maps, elements: seq<Element>) {
    (forall e <- AllElements(elements) :: e.name in m.elements && m.elements[e.name] == e)
    && (forall a <- AllAttributes(elements) :: a.name in m.attributes && m.attributes[a.name] == a)
  }

  lemma MapsFind(elements: seq<Element>)
    requires UniqueNames(elements)
    ensures Finds(MapsOf(elements), elements)
  {
    EnterFinds(map[], AllElements(elements));
    EnterAttributesFinds(map[], AllAttributes(elements));
  }

  // ---- Round trip

  // What comes back of a cached value, by the conversion that the kind of its field asks for.
  function Back(c: Conversions, cache: Cache, f: Field): Value
    requires f.key in cache
  {
    if f.b64 then c.decode(f.key, Form(c, cache, f)) else c.back(f.key, Form(c, cache, f))
  }

  function Height(elements: seq<Element>): nat {
    if elements == [] then 0
    else
      var first, rest := 1 + Height(elements[0].kids), Height(elements[1..]);
      if first > rest then first else rest
  }

  // What is written and also read: text that is blank is not.
  predicate Survives(c: Conversions, cache: Cache, f: Field) {
    Shown(c, cache, f) && (f.leaf ==> !Blank(Form(c, cache, f)))
  }

  function Absorb(c: Conversions, cache: Cache, into: Cache, fields: seq<Field>): Cache
    decreases |fields|
  {
    if fields == [] then into
    else Absorb(c, cache, if Survives(c, cache, fields[0]) then into[fields[0].key := Back(c, cache, fields[0])] else into, fields[1..])
  }

  lemma {:induction false} AbsorbConcat(c: Conversions, cache: Cache, into: Cache, a: seq<Field>, b: seq<Field>)
    ensures Absorb(c, cache, into, a + b) == Absorb(c, cache, Absorb(c, cache, into, a), b)
    decreases |a|
  {
    hide Form, Blank;
    if a == [] {
      assert a + b == b;
    } else {
      assert (a + b)[1..] == a[1..] + b;
      AbsorbConcat(c, cache, if Survives(c, cache, a[0]) then into[a[0].key := Back(c, cache, a[0])] else into, a[1..], b);
    }
  }

  lemma {:induction false} AbsorbNone(c: Conversions, cache: Cache, into: Cache, fields: seq<Field>)
    requires !AnyCached(cache, fields)
    ensures Absorb(c, cache, into, fields) == into
    decreases |fields|
  {
    if fields != [] {
      assert fields[0] in fields;
      assert forall f | f in fields[1..] :: f in fields;
      AbsorbNone(c, cache, into, fields[1..]);
    }
  }

  lemma {:induction false} ReadAttributes(m: Maps, c: Conversions, cache: Cache, attributes: seq<Attribute>, st: Reader)
    requires |st.names| == MaxDepth + 1 && NothingHidden(c, cache, attributes)
    requires forall a <- attributes :: a.name in m.attributes && m.attributes[a.name] == a
    ensures ReadAll(m, c, st, AttributesOut(c, cache, attributes).0)
         == st.(cache := Absorb(c, cache, st.cache, AttributeFields(attributes)))
    decreases |attributes|
  {
    hide NothingHidden;
    if attributes != [] {
      var a := attributes[0];
      assert a in attributes;
      var fields := AttributeFields(attributes);
      var tokens := AttributesOut(c, cache, attributes).0;
      assert fields[0] == FieldOf(a) && fields[1..] == AttributeFields(attributes[1..]);
      HiddenStep(c, cache, attributes);
      if Missing(cache, a) {
        assert forall j | 0 <= j < |attributes[1..]| :: attributes[1..][j] == attributes[j + 1];
        AbsorbHidden(c, cache, st.cache, attributes[1..]);
      } else if Shown(c, cache, fields[0]) {
        assert tokens[0] == Attr(a.name, c.form(a.key, cache[a.key]));
        assert tokens[1..] == AttributesOut(c, cache, attributes[1..]).0;
        ReadAttributes(m, c, cache, attributes[1..], ReadToken(m, c, st, tokens[0]));
      } else {
        ReadAttributes(m, c, cache, attributes[1..], st);
      }
    }
  }

  lemma {:induction false} AbsorbHidden(c: Conversions, cache: Cache, into: Cache, attributes: seq<Attribute>)
    requires forall j | 0 <= j < |attributes| :: !Shown(c, cache, FieldOf(attributes[j]))
    ensures Absorb(c, cache, into, AttributeFields(attributes)) == into
    decreases |attributes|
  {
    hide Shown, Form, Blank;
    if attributes != [] {
      var fields := AttributeFields(attributes);
      assert fields[0] == FieldOf(attributes[0]) && fields[1..] == AttributeFields(attributes[1..]);
      AbsorbHidden(c, cache, into, attributes[1..]);
    }
  }

  lemma ReadLeaf(m: Maps, c: Conversions, cache: Cache, e: Element, st: Reader)
    requires |st.names| == MaxDepth + 1 && st.depth < MaxDepth
    requires e.name in m.elements && m.elements[e.name] == e && e.key != None && e.key.value in cache
    ensures var q := ReadAll(m, c, st, LeafOut(c, cache, e));
            q.depth == st.depth && q.names[..st.depth] == st.names[..st.depth]
            && q.cache == Absorb(c, cache, st.cache, [Field(e.name, e.key.value, e.required, true, e.b64)])
  {
    var f := Field(e.name, e.key.value, e.required, true, e.b64);
    var tokens := LeafOut(c, cache, e);
    var text := Text(Form(c, cache, f));
    assert tokens[1..] == [text, End] && [text, End][1..] == [End] && [End][1..] == [];
    var st1 := ReadToken(m, c, st, tokens[0]);
    var st2 := ReadToken(m, c, st1, text);
    assert ReadAll(m, c, st2, [End]) == ReadToken(m, c, st2, End);
    assert ReadAll(m, c, st1, [text, End]) == ReadAll(m, c, st2, [End]);
    assert [f][1..] == [];
  }

  lemma {:induction false} ReadForest(m: Maps, c: Conversions, cache: Cache, elements: seq<Element>, st: Reader)
    requires |st.names| == MaxDepth + 1 && st.depth + Height(elements) <= MaxDepth
    requires LeavesComplete(cache, elements) && Unhidden(c, cache, elements) && Finds(m, elements)
    ensures var q := ReadAll(m, c, st, ElementsOut(c, cache, elements).0);
            q.depth == st.depth && q.names[..st.depth] == st.names[..st.depth]
            && q.cache == Absorb(c, cache, st.cache, Fields(elements))
    decreases elements
  {
    hide Absorb, ReadAll, Skipped, AttributesOut, NothingHidden, LeafOut, Finds, ReadToken;
    if elements == [] {
      ReadNothing(m, c, cache, st);
    } else {
      var e := elements[0];
      var tail := elements[1..];
      FindsParts(m, elements);
      WriterSucceeds(c, cache, tail);
      var rest := ElementsOut(c, cache, tail).0;
      if e.key != None {
        var own := [Field(e.name, e.key.value, e.required, true, e.b64)];
        AbsorbConcat(c, cache, st.cache, own, Fields(tail));
        if e.key.value in cache {
          ReadLeaf(m, c, cache, e, st);
          ReadConcat(m, c, st, LeafOut(c, cache, e), rest);
          ReadForest(m, c, cache, tail, ReadAll(m, c, st, LeafOut(c, cache, e)));
        } else {
          NotCached(c, cache, st.cache, own);
          ReadForest(m, c, cache, tail, st);
        }
      } else {
        var own := AttributeFields(e.attributes) + Fields(e.kids);
        AbsorbConcat(c, cache, st.cache, own, Fields(tail));
        if Skipped(cache, e) {
          SkippedHasNone(cache, e);
          AbsorbNone(c, cache, st.cache, own);
          ReadForest(m, c, cache, tail, st);
        } else {
          AbsorbConcat(c, cache, st.cache, AttributeFields(e.attributes), Fields(e.kids));
          WriterSucceeds(c, cache, e.kids);
          var attributes, inner := AttributesOut(c, cache, e.attributes).0, ElementsOut(c, cache, e.kids).0;
          var st1 := ReadToken(m, c, st, Start(e.name));
          ReadStart(m, c, st, e.name);
          ReadAttributes(m, c, cache, e.attributes, st1);
          var st2 := ReadAll(m, c, st1, attributes);
          ReadForest(m, c, cache, e.kids, st2);
          var st3 := ReadAll(m, c, st2, inner);
          var st4 := ReadToken(m, c, st3, End);
          ReadEnd(m, c, st3);
          ReadWhole(m, c, st, e.name, attributes, inner, rest);
          assert st4.names[..st.depth] == st3.names[..st1.depth][..st.depth] == st1.names[..st.depth];
          ReadForest(m, c, cache, tail, st4);
        }
      }
    }
  }

  lemma ReadStart(m: Maps, c: Conversions, st: Reader, name: string)
    requires |st.names| == MaxDepth + 1 && st.depth <= MaxDepth
    ensures var q := ReadToken(m, c, st, Start(name));
            q.depth == st.depth + 1 && q.cache == st.cache && q.names[..st.depth] == st.names[..st.depth]
  {
  }

  lemma ReadEnd(m: Maps, c: Conversions, st: Reader)
    requires |st.names| == MaxDepth + 1 && st.depth > 0
    ensures ReadToken(m, c, st, End) == st.(depth := st.depth - 1)
  {
  }

  lemma ReadNothing(m: Maps, c: Conversions, cache: Cache, st: Reader)
    requires |st.names| == MaxDepth + 1
    ensures ReadAll(m, c, st, []) == st && Absorb(c, cache, st.cache, []) == st.cache
  {
  }

  lemma NotCached(c: Conversions, cache: Cache, into: Cache, own: seq<Field>)
    ensures |own| == 1 && own[0].key !in cache ==> Absorb(c, cache, into, own) == into
  {
    assert |own| == 1 ==> own[1..] == [];
  }

  lemma SkippedHasNone(cache: Cache, e: Element)
    ensures Skipped(cache, e) ==> !AnyCached(cache, AttributeFields(e.attributes) + Fields(e.kids))
  {
    assert Skipped(cache, e) ==> Fields([e]) == AttributeFields(e.attributes) + Fields(e.kids);
  }

  lemma ReadWhole(m: Maps, c: Conversions, st: Reader, name: string, attributes: seq<Token>, inner: seq<Token>, rest: seq<Token>)
    requires |st.names| == MaxDepth + 1
    ensures ReadAll(m, c, st, [Start(name)] + attributes + inner + [End] + rest)
         == ReadAll(m, c, ReadToken(m, c, ReadAll(m, c, ReadAll(m, c, ReadToken(m, c, st, Start(name)), attributes), inner), End), rest)
  {
    hide ReadToken;
    var all := [Start(name)] + attributes + inner + [End] + rest;
    var tail := inner + ([End] + rest);
    assert all[0] == Start(name) && all[1..] == attributes + tail;
    var st1 := ReadToken(m, c, st, Start(name));
    ReadConcat(m, c, st1, attributes, tail);
    var st2 := ReadAll(m, c, st1, attributes);
    ReadConcat(m, c, st2, inner, [End] + rest);
    assert ([End] + rest)[1..] == rest;
  }

  lemma FindsParts(m: Maps, elements: seq<Element>)
    requires elements != [] && Finds(m, elements)
    ensures Finds(m, elements[0].kids) && Finds(m, elements[1..])
    ensures elements[0].name in m.elements && m.elements[elements[0].name] == elements[0]
    ensures forall a <- elements[0].attributes :: a.name in m.attributes && m.attributes[a.name] == a
  {
    assert elements[0] in AllElements(elements);
  }

  // The last field with a label that is read back: the one whose value stays.
  function Last(c: Conversions, cache: Cache, fields: seq<Field>, key: string): (r: Option<Field>)
    ensures r != None ==> r.value in fields && r.value.key == key && Survives(c, cache, r.value)
    ensures r == None ==> forall f <- fields :: f.key == key ==> !Survives(c, cache, f)
  {
    if fields == [] then None
    else
      var n := |fields| - 1;
      assert forall f :: f in fields <==> f in fields[..n] || f == fields[n];
      if fields[n].key == key && Survives(c, cache, fields[n]) then Some(fields[n]) else Last(c, cache, fields[..n], key)
  }

  lemma {:induction false} AbsorbExactly(c: Conversions, cache: Cache, into: Cache, fields: seq<Field>)
    ensures var q := Absorb(c, cache, into, fields);
            forall key ::
              var f := Last(c, cache, fields, key);
              if f != None then key in q && q[key] == Back(c, cache, f.value)
              else (key in q <==> key in into) && (key in q ==> q[key] == into[key])
    decreases |fields|
  {
    hide Form, Blank, Survives;
    if fields != [] {
      var n := |fields| - 1;
      assert fields == fields[..n] + [fields[n]];
      AbsorbConcat(c, cache, into, fields[..n], [fields[n]]);
      AbsorbExactly(c, cache, into, fields[..n]);
      assert [fields[n]][1..] == [];
    }
  }

  predicate UniqueLabels(fields: seq<Field>) { forall i, j | 0 <= i < j < |fields| :: fields[i].key != fields[j].key }

  /**
  Writing and reading back, with unique names and a truthful success, whatever the conversions are: what comes back are
  the labels of the tree that are cached, except optional attributes without text and leaves whose text is blank; each with
  what its own conversion makes of its value there and back, of the last one if the tree has a label twice.
  */
  lemma RoundTrip(c: Conversions, cache: Cache, elements: seq<Element>, names: seq<string>)
    requires UniqueNames(elements) && Height(elements) <= MaxDepth && |names| == MaxDepth + 1
    requires LeavesComplete(cache, elements) && Unhidden(c, cache, elements)
    ensures var read := ReadAll(MapsOf(elements), c, Reader(names, 0, map[]), ElementsOut(c, cache, elements).0).cache;
            ComesBack(c, cache, Fields(elements), read)
  {
    hide LeavesComplete, Unhidden, UniqueNames, Finds, Survives;
    MapsFind(elements);
    ReadForest(MapsOf(elements), c, cache, elements, Reader(names, 0, map[]));
    AbsorbExactly(c, cache, map[], Fields(elements));
  }

  ghost predicate ComesBack(c: Conversions, cache: Cache, fields: seq<Field>, read: Cache) {
    (forall key :: key in read <==> exists f :: f in fields && f.key == key && Survives(c, cache, f))
    && forall key | key in read ::
         var f := Last(c, cache, fields, key); f != None && read[key] == Back(c, cache, f.value)
  }

  // The value is restored by the one conversion that its label goes through.
  predicate Inverts(c: Conversions, cache: Cache, f: Field)
    requires f.key in cache
  {
    Back(c, cache, f) == cache[f.key]
  }

  // With unique labels a label that survives has its own value again if and only if its own conversion inverts there.
  lemma OwnValueExactly(c: Conversions, cache: Cache, fields: seq<Field>, read: Cache, f: Field)
    requires ComesBack(c, cache, fields, read) && UniqueLabels(fields) && f in fields && Survives(c, cache, f)
    ensures f.key in read && read[f.key] == Back(c, cache, f)
    ensures read[f.key] == cache[f.key] <==> Inverts(c, cache, f)
  {
    hide Survives;
    var g := Last(c, cache, fields, f.key);
    assert g != None && g.value == f;
  }
}
