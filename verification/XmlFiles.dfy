/** The writer and the reader of eID files at work, and the descriptor tree that is shipped. */
module XmlFiles {
  import opened Wrappers
  import opened XmlFormat

  lemma FieldsCons(elements: seq<Element>, i: nat)
    requires i < |elements|
    ensures Fields(elements[i..]) ==
            (if elements[i].key != None
             then [Field(elements[i].name, elements[i].key.value, elements[i].required, true, elements[i].b64)]
             else AttributeFields(elements[i].attributes) + Fields(elements[i].kids))
            + Fields(elements[i + 1..])
  {
    assert elements[i..][0] == elements[i] && elements[i..][1..] == elements[i + 1..];
  }

  lemma AnyCachedConcat(cache: Cache, a: seq<Field>, b: seq<Field>)
    ensures AnyCached(cache, a + b) <==> AnyCached(cache, a) || AnyCached(cache, b)
  {
    assert forall f :: f in a + b <==> f in a || f in b;
  }

  class Writer {
    const cache: Cache
    const c: Conversions
    var out: seq<Token>

    constructor (cache: Cache, c: Conversions)
      ensures this.cache == cache && this.c == c && out == []
    {
      this.cache, this.c, out := cache, c, [];
    }

    method AnyAttributesPresent(attributes: seq<Attribute>) returns (present: bool)
      ensures present <==> AnyCached(cache, AttributeFields(attributes))
    {
      var i := 0;
      assert attributes[0..] == attributes;
      while i < |attributes|
        invariant i <= |attributes|
        invariant AnyCached(cache, AttributeFields(attributes)) <==> AnyCached(cache, AttributeFields(attributes[i..]))
      {
        var a := attributes[i];
        assert attributes[i..][0] == a && attributes[i..][1..] == attributes[i + 1..];
        AnyCachedConcat(cache, [Field(a.name, a.key, a.required, false, false)], AttributeFields(attributes[i + 1..]));
        if a.key in cache {
          assert Field(a.name, a.key, a.required, false, false) in AttributeFields(attributes[i..]);
          return true;
        }
        i := i + 1;
      }
      return false;
    }

    // Whether anything below these elements has data, at any depth.
    method AnyElementsPresent(elements: seq<Element>) returns (present: bool)
      ensures present <==> AnyCached(cache, Fields(elements))
      decreases elements
    {
      var i := 0;
      assert elements[0..] == elements;
      while i < |elements|
        invariant i <= |elements|
        invariant AnyCached(cache, Fields(elements)) <==> AnyCached(cache, Fields(elements[i..]))
      {
        var e := elements[i];
        FieldsCons(elements, i);
        ghost var own := if e.key != None then [Field(e.name, e.key.value, e.required, true, e.b64)]
                         else AttributeFields(e.attributes) + Fields(e.kids);
        AnyCachedConcat(cache, own, Fields(elements[i + 1..]));
        if e.key == None {
          AnyCachedConcat(cache, AttributeFields(e.attributes), Fields(e.kids));
          var mine := AnyAttributesPresent(e.attributes);
          if mine {
            return true;
          }
          mine := AnyElementsPresent(e.kids);
          if mine {
            return true;
          }
        } else if e.key.value in cache {
          assert own[0].key in cache;
          return true;
        }
        i := i + 1;
      }
      return false;
    }

    method Write(t: Token)
      modifies this`out
      ensures out == old(out) + [t]
    {
      out := out + [t];
    }

    method WriteAttributes(attributes: seq<Attribute>) returns (rv: int)
      modifies this`out
      ensures (out, rv) == (old(out) + AttributesOut(c, cache, attributes).0, AttributesOut(c, cache, attributes).1)
    {
      var i := 0;
      assert attributes[0..] == attributes;
      while i < |attributes|
        invariant i <= |attributes|
        invariant old(out) + AttributesOut(c, cache, attributes).0 == out + AttributesOut(c, cache, attributes[i..]).0
        invariant AttributesOut(c, cache, attributes).1 == AttributesOut(c, cache, attributes[i..]).1
      {
        var a := attributes[i];
        assert attributes[i..][0] == a && attributes[i..][1..] == attributes[i + 1..];
        var have := a.key in cache;
        if a.required && !have {
          assert out + [] == out;
          return -1;
        }
        if have {
          var value := c.form(a.key, cache[a.key]);
          if |value| > 0 || a.required {
            Write(Attr(a.name, value));
          }
        }
        i := i + 1;
      }
      assert attributes[i..] == [] && out + [] == out;
      return 0;
    }

    method WriteElements(elements: seq<Element>) returns (rv: int)
      modifies this`out
      ensures out == old(out) + ElementsOut(c, cache, elements).0 && rv == ElementsOut(c, cache, elements).1
      decreases elements
    {
      hide Fields, AttributesOut, ElementsOut, LeafOut;
      var i := 0;
      assert elements[0..] == elements;
      while i < |elements|
        invariant i <= |elements|
        invariant old(out) + ElementsOut(c, cache, elements).0 == out + ElementsOut(c, cache, elements[i..]).0
        invariant ElementsOut(c, cache, elements).1 == ElementsOut(c, cache, elements[i..]).1
      {
        var e := elements[i];
        ghost var start := out;
        OutStep(c, cache, elements, i);
        if e.key == None {
          if !e.required {
            ContainerFields(e);
            AnyCachedConcat(cache, AttributeFields(e.attributes), Fields(e.kids));
            var mine := AnyAttributesPresent(e.attributes);
            var below := AnyElementsPresent(e.kids);
            if !mine && !below {
              assert Skipped(cache, e);
              i := i + 1;
              continue;
            }
          }
          assert !Skipped(cache, e);
          Write(Start(e.name));
          var ignored := WriteAttributes(e.attributes);
          var code := WriteElements(e.kids);
          assert out == start + ([Start(e.name)] + AttributesOut(c, cache, e.attributes).0 + ElementsOut(c, cache, e.kids).0);
          if code != 0 {
            return code;
          }
          Write(End);
        } else if e.key.value in cache {
          Write(Start(e.name));
          Write(Text(if e.b64 then c.encode(cache[e.key.value]) else c.form(e.key.value, cache[e.key.value])));
          Write(End);
          LeafTokens(c, cache, e);
          assert out == start + LeafOut(c, cache, e);
        } else if e.required {
          return -1;
        }
        i := i + 1;
      }
      assert elements[i..] == [];
      OutNothing(c, cache);
      return 0;
    }
  }

  // One step of the writer on a list of elements.
  lemma OutStep(c: Conversions, cache: Cache, elements: seq<Element>, i: nat)
    requires i < |elements|
    ensures var e := elements[i];
            var (rest, last) := ElementsOut(c, cache, elements[i + 1..]);
            var (inner, rv) := ElementsOut(c, cache, e.kids);
            var head := [Start(e.name)] + AttributesOut(c, cache, e.attributes).0;
            ElementsOut(c, cache, elements[i..]) ==
            if e.key == None then
              if Skipped(cache, e) then (rest, last)
              else if rv != 0 then (head + inner, rv) else (head + inner + [End] + rest, last)
            else if e.key.value in cache then (LeafOut(c, cache, e) + rest, last)
            else if e.required then ([], -1) else (rest, last)
  {
    hide AttributesOut, LeafOut, Skipped;
    assert elements[i..][0] == elements[i] && elements[i..][1..] == elements[i + 1..];
  }

  lemma OutNothing(c: Conversions, cache: Cache)
    ensures ElementsOut(c, cache, []) == ([], 0)
  {
  }

  lemma LeafTokens(c: Conversions, cache: Cache, e: Element)
    requires e.key != None && e.key.value in cache
    ensures LeafOut(c, cache, e)
         == [Start(e.name)] + [Text(if e.b64 then c.encode(cache[e.key.value]) else c.form(e.key.value, cache[e.key.value]))] + [End]
  {
  }

  lemma ContainerFields(e: Element)
    ensures e.key == None ==> Fields([e]) == AttributeFields(e.attributes) + Fields(e.kids)
  {
    assert [e][1..] == [];
  }

  // ---- The reader

  lemma {:induction false} EnterConcat(m: map<string, Element>, a: seq<Element>, b: seq<Element>)
    ensures Enter(m, a + b) == Enter(Enter(m, a), b)
    decreases |a|
  {
    if a == [] {
      assert a + b == b;
    } else {
      assert (a + b)[1..] == a[1..] + b;
      EnterConcat(m[a[0].name := a[0]], a[1..], b);
    }
  }

  lemma {:induction false} EnterAttributesConcat(m: map<string, Attribute>, a: seq<Attribute>, b: seq<Attribute>)
    ensures EnterAttributes(m, a + b) == EnterAttributes(EnterAttributes(m, a), b)
    decreases |a|
  {
    if a == [] {
      assert a + b == b;
    } else {
      assert (a + b)[1..] == a[1..] + b;
      EnterAttributesConcat(m[a[0].name := a[0]], a[1..], b);
    }
  }

  // One descriptor of the tree, in the order in which initmap walks it.
  lemma MapStep(elements: map<string, Element>, attributes: map<string, Attribute>, tree: seq<Element>, i: nat)
    requires i < |tree|
    ensures var e, rest := tree[i], tree[i + 1..];
            Enter(elements, AllElements(tree[i..])) == Enter(Enter(elements[e.name := e], AllElements(e.kids)), AllElements(rest))
            && EnterAttributes(attributes, AllAttributes(tree[i..]))
            == EnterAttributes(EnterAttributes(EnterAttributes(attributes, AllAttributes(e.kids)), e.attributes), AllAttributes(rest))
  {
    hide EnterAttributes;
    var e, rest := tree[i], tree[i + 1..];
    assert tree[i..][0] == e && tree[i..][1..] == rest;
    var all := AllElements(tree[i..]);
    assert all == [e] + AllElements(e.kids) + AllElements(rest);
    assert all[0] == e && all[1..] == AllElements(e.kids) + AllElements(rest);
    EnterConcat(elements[e.name := e], AllElements(e.kids), AllElements(rest));
    EnterAttributesConcat(attributes, AllAttributes(e.kids) + e.attributes, AllAttributes(rest));
    EnterAttributesConcat(attributes, AllAttributes(e.kids), e.attributes);
  }

  class Loader {
    const c: Conversions
    var elements: map<string, Element>
    var attributes: map<string, Attribute>
    var cache: Cache

    constructor (c: Conversions)
      ensures this.c == c && elements == map[] && attributes == map[] && cache == map[]
    {
      this.c, elements, attributes, cache := c, map[], map[], map[];
    }

    method MapAttributes(list: seq<Attribute>)
      modifies this`attributes
      ensures attributes == EnterAttributes(old(attributes), list)
    {
      assert list[0..] == list;
      for j := 0 to |list|
        invariant EnterAttributes(attributes, list[j..]) == EnterAttributes(old(attributes), list)
      {
        assert list[j..][0] == list[j] && list[j..][1..] == list[j + 1..];
        attributes := attributes[list[j].name := list[j]];
      }
    }

    // initmap: the maps are filled while the tree is walked.
    method InitMap(tree: seq<Element>)
      modifies this`elements, this`attributes
      ensures elements == Enter(old(elements), AllElements(tree))
      ensures attributes == EnterAttributes(old(attributes), AllAttributes(tree))
      decreases tree
    {
      hide Enter, EnterAttributes, AllElements, AllAttributes;
      var i := 0;
      assert tree[0..] == tree;
      while i < |tree|
        invariant i <= |tree|
        invariant Enter(elements, AllElements(tree[i..])) == Enter(old(elements), AllElements(tree))
        invariant EnterAttributes(attributes, AllAttributes(tree[i..])) == EnterAttributes(old(attributes), AllAttributes(tree))
      {
        MapStep(elements, attributes, tree, i);
        var e := tree[i];
        elements := elements[e.name := e];
        InitMap(e.kids);
        MapAttributes(e.attributes);
        i := i + 1;
      }
      assert tree[i..] == [];
      MapNothing(elements, attributes);
    }

    method ParseAttribute(name: string, value: string)
      modifies this`cache
      ensures cache == if name in attributes
                       then old(cache)[attributes[name].key := c.back(attributes[name].key, value)] else old(cache)
    {
      if name in attributes {
        var key := attributes[name].key;
        cache := cache[key := c.back(key, value)];
      }
    }

    method StoreTextElement(value: string, name: string)
      modifies this`cache
      ensures cache == if name in elements && elements[name].key != None
                       then old(cache)[elements[name].key.value :=
                              if elements[name].b64 then c.decode(elements[name].key.value, value)
                              else c.back(elements[name].key.value, value)]
                       else old(cache)
    {
      if name in elements && elements[name].key != None {
        var key := elements[name].key.value;
        if elements[name].b64 {
          cache := cache[key := c.decode(key, value)];
        } else {
          cache := cache[key := c.back(key, value)];
        }
      }
    }

    // The loop over the nodes of a file, with the names of the open elements by depth.
    method Deserialize(tokens: seq<Token>)
      modifies this`cache
      ensures cache == ReadAll(Maps(elements, attributes), c, Reader(seq(MaxDepth + 1, _ => ""), 0, old(cache)), tokens).cache
    {
      var names := seq(MaxDepth + 1, _ => "");
      var depth: nat := 0;
      ghost var m := Maps(elements, attributes);
      ghost var start := Reader(names, 0, cache);
      assert tokens[0..] == tokens;
      for i := 0 to |tokens|
        invariant |names| == MaxDepth + 1 && m == Maps(elements, attributes)
        invariant ReadAll(m, c, Reader(names, depth, cache), tokens[i..]) == ReadAll(m, c, start, tokens)
      {
        assert tokens[i..][0] == tokens[i] && tokens[i..][1..] == tokens[i + 1..];
        ghost var st := Reader(names, depth, cache);
        match tokens[i] {
          case Start(name) =>
            if depth <= MaxDepth {
              names := names[depth := name];
            }
            depth := depth + 1;
          case Attr(name, value) =>
            ParseAttribute(name, value);
          case Text(value) =>
            if !Blank(value) && 0 < depth <= MaxDepth {
              StoreTextElement(value, names[depth - 1]);
            }
          case End =>
            if depth > 0 {
              depth := depth - 1;
            }
        }
        assert Reader(names, depth, cache) == ReadToken(m, c, st, tokens[i]);
      }
    }
  }

  lemma MapNothing(elements: map<string, Element>, attributes: map<string, Attribute>)
    ensures Enter(elements, AllElements([])) == elements && EnterAttributes(attributes, AllAttributes([])) == attributes
  {
  }

  // Saving the cache by a descriptor tree and loading the file again.
  method SaveAndLoad(c: Conversions, cache: Cache, tree: seq<Element>) returns (read: Cache)
    requires UniqueNames(tree) && Height(tree) <= MaxDepth
    requires LeavesComplete(cache, tree) && Unhidden(c, cache, tree)
    ensures ComesBack(c, cache, Fields(tree), read)
  {
    hide LeavesComplete, Unhidden, UniqueNames, ReadAll, ElementsOut, Fields, ComesBack;
    var writer := new Writer(cache, c);
    var rv := writer.WriteElements(tree);
    var loader := new Loader(c);
    loader.InitMap(tree);
    loader.Deserialize(writer.out);
    RoundTrip(c, cache, tree, seq(MaxDepth + 1, _ => ""));
    assert [] + ElementsOut(c, cache, tree).0 == ElementsOut(c, cache, tree).0;
    read := loader.cache;
  }
}
