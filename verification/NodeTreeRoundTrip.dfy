/** The obvious serialiser of node trees, and the laws that tie it to the parser. */
module NodeTreeRoundTrip {
  import opened Wrappers
  import opened NodeTree
  import opened NodeTreeTheorems

  datatype Tree = Tree(typ: Byte, props: seq<Byte>, children: seq<Tree>)

  function Escape(props: seq<Byte>): seq<Byte> {
    if props == [] then []
    else (if Plain(props[0]) then [props[0]] else [ESCAPE, props[0]]) + Escape(props[1..])
  }

  function Serialise(t: Tree): (r: seq<Byte>)
    ensures |r| >= 3
    decreases t, 1
  {
    [START, t.typ] + Escape(t.props) + SerialiseAll(t.children) + [END]
  }

  function SerialiseAll(ts: seq<Tree>): seq<Byte>
    decreases ts, 0
  {
    if ts == [] then [] else Serialise(ts[0]) + SerialiseAll(ts[1..])
  }

  /** The tree behind a parsed node: every property slice as the reader delivers it. */
  function Decode(bytes: seq<Byte>, raw: Raw): Tree
    decreases raw, 1
  {
    Tree(raw.typ,
         if raw.propsBegin <= raw.propsEnd <= |bytes| then Unescape(bytes[raw.propsBegin..raw.propsEnd]) else [],
         DecodeAll(bytes, raw.children))
  }

  function DecodeAll(bytes: seq<Byte>, cs: seq<Raw>): (r: seq<Tree>)
    ensures |r| == |cs|
    decreases cs, 0
  {
    if cs == [] then [] else [Decode(bytes, cs[0])] + DecodeAll(bytes, cs[1..])
  }

  /** Where the parser finds a tree that is written at offset `i`. */
  function Locate(t: Tree, i: nat): Raw
    decreases t, 1
  {
    var e := i + 2 + |Escape(t.props)|;
    Raw(t.typ, i + 2, e, LocateAll(t.children, e))
  }

  function LocateAll(ts: seq<Tree>, i: nat): (r: seq<Raw>)
    ensures |r| == |ts|
    ensures r != [] ==> StartsAt(r[0], i)
    decreases ts, 0
  {
    if ts == [] then [] else [Locate(ts[0], i)] + LocateAll(ts[1..], i + |Serialise(ts[0])|)
  }

  /** `bytes` holds `part` at offset `i`. */
  predicate Holds(bytes: seq<Byte>, i: nat, part: seq<Byte>) {
    i + |part| <= |bytes| && forall k :: 0 <= k < |part| ==> bytes[i + k] == part[k]
  }

  lemma HoldsSplit(bytes: seq<Byte>, i: nat, a: seq<Byte>, b: seq<Byte>)
    requires Holds(bytes, i, a + b)
    ensures Holds(bytes, i, a) && Holds(bytes, i + |a|, b)
  {
    forall k | 0 <= k < |a| ensures bytes[i + k] == a[k] { assert (a + b)[k] == a[k]; }
    forall k | 0 <= k < |b| ensures bytes[i + |a| + k] == b[k] { assert (a + b)[|a| + k] == b[k]; }
  }

  lemma {:induction false} UnescapeEscape(props: seq<Byte>)
    ensures Unescape(Escape(props)) == props
  {
    if props != [] {
      UnescapeEscape(props[1..]);
      var rest := Escape(props[1..]);
      if Plain(props[0]) {
        assert ([props[0]] + rest)[1..] == rest;
      } else {
        assert ([ESCAPE, props[0]] + rest)[1..] == [props[0]] + rest;
        assert ([props[0]] + rest)[1..] == rest;
        assert Filter([props[0]] + rest, true) == [props[0]] + Filter(rest, false);
        assert Escape(props) == [ESCAPE, props[0]] + rest;
        assert Filter(Escape(props), false) == [] + Filter([props[0]] + rest, true);
      }
    }
  }

  lemma {:induction false} EscapedIsNeutral(bytes: seq<Byte>, i: nat, props: seq<Byte>)
    requires Holds(bytes, i, Escape(props))
    ensures Neutral(bytes, i, i + |Escape(props)|)
    decreases |props|
  {
    if props != [] {
      var head := if Plain(props[0]) then [props[0]] else [ESCAPE, props[0]];
      HoldsSplit(bytes, i, head, Escape(props[1..]));
      EscapedIsNeutral(bytes, i + |head|, props[1..]);
      assert bytes[i + 0] == head[0];
    }
  }

  /** The parts of a serialised tree at offset `i`. */
  lemma SerialisedParts(bytes: seq<Byte>, t: Tree, i: nat)
    requires Holds(bytes, i, Serialise(t))
    ensures
      var e := i + 2 + |Escape(t.props)|;
      var j := i + |Serialise(t)|;
      && j == e + |SerialiseAll(t.children)| + 1 && j <= |bytes|
      && bytes[i] == START && bytes[i + 1] == t.typ && bytes[j - 1] == END
      && Holds(bytes, i + 2, Escape(t.props))
      && Holds(bytes, e, SerialiseAll(t.children))
  {
    var props, kids := Escape(t.props), SerialiseAll(t.children);
    assert Serialise(t) == [START, t.typ] + (props + (kids + [END]));
    HoldsSplit(bytes, i, [START, t.typ], props + (kids + [END]));
    HoldsSplit(bytes, i + 2, props, kids + [END]);
    var e := i + 2 + |props|;
    HoldsSplit(bytes, e, kids, [END]);
    assert bytes[i + 0] == [START, t.typ][0] && bytes[i + 1] == [START, t.typ][1];
    assert bytes[e + |kids| + 0] == [END][0];
  }

  lemma HoldsSlice(bytes: seq<Byte>, i: nat, part: seq<Byte>)
    requires Holds(bytes, i, part)
    ensures bytes[i..i + |part|] == part
  {
  }

  /** The conditions that make a node's span, put together. */
  lemma SpanOf(bytes: seq<Byte>, raw: Raw, i: nat, j: nat)
    requires i + 3 <= j <= |bytes| && raw.propsEnd <= j - 1
    requires bytes[i] == START && bytes[i + 1] == raw.typ && bytes[j - 1] == END && raw.propsBegin == i + 2
    requires Neutral(bytes, i + 2, raw.propsEnd)
    requires raw.children == [] ==> raw.propsEnd == j - 1
    requires raw.children != [] ==> StartsAt(raw.children[0], raw.propsEnd)
    requires ChildSpans(bytes, raw.children, raw.propsEnd, j - 1)
    ensures NodeSpan(bytes, raw, i, j)
  {
  }

  /** A located node decodes to its tree when its children do. */
  lemma LocatedDecodes(bytes: seq<Byte>, t: Tree, i: nat)
    requires Holds(bytes, i + 2, Escape(t.props))
    requires DecodeAll(bytes, LocateAll(t.children, i + 2 + |Escape(t.props)|)) == t.children
    ensures Decode(bytes, Locate(t, i)) == t
  {
    PropsRead(bytes, t.props, i + 2);
    var raw := Locate(t, i);
    assert raw.propsBegin == i + 2 && raw.propsEnd == i + 2 + |Escape(t.props)|;
    assert Decode(bytes, raw) == Tree(t.typ, t.props, t.children);
  }

  lemma PropsRead(bytes: seq<Byte>, props: seq<Byte>, i: nat)
    requires Holds(bytes, i, Escape(props))
    ensures i + |Escape(props)| <= |bytes| && Unescape(bytes[i..i + |Escape(props)|]) == props
  {
    UnescapeEscape(props);
    HoldsSlice(bytes, i, Escape(props));
  }

  lemma {:induction false} LocateSpans(bytes: seq<Byte>, t: Tree, i: nat)
    requires Holds(bytes, i, Serialise(t))
    ensures NodeSpan(bytes, Locate(t, i), i, i + |Serialise(t)|)
    ensures Decode(bytes, Locate(t, i)) == t
    decreases t, 1
  {
    SerialisedParts(bytes, t, i);
    EscapedIsNeutral(bytes, i + 2, t.props);
    LocateAllSpans(bytes, t.children, i + 2 + |Escape(t.props)|);
    SpanOf(bytes, Locate(t, i), i, i + |Serialise(t)|);
    LocatedDecodes(bytes, t, i);
  }

  lemma {:induction false} LocateAllSpans(bytes: seq<Byte>, ts: seq<Tree>, i: nat)
    requires Holds(bytes, i, SerialiseAll(ts))
    ensures ChildSpans(bytes, LocateAll(ts, i), i, i + |SerialiseAll(ts)|)
    ensures DecodeAll(bytes, LocateAll(ts, i)) == ts
    decreases ts, 0
  {
    if ts != [] {
      var m := i + |Serialise(ts[0])|;
      HoldsSplit(bytes, i, Serialise(ts[0]), SerialiseAll(ts[1..]));
      LocateSpans(bytes, ts[0], i);
      LocateAllSpans(bytes, ts[1..], m);
      LocateAllCons(ts, i);
      ChildSpansCons(bytes, Locate(ts[0], i), LocateAll(ts[1..], m), i, m, i + |SerialiseAll(ts)|);
      DecodeAllCons(bytes, Locate(ts[0], i), LocateAll(ts[1..], m));
    }
  }

  lemma LocateAllCons(ts: seq<Tree>, i: nat)
    requires ts != []
    ensures LocateAll(ts, i) == [Locate(ts[0], i)] + LocateAll(ts[1..], i + |Serialise(ts[0])|)
  {
  }

  lemma ChildSpansCons(bytes: seq<Byte>, c: Raw, cs: seq<Raw>, i: nat, m: nat, j: nat)
    requires StartsAt(c, i) && NodeSpan(bytes, c, i, m) && ChildSpans(bytes, cs, m, j)
    ensures ChildSpans(bytes, [c] + cs, i, j)
  {
    assert ([c] + cs)[1..] == cs;
    assert Neutral(bytes, i, i);
  }

  lemma DecodeAllCons(bytes: seq<Byte>, c: Raw, cs: seq<Raw>)
    ensures DecodeAll(bytes, [c] + cs) == [Decode(bytes, c)] + DecodeAll(bytes, cs)
  {
    assert ([c] + cs)[1..] == cs;
  }

  function File(identifier: seq<Byte>, t: Tree): seq<Byte> { identifier + Serialise(t) }

  /** Parsing a serialised tree gives the tree back, properties included, when the file
      passes the constructor: for every tree but a bare childless node without properties. */
  lemma ParseSerialised(identifier: seq<Byte>, accepted: seq<Byte>, t: Tree)
    requires |identifier| == IDENTIFIER_SIZE
    requires identifier == accepted || identifier == WILDCARD
    ensures |File(identifier, t)| > MINIMAL_SIZE <==> t.props != [] || t.children != []
    ensures |File(identifier, t)| > MINIMAL_SIZE ==>
      var loaded := Load(File(identifier, t), accepted);
      loaded.Some? && Decode(File(identifier, t), loaded.value) == t
    ensures |File(identifier, t)| <= MINIMAL_SIZE ==> Load(File(identifier, t), accepted) == None
  {
    var bytes := File(identifier, t);
    assert t.props != [] <==> |Escape(t.props)| > 0;
    assert t.children != [] <==> |SerialiseAll(t.children)| > 0;
    assert bytes[..IDENTIFIER_SIZE] == identifier;
    if |bytes| > MINIMAL_SIZE {
      assert Holds(bytes, IDENTIFIER_SIZE, Serialise(t));
      LocateSpans(bytes, t, IDENTIFIER_SIZE);
      assert Neutral(bytes, |bytes|, |bytes|);
      assert NodeSpan(bytes, Locate(t, IDENTIFIER_SIZE), IDENTIFIER_SIZE, |bytes|);
      ParseComplete(bytes, Locate(t, IDENTIFIER_SIZE));
    }
  }

  /** Whatever a file carried beside its tree, writing the tree out and loading it again
      gives the same tree, unless the tree is a bare node, which is refused as too short. */
  lemma ReloadAfterSerialise(bytes: seq<Byte>, accepted: seq<Byte>)
    requires Load(bytes, accepted).Some?
    ensures
      var t := Decode(bytes, Load(bytes, accepted).value);
      var again := File(bytes[..IDENTIFIER_SIZE], t);
      var loaded := Load(again, accepted);
      (loaded.Some? && Decode(again, loaded.value) == t) <==> (t.props != [] || t.children != [])
  {
    ParseSerialised(bytes[..IDENTIFIER_SIZE], accepted, Decode(bytes, Load(bytes, accepted).value));
  }

  /** A file that loads although its tree, written out again, does not: a bare node followed
      by one ignored byte. */
  lemma BareNodeDoesNotReload()
    ensures
      var bytes: seq<Byte> := [0, 0, 0, 0, START, 7, END, 1];
      var loaded := Load(bytes, WILDCARD);
      && loaded.Some? && Decode(bytes, loaded.value) == Tree(7, [], [])
      && Load(File(WILDCARD, Tree(7, [], [])), WILDCARD) == None
  {
    var bytes: seq<Byte> := [0, 0, 0, 0, START, 7, END, 1];
    var raw := Raw(7, 6, 6, []);
    assert Neutral(bytes, 6, 6) && Neutral(bytes, 8, 8) && Neutral(bytes, 7, 8);
    assert NodeSpan(bytes, raw, IDENTIFIER_SIZE, 7);
    ParseComplete(bytes, raw);
    assert bytes[..IDENTIFIER_SIZE] == WILDCARD;
    ParseSerialised(WILDCARD, WILDCARD, Tree(7, [], []));
  }
}
