/** The OTB node tree: its byte format, the stack parser and the property reader. */
module NodeTree {
  import opened Wrappers

  type Byte = b: int | 0 <= b < 256

  const ESCAPE: Byte := 0xFD
  const START: Byte := 0xFE
  const END: Byte := 0xFF

  const IDENTIFIER_SIZE := 4
  const MINIMAL_SIZE := 7   // identifier, START, type, END
  const WILDCARD: seq<Byte> := [0, 0, 0, 0]

  predicate Plain(b: Byte) { b != ESCAPE && b != START && b != END }

  /** A parsed node: its type and the span of its property bytes in the file. */
  datatype Raw = Raw(typ: Byte, propsBegin: nat, propsEnd: nat, children: seq<Raw>)

  // ---- The grammar ----

  /** `bytes[i..j]` is made of plain bytes and ESCAPE pairs only. */
  predicate Neutral(bytes: seq<Byte>, i: nat, j: nat)
    decreases j - i
  {
    && i <= j <= |bytes|
    && (i == j
        || (Plain(bytes[i]) && Neutral(bytes, i + 1, j))
        || (bytes[i] == ESCAPE && Neutral(bytes, i + 2, j)))
  }

  /** `bytes[i..j]` is the node `raw`: START, type, properties, children, END. */
  ghost predicate NodeSpan(bytes: seq<Byte>, raw: Raw, i: nat, j: nat)
    decreases raw, 1
  {
    && i + 3 <= j <= |bytes|
    && bytes[i] == START && raw.typ == bytes[i + 1] && raw.propsBegin == i + 2
    && bytes[j - 1] == END
    && Neutral(bytes, raw.propsBegin, raw.propsEnd)
    && (if raw.children == [] then raw.propsEnd == j - 1
        else StartsAt(raw.children[0], raw.propsEnd) && ChildSpans(bytes, raw.children, raw.propsEnd, j - 1))
  }

  predicate StartsAt(raw: Raw, i: nat) { raw.propsBegin == i + 2 }

  /** `bytes[i..j]` is the nodes `cs` in order, each in an interval of its own, with neutral
      bytes before, between and after them that belong to no property. */
  ghost predicate ChildSpans(bytes: seq<Byte>, cs: seq<Raw>, i: nat, j: nat)
    decreases cs, 0
  {
    if cs == [] then Neutral(bytes, i, j)
    else
      && cs[0].propsBegin >= 2
      && Neutral(bytes, i, cs[0].propsBegin - 2)
      && exists m: nat ::
           && NodeSpan(bytes, cs[0], cs[0].propsBegin - 2, m)
           && ChildSpans(bytes, cs[1..], m, j)
  }

  /** A whole file after its identifier: one node, then bytes that are ignored. */
  ghost predicate FileSpan(bytes: seq<Byte>, raw: Raw) {
    exists j :: NodeSpan(bytes, raw, IDENTIFIER_SIZE, j) && Neutral(bytes, j, |bytes|)
  }

  // ---- The stack parser ----

  /** A node under construction; `propsEnd` is 0 until it is known. */
  datatype Frame = Frame(typ: Byte, propsBegin: nat, propsEnd: nat, children: seq<Raw>)

  /** The property end is the first marker met while there is no child yet. */
  function Mark(f: Frame, pos: nat): Frame {
    if f.children == [] then f.(propsEnd := pos) else f
  }

  function Close(f: Frame): Raw { Raw(f.typ, f.propsBegin, f.propsEnd, f.children) }

  function Attach(f: Frame, c: Raw): Frame { f.(children := f.children + [c]) }

  function Init<T>(s: seq<T>): seq<T>
    requires s != []
  {
    s[..|s| - 1]
  }

  function Last<T>(s: seq<T>): T
    requires s != []
  {
    s[|s| - 1]
  }

  /** The parser from position `pos` on; `None` is InvalidOTBFormat. */
  function Scan(bytes: seq<Byte>, pos: nat, stack: seq<Frame>, root: Option<Raw>): Option<Raw>
    requires pos <= |bytes|
    decreases |bytes| - pos
  {
    if pos == |bytes| then
      if stack == [] then root else None
    else if bytes[pos] == START then
      if stack == [] || pos + 1 == |bytes| then None
      else Scan(bytes, pos + 2, Init(stack) + [Mark(Last(stack), pos), Frame(bytes[pos + 1], pos + 2, 0, [])], root)
    else if bytes[pos] == END then
      if stack == [] then None
      else
        var node := Close(Mark(Last(stack), pos));
        var rest := Init(stack);
        if rest == [] then Scan(bytes, pos + 1, [], Some(node))
        else Scan(bytes, pos + 1, Init(rest) + [Attach(Last(rest), node)], root)
    else if bytes[pos] == ESCAPE then
      if pos + 1 == |bytes| then None else Scan(bytes, pos + 2, stack, root)
    else
      Scan(bytes, pos + 1, stack, root)
  }

  function Parse(bytes: seq<Byte>): Option<Raw>
    requires |bytes| > MINIMAL_SIZE
  {
    if bytes[IDENTIFIER_SIZE] != START then None
    else Scan(bytes, 6, [Frame(bytes[5], 6, 0, [])], None)
  }

  predicate Acceptable(bytes: seq<Byte>, accepted: seq<Byte>) {
    && |bytes| > MINIMAL_SIZE
    && (bytes[..IDENTIFIER_SIZE] == accepted || bytes[..IDENTIFIER_SIZE] == WILDCARD)
  }

  /** Constructing a loader and parsing with it. */
  function Load(bytes: seq<Byte>, accepted: seq<Byte>): Option<Raw> {
    if Acceptable(bytes, accepted) then Parse(bytes) else None
  }

  // ---- The property reader ----

  /** The bytes the copy filter lets through; `escaped` is its state. */
  function Filter(bytes: seq<Byte>, escaped: bool): seq<Byte> {
    if bytes == [] then []
    else
      var now := bytes[0] == ESCAPE && !escaped;
      (if now then [] else [bytes[0]]) + Filter(bytes[1..], now)
  }

  function Unescape(bytes: seq<Byte>): seq<Byte> { Filter(bytes, false) }

  /** The filter's state after some bytes. */
  function Escaped(bytes: seq<Byte>, escaped: bool): bool {
    if bytes == [] then escaped else Escaped(bytes[1..], bytes[0] == ESCAPE && !escaped)
  }

  lemma {:induction false} FilterSnoc(bytes: seq<Byte>, b: Byte, escaped: bool)
    ensures
      var now := b == ESCAPE && !Escaped(bytes, escaped);
      && Filter(bytes + [b], escaped) == Filter(bytes, escaped) + (if now then [] else [b])
      && Escaped(bytes + [b], escaped) == now
    decreases |bytes|
  {
    if bytes == [] {
      assert (bytes + [b])[1..] == [];
    } else {
      assert (bytes + [b])[1..] == bytes[1..] + [b];
      FilterSnoc(bytes[1..], b, bytes[0] == ESCAPE && !escaped);
    }
  }

  lemma {:induction false} FilterShrinks(bytes: seq<Byte>, escaped: bool)
    ensures |Filter(bytes, escaped)| <= |bytes|
  {
    if bytes != [] { FilterShrinks(bytes[1..], bytes[0] == ESCAPE && !escaped); }
  }

  /** The loader object. */
  class Loader {
    const fileContents: seq<Byte>
    var root: Option<Raw>
    var propBuffer: array<Byte>

    constructor (contents: seq<Byte>)
      requires |contents| > MINIMAL_SIZE
      ensures fileContents == contents
      ensures fresh(propBuffer)
    {
      fileContents := contents;
      root := None;
      propBuffer := new Byte[0];
    }

    /** The iterator loop over the file, with the stack of open nodes. */
    method ParseTree() returns (tree: Option<Raw>)
      requires |fileContents| > MINIMAL_SIZE
      modifies this`root
      ensures tree == Parse(fileContents)
      ensures tree.Some? ==> root == tree
    {
      if fileContents[IDENTIFIER_SIZE] != START {
        return None;
      }
      var it := IDENTIFIER_SIZE + 1;
      var typ := fileContents[it];
      it := it + 1;
      var stack := [Frame(typ, it, 0, [])];
      var done: Option<Raw> := None;
      while it < |fileContents|
        invariant it <= |fileContents|
        invariant Scan(fileContents, it, stack, done) == Parse(fileContents)
      {
        var b := fileContents[it];
        if b == START {
          if stack == [] {
            return None;
          }
          stack := Init(stack) + [Mark(Last(stack), it)];
          it := it + 1;
          if it == |fileContents| {
            return None;
          }
          ghost var marked := stack;
          stack := stack + [Frame(fileContents[it], it + 1, 0, [])];
          assert stack == Init(marked) + [Last(marked), Last(stack)];
        } else if b == END {
          if stack == [] {
            return None;
          }
          var node := Close(Mark(Last(stack), it));
          stack := Init(stack);
          if stack == [] {
            done := Some(node);
          } else {
            stack := Init(stack) + [Attach(Last(stack), node)];
          }
        } else if b == ESCAPE {
          it := it + 1;
          if it == |fileContents| {
            return None;
          }
        }
        it := it + 1;
      }
      if stack != [] {
        return None;
      }
      if done.Some? {
        root := done;
      }
      return done;
    }

    /** The copy of a node's properties into the buffer, without the escape bytes. */
    method GetProps(node: Raw) returns (ok: bool, props: seq<Byte>)
      requires node.propsBegin <= node.propsEnd <= |fileContents|
      modifies this`propBuffer
      ensures ok == (node.propsBegin != node.propsEnd)
      ensures ok ==> props == Unescape(fileContents[node.propsBegin..node.propsEnd])
    {
      props := [];
      var size := node.propsEnd - node.propsBegin;
      if size == 0 {
        return false, [];
      }
      propBuffer := new Byte[size];
      var lastEscaped := false;
      var written := 0;
      ghost var slice := fileContents[node.propsBegin..node.propsEnd];
      var k := 0;
      while k < size
        invariant k <= size && written <= k
        invariant propBuffer.Length == size && fresh(propBuffer)
        invariant propBuffer[..written] == Unescape(slice[..k])
        invariant lastEscaped == Escaped(slice[..k], false)
      {
        var byte := fileContents[node.propsBegin + k];
        lastEscaped := byte == ESCAPE && !lastEscaped;
        FilterSnoc(slice[..k], byte, false);
        assert slice[..k + 1] == slice[..k] + [byte];
        if !lastEscaped {
          ghost var copied := propBuffer[..written];
          propBuffer[written] := byte;
          assert propBuffer[..written + 1] == copied + [byte];
          written := written + 1;
        }
        k := k + 1;
      }
      assert slice[..k] == slice;
      return true, propBuffer[..written];
    }
  }
}
