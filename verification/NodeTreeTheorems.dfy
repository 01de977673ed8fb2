/** The stack parser accepts exactly the grammar, and parsing undoes serialising. */
module NodeTreeTheorems {
  import opened Wrappers
  import opened NodeTree

  // ---- Neutral stretches ----

  lemma {:induction false} NeutralConcat(bytes: seq<Byte>, i: nat, m: nat, j: nat)
    requires Neutral(bytes, i, m) && Neutral(bytes, m, j)
    ensures Neutral(bytes, i, j)
    decreases m - i
  {
    if i < m {
      NeutralConcat(bytes, if bytes[i] == ESCAPE then i + 2 else i + 1, m, j);
    }
  }

  lemma {:induction false} ScanNeutral(bytes: seq<Byte>, i: nat, j: nat, stack: seq<Frame>, root: Option<Raw>)
    requires Neutral(bytes, i, j)
    ensures Scan(bytes, i, stack, root) == Scan(bytes, j, stack, root)
    decreases j - i
  {
    if i < j {
      ScanNeutral(bytes, if bytes[i] == ESCAPE then i + 2 else i + 1, j, stack, root);
    }
  }

  // ---- Completeness: whatever the grammar derives, the parser finds ----

  /** The top frame after the nodes `cs`, the first of which starts at `i`. */
  function AttachAll(f: Frame, cs: seq<Raw>, i: nat): Frame {
    if cs == [] then f else Mark(f, i).(children := f.children + cs)
  }

  lemma {:induction false} ScanNode(
      bytes: seq<Byte>, raw: Raw, i: nat, j: nat, below: seq<Frame>, f: Frame, root: Option<Raw>)
    requires NodeSpan(bytes, raw, i, j)
    ensures Scan(bytes, i, below + [f], root) == Scan(bytes, j, below + [Attach(Mark(f, i), raw)], root)
    decreases raw, 1
  {
    var stack := below + [f];
    var marked := below + [Mark(f, i)];
    var fresh_ := Frame(raw.typ, i + 2, 0, []);
    assert Init(stack) == below && Last(stack) == f;
    assert below + [Mark(f, i), fresh_] == marked + [fresh_];
    ScanBody(bytes, raw, i + 2, j, marked, fresh_, root);
    assert Init(marked) == below && Last(marked) == Mark(f, i);
  }

  /** From the first property byte of a node to past its END. */
  lemma {:induction false} ScanBody(
      bytes: seq<Byte>, raw: Raw, i: nat, j: nat, below: seq<Frame>, f: Frame, root: Option<Raw>)
    requires i >= 2 && NodeSpan(bytes, raw, i - 2, j) && f == Frame(raw.typ, i, 0, [])
    ensures Scan(bytes, i, below + [f], root) ==
      if below == [] then Scan(bytes, j, [], Some(raw))
      else Scan(bytes, j, Init(below) + [Attach(Last(below), raw)], root)
    decreases raw, 0
  {
    ScanNeutral(bytes, i, raw.propsEnd, below + [f], root);
    if raw.children != [] {
      ScanChildren(bytes, raw.children, raw.propsEnd, j - 1, below, f, root);
      assert AttachAll(f, raw.children, raw.propsEnd) == f.(propsEnd := raw.propsEnd, children := raw.children);
      ScanEnd(bytes, j - 1, below, AttachAll(f, raw.children, raw.propsEnd), raw, root);
    } else {
      ScanEnd(bytes, j - 1, below, f, raw, root);
    }
  }

  /** An END closes the last frame, and the node goes to the frame below. */
  lemma ScanEnd(bytes: seq<Byte>, pos: nat, below: seq<Frame>, f: Frame, raw: Raw, root: Option<Raw>)
    requires pos < |bytes| && bytes[pos] == END && Close(Mark(f, pos)) == raw
    ensures Scan(bytes, pos, below + [f], root) ==
      if below == [] then Scan(bytes, pos + 1, [], Some(raw))
      else Scan(bytes, pos + 1, Init(below) + [Attach(Last(below), raw)], root)
  {
    assert Init(below + [f]) == below && Last(below + [f]) == f;
  }

  lemma {:induction false} ScanChildren(
      bytes: seq<Byte>, cs: seq<Raw>, i: nat, j: nat, below: seq<Frame>, f: Frame, root: Option<Raw>)
    requires j <= |bytes| && ChildSpans(bytes, cs, i, j)
    requires cs != [] && f.children == [] ==> StartsAt(cs[0], i)
    ensures Scan(bytes, i, below + [f], root) == Scan(bytes, j, below + [AttachAll(f, cs, i)], root)
    decreases cs, 0
  {
    if cs == [] {
      ScanNeutral(bytes, i, j, below + [f], root);
    } else {
      var a := cs[0].propsBegin - 2;
      var m: nat :| NodeSpan(bytes, cs[0], a, m) && ChildSpans(bytes, cs[1..], m, j);
      ScanNeutral(bytes, i, a, below + [f], root);
      ScanNode(bytes, cs[0], a, m, below, f, root);
      var f1 := Attach(Mark(f, a), cs[0]);
      ScanChildren(bytes, cs[1..], m, j, below, f1, root);
      assert f1.children + cs[1..] == f.children + cs;
      assert cs[1..] == [] ==> f1.children == f.children + cs;
      assert AttachAll(f1, cs[1..], m) == AttachAll(f, cs, i);
    }
  }

  lemma ParseComplete(bytes: seq<Byte>, raw: Raw)
    requires |bytes| > MINIMAL_SIZE && FileSpan(bytes, raw)
    ensures Parse(bytes) == Some(raw)
  {
    var j :| NodeSpan(bytes, raw, IDENTIFIER_SIZE, j) && Neutral(bytes, j, |bytes|);
    var f := Frame(raw.typ, 6, 0, []);
    ScanBody(bytes, raw, 6, j, [], f, None);
    assert [] + [f] == [f];
    ScanNeutral(bytes, j, |bytes|, [], Some(raw));
  }

  // ---- Soundness: whatever the parser returns, the grammar derives ----

  /** Frame `f` has read its node correctly up to `pos`. */
  ghost predicate FrameOk(bytes: seq<Byte>, f: Frame, pos: nat) {
    && f.propsBegin >= 6 && f.propsBegin <= pos <= |bytes|
    && bytes[f.propsBegin - 2] == START && f.typ == bytes[f.propsBegin - 1]
    && (if f.children == [] then Neutral(bytes, f.propsBegin, pos)
        else
          && Neutral(bytes, f.propsBegin, f.propsEnd) && StartsAt(f.children[0], f.propsEnd)
          && ChildSpans(bytes, f.children, f.propsEnd, pos))
  }

  /** The open frames: the last one is read up to `pos`, every other one up to the START of
      the frame above it, where its property end is already marked. */
  ghost predicate StackOk(bytes: seq<Byte>, stack: seq<Frame>, pos: nat)
    decreases |stack|
  {
    && stack != []
    && FrameOk(bytes, Last(stack), pos)
    && (if |stack| == 1 then Last(stack).propsBegin == 6
        else
          var below, start := Init(stack), Last(stack).propsBegin - 2;
          Mark(Last(below), start) == Last(below) && StackOk(bytes, below, start))
  }

  ghost predicate ScanOk(bytes: seq<Byte>, pos: nat, stack: seq<Frame>, root: Option<Raw>) {
    && pos <= |bytes|
    && (if stack == [] then
          root.Some? && exists j :: NodeSpan(bytes, root.value, IDENTIFIER_SIZE, j) && Neutral(bytes, j, pos)
        else root.None? && StackOk(bytes, stack, pos))
  }

  lemma {:induction false} ChildSpansExtend(bytes: seq<Byte>, cs: seq<Raw>, i: nat, m: nat, j: nat)
    requires ChildSpans(bytes, cs, i, m) && Neutral(bytes, m, j)
    ensures ChildSpans(bytes, cs, i, j)
    decreases cs
  {
    if cs == [] {
      NeutralConcat(bytes, i, m, j);
    } else {
      var l: nat :| NodeSpan(bytes, cs[0], cs[0].propsBegin - 2, l) && ChildSpans(bytes, cs[1..], l, m);
      ChildSpansExtend(bytes, cs[1..], l, m, j);
    }
  }

  lemma {:induction false} ChildSpansSnoc(bytes: seq<Byte>, cs: seq<Raw>, c: Raw, i: nat, m: nat, j: nat)
    requires ChildSpans(bytes, cs, i, m) && StartsAt(c, m) && NodeSpan(bytes, c, m, j)
    ensures ChildSpans(bytes, cs + [c], i, j)
    decreases cs
  {
    var all := cs + [c];
    if cs == [] {
      assert all[1..] == [] && ChildSpans(bytes, all[1..], j, j);
    } else {
      var l: nat :| NodeSpan(bytes, cs[0], cs[0].propsBegin - 2, l) && ChildSpans(bytes, cs[1..], l, m);
      ChildSpansSnoc(bytes, cs[1..], c, l, m, j);
      assert all[1..] == cs[1..] + [c];
    }
  }

  lemma FrameAdvance(bytes: seq<Byte>, f: Frame, pos: nat, next: nat)
    requires FrameOk(bytes, f, pos) && Neutral(bytes, pos, next)
    ensures FrameOk(bytes, f, next)
  {
    if f.children == [] {
      NeutralConcat(bytes, f.propsBegin, pos, next);
    } else {
      ChildSpansExtend(bytes, f.children, f.propsEnd, pos, next);
    }
  }

  lemma StackAdvance(bytes: seq<Byte>, stack: seq<Frame>, pos: nat, next: nat)
    requires StackOk(bytes, stack, pos) && Neutral(bytes, pos, next)
    ensures StackOk(bytes, stack, next)
  {
    FrameAdvance(bytes, Last(stack), pos, next);
  }

  lemma MarkKeeps(bytes: seq<Byte>, f: Frame, pos: nat)
    requires FrameOk(bytes, f, pos)
    ensures FrameOk(bytes, Mark(f, pos), pos) && Mark(Mark(f, pos), pos) == Mark(f, pos)
  {
  }

  lemma StackPush(bytes: seq<Byte>, stack: seq<Frame>, pos: nat)
    requires StackOk(bytes, stack, pos) && pos + 1 < |bytes| && bytes[pos] == START
    ensures StackOk(bytes, Init(stack) + [Mark(Last(stack), pos), Frame(bytes[pos + 1], pos + 2, 0, [])], pos + 2)
  {
    MarkKeeps(bytes, Last(stack), pos);
    var marked := Init(stack) + [Mark(Last(stack), pos)];
    assert Init(marked) == Init(stack) && StackOk(bytes, marked, pos);
    var pushed := Init(stack) + [Mark(Last(stack), pos), Frame(bytes[pos + 1], pos + 2, 0, [])];
    assert Init(pushed) == marked;
    assert Neutral(bytes, pos + 2, pos + 2);
  }

  lemma CloseSpan(bytes: seq<Byte>, f: Frame, pos: nat)
    requires FrameOk(bytes, f, pos) && pos < |bytes| && bytes[pos] == END
    ensures NodeSpan(bytes, Close(Mark(f, pos)), f.propsBegin - 2, pos + 1)
  {
  }

  lemma AttachKeeps(bytes: seq<Byte>, f: Frame, c: Raw, pos: nat, next: nat)
    requires FrameOk(bytes, f, pos) && Mark(f, pos) == f && StartsAt(c, pos) && NodeSpan(bytes, c, pos, next)
    ensures FrameOk(bytes, Attach(f, c), next)
  {
    if f.children == [] {
      ChildSpansSnoc(bytes, [], c, pos, pos, next);
      assert [] + [c] == f.children + [c];
    } else {
      ChildSpansSnoc(bytes, f.children, c, f.propsEnd, pos, next);
    }
  }

  lemma StackPop(bytes: seq<Byte>, stack: seq<Frame>, pos: nat)
    requires StackOk(bytes, stack, pos) && pos < |bytes| && bytes[pos] == END && |stack| > 1
    ensures
      var rest := Init(stack);
      StackOk(bytes, Init(rest) + [Attach(Last(rest), Close(Mark(Last(stack), pos)))], pos + 1)
  {
    var rest := Init(stack);
    CloseSpan(bytes, Last(stack), pos);
    AttachKeeps(bytes, Last(rest), Close(Mark(Last(stack), pos)), Last(stack).propsBegin - 2, pos + 1);
    var popped := Init(rest) + [Attach(Last(rest), Close(Mark(Last(stack), pos)))];
    assert Init(popped) == Init(rest);
  }

  lemma {:induction false} ScanSound(bytes: seq<Byte>, pos: nat, stack: seq<Frame>, root: Option<Raw>)
    requires ScanOk(bytes, pos, stack, root)
    requires Scan(bytes, pos, stack, root).Some?
    ensures FileSpan(bytes, Scan(bytes, pos, stack, root).value)
    decreases |bytes| - pos
  {
    if pos < |bytes| {
      if bytes[pos] == START {
        StackPush(bytes, stack, pos);
        ScanSound(bytes, pos + 2, Init(stack) + [Mark(Last(stack), pos), Frame(bytes[pos + 1], pos + 2, 0, [])], root);
      } else if bytes[pos] == END {
        var node := Close(Mark(Last(stack), pos));
        var rest := Init(stack);
        if rest == [] {
          CloseSpan(bytes, Last(stack), pos);
          assert Neutral(bytes, pos + 1, pos + 1);
          ScanSound(bytes, pos + 1, [], Some(node));
        } else {
          StackPop(bytes, stack, pos);
          ScanSound(bytes, pos + 1, Init(rest) + [Attach(Last(rest), node)], root);
        }
      } else {
        var next := if bytes[pos] == ESCAPE then pos + 2 else pos + 1;
        assert Neutral(bytes, next, next) && Neutral(bytes, pos, next);
        if stack == [] {
          var j :| NodeSpan(bytes, root.value, IDENTIFIER_SIZE, j) && Neutral(bytes, j, pos);
          NeutralConcat(bytes, j, pos, next);
        } else {
          StackAdvance(bytes, stack, pos, next);
        }
        ScanSound(bytes, next, stack, root);
      }
    }
  }

  lemma ParseSound(bytes: seq<Byte>)
    requires |bytes| > MINIMAL_SIZE && Parse(bytes).Some?
    ensures FileSpan(bytes, Parse(bytes).value)
  {
    assert Neutral(bytes, 6, 6);
    ScanSound(bytes, 6, [Frame(bytes[5], 6, 0, [])], None);
  }

  /** The parser returns a tree exactly when the file derives it. */
  lemma ParseIffDerived(bytes: seq<Byte>, raw: Raw)
    requires |bytes| > MINIMAL_SIZE
    ensures Parse(bytes) == Some(raw) <==> FileSpan(bytes, raw)
  {
    if Parse(bytes) == Some(raw) { ParseSound(bytes); }
    if FileSpan(bytes, raw) { ParseComplete(bytes, raw); }
  }

  /** Every property slice of the tree is inside the file, plain bytes and whole pairs. */
  ghost predicate PropsOk(bytes: seq<Byte>, raw: Raw)
    decreases raw
  {
    && Neutral(bytes, raw.propsBegin, raw.propsEnd)
    && forall k :: 0 <= k < |raw.children| ==> PropsOk(bytes, raw.children[k])
  }

  lemma {:induction false} SpanPropsOk(bytes: seq<Byte>, raw: Raw, i: nat, j: nat)
    requires NodeSpan(bytes, raw, i, j)
    ensures PropsOk(bytes, raw)
    decreases raw, 1
  {
    if raw.children != [] {
      ChildrenPropsOk(bytes, raw.children, raw.propsEnd, j - 1);
    }
  }

  lemma {:induction false} ChildrenPropsOk(bytes: seq<Byte>, cs: seq<Raw>, i: nat, j: nat)
    requires ChildSpans(bytes, cs, i, j)
    ensures forall k :: 0 <= k < |cs| ==> PropsOk(bytes, cs[k])
    decreases cs, 0
  {
    if cs != [] {
      var m: nat :| NodeSpan(bytes, cs[0], cs[0].propsBegin - 2, m) && ChildSpans(bytes, cs[1..], m, j);
      SpanPropsOk(bytes, cs[0], cs[0].propsBegin - 2, m);
      ChildrenPropsOk(bytes, cs[1..], m, j);
      assert forall k :: 0 < k < |cs| ==> cs[k] == cs[1..][k - 1];
    }
  }

  lemma ParsedPropsOk(bytes: seq<Byte>)
    requires |bytes| > MINIMAL_SIZE && Parse(bytes).Some?
    ensures PropsOk(bytes, Parse(bytes).value)
  {
    ParseSound(bytes);
    var j :| NodeSpan(bytes, Parse(bytes).value, IDENTIFIER_SIZE, j) && Neutral(bytes, j, |bytes|);
    SpanPropsOk(bytes, Parse(bytes).value, IDENTIFIER_SIZE, j);
  }

  /** A file loads to a tree exactly when it is longer than the minimum, bears the identifier
      asked for or the wildcard, and derives the tree. */
  lemma LoadIff(bytes: seq<Byte>, accepted: seq<Byte>, raw: Raw)
    ensures Load(bytes, accepted) == Some(raw) <==>
      && |bytes| > MINIMAL_SIZE && FileSpan(bytes, raw)
      && (bytes[..IDENTIFIER_SIZE] == accepted || forall i :: 0 <= i < IDENTIFIER_SIZE ==> bytes[i] == 0)
  {
    if |bytes| > MINIMAL_SIZE {
      ParseIffDerived(bytes, raw);
      assert bytes[..IDENTIFIER_SIZE] == WILDCARD <==> forall i :: 0 <= i < IDENTIFIER_SIZE ==> bytes[i] == 0 by {
        assert forall i :: 0 <= i < IDENTIFIER_SIZE ==> bytes[..IDENTIFIER_SIZE][i] == bytes[i] && WILDCARD[i] == 0;
      }
    }
  }
}
