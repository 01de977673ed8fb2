/** The splitter of call arguments that the binding documentation checker uses. */
module CallArguments {
  import opened Wrappers

  /** White space as `str.strip` sees it. */
  predicate IsSpace(c: char) {
    || '\t' <= c <= '\r' || '\U{1C}' <= c <= ' ' || c == '\U{85}' || c == '\U{A0}' || c == '\U{1680}'
    || '\U{2000}' <= c <= '\U{200A}' || c == '\U{2028}' || c == '\U{2029}' || c == '\U{202F}'
    || c == '\U{205F}' || c == '\U{3000}'
  }

  function StripLeft(s: string): string {
    if s != "" && IsSpace(s[0]) then StripLeft(s[1..]) else s
  }

  function StripRight(s: string): string {
    if s != "" && IsSpace(s[|s| - 1]) then StripRight(s[..|s| - 1]) else s
  }

  function Strip(s: string): string { StripRight(StripLeft(s)) }

  predicate Trimmed(s: string) { s == "" || (!IsSpace(s[0]) && !IsSpace(s[|s| - 1])) }

  predicate Opens(c: char) { c == '(' || c == '[' || c == '{' }

  predicate Closes(c: char) { c == ')' || c == ']' || c == '}' }

  // ---- Finding the call ----

  predicate StandsAt(line: string, sub: string, i: nat) {
    i + |sub| <= |line| && line[i..i + |sub|] == sub
  }

  /** `str.find(sub, from)`: the first place at or after `from`, or -1. */
  function Find(line: string, sub: string, from: nat): (r: int)
    ensures r == -1 || (r >= from && StandsAt(line, sub, r))
    ensures forall i: nat :: i >= from && StandsAt(line, sub, i) ==> r != -1 && r <= i
    decreases |line| - from
  {
    if from > |line| then -1
    else if StandsAt(line, sub, from) then from
    else Find(line, sub, from + 1)
  }

  lemma OpensAtIs(line: string)
    ensures forall i: nat :: i < |line| ==> (StandsAt(line, "(", i) <==> line[i] == '(')
  {
    forall i: nat | i < |line| ensures StandsAt(line, "(", i) <==> line[i] == '(' {
      assert line[i..i + 1] == [line[i]];
    }
  }

  ghost predicate FirstAt(line: string, sub: string, i: nat) {
    StandsAt(line, sub, i) && forall j: nat :: j < i ==> !StandsAt(line, sub, j)
  }

  /** No parenthesis opens in `line` between the two places. */
  predicate NoneOpens(line: string, from: nat, to: nat) {
    forall i :: from <= i < to && i < |line| ==> line[i] != '('
  }

  /** The first opening parenthesis behind the first occurrence of the call name, or -1. */
  function FindCallOpenIndex(line: string, callName: string): (r: int)
    ensures r >= 0 ==>
      && r < |line| && line[r] == '('
      && exists call: nat ::
           FirstAt(line, callName, call) && call + |callName| <= r && NoneOpens(line, call + |callName|, r)
    ensures r < 0 ==>
      r == -1 && forall call: nat :: FirstAt(line, callName, call) ==> NoneOpens(line, call + |callName|, |line|)
  {
    OpensAtIs(line);
    var call := Find(line, callName, 0);
    if call < 0 then -1
    else
      var open := Find(line, "(", call + |callName|);
      assert FirstAt(line, callName, call);
      assert open >= 0 ==> NoneOpens(line, call + |callName|, open);
      open
  }

  // ---- Scanning the arguments ----

  datatype State = State(depth: nat, inString: bool, escape: bool)

  const OUTSIDE := State(0, false, false)

  /** The state after a character that belongs to the current argument; `None` when the
      character ends the argument. */
  function Advance(s: State, c: char): Option<State> {
    if s.inString then
      if s.escape then Some(s.(escape := false))
      else if c == '\\' then Some(s.(escape := true))
      else if c == '"' then Some(s.(inString := false))
      else Some(s)
    else if c == '"' then Some(s.(inString := true))
    else if Opens(c) then Some(s.(depth := s.depth + 1))
    else if Closes(c) then if s.depth == 0 then None else Some(s.(depth := s.depth - 1))
    else if c == ',' && s.depth == 0 then None
    else Some(s)
  }

  /** The rest of the loop of `split_call_arguments`. */
  function Scan(text: string, s: State, current: string, args: seq<string>): Option<seq<string>>
    decreases |text|
  {
    if text == "" then None
    else
      var a := Advance(s, text[0]);
      if a.Some? then Scan(text[1..], a.value, current + [text[0]], args)
      else if Closes(text[0]) then Some(args + [Strip(current)])
      else Scan(text[1..], s, "", args + [Strip(current)])
  }

  function Split(line: string, callName: string): Option<seq<string>> {
    var open := FindCallOpenIndex(line, callName);
    if open < 0 then None else Scan(line[open + 1..], OUTSIDE, "", [])
  }

  // ---- The loop ----

  method ConsumeStringCharacter(current: string, c: char, escape: bool)
    returns (current': string, inString: bool, escape': bool)
    ensures current' == current + [c]
    ensures Advance(State(0, true, escape), c) == Some(State(0, inString, escape'))
  {
    current' := current + [c];
    if escape {
      return current', true, false;
    }
    if c == '\\' {
      return current', true, true;
    }
    if c == '"' {
      return current', false, false;
    }
    return current', true, false;
  }

  method SplitCallArguments(line: string, callName: string) returns (result: Option<seq<string>>)
    ensures result == Split(line, callName)
  {
    var openIndex := FindCallOpenIndex(line, callName);
    if openIndex < 0 {
      return None;
    }
    var args: seq<string> := [];
    var current := "";
    var depth: nat := 0;
    var inString, escape := false, false;
    var i := openIndex + 1;
    while i < |line|
      invariant openIndex < i <= |line|
      invariant !inString ==> !escape
      invariant Scan(line[i..], State(depth, inString, escape), current, args) == Split(line, callName)
    {
      var c := line[i];
      assert line[i..][0] == c && line[i..][1..] == line[i + 1..];
      i := i + 1;
      if inString {
        current, inString, escape := ConsumeStringCharacter(current, c, escape);
        continue;
      }
      if c == '"' {
        inString := true;
        current := current + [c];
        continue;
      }
      if Opens(c) {
        depth := depth + 1;
        current := current + [c];
        continue;
      }
      if Closes(c) && depth == 0 {
        args := args + [Strip(current)];
        return Some(args);
      }
      if Closes(c) {
        depth := depth - 1;
        current := current + [c];
        continue;
      }
      if c == ',' && depth == 0 {
        args := args + [Strip(current)];
        current := "";
        continue;
      }
      current := current + [c];
    }
    return None;
  }

  // ---- What an argument is ----

  /** The state after a whole text that stays inside one argument. */
  function Walk(text: string, s: State): Option<State>
    decreases |text|
  {
    if text == "" then Some(s)
    else
      var a := Advance(s, text[0]);
      if a.None? then None else Walk(text[1..], a.value)
  }

  /** Brackets balanced at every prefix, strings closed, no comma outside of both. */
  predicate SelfContained(arg: string) { Walk(arg, OUTSIDE) == Some(OUTSIDE) }

  function Join(args: seq<string>): string
    requires args != []
  {
    if |args| == 1 then args[0] else args[0] + "," + Join(args[1..])
  }

  function StripAll(args: seq<string>): seq<string> {
    if args == [] then [] else [Strip(args[0])] + StripAll(args[1..])
  }

  lemma {:induction false} ScanWalk(arg: string, rest: string, s: State, current: string, args: seq<string>)
    requires Walk(arg, s).Some?
    ensures Scan(arg + rest, s, current, args) == Scan(rest, Walk(arg, s).value, current + arg, args)
    decreases |arg|
  {
    if arg == "" {
      assert arg + rest == rest && current + arg == current;
    } else {
      assert (arg + rest)[1..] == arg[1..] + rest;
      ScanWalk(arg[1..], rest, Advance(s, arg[0]).value, current + [arg[0]], args);
      assert current + [arg[0]] + arg[1..] == current + arg;
    }
  }

  /** An argument up to the closing bracket. */
  lemma ScanLast(raw: string, close: char, rest: string, args: seq<string>)
    requires SelfContained(raw) && Closes(close)
    ensures Scan(raw + ([close] + rest), OUTSIDE, "", args) == Some(args + [Strip(raw)])
  {
    assert "" + raw == raw;
    ScanWalk(raw, [close] + rest, OUTSIDE, "", args);
  }

  /** An argument up to a comma. */
  lemma ScanComma(raw: string, tail: string, args: seq<string>)
    requires SelfContained(raw)
    ensures Scan(raw + ("," + tail), OUTSIDE, "", args) == Scan(tail, OUTSIDE, "", args + [Strip(raw)])
  {
    assert "" + raw == raw;
    ScanWalk(raw, "," + tail, OUTSIDE, "", args);
    assert ("," + tail)[1..] == tail;
  }

  lemma {:induction false} ScanJoined(raws: seq<string>, close: char, rest: string, args: seq<string>)
    requires raws != [] && Closes(close)
    requires forall k :: 0 <= k < |raws| ==> SelfContained(raws[k])
    ensures Scan(Join(raws) + [close] + rest, OUTSIDE, "", args) == Some(args + StripAll(raws))
    decreases |raws|
  {
    if |raws| == 1 {
      assert Join(raws) + [close] + rest == raws[0] + ([close] + rest);
      ScanLast(raws[0], close, rest, args);
      assert raws[1..] == [] && StripAll(raws) == [Strip(raws[0])] + [] == [Strip(raws[0])];
    } else {
      assert [raws[0]] + raws[1..] == raws;
      JoinCons(raws[0], raws[1..], close, rest);
      ScanComma(raws[0], Join(raws[1..]) + [close] + rest, args);
      ScanJoined(raws[1..], close, rest, args + [Strip(raws[0])]);
      assert args + [Strip(raws[0])] + StripAll(raws[1..]) == args + ([Strip(raws[0])] + StripAll(raws[1..]));
    }
  }

  lemma JoinCons(first: string, raws: seq<string>, close: char, rest: string)
    requires raws != []
    ensures Join([first] + raws) + [close] + rest == first + ("," + (Join(raws) + [close] + rest))
    ensures StripAll([first] + raws) == [Strip(first)] + StripAll(raws)
  {
    assert ([first] + raws)[1..] == raws;
  }

  lemma {:induction false} WalkSnoc(text: string, c: char, s: State)
    requires Walk(text, s).Some?
    ensures Walk(text + [c], s) == Advance(Walk(text, s).value, c)
    decreases |text|
  {
    if text == "" {
      assert text + [c] == [c] && [c][1..] == "";
    } else {
      assert (text + [c])[1..] == text[1..] + [c];
      WalkSnoc(text[1..], c, Advance(s, text[0]).value);
    }
  }

  /** An escape is pending only inside a string. */
  lemma {:induction false} WalkKeepsEscape(text: string, s: State)
    requires Walk(text, s).Some? && (s.escape ==> s.inString)
    ensures Walk(text, s).value.escape ==> Walk(text, s).value.inString
    decreases |text|
  {
    if text != "" { WalkKeepsEscape(text[1..], Advance(s, text[0]).value); }
  }

  /** Whatever the scan returns, the text is made of such arguments up to a closing bracket. */
  lemma {:induction false} ScanSound(text: string, s: State, current: string, args: seq<string>)
    returns (raws: seq<string>, close: char, rest: string)
    requires Walk(current, OUTSIDE) == Some(s) && Scan(text, s, current, args).Some?
    ensures raws != [] && Closes(close) && current + text == Join(raws) + [close] + rest
    ensures forall k :: 0 <= k < |raws| ==> SelfContained(raws[k])
    ensures Scan(text, s, current, args) == Some(args + StripAll(raws))
    decreases |text|
  {
    var c := text[0];
    var a := Advance(s, c);
    assert text == [c] + text[1..];
    WalkKeepsEscape(current, OUTSIDE);
    if a.Some? {
      WalkSnoc(current, c, OUTSIDE);
      raws, close, rest := ScanSound(text[1..], a.value, current + [c], args);
      assert current + text == current + [c] + text[1..];
    } else if Closes(c) {
      raws, close, rest := [current], c, text[1..];
      assert current + text == current + [c] + text[1..];
      assert StripAll(raws) == [Strip(current)];
    } else {
      var tail;
      tail, close, rest := ScanSound(text[1..], s, "", args + [Strip(current)]);
      assert "" + text[1..] == text[1..];
      JoinCons(current, tail, close, rest);
      assert args + [Strip(current)] + StripAll(tail) == args + ([Strip(current)] + StripAll(tail));
      raws := [current] + tail;
    }
  }

  /** The text after the opening parenthesis of the call: arguments joined by commas, a
      closing bracket of any kind, anything. */
  ghost predicate IsArgumentList(text: string, raws: seq<string>) {
    && raws != [] && (forall k :: 0 <= k < |raws| ==> SelfContained(raws[k]))
    && exists close, rest :: Closes(close) && text == Join(raws) + [close] + rest
  }

  /** The splitter succeeds exactly on argument lists, and returns the arguments trimmed. */
  lemma SplitIff(line: string, callName: string, args: seq<string>)
    ensures Split(line, callName) == Some(args) <==>
      var open := FindCallOpenIndex(line, callName);
      open >= 0 && exists raws :: IsArgumentList(line[open + 1..], raws) && args == StripAll(raws)
  {
    var open := FindCallOpenIndex(line, callName);
    if open >= 0 {
      var text := line[open + 1..];
      if Split(line, callName) == Some(args) {
        var raws, close, rest := ScanSound(text, OUTSIDE, "", []);
        assert "" + text == text && [] + StripAll(raws) == StripAll(raws);
        assert IsArgumentList(text, raws);
      }
      if raws :| IsArgumentList(text, raws) && args == StripAll(raws) {
        var close, rest :| Closes(close) && text == Join(raws) + [close] + rest;
        ScanJoined(raws, close, rest, []);
        assert [] + StripAll(raws) == StripAll(raws);
      }
    }
  }

  lemma StripTrimmed(s: string)
    requires Trimmed(s)
    ensures Strip(s) == s
  {
  }

  lemma {:induction false} StripAllTrimmed(args: seq<string>)
    requires forall k :: 0 <= k < |args| ==> Trimmed(args[k])
    ensures StripAll(args) == args
  {
    if args != [] {
      StripTrimmed(args[0]);
      StripAllTrimmed(args[1..]);
    }
  }

  /** Where the call opens: at the first parenthesis after the first occurrence of its name. */
  lemma OpenIndex(pre: string, callName: string, mid: string, tail: string)
    requires Find(pre + callName + mid + "(" + tail, callName, 0) == |pre|
    requires '(' !in mid
    ensures FindCallOpenIndex(pre + callName + mid + "(" + tail, callName) == |pre| + |callName| + |mid|
    ensures (pre + callName + mid + "(" + tail)[|pre| + |callName| + |mid| + 1..] == tail
  {
    var line := pre + callName + mid + "(" + tail;
    var from := |pre| + |callName|;
    var open := from + |mid|;
    assert line[open] == '(' && line[open..open + 1] == "(";
    assert StandsAt(line, "(", open);
    forall i: nat | from <= i < open ensures !StandsAt(line, "(", i) {
      assert line[i] == mid[i - from] && line[i..i + 1][0] == line[i];
    }
  }

  /** Any list of trimmed, self-contained arguments, written after the first occurrence of the
      call name and its opening parenthesis and joined by commas, is recovered exactly. */
  lemma SplitRecoversArguments(pre: string, callName: string, mid: string, args: seq<string>, close: char, rest: string)
    requires args != [] && Closes(close) && '(' !in mid
    requires forall k :: 0 <= k < |args| ==> SelfContained(args[k]) && Trimmed(args[k])
    requires Find(pre + callName + mid + "(" + (Join(args) + [close] + rest), callName, 0) == |pre|
    ensures Split(pre + callName + mid + "(" + (Join(args) + [close] + rest), callName) == Some(args)
  {
    var tail := Join(args) + [close] + rest;
    OpenIndex(pre, callName, mid, tail);
    ScanJoined(args, close, rest, []);
    StripAllTrimmed(args);
    assert [] + args == args;
  }

  // ---- What stays together ----

  lemma {:induction false} WalkConcat(a: string, b: string, s: State)
    requires Walk(a, s).Some?
    ensures Walk(a + b, s) == Walk(b, Walk(a, s).value)
    decreases |a|
  {
    if a == "" {
      assert a + b == b;
    } else {
      assert (a + b)[1..] == a[1..] + b;
      WalkConcat(a[1..], b, Advance(s, a[0]).value);
    }
  }

  predicate Deeper(s: State, t: State) { t == s.(depth := s.depth + 1) }

  /** Inside a bracket a text is walked as outside of it. */
  lemma {:induction false} WalkDeeper(text: string, s: State, t: State)
    requires Walk(text, s).Some? && Deeper(s, t)
    ensures Walk(text, t).Some? && Deeper(Walk(text, s).value, Walk(text, t).value)
    decreases |text|
  {
    if text != "" {
      WalkDeeper(text[1..], Advance(s, text[0]).value, Advance(t, text[0]).value);
    }
  }

  /** Arguments joined by commas, inside a bracket. */
  lemma {:induction false} WalkJoined(raws: seq<string>, s: State)
    requires raws != [] && Deeper(OUTSIDE, s)
    requires forall k :: 0 <= k < |raws| ==> SelfContained(raws[k])
    ensures Walk(Join(raws), s) == Some(s)
    decreases |raws|
  {
    WalkDeeper(raws[0], OUTSIDE, s);
    if |raws| > 1 {
      WalkJoined(raws[1..], s);
      WalkConcat(raws[0], "," + Join(raws[1..]), s);
      assert ("," + Join(raws[1..]))[1..] == Join(raws[1..]);
      assert Join(raws) == raws[0] + ("," + Join(raws[1..]));
    }
  }

  lemma WalkFirst(c: char, rest: string, s: State)
    requires Advance(s, c).Some?
    ensures Walk([c] + rest, s) == Walk(rest, Advance(s, c).value)
  {
    assert ([c] + rest)[1..] == rest;
  }

  lemma WalkLast(text: string, c: char, s: State)
    requires Walk(text, s).Some? && Advance(Walk(text, s).value, c).Some?
    ensures Walk(text + [c], s) == Advance(Walk(text, s).value, c)
  {
    WalkSnoc(text, c, s);
  }

  /** A list in parentheses, brackets or braces is one argument, whatever commas it holds. */
  lemma BracketedIsOneArgument(raws: seq<string>, open: char, close: char)
    requires raws != [] && forall k :: 0 <= k < |raws| ==> SelfContained(raws[k])
    requires open == '(' || open == '[' || open == '{'
    requires close == ')' || close == ']' || close == '}'
    ensures SelfContained([open] + (Join(raws) + [close]))
  {
    WalkJoined(raws, State(1, false, false));
    BracketedText(Join(raws), open, close);
  }

  lemma BracketedText(text: string, open: char, close: char)
    requires Walk(text, State(1, false, false)) == Some(State(1, false, false))
    requires open == '(' || open == '[' || open == '{'
    requires close == ')' || close == ']' || close == '}'
    ensures SelfContained([open] + (text + [close]))
  {
    assert Advance(OUTSIDE, open) == Some(State(1, false, false));
    WalkFirst(open, text + [close], OUTSIDE);
    assert Advance(State(1, false, false), close) == Some(OUTSIDE);
    WalkLast(text, close, State(1, false, false));
  }

  /** The text of a string literal with its quotes and backslashes escaped. */
  function Quoted(s: string): string {
    if s == "" then "" else (if s[0] == '"' || s[0] == '\\' then ['\\', s[0]] else [s[0]]) + Quoted(s[1..])
  }

  lemma {:induction false} QuotedWalks(s: string)
    ensures Walk(Quoted(s), State(0, true, false)) == Some(State(0, true, false))
    decreases |s|
  {
    if s != "" {
      QuotedWalks(s[1..]);
      var head := if s[0] == '"' || s[0] == '\\' then ['\\', s[0]] else [s[0]];
      QuotedHead(s[0]);
      WalkConcat(head, Quoted(s[1..]), State(0, true, false));
    }
  }

  lemma QuotedHead(c: char)
    ensures Walk(if c == '"' || c == '\\' then ['\\', c] else [c], State(0, true, false)) == Some(State(0, true, false))
  {
    if c == '"' || c == '\\' {
      assert ['\\', c][1..] == [c] && [c][1..] == "";
      assert Walk([c], State(0, true, true)) == Some(State(0, true, false));
    } else {
      assert [c][1..] == "";
    }
  }

  /** A string literal is one argument, whatever commas, brackets and quotes it holds. */
  lemma LiteralIsOneArgument(s: string)
    ensures SelfContained("\"" + Quoted(s) + "\"")
  {
    QuotedWalks(s);
    WalkFirst('"', Quoted(s) + "\"", OUTSIDE);
    WalkLast(Quoted(s), '"', State(0, true, false));
    assert ['"'] + (Quoted(s) + "\"") == "\"" + Quoted(s) + "\"";
  }

  /** Stripping takes white space off both ends, and all of it. */
  lemma StripTrims(s: string)
    ensures Trimmed(Strip(s))
    ensures exists i: nat, j: nat ::
      i <= j <= |s| && Strip(s) == s[i..j] && AllSpace(s[..i]) && AllSpace(s[j..])
  {
    var l := StripLeft(s);
    var i := StripsLeft(s);
    var j := StripsRight(l);
    assert s[i..] == l && Strip(s) == s[i..i + j] && s[i + j..] == l[j..];
  }

  predicate AllSpace(s: string) { forall k :: 0 <= k < |s| ==> IsSpace(s[k]) }

  lemma {:induction false} StripsLeft(s: string) returns (i: nat)
    ensures i <= |s| && StripLeft(s) == s[i..] && AllSpace(s[..i])
    ensures StripLeft(s) != "" ==> !IsSpace(StripLeft(s)[0])
    decreases |s|
  {
    i := 0;
    if s != "" && IsSpace(s[0]) {
      var k := StripsLeft(s[1..]);
      i := k + 1;
      assert s[..i] == [s[0]] + s[1..][..k] && s[i..] == s[1..][k..];
    }
  }

  lemma {:induction false} StripsRight(s: string) returns (j: nat)
    ensures j <= |s| && StripRight(s) == s[..j] && AllSpace(s[j..])
    ensures StripRight(s) != "" ==> !IsSpace(StripRight(s)[|StripRight(s)| - 1])
    decreases |s|
  {
    j := |s|;
    if s != "" && IsSpace(s[|s| - 1]) {
      var front := s[..|s| - 1];
      j := StripsRight(front);
      assert s[..j] == front[..j] && s[j..] == front[j..] + [s[|s| - 1]];
    }
  }
}
