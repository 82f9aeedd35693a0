/** The Python `str` primitives the prompt engine relies on, written out over
    `seq<char>`: `isspace`, `strip`, ASCII `lower`, `split(sep)`, `splitlines`,
    `replace`, `join`, and decimal formatting of integers. */
module PyText {

  /** Python's `str.isspace()` for one character. */
  predicate IsSpace(c: char) {
    || ('\t' <= c <= '\r')
    || ('\U{1C}' <= c <= ' ')
    || c == '\U{85}' || c == '\U{A0}' || c == '\U{1680}'
    || ('\U{2000}' <= c <= '\U{200A}')
    || c == '\U{2028}' || c == '\U{2029}' || c == '\U{202F}' || c == '\U{205F}' || c == '\U{3000}'
  }

  /** The characters `str.splitlines()` treats as line boundaries. */
  const LineBreaks: set<char> :=
    {'\n', '\r', '\U{0B}', '\U{0C}', '\U{1C}', '\U{1D}', '\U{1E}', '\U{85}', '\U{2028}', '\U{2029}'}

  /** True when `s` is empty or made only of whitespace, i.e. `not s.strip()`. */
  predicate IsBlank(s: string) {
    forall i :: 0 <= i < |s| ==> IsSpace(s[i])
  }

  /** No character of `s` is a line boundary. */
  predicate SingleLine(s: string) {
    forall j :: 0 <= j < |s| ==> s[j] !in LineBreaks
  }

  predicate AllSingleLine(lines: seq<string>) {
    forall k :: 0 <= k < |lines| ==> SingleLine(lines[k])
  }

  /** A list of lines is single-line exactly when both of its parts are. */
  lemma AllSingleLineAppend(a: seq<string>, b: seq<string>)
    ensures AllSingleLine(a + b) <==> AllSingleLine(a) && AllSingleLine(b)
  {
    if AllSingleLine(a + b) {
      forall k | 0 <= k < |a| ensures SingleLine(a[k]) {
        assert a[k] == (a + b)[k];
      }
      forall k | 0 <= k < |b| ensures SingleLine(b[k]) {
        assert b[k] == (a + b)[|a| + k];
      }
    }
  }

  /** No character of `s` belongs to `seps`. */
  predicate Avoids(s: string, seps: set<char>) {
    forall c :: c in s ==> c !in seps
  }

  /** Non-empty, with no whitespace at either end: what `strip` leaves of a non-blank string. */
  predicate Solid(s: string) {
    |s| > 0 && !IsSpace(s[0]) && !IsSpace(s[|s| - 1])
  }

  predicate StartsWith(s: string, prefix: string) {
    |prefix| <= |s| && s[..|prefix|] == prefix
  }

  /** A text that opens with a non-space character is not blank. */
  lemma OpensNotBlank(s: string, prefix: string)
    requires StartsWith(s, prefix) && |prefix| > 0 && !IsSpace(prefix[0])
    ensures !IsBlank(s)
  {
    assert s[0] == s[..|prefix|][0];
  }

  predicate EndsWith(s: string, suffix: string) {
    |suffix| <= |s| && s[|s| - |suffix|..] == suffix
  }

  /** `s.lstrip()`: drops leading whitespace and nothing else. */
  function TrimLeft(s: string): (r: string)
    ensures |r| <= |s| && r == s[|s| - |r|..]
    ensures forall i :: 0 <= i < |s| - |r| ==> IsSpace(s[i])
    ensures |r| > 0 ==> !IsSpace(r[0])
  {
    if |s| > 0 && IsSpace(s[0]) then TrimLeft(s[1..]) else s
  }

  /** `s.rstrip()`: drops trailing whitespace and nothing else. */
  function TrimRight(s: string): (r: string)
    ensures |r| <= |s| && r == s[..|r|]
    ensures forall i :: |r| <= i < |s| ==> IsSpace(s[i])
    ensures |r| > 0 ==> !IsSpace(r[|r| - 1])
  {
    if |s| > 0 && IsSpace(s[|s| - 1]) then TrimRight(s[..|s| - 1]) else s
  }

  /** `s.strip()`. */
  function Strip(s: string): (r: string)
    ensures |r| <= |s|
    ensures r == "" <==> IsBlank(s)
    ensures |r| > 0 ==> !IsSpace(r[0]) && !IsSpace(r[|r| - 1])
    ensures forall c :: c in r ==> c in s
  {
    var l := TrimLeft(s);
    var r := TrimRight(l);
    StripFacts(s, l, r);
    r
  }

  lemma StripFacts(s: string, l: string, r: string)
    requires l == TrimLeft(s) && r == TrimRight(l)
    ensures r == "" <==> IsBlank(s)
    ensures forall c :: c in r ==> c in s
  {
    SliceMembers(s, |s| - |l|, |s|);
    SliceMembers(l, 0, |r|);
    if |l| == 0 {
      assert IsBlank(s);
    }
  }

  lemma SliceMembers(s: string, lo: int, hi: int)
    requires 0 <= lo <= hi <= |s|
    ensures forall c :: c in s[lo..hi] ==> c in s
  {
    forall c | c in s[lo..hi]
      ensures c in s
    {
      var j :| 0 <= j < hi - lo && s[lo..hi][j] == c;
      assert s[lo + j] == c;
    }
  }

  /** Whitespace at the end of `y` is all `rstrip` can remove from `x + y`
      when `x` itself ends in a non-space character. */
  lemma {:induction false} TrimRightAfterSolid(x: string, y: string)
    requires |x| > 0 && !IsSpace(x[|x| - 1])
    ensures TrimRight(x + y) == x + TrimRight(y)
    decreases |y|
  {
    if |y| > 0 && IsSpace(y[|y| - 1]) {
      assert (x + y)[..|x + y| - 1] == x + y[..|y| - 1];
      TrimRightAfterSolid(x, y[..|y| - 1]);
    }
  }

  /** `strip` leaves a string with no whitespace at either end unchanged. */
  lemma StripSolid(s: string)
    requires Solid(s)
    ensures Strip(s) == s
  {
    TrimLeftSolid(s);
    TrimRightAfterSolid(s, "");
    assert s + "" == s;
  }

  /** `lstrip` leaves a string that starts with a non-space unchanged. */
  lemma TrimLeftSolid(s: string)
    requires |s| > 0 && !IsSpace(s[0])
    ensures TrimLeft(s) == s
  {
  }

  function LowerChar(c: char): char {
    if 'A' <= c <= 'Z' then (c as int + 32) as char else c
  }

  /** `s.lower()` restricted to ASCII letters. */
  function Lower(s: string): (r: string)
    ensures |r| == |s|
  {
    seq(|s|, i requires 0 <= i < |s| => LowerChar(s[i]))
  }

  /** Whitespace is whitespace before and after lower-casing. */
  lemma LowerCharSpace(c: char)
    ensures IsSpace(LowerChar(c)) <==> IsSpace(c)
  {
  }

  lemma {:induction false} TrimLeftLower(s: string)
    ensures TrimLeft(Lower(s)) == Lower(TrimLeft(s))
    decreases |s|
  {
    if |s| > 0 {
      LowerCharSpace(s[0]);
      if IsSpace(s[0]) {
        assert Lower(s)[1..] == Lower(s[1..]);
        TrimLeftLower(s[1..]);
      }
    }
  }

  lemma {:induction false} TrimRightLower(s: string)
    ensures TrimRight(Lower(s)) == Lower(TrimRight(s))
    decreases |s|
  {
    if |s| > 0 {
      LowerCharSpace(s[|s| - 1]);
      if IsSpace(s[|s| - 1]) {
        assert Lower(s)[..|s| - 1] == Lower(s[..|s| - 1]);
        TrimRightLower(s[..|s| - 1]);
      }
    }
  }

  /** Stripping and lower-casing commute. */
  lemma LowerStrip(s: string)
    ensures Lower(Strip(s)) == Strip(Lower(s))
  {
    TrimLeftLower(s);
    TrimRightLower(TrimLeft(s));
  }

  lemma {:induction false} TrimLeftBlankPrefix(pad: string, x: string)
    requires IsBlank(pad)
    ensures TrimLeft(pad + x) == TrimLeft(x)
    decreases |pad|
  {
    if |pad| > 0 {
      assert (pad + x)[1..] == pad[1..] + x;
      TrimLeftBlankPrefix(pad[1..], x);
    } else {
      assert pad + x == x;
    }
  }

  lemma {:induction false} TrimRightBlankSuffix(x: string, pad: string)
    requires IsBlank(pad)
    ensures TrimRight(x + pad) == TrimRight(x)
    decreases |pad|
  {
    if |pad| > 0 {
      assert (x + pad)[..|x + pad| - 1] == x + pad[..|pad| - 1];
      TrimRightBlankSuffix(x, pad[..|pad| - 1]);
    } else {
      assert x + pad == x;
    }
  }

  lemma {:induction false} TrimLeftAppend(s: string, pad: string)
    requires !IsBlank(s)
    ensures TrimLeft(s + pad) == TrimLeft(s) + pad
    decreases |s|
  {
    if IsSpace(s[0]) {
      assert (s + pad)[1..] == s[1..] + pad;
      TrimLeftAppend(s[1..], pad);
    }
  }

  /** Surrounding whitespace never changes what `strip` returns. */
  lemma StripPadded(before: string, s: string, after: string)
    requires IsBlank(before) && IsBlank(after)
    ensures Strip(before + s + after) == Strip(s)
  {
    if IsBlank(s) {
      BlankPadded(before, s, after);
    } else {
      SolidPadded(before, s, after);
    }
  }

  lemma BlankPadded(before: string, s: string, after: string)
    requires IsBlank(before) && IsBlank(s) && IsBlank(after)
    ensures Strip(before + s + after) == "" && Strip(s) == ""
  {
    assert IsBlank(before + s + after);
  }

  lemma SolidPadded(before: string, s: string, after: string)
    requires IsBlank(before) && !IsBlank(s) && IsBlank(after)
    ensures Strip(before + s + after) == Strip(s)
  {
    var x := before + s + after;
    assert TrimLeft(x) == TrimLeft(s) + after by {
      assert x == before + (s + after);
      TrimLeftBlankPrefix(before, s + after);
      TrimLeftAppend(s, after);
    }
    TrimRightBlankSuffix(TrimLeft(s), after);
  }

  /** `"".join(parts)`. */
  function Concat(parts: seq<string>): string {
    if |parts| == 0 then "" else parts[0] + Concat(parts[1..])
  }

  /** `sep.join(parts)`. */
  function Join(sep: string, parts: seq<string>): string {
    if |parts| == 0 then ""
    else if |parts| == 1 then parts[0]
    else parts[0] + sep + Join(sep, parts[1..])
  }

  /** `"".join(line + "\n" for line in lines)`: every line terminated by a newline. */
  function Unlines(lines: seq<string>): string {
    if |lines| == 0 then "" else lines[0] + "\n" + Unlines(lines[1..])
  }

  /** Writing lines from position `i` on, then a tail: line `i`, its
      newline, then the rest -- whatever the lines contain. */
  lemma UnlinesFrom(lines: seq<string>, i: nat, tail: string)
    requires i < |lines|
    ensures Unlines(lines[i..]) + tail == lines[i] + "\n" + (Unlines(lines[i + 1..]) + tail)
  {
    assert lines[i..][1..] == lines[i + 1..];
    AppendAssoc(lines[i] + "\n", Unlines(lines[i + 1..]), tail);
  }

  /** Five lines from position `i` on, written out one after the other. */
  lemma UnlinesFiveFrom(lines: seq<string>, i: nat, tail: string)
    requires i + 5 <= |lines|
    ensures Unlines(lines[i..]) + tail ==
      lines[i] + "\n" + (lines[i + 1] + "\n" + (lines[i + 2] + "\n" + (lines[i + 3] + "\n" + (
      lines[i + 4] + "\n" + (Unlines(lines[i + 5..]) + tail)))))
  {
    UnlinesFrom(lines, i, tail);
    UnlinesFrom(lines, i + 1, tail);
    UnlinesFrom(lines, i + 2, tail);
    UnlinesFrom(lines, i + 3, tail);
    UnlinesFrom(lines, i + 4, tail);
  }

  /** Ten lines and a tail, written out one after the other. */
  lemma UnlinesTen(lines: seq<string>, tail: string)
    requires |lines| == 10
    ensures Unlines(lines) + tail ==
      lines[0] + "\n" + (lines[1] + "\n" + (lines[2] + "\n" + (lines[3] + "\n" + (lines[4] + "\n" + (
      lines[5] + "\n" + (lines[6] + "\n" + (lines[7] + "\n" + (lines[8] + "\n" + (lines[9] + "\n" + tail)))))))))
  {
    var back := lines[5] + "\n" + (lines[6] + "\n" + (lines[7] + "\n" + (lines[8] + "\n" + (lines[9] + "\n" + tail))));
    assert Unlines(lines[5..]) + tail == back by {
      UnlinesFiveFrom(lines, 5, tail);
      assert Unlines(lines[10..]) + tail == tail by {
        assert lines[10..] == [];
      }
    }
    assert Unlines(lines) + tail
        == lines[0] + "\n" + (lines[1] + "\n" + (lines[2] + "\n" + (lines[3] + "\n" + (lines[4] + "\n" + back)))) by {
      assert lines[0..] == lines;
      UnlinesFiveFrom(lines, 0, tail);
    }
  }

  lemma {:induction false} ConcatAppend(a: seq<string>, b: seq<string>)
    ensures Concat(a + b) == Concat(a) + Concat(b)
    decreases |a|
  {
    if |a| == 0 {
      assert a + b == b;
    } else {
      assert (a + b)[1..] == a[1..] + b;
      ConcatAppend(a[1..], b);
    }
  }

  lemma {:induction false} UnlinesAppend(a: seq<string>, b: seq<string>)
    ensures Unlines(a + b) == Unlines(a) + Unlines(b)
    decreases |a|
  {
    if |a| == 0 {
      assert a + b == b;
    } else {
      assert (a + b)[1..] == a[1..] + b;
      UnlinesAppend(a[1..], b);
    }
  }

  /** The first line, and the last two lines followed by a newline-terminated
      tail, are where `Unlines` puts them. */
  lemma UnlinesEnds(lines: seq<string>, tail: string)
    requires |lines| >= 2
    requires tail == "" || EndsWith(tail, "\n")
    ensures StartsWith(Unlines(lines) + tail, lines[0] + "\n")
    ensures EndsWith(Unlines(lines) + tail, lines[|lines| - 2] + "\n" + lines[|lines| - 1] + "\n" + tail)
    ensures EndsWith(Unlines(lines) + tail, "\n")
  {
    UnlinesStart(lines, tail);
    var e := UnlinesLastTwo(lines, tail);
    EndsWithNewline(lines[|lines| - 2] + "\n" + lines[|lines| - 1], tail);
    EndsWithTransitive(Unlines(lines) + tail, e, "\n");
  }

  lemma UnlinesStart(lines: seq<string>, tail: string)
    requires |lines| >= 1
    ensures StartsWith(Unlines(lines) + tail, lines[0] + "\n")
  {
    var first := lines[0] + "\n";
    var s := Unlines(lines) + tail;
    assert s == first + (Unlines(lines[1..]) + tail);
    assert s[..|first|] == first;
  }

  /** `Unlines(lines) + tail` ends with its last two lines and the tail. */
  lemma UnlinesLastTwo(lines: seq<string>, tail: string) returns (e: string)
    requires |lines| >= 2
    ensures e == lines[|lines| - 2] + "\n" + lines[|lines| - 1] + "\n" + tail
    ensures EndsWith(Unlines(lines) + tail, e)
  {
    var n := |lines|;
    UnlinesAppend(lines[..n - 2], lines[n - 2..]);
    assert lines[..n - 2] + lines[n - 2..] == lines;
    assert lines[n - 2..][1..] == [lines[n - 1]];
    assert Unlines([lines[n - 1]]) == lines[n - 1] + "\n" + Unlines([]);
    e := lines[n - 2] + "\n" + lines[n - 1] + "\n" + tail;
    var front := Unlines(lines[..n - 2]);
    assert Unlines(lines) + tail == front + e;
  }

  lemma EndsWithNewline(x: string, tail: string)
    requires tail == "" || EndsWith(tail, "\n")
    ensures EndsWith(x + "\n" + tail, "\n")
  {
    var e := x + "\n" + tail;
    assert e[|e| - 1] == '\n' by {
      if tail != "" {
        assert tail[|tail| - 1..] == "\n";
        assert e[|e| - 1] == tail[|tail| - 1];
      }
    }
    assert e[|e| - 1..] == [e[|e| - 1]];
  }

  lemma EndsWithTransitive(s: string, e: string, f: string)
    requires EndsWith(s, e) && EndsWith(e, f)
    ensures EndsWith(s, f)
  {
    assert s[|s| - |f|..] == s[|s| - |e|..][|e| - |f|..];
  }

  lemma JoinCons(sep: string, head: string, tail: seq<string>)
    requires |tail| > 0
    ensures Join(sep, [head] + tail) == head + sep + Join(sep, tail)
  {
    assert ([head] + tail)[1..] == tail;
  }

  /** Every part preceded by `sep`. */
  function Prefixed(sep: string, parts: seq<string>): (r: seq<string>)
    ensures |r| == |parts|
  {
    seq(|parts|, i requires 0 <= i < |parts| => sep + parts[i])
  }

  lemma PrefixedAppend(sep: string, a: seq<string>, b: seq<string>)
    ensures Prefixed(sep, a + b) == Prefixed(sep, a) + Prefixed(sep, b)
  {
  }

  /** `sep.join([head] + parts)` is `head` followed by each part with its separator. */
  lemma {:induction false} JoinAsPrefixed(sep: string, head: string, parts: seq<string>)
    ensures Join(sep, [head] + parts) == head + Concat(Prefixed(sep, parts))
    decreases |parts|
  {
    if |parts| > 0 {
      JoinCons(sep, head, parts);
      JoinAsPrefixed(sep, parts[0], parts[1..]);
      assert [parts[0]] + parts[1..] == parts;
      assert Prefixed(sep, parts) == [sep + parts[0]] + Prefixed(sep, parts[1..]);
    }
  }

  /** Index of the first character of `s` that is in `seps`, or `|s|` when there is none. */
  function FirstIndexOf(s: string, seps: set<char>): (i: nat)
    ensures i <= |s|
    ensures forall j :: 0 <= j < i ==> s[j] !in seps
    ensures i < |s| ==> s[i] in seps
  {
    if |s| == 0 || s[0] in seps then 0 else 1 + FirstIndexOf(s[1..], seps)
  }

  /** Index of the last occurrence of `c` in `s`, or -1 (Python's `str.rfind`). */
  function LastIndexOf(s: string, c: char): (i: int)
    ensures -1 <= i < |s|
    ensures forall j :: i < j < |s| ==> s[j] != c
    ensures i >= 0 ==> s[i] == c
  {
    if |s| == 0 then -1
    else if s[|s| - 1] == c then |s| - 1
    else LastIndexOf(s[..|s| - 1], c)
  }

  /** `s.split(sep)` for a one-character separator: always at least one
      fragment, none containing the separator, and joining them back gives `s`. */
  function Split(s: string, sep: char): (parts: seq<string>)
    ensures |parts| >= 1
    ensures forall k :: 0 <= k < |parts| ==> sep !in parts[k]
    ensures Join([sep], parts) == s
    decreases |s|
  {
    var i := FirstIndexOf(s, {sep});
    if i == |s| then
      [s]
    else
      var rest := Split(s[i + 1..], sep);
      JoinCons([sep], s[..i], rest);
      assert s == s[..i] + [sep] + s[i + 1..];
      [s[..i]] + rest
  }

  /** One step of `Split`: the text before the first separator, then the
      fragments after it. */
  lemma SplitStep(s: string, sep: char)
    ensures var i := FirstIndexOf(s, {sep});
            Split(s, sep) == if i == |s| then [s] else [s[..i]] + Split(s[i + 1..], sep)
  {
  }

  lemma AppendAssoc<T>(a: seq<T>, b: seq<T>, c: seq<T>)
    ensures (a + b) + c == a + (b + c)
  {
  }

  /** `s.splitlines()`: a trailing boundary does not open a new line, and
      "\r\n" counts as a single boundary. No line contains a boundary. */
  function SplitLines(s: string): (lines: seq<string>)
    ensures forall k :: 0 <= k < |lines| ==> SingleLine(lines[k])
    decreases |s|
  {
    if |s| == 0 then
      []
    else
      var i := FirstIndexOf(s, LineBreaks);
      if i == |s| then
        [s]
      else
        var skip := if s[i] == '\r' && i + 1 < |s| && s[i + 1] == '\n' then 2 else 1;
        [s[..i]] + SplitLines(s[i + skip..])
  }

  /** A line that holds no boundary, followed by a newline, is the first line. */
  lemma SplitLinesCons(line: string, rest: string)
    requires SingleLine(line)
    ensures SplitLines(line + "\n" + rest) == [line] + SplitLines(rest)
  {
    var s := line + "\n" + rest;
    assert FirstIndexOf(s, LineBreaks) == |line| by {
      assert s[|line|] == '\n';
    }
    assert s[..|line|] == line;
    assert s[|line| + 1..] == rest;
  }

  /** `splitlines` undoes `Unlines` when no line holds a boundary: the line
      view of newline-terminated text is the list of its lines. */
  lemma {:induction false} SplitLinesUnlines(lines: seq<string>, rest: string)
    requires forall k :: 0 <= k < |lines| ==> SingleLine(lines[k])
    ensures SplitLines(Unlines(lines) + rest) == lines + SplitLines(rest)
    decreases |lines|
  {
    if |lines| == 0 {
      assert Unlines(lines) + rest == rest;
    } else {
      var u := Unlines(lines[1..]) + rest;
      assert Unlines(lines) + rest == lines[0] + "\n" + u by {
        AppendAssoc(lines[0] + "\n", Unlines(lines[1..]), rest);
      }
      assert SplitLines(lines[0] + "\n" + u) == [lines[0]] + SplitLines(u) by {
        SplitLinesCons(lines[0], u);
      }
      assert SplitLines(u) == lines[1..] + SplitLines(rest) by {
        SplitLinesUnlines(lines[1..], rest);
      }
      assert [lines[0]] + (lines[1..] + SplitLines(rest)) == lines + SplitLines(rest) by {
        assert lines == [lines[0]] + lines[1..];
        AppendAssoc([lines[0]], lines[1..], SplitLines(rest));
      }
    }
  }

  /** `s.replace(c, rep)` for a one-character pattern. */
  function ReplaceChar(s: string, c: char, rep: string): string {
    if |s| == 0 then "" else (if s[0] == c then rep else [s[0]]) + ReplaceChar(s[1..], c, rep)
  }

  lemma {:induction false} ReplaceCharAppend(a: string, b: string, c: char, rep: string)
    ensures ReplaceChar(a + b, c, rep) == ReplaceChar(a, c, rep) + ReplaceChar(b, c, rep)
    decreases |a|
  {
    if |a| == 0 {
      assert a + b == b;
    } else {
      assert (a + b)[1..] == a[1..] + b;
      ReplaceCharAppend(a[1..], b, c, rep);
    }
  }

  lemma {:induction false} ReplaceCharAbsent(s: string, c: char, rep: string)
    requires c !in s
    ensures ReplaceChar(s, c, rep) == s
    decreases |s|
  {
    if |s| > 0 {
      ReplaceCharAbsent(s[1..], c, rep);
    }
  }

  /** Replacing by a single character is a pointwise substitution. */
  lemma {:induction false} ReplaceCharPointwise(s: string, c: char, d: char)
    ensures |ReplaceChar(s, c, [d])| == |s|
    ensures forall j :: 0 <= j < |s| ==> ReplaceChar(s, c, [d])[j] == (if s[j] == c then d else s[j])
    decreases |s|
  {
    if |s| > 0 {
      ReplaceCharPointwise(s[1..], c, d);
    }
  }

  /** `[p for p in parts if p.strip()]`. */
  function KeepNonBlank(parts: seq<string>): (r: seq<string>)
    ensures forall k :: 0 <= k < |r| ==> !IsBlank(r[k])
    ensures (forall k :: 0 <= k < |parts| ==> !IsBlank(parts[k])) ==> r == parts
  {
    if |parts| == 0 then []
    else
      var rest := KeepNonBlank(parts[1..]);
      assert parts == [parts[0]] + parts[1..];
      (if IsBlank(parts[0]) then [] else [parts[0]]) + rest
  }

  /** Two lists without blank entries make one. */
  lemma NoneBlankAppend(a: seq<string>, b: seq<string>)
    requires forall k :: 0 <= k < |a| ==> !IsBlank(a[k])
    requires forall k :: 0 <= k < |b| ==> !IsBlank(b[k])
    ensures forall k :: 0 <= k < |a + b| ==> !IsBlank((a + b)[k])
  {
    forall k | 0 <= k < |a + b|
      ensures !IsBlank((a + b)[k])
    {
      if k < |a| {
        assert (a + b)[k] == a[k];
      } else {
        assert (a + b)[k] == b[k - |a|];
      }
    }
  }

  /** What one piece contributes to a list: its stripped text, unless blank. */
  function Piece(x: string): seq<string> {
    var p := Strip(x);
    if p == "" then [] else [p]
  }

  /** `[y for x in parts for y in f(x)]`. */
  function FlatMap(f: string -> seq<string>, parts: seq<string>): seq<string> {
    if |parts| == 0 then [] else f(parts[0]) + FlatMap(f, parts[1..])
  }

  lemma {:induction false} FlatMapAppend(f: string -> seq<string>, a: seq<string>, b: seq<string>)
    ensures FlatMap(f, a + b) == FlatMap(f, a) + FlatMap(f, b)
    decreases |a|
  {
    if |a| == 0 {
      assert a + b == b;
    } else {
      assert (a + b)[0] == a[0] && (a + b)[1..] == a[1..] + b;
      FlatMapAppend(f, a[1..], b);
    }
  }

  /** `[p.strip() for p in parts if p.strip()]`. */
  function StrippedNonBlank(parts: seq<string>): seq<string> {
    FlatMap(Piece, parts)
  }

  lemma StrippedNonBlankCons(x: string, rest: seq<string>)
    ensures StrippedNonBlank([x] + rest) == Piece(x) + StrippedNonBlank(rest)
  {
    assert ([x] + rest)[0] == x && ([x] + rest)[1..] == rest;
  }

  /** Stripping pieces distributes over concatenation of the piece lists. */
  lemma StrippedNonBlankAppend(a: seq<string>, b: seq<string>)
    ensures StrippedNonBlank(a + b) == StrippedNonBlank(a) + StrippedNonBlank(b)
  {
    FlatMapAppend(Piece, a, b);
  }

  /** Reference definition of a delimited list: the stripped, non-blank
      pieces of `s` between consecutive characters of `seps`, in order. */
  function Fields(s: string, seps: set<char>): seq<string>
    decreases |s|
  {
    var i := FirstIndexOf(s, seps);
    Piece(s[..i]) + (if i == |s| then [] else Fields(s[i + 1..], seps))
  }

  /** One step of `Fields`: the piece before the first separator, then the
      fields after it. */
  lemma FieldsStep(s: string, seps: set<char>)
    ensures var i := FirstIndexOf(s, seps);
            Fields(s, seps) == Piece(s[..i]) + (if i == |s| then [] else Fields(s[i + 1..], seps))
  {
  }

  /** A piece is stripped, never empty, and keeps the characters it avoided. */
  lemma PieceSolid(x: string, seps: set<char>)
    requires Avoids(x, seps)
    ensures forall k :: 0 <= k < |Piece(x)| ==> Solid(Piece(x)[k]) && Avoids(Piece(x)[k], seps)
  {
  }

  /** Every field is non-empty, has no whitespace at either end, and holds
      no separator. */
  lemma {:induction false} FieldsSolid(s: string, seps: set<char>)
    ensures forall k :: 0 <= k < |Fields(s, seps)| ==> Solid(Fields(s, seps)[k]) && Avoids(Fields(s, seps)[k], seps)
    decreases |s|
  {
    var i := FirstIndexOf(s, seps);
    FieldsStep(s, seps);
    PrefixAvoids(s, seps, i);
    PieceSolid(s[..i], seps);
    if i < |s| {
      FieldsSolid(s[i + 1..], seps);
    }
  }

  /** Without a separator, the whole stripped text is the only field. */
  lemma FieldsWithoutSeparator(s: string, seps: set<char>)
    requires Avoids(s, seps) && !IsBlank(s)
    ensures Fields(s, seps) == [Strip(s)]
  {
    assert forall j :: 0 <= j < |s| ==> s[j] in s;
    assert FirstIndexOf(s, seps) == |s|;
    assert s[..|s|] == s;
    FieldsStep(s, seps);
  }

  lemma PrefixAvoids(s: string, seps: set<char>, i: nat)
    requires i <= |s|
    requires forall j :: 0 <= j < i ==> s[j] !in seps
    ensures Avoids(s[..i], seps)
  {
    forall c | c in s[..i]
      ensures c !in seps
    {
      var j :| 0 <= j < i && s[..i][j] == c;
    }
  }

  function DigitChar(d: nat): char
    requires d < 10
  {
    "0123456789"[d]
  }

  /** `str(n)` for a natural number. */
  function NatToString(n: nat): (r: string)
    ensures |r| > 0
  {
    if n < 10 then [DigitChar(n)] else NatToString(n / 10) + [DigitChar(n % 10)]
  }

  /** `str(n)` for any integer. */
  function IntToString(n: int): string {
    if n < 0 then "-" + NatToString(-n) else NatToString(n)
  }
}
