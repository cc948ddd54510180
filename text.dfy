/** The handful of Python `str` operations the planner relies on, over Dafny strings. */
module Text {

  /** The characters for which Python's `str.isspace()` holds: the ones `str.strip()` removes
      when it is called without an argument. */
  predicate IsSpace(c: char) {
    c == ' ' || '\t' <= c <= '\r' || '\U{1C}' <= c <= '\U{1F}' || c == '\U{85}' || c == '\U{A0}' ||
    c == '\U{1680}' || '\U{2000}' <= c <= '\U{200A}' || c == '\U{2028}' || c == '\U{2029}' ||
    c == '\U{202F}' || c == '\U{205F}' || c == '\U{3000}'
  }
  const Whitespace: set<char> := set c: char | '\0' <= c <= '\U{3000}' && IsSpace(c)

  predicate NoNewline(s: string) {
    forall i | 0 <= i < |s| :: s[i] != '\n'
  }

  /** `s.startswith(p)` */
  predicate StartsWith(s: string, p: string) {
    |p| <= |s| && s[..|p|] == p
  }

  /** `s.endswith(p)` */
  predicate EndsWith(s: string, p: string) {
    |p| <= |s| && s[|s| - |p|..] == p
  }

  /** `t in s`: the substring test, scanning `s` from the left. */
  predicate Contains(s: string, t: string)
    decreases |s|
  {
    StartsWith(s, t) || (s != [] && Contains(s[1..], t))
  }

  /** Removes the longest prefix made of characters in `cs`. */
  function TrimStart(s: string, cs: set<char>): (r: string)
    ensures |r| <= |s|
    ensures r != [] ==> r[0] !in cs
    decreases |s|
  {
    if s != [] && s[0] in cs then TrimStart(s[1..], cs) else s
  }

  /** `TrimStart` keeps a suffix of `s` and everything it removes is in `cs`. */
  lemma {:induction false} TrimStartIsSuffix(s: string, cs: set<char>)
    ensures var r := TrimStart(s, cs);
            r == s[|s| - |r|..] && forall i | 0 <= i < |s| - |r| :: s[i] in cs
    decreases |s|
  {
    if s != [] && s[0] in cs {
      TrimStartIsSuffix(s[1..], cs);
      forall i | 0 < i < |s| - |TrimStart(s, cs)| ensures s[i] in cs {
        assert s[i] == s[1..][i - 1];
      }
    }
  }

  /** Removes the longest suffix made of characters in `cs`. */
  function TrimEnd(s: string, cs: set<char>): (r: string)
    ensures |r| <= |s|
    ensures r != [] ==> r[|r| - 1] !in cs
    decreases |s|
  {
    if s != [] && s[|s| - 1] in cs then TrimEnd(s[..|s| - 1], cs) else s
  }

  /** `TrimEnd` keeps a prefix of `s` and everything it removes is in `cs`. */
  lemma {:induction false} TrimEndIsPrefix(s: string, cs: set<char>)
    ensures var r := TrimEnd(s, cs);
            r == s[..|r|] && forall i | |r| <= i < |s| :: s[i] in cs
    decreases |s|
  {
    if s != [] && s[|s| - 1] in cs {
      TrimEndIsPrefix(s[..|s| - 1], cs);
    }
  }

  /** `s.strip(chars)` with `cs` the set of `chars`; `s.strip()` is `Strip(s, Whitespace)`. */
  function Strip(s: string, cs: set<char>): (r: string)
    ensures |r| <= |s|
    ensures r != [] ==> r[0] !in cs && r[|r| - 1] !in cs
  {
    var t := TrimStart(s, cs);
    TrimEndIsPrefix(t, cs);
    TrimEnd(t, cs)
  }

  /** What `Strip` leaves is the middle of `s`: everything cut off on either side is in `cs`. */
  lemma StripIsMiddle(s: string, cs: set<char>)
    ensures var r, i := Strip(s, cs), |s| - |TrimStart(s, cs)|;
            i + |r| <= |s| && r == s[i..i + |r|] &&
            (forall k | 0 <= k < i :: s[k] in cs) &&
            (forall k | i + |r| <= k < |s| :: s[k] in cs)
  {
    var t := TrimStart(s, cs);
    var i := |s| - |t|;
    var r := TrimEnd(t, cs);
    TrimStartIsSuffix(s, cs);
    TrimEndIsPrefix(t, cs);
    assert t == s[i..];
    assert r == t[..|r|];
    assert r == s[i..i + |r|];
    forall k | i + |r| <= k < |s| ensures s[k] in cs {
      assert s[k] == t[k - i];
    }
  }

  /** `s.strip(chars)` is empty exactly when every character of `s` is in `chars`. */
  lemma StripEmptyIff(s: string, cs: set<char>)
    ensures Strip(s, cs) == [] <==> forall k | 0 <= k < |s| :: s[k] in cs
  {
    StripIsMiddle(s, cs);
    var r, i := Strip(s, cs), |s| - |TrimStart(s, cs)|;
    if r != [] {
      assert s[i] == r[0];
    }
  }

  /** `s.split("\n")`: the pieces between newlines, so one more piece than there are newlines. */
  function Split(s: string): (r: seq<string>)
    ensures |r| >= 1
    ensures forall j | 0 <= j < |r| :: NoNewline(r[j])
    decreases |s|
  {
    if s == [] then [""]
    else if s[0] == '\n' then [""] + Split(s[1..])
    else var t := Split(s[1..]); [[s[0]] + t[0]] + t[1..]
  }

  /** `sep.join(parts)` */
  function Join(sep: string, parts: seq<string>): string
    decreases |parts|
  {
    if parts == [] then ""
    else if |parts| == 1 then parts[0]
    else parts[0] + sep + Join(sep, parts[1..])
  }

  /** Joining two non-empty runs of parts puts one separator between their joins. */
  lemma {:induction false} JoinAppend(sep: string, a: seq<string>, b: seq<string>)
    requires a != [] && b != []
    ensures Join(sep, a + b) == Join(sep, a) + sep + Join(sep, b)
    decreases |a|
  {
    if |a| == 1 {
      assert (a + b)[0] == a[0] && (a + b)[1..] == b;
    } else {
      assert (a + b)[0] == a[0] && (a + b)[1..] == a[1..] + b;
      JoinAppend(sep, a[1..], b);
    }
  }

  /** Where part `j` starts in `Join(sep, parts)`: after the parts before it, each followed by
      the separator. */
  function JoinOffset(sep: string, parts: seq<string>, j: nat): nat
    requires j <= |parts|
  {
    if j == 0 then 0 else |Join(sep, parts[..j])| + |sep|
  }

  /** Part `j` stands at `JoinOffset` in the join. */
  lemma PartInJoin(sep: string, parts: seq<string>, j: nat)
    requires j < |parts|
    ensures JoinOffset(sep, parts, j) + |parts[j]| <= |Join(sep, parts)|
    ensures Join(sep, parts)[JoinOffset(sep, parts, j)..JoinOffset(sep, parts, j) + |parts[j]|] == parts[j]
  {
    var rest := parts[j..];
    assert rest[0] == parts[j];
    assert Join(sep, rest)[..|parts[j]|] == parts[j];
    if j == 0 {
      assert parts == rest;
    } else {
      assert parts == parts[..j] + rest;
      JoinAppend(sep, parts[..j], rest);
      var s, p := Join(sep, parts), JoinOffset(sep, parts, j);
      assert s[p..] == Join(sep, rest);
    }
  }

  /** Consecutive parts are one separator apart. */
  lemma JoinOffsetNext(sep: string, parts: seq<string>, j: nat)
    requires j + 1 < |parts|
    ensures JoinOffset(sep, parts, j + 1) == JoinOffset(sep, parts, j) + |parts[j]| + |sep|
  {
    if j == 0 {
      assert parts[..1] == [parts[0]];
    } else {
      assert parts[..j + 1] == parts[..j] + [parts[j]];
      JoinAppend(sep, parts[..j], [parts[j]]);
    }
  }

  /** Each line followed by a newline: the text of a block of `\n`-terminated lines. */
  function Terminated(lines: seq<string>): string
    decreases |lines|
  {
    if lines == [] then "" else lines[0] + "\n" + Terminated(lines[1..])
  }

  function Digits(n: nat): (r: string)
    ensures |r| >= 1
    ensures forall i | 0 <= i < |r| :: '0' <= r[i] <= '9'
  {
    var d := [(n % 10) as char + '0' as char];
    if n < 10 then d else Digits(n / 10) + d
  }

  /** `str(n)` for a Python int. */
  function Decimal(n: int): (r: string)
    ensures r != []
    ensures n >= 0 <==> r[0] != '-'
  {
    if n < 0 then "-" + Digits(-n) else Digits(n)
  }

  lemma {:induction false} SplitSingleLine(s: string)
    requires NoNewline(s)
    ensures Split(s) == [s]
    decreases |s|
  {
    if s != [] {
      SplitSingleLine(s[1..]);
      assert [s[0]] + s[1..] == s;
    }
  }

  /** A newline separates the lines before it from the lines after it. */
  lemma {:induction false} SplitAtNewline(a: string, b: string)
    ensures Split(a + "\n" + b) == Split(a) + Split(b)
    decreases |a|
  {
    if a == [] {
      assert a + "\n" + b == "\n" + b;
      assert ("\n" + b)[1..] == b;
    } else {
      assert (a + "\n" + b)[1..] == a[1..] + "\n" + b;
      SplitAtNewline(a[1..], b);
      if a[0] != '\n' {
        var t := Split(a[1..]);
        assert Split(a[1..] + "\n" + b) == t + Split(b);
        assert Split(a) == [[a[0]] + t[0]] + t[1..];
      }
    }
  }

  /** Splitting a block of terminated lines followed by `rest` gives those lines back. */
  lemma {:induction false} SplitTerminated(lines: seq<string>, rest: string)
    requires forall j | 0 <= j < |lines| :: NoNewline(lines[j])
    ensures Split(Terminated(lines) + rest) == lines + Split(rest)
    decreases |lines|
  {
    if lines == [] {
      assert Terminated(lines) + rest == rest;
    } else {
      SplitTerminated(lines[1..], rest);
      assert Terminated(lines) + rest == lines[0] + "\n" + (Terminated(lines[1..]) + rest);
      SplitAtNewline(lines[0], Terminated(lines[1..]) + rest);
      SplitSingleLine(lines[0]);
      assert lines == [lines[0]] + lines[1..];
    }
  }

  lemma {:induction false} TerminatedAppend(a: seq<string>, b: seq<string>)
    ensures Terminated(a + b) == Terminated(a) + Terminated(b)
    decreases |a|
  {
    if a == [] {
      assert a + b == b;
    } else {
      assert (a + b)[0] == a[0] && (a + b)[1..] == a[1..] + b;
      TerminatedAppend(a[1..], b);
    }
  }

  /** Line `i` of a terminated block starts at the length of the lines before it and is
      followed by its newline. */
  lemma TerminatedLineAt(lines: seq<string>, i: nat)
    requires i < |lines|
    ensures var p := |Terminated(lines[..i])|;
            p + |lines[i]| < |Terminated(lines)| &&
            Terminated(lines)[p..p + |lines[i]|] == lines[i] &&
            Terminated(lines)[p + |lines[i]|] == '\n'
  {
    assert lines == lines[..i] + ([lines[i]] + lines[i + 1..]);
    TerminatedAppend(lines[..i], [lines[i]] + lines[i + 1..]);
    assert ([lines[i]] + lines[i + 1..])[1..] == lines[i + 1..];
  }

  /** In `pre + Terminated(lines) + post`, line `i` of the block sits at `|pre|` plus the length
      of the lines before it, as a whole line: a newline (or the end of `pre`) before it and a
      newline after it. */
  lemma LineInBlock(pre: string, lines: seq<string>, post: string, i: nat)
    requires i < |lines|
    requires pre != [] && pre[|pre| - 1] == '\n'
    ensures var s, p := pre + Terminated(lines) + post, |pre| + |Terminated(lines[..i])|;
            0 < p && p + |lines[i]| < |s| && s[p - 1] == '\n' &&
            s[p..p + |lines[i]|] == lines[i] && s[p + |lines[i]|] == '\n'
  {
    var s, t := pre + Terminated(lines) + post, Terminated(lines);
    var q := |Terminated(lines[..i])|;
    var p := |pre| + q;
    TerminatedLineAt(lines, i);
    assert s[p..p + |lines[i]|] == t[q..q + |lines[i]|];
    assert s[p + |lines[i]|] == t[q + |lines[i]|];
    if i == 0 {
      assert s[p - 1] == pre[|pre| - 1];
    } else {
      TerminatedLineAt(lines, i - 1);
      assert lines[..i] == lines[..i - 1] + [lines[i - 1]];
      TerminatedAppend(lines[..i - 1], [lines[i - 1]]);
      assert s[p - 1] == t[q - 1];
    }
  }

  /** Each line of a terminated block starts after the one before it. */
  lemma TerminatedOffsetsIncrease(lines: seq<string>, i: nat)
    requires i + 1 < |lines|
    ensures |Terminated(lines[..i])| < |Terminated(lines[..i + 1])|
  {
    assert lines[..i + 1] == lines[..i] + [lines[i]];
    TerminatedAppend(lines[..i], [lines[i]]);
  }

  /** A slice that lies inside `a` is the same slice of `a + b`. */
  lemma PrefixSlice(a: string, b: string, i: nat, j: nat)
    requires i <= j <= |a|
    ensures (a + b)[i..j] == a[i..j]
  { }

  /** A slice that spells `x + y` spells `x` and then `y`. */
  lemma SplitSlice(s: string, i: nat, x: string, y: string)
    requires i + |x| + |y| <= |s| && s[i..i + |x| + |y|] == x + y
    ensures s[i..i + |x|] == x && s[i + |x|..i + |x| + |y|] == y
  {
    assert s[i..i + |x|] == s[i..i + |x| + |y|][..|x|];
    assert s[i + |x|..i + |x| + |y|] == s[i..i + |x| + |y|][|x|..];
  }

  lemma NoNewlineConcat(a: string, b: string)
    requires NoNewline(a) && NoNewline(b)
    ensures NoNewline(a + b)
  {
    forall i | 0 <= i < |a + b| ensures (a + b)[i] != '\n' {
      if i >= |a| { assert (a + b)[i] == b[i - |a|]; }
    }
  }
}
