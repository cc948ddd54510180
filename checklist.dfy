/** The checklist: turning the model's checklist reply into task items
    (ai-event-planner/app.py:135-139), and counting the ticked items (app.py:159-160). */
module Checklist {
  import opened Text

  /** The characters of `strip("- ")`. */
  const BulletChars: set<char> := {'-', ' '}

  /** The filter of the comprehension: the line has some non-whitespace character and does not
      itself begin with a `###` heading marker. */
  predicate KeepLine(line: string) {
    Strip(line, Whitespace) != "" && !StartsWith(line, "###")
  }

  /** `line.strip("- ").strip()` */
  function CleanLine(line: string): (item: string)
    ensures |item| <= |line|
    ensures item != [] ==> item[0] !in Whitespace && item[|item| - 1] !in Whitespace
  {
    Strip(Strip(line, BulletChars), Whitespace)
  }

  /** `[clean(x) for x in xs if keep(x)]`: the cleaned elements that pass the filter, in order. */
  function FilterMap(xs: seq<string>, keep: string -> bool, clean: string -> string): (ys: seq<string>)
    ensures |ys| <= |xs|
    decreases |xs|
  {
    if xs == [] then []
    else (if keep(xs[0]) then [clean(xs[0])] else []) + FilterMap(xs[1..], keep, clean)
  }

  /** The items of the comprehension over `lines`, in line order. */
  function ExtractItems(lines: seq<string>): (items: seq<string>)
    ensures |items| <= |lines|
  {
    FilterMap(lines, KeepLine, CleanLine)
  }

  /** The checklist items of a reply: its `\n`-separated lines, filtered and cleaned. */
  function ParseChecklist(text: string): (items: seq<string>)
    ensures |items| <= |Split(text)|
  {
    ExtractItems(Split(text))
  }

  /** The positions, from line `i` on, of the lines that pass `keep`, in line order. */
  ghost function KeptFrom(lines: seq<string>, keep: string -> bool, i: nat): seq<nat>
    requires i <= |lines|
    decreases |lines| - i
  {
    if i == |lines| then [] else (if keep(lines[i]) then [i] else []) + KeptFrom(lines, keep, i + 1)
  }

  /** The elements a comprehension takes from the lines from `i` on are, one for one, the
      cleaned kept lines from `i` on: as many elements as kept lines, element `j` coming from
      the `j`-th of them. */
  lemma {:induction false} ItemsComeFromKeptLines(lines: seq<string>, keep: string -> bool, clean: string -> string, i: nat)
    requires i <= |lines|
    ensures |KeptFrom(lines, keep, i)| == |FilterMap(lines[i..], keep, clean)|
    ensures forall j | 0 <= j < |KeptFrom(lines, keep, i)| ::
              i <= KeptFrom(lines, keep, i)[j] < |lines| && keep(lines[KeptFrom(lines, keep, i)[j]]) &&
              FilterMap(lines[i..], keep, clean)[j] == clean(lines[KeptFrom(lines, keep, i)[j]])
    decreases |lines| - i
  {
    if i == |lines| {
      assert lines[i..] == [];
    } else {
      ItemsComeFromKeptLines(lines, keep, clean, i + 1);
      var rest, restItems := KeptFrom(lines, keep, i + 1), FilterMap(lines[i + 1..], keep, clean);
      var head: seq<nat> := if keep(lines[i]) then [i] else [];
      var first := if keep(lines[i]) then [clean(lines[i])] else [];
      assert lines[i..][0] == lines[i] && lines[i..][1..] == lines[i + 1..];
      var ps, items := head + rest, first + restItems;
      assert ps == KeptFrom(lines, keep, i);
      assert items == FilterMap(lines[i..], keep, clean);
      forall j | |head| <= j < |ps|
        ensures i <= ps[j] < |lines| && keep(lines[ps[j]]) && items[j] == clean(lines[ps[j]])
      {
        assert ps[j] == rest[j - |head|] && items[j] == restItems[j - |head|];
      }
    }
  }

  /** The kept positions from line `i` on lie between `i` and the end of the lines and
      strictly increase, so the elements keep the order of the lines. */
  lemma {:induction false} KeptPositionsIncrease(lines: seq<string>, keep: string -> bool, i: nat)
    requires i <= |lines|
    ensures forall j | 0 <= j < |KeptFrom(lines, keep, i)| :: i <= KeptFrom(lines, keep, i)[j] < |lines|
    ensures forall j, k | 0 <= j < k < |KeptFrom(lines, keep, i)| :: KeptFrom(lines, keep, i)[j] < KeptFrom(lines, keep, i)[k]
    decreases |lines| - i
  {
    if i < |lines| {
      KeptPositionsIncrease(lines, keep, i + 1);
      var rest := KeptFrom(lines, keep, i + 1);
      var head: seq<nat> := if keep(lines[i]) then [i] else [];
      var ps := head + rest;
      assert ps == KeptFrom(lines, keep, i);
      forall j | |head| <= j < |ps| ensures i < ps[j] < |lines| {
        assert ps[j] == rest[j - |head|];
      }
      forall j, k | 0 <= j < k < |ps| ensures ps[j] < ps[k] {
        assert ps[k] == rest[k - |head|];
        if j >= |head| {
          assert ps[j] == rest[j - |head|];
        }
      }
    }
  }

  /** Every line from `i` on that passes `keep` is one of the kept positions: no kept line is
      lost. */
  lemma {:induction false} KeptLinesAllListed(lines: seq<string>, keep: string -> bool, i: nat)
    requires i <= |lines|
    ensures forall p | i <= p < |lines| && keep(lines[p]) :: p in KeptFrom(lines, keep, i)
    decreases |lines| - i
  {
    if i < |lines| {
      KeptLinesAllListed(lines, keep, i + 1);
      var rest := KeptFrom(lines, keep, i + 1);
      var head: seq<nat> := if keep(lines[i]) then [i] else [];
      assert KeptFrom(lines, keep, i) == head + rest;
      forall p | i <= p < |lines| && keep(lines[p]) ensures p in head + rest {
        if p == i {
          assert (head + rest)[0] == i;
        } else {
          var m :| 0 <= m < |rest| && rest[m] == p;
          assert (head + rest)[|head| + m] == p;
        }
      }
    }
  }

  /** The items parsed from a reply are exactly its kept lines, cleaned, in the reply's order:
      item `j` comes from the `j`-th line the filter keeps, and every kept line gives an item. */
  lemma ItemsOfReply(text: string)
    ensures |KeptFrom(Split(text), KeepLine, 0)| == |ParseChecklist(text)|
    ensures forall j | 0 <= j < |ParseChecklist(text)| ::
              KeptFrom(Split(text), KeepLine, 0)[j] < |Split(text)| && KeepLine(Split(text)[KeptFrom(Split(text), KeepLine, 0)[j]]) &&
              ParseChecklist(text)[j] == CleanLine(Split(text)[KeptFrom(Split(text), KeepLine, 0)[j]])
    ensures forall j, k | 0 <= j < k < |ParseChecklist(text)| ::
              KeptFrom(Split(text), KeepLine, 0)[j] < KeptFrom(Split(text), KeepLine, 0)[k]
    ensures forall p | 0 <= p < |Split(text)| && KeepLine(Split(text)[p]) :: p in KeptFrom(Split(text), KeepLine, 0)
  {
    var lines := Split(text);
    assert lines[0..] == lines;
    ItemsComeFromKeptLines(lines, KeepLine, CleanLine, 0);
    KeptPositionsIncrease(lines, KeepLine, 0);
    KeptLinesAllListed(lines, KeepLine, 0);
  }

  /** A line is kept exactly when it has a non-whitespace character and does not start with
      `###`; blank lines and `###` headings never give items. */
  lemma KeepLineIff(line: string)
    ensures KeepLine(line) <==>
            (exists k | 0 <= k < |line| :: line[k] !in Whitespace) && !StartsWith(line, "###")
  {
    StripEmptyIff(line, Whitespace);
  }

  /** On a line whose only whitespace is plain spaces, the item is the line with both runs of
      dashes and spaces cut off, so it neither starts nor ends with a dash or a space. */
  lemma DashAndSpaceRunsRemoved(line: string)
    requires forall k | 0 <= k < |line| :: line[k] in Whitespace ==> line[k] == ' '
    ensures CleanLine(line) == Strip(line, BulletChars)
    ensures CleanLine(line) != [] ==> CleanLine(line)[0] !in BulletChars && CleanLine(line)[|CleanLine(line)| - 1] !in BulletChars
  {
    var r := Strip(line, BulletChars);
    StripIsMiddle(line, BulletChars);
    if r != [] {
      var i := |line| - |TrimStart(line, BulletChars)|;
      assert r[0] == line[i] && r[|r| - 1] == line[i + |r| - 1];
      StripUntouched(r, Whitespace);
    }
  }

  /** Neither end of `item` is whitespace. */
  predicate Trimmed(item: string) {
    item == [] || (item[0] !in Whitespace && item[|item| - 1] !in Whitespace)
  }

  /** The item of a line neither starts nor ends with whitespace. */
  lemma {:induction false} ItemsAreTrimmed(lines: seq<string>)
    ensures forall j | 0 <= j < |ExtractItems(lines)| :: Trimmed(ExtractItems(lines)[j])
    decreases |lines|
  {
    if lines != [] {
      ItemsAreTrimmed(lines[1..]);
      assert ExtractItems(lines) == (if KeepLine(lines[0]) then [CleanLine(lines[0])] else []) + ExtractItems(lines[1..]);
      assert Trimmed(CleanLine(lines[0]));
    }
  }

  /** A one-line reply gives at most the item of that line. */
  lemma SingleLineReply(line: string)
    requires NoNewline(line)
    ensures ParseChecklist(line) == if KeepLine(line) then [CleanLine(line)] else []
  {
    SplitSingleLine(line);
    assert ExtractItems([line]) == (if KeepLine(line) then [CleanLine(line)] else []) + ExtractItems([]);
  }

  /** A line starting with `###` never gives an item. */
  lemma HeadingDropped(t: string)
    requires NoNewline(t)
    ensures ParseChecklist("###" + t) == []
  {
    assert NoNewline("###");
    NoNewlineConcat("###", t);
    assert ("###" + t)[..3] == "###";
    SingleLineReply("###" + t);
  }

  /** Cutting the same prefix off two strings leaves them with the same strip. */
  lemma StripSameStart(x: string, y: string, cs: set<char>)
    requires TrimStart(x, cs) == TrimStart(y, cs)
    ensures Strip(x, cs) == Strip(y, cs)
  { }

  /** A string whose two ends are outside `cs` is left alone by `Strip`. */
  lemma StripUntouched(s: string, cs: set<char>)
    requires s != [] && s[0] !in cs && s[|s| - 1] !in cs
    ensures Strip(s, cs) == s
  {
    assert TrimStart(s, cs) == s;
  }

  /** A string that starts with `p`, whose first and last characters are outside `cs`, still
      starts with `p` after `Strip`. */
  lemma StripKeepsLead(s: string, cs: set<char>, p: string)
    requires p != [] && StartsWith(s, p) && p[0] !in cs && p[|p| - 1] !in cs
    ensures StartsWith(Strip(s, cs), p)
  {
    assert s[0] == p[0];
    assert TrimStart(s, cs) == s;
    var r := TrimEnd(s, cs);
    TrimEndIsPrefix(s, cs);
    assert r[..|p|] == s[..|p|];
  }

  /** A `##` subheading is not filtered: it gives an item that still starts with `##`. */
  lemma SubheadingKept(t: string)
    requires NoNewline(t) && !StartsWith(t, "#")
    ensures ParseChecklist("##" + t) == [CleanLine("##" + t)]
    ensures StartsWith(CleanLine("##" + t), "##")
  {
    var line := "##" + t;
    assert NoNewline("##");
    NoNewlineConcat("##", t);
    assert line[0] == '#' && line[1] == '#';
    assert !StartsWith(line, "###") by {
      if |t| > 0 { assert line[2] == t[0]; assert t[..1] != "#"; }
    }
    assert Strip(line, Whitespace) != "" by { StripEmptyIff(line, Whitespace); }
    SingleLineReply(line);
    assert line[..2] == "##";
    StripKeepsLead(line, BulletChars, "##");
    StripKeepsLead(Strip(line, BulletChars), Whitespace, "##");
  }

  /** `strip("- ")` removes leading spaces before a character outside `- `. */
  lemma {:induction false} SkipSpaces(indent: string, s: string)
    requires forall k | 0 <= k < |indent| :: indent[k] == ' '
    requires s != [] && s[0] !in BulletChars
    ensures TrimStart(indent + s, BulletChars) == s
    decreases |indent|
  {
    if indent != [] {
      assert (indent + s)[1..] == indent[1..] + s;
      SkipSpaces(indent[1..], s);
    }
  }

  /** An indented `###` heading passes the filter, which looks at the untrimmed line, and the
      cleanup takes the indentation off: its item is that of the heading itself. */
  lemma IndentedHeadingKept(indent: string, t: string)
    requires indent != [] && forall k | 0 <= k < |indent| :: indent[k] == ' '
    requires NoNewline(t)
    ensures ParseChecklist(indent + ("###" + t)) == [CleanLine("###" + t)]
  {
    var heading := "###" + t;
    var line := indent + heading;
    assert NoNewline(indent) && NoNewline("###");
    NoNewlineConcat("###", t);
    NoNewlineConcat(indent, heading);
    assert line[0] == ' ';
    assert !StartsWith(line, "###") by { assert line[..3][0] == ' '; }
    assert line[|indent|] == '#';
    assert Strip(line, Whitespace) != "" by { StripEmptyIff(line, Whitespace); }
    SingleLineReply(line);
    SkipSpaces(indent, heading);
    assert TrimStart(heading, BulletChars) == heading;
    StripSameStart(line, heading, BulletChars);
  }

  /** A line of dashes alone passes the filter and yields the empty item. */
  lemma DashRuleYieldsEmptyItem(n: nat)
    requires 0 < n
    ensures ParseChecklist(seq(n, _ => '-')) == [""]
  {
    var line := seq(n, _ => '-');
    assert NoNewline(line);
    assert line[0] == '-' && line[0] !in Whitespace;
    assert Strip(line, Whitespace) != "" by { StripEmptyIff(line, Whitespace); }
    assert !StartsWith(line, "###") by { if |line| >= 3 { assert line[..3][0] == '-'; } }
    assert Strip(line, BulletChars) == "" by { StripEmptyIff(line, BulletChars); }
    SingleLineReply(line);
  }

  /** A tab before the bullet stops `strip("- ")` at the tab and `strip()` then removes only
      the tab, so the dash survives: `"\t- Buy cups"` gives `"- Buy cups"`. */
  lemma TabIndentedBulletKeepsDash(t: string)
    requires t != [] && t[|t| - 1] !in Whitespace && t[|t| - 1] !in BulletChars
    ensures CleanLine("\t- " + t) == "- " + t
  {
    var line, bullet := "\t- " + t, "- " + t;
    assert line[0] == '\t' && line[|line| - 1] == t[|t| - 1];
    StripUntouched(line, BulletChars);
    assert line[1..] == bullet;
    assert TrimStart(line, Whitespace) == TrimStart(bullet, Whitespace);
    assert bullet[0] == '-' && bullet[|bullet| - 1] == t[|t| - 1];
    StripSameStart(line, bullet, Whitespace);
    StripUntouched(bullet, Whitespace);
  }

  /** A task line with nothing to clean off is kept as it is. */
  lemma PlainTaskKept(a: string)
    requires a != [] && a[0] !in Whitespace && a[0] !in BulletChars && a[|a| - 1] !in Whitespace && a[|a| - 1] !in BulletChars
    requires !StartsWith(a, "###")
    ensures KeepLine(a) && CleanLine(a) == a
  {
    StripUntouched(a, BulletChars);
    StripUntouched(a, Whitespace);
  }

  /** A `- ` bullet is kept and loses its bullet. */
  lemma BulletedTaskKept(b: string)
    requires b != [] && b[0] !in Whitespace && b[0] !in BulletChars && b[|b| - 1] !in Whitespace && b[|b| - 1] !in BulletChars
    ensures KeepLine("- " + b) && CleanLine("- " + b) == b
  {
    var task := "- " + b;
    assert task[0] == '-' && task[|task| - 1] == b[|b| - 1];
    StripUntouched(task, Whitespace);
    assert !StartsWith(task, "###") by { assert task[..3][0] == '-'; }
    assert task[1..][1..] == b;
    assert TrimStart(task, BulletChars) == TrimStart(b, BulletChars);
    StripSameStart(task, b, BulletChars);
    StripUntouched(b, BulletChars);
    StripUntouched(b, Whitespace);
  }

  /** A reply with a heading, a task, a blank line and a bulleted task gives the two tasks in
      order, the bullet stripped from the second. */
  lemma HeadingAndBlankLinesDropped(h: string, a: string, b: string)
    requires NoNewline(h) && NoNewline(a) && NoNewline(b)
    requires a != [] && a[0] !in Whitespace && a[0] !in BulletChars && a[|a| - 1] !in Whitespace && a[|a| - 1] !in BulletChars
    requires b != [] && b[0] !in Whitespace && b[0] !in BulletChars && b[|b| - 1] !in Whitespace && b[|b| - 1] !in BulletChars
    requires !StartsWith(a, "###")
    ensures ParseChecklist(Terminated(["###" + h, a, "", "- " + b])) == [a, b]
  {
    var ls := ["###" + h, a, "", "- " + b];
    assert NoNewline("###") && NoNewline("- ");
    NoNewlineConcat("###", h);
    NoNewlineConcat("- ", b);
    SplitTerminated(ls, "");
    assert Terminated(ls) + "" == Terminated(ls);
    assert ("###" + h)[..3] == "###";
    assert !KeepLine("");
    PlainTaskKept(a);
    BulletedTaskKept(b);
    var l4 := [""];
    var l3 := ["- " + b] + l4;
    var l2 := [""] + l3;
    var l1 := [a] + l2;
    assert ls + [""] == ["###" + h] + l1;
    ExtractCons("", []);
    ExtractCons("- " + b, l4);
    ExtractCons("", l3);
    ExtractCons(a, l2);
    ExtractCons("###" + h, l1);
  }

  /** The items of a line followed by more lines: that line's item, if any, then theirs. */
  lemma ExtractCons(x: string, rest: seq<string>)
    ensures ExtractItems([x] + rest) == (if KeepLine(x) then [CleanLine(x)] else []) + ExtractItems(rest)
  {
    assert ([x] + rest)[0] == x && ([x] + rest)[1..] == rest;
  }

  /** `st.session_state.get(f"task_{i}", False)`: a checkbox never touched counts as unticked. */
  predicate Ticked(flags: map<nat, bool>, i: nat) {
    i in flags && flags[i]
  }

  /** The number of ticked boxes among the first `n` tasks. */
  function CountCompleted(flags: map<nat, bool>, n: nat): (c: nat)
    ensures c <= n
  {
    if n == 0 then 0 else CountCompleted(flags, n - 1) + (if Ticked(flags, n - 1) then 1 else 0)
  }

  /** All `n` tasks are done exactly when every one of the first `n` boxes is ticked. */
  lemma {:induction false} AllCompletedIff(flags: map<nat, bool>, n: nat)
    ensures CountCompleted(flags, n) == n <==> forall i | 0 <= i < n :: Ticked(flags, i)
  {
    if n > 0 {
      AllCompletedIff(flags, n - 1);
    }
  }

  /** No task is done exactly when none of the first `n` boxes is ticked. */
  lemma {:induction false} NoneCompletedIff(flags: map<nat, bool>, n: nat)
    ensures CountCompleted(flags, n) == 0 <==> forall i | 0 <= i < n :: !Ticked(flags, i)
  {
    if n > 0 {
      NoneCompletedIff(flags, n - 1);
    }
  }

  /** Ticking or unticking box `i` moves the count of the first `n` tasks by at most one, and
      only when `i` is one of them. */
  lemma {:induction false} SetFlagCount(flags: map<nat, bool>, i: nat, v: bool, n: nat)
    ensures var before, after := CountCompleted(flags, n), CountCompleted(flags[i := v], n);
            if i >= n || Ticked(flags, i) == v then after == before
            else if v then after == before + 1
            else after + 1 == before
  {
    if n > 0 {
      SetFlagCount(flags, i, v, n - 1);
    }
  }
}
