/** The Python `str` operations the agent relies on, over `seq<char>`:
    whitespace and line-break classes, `startswith`, `in`, `find`/`rfind`,
    `strip`, `lower`, `split`, `splitlines`, `replace` and `join`. */
module Text {
  import opened Wrappers

  // ---------------------------------------------------------------------------
  // Character classes
  // ---------------------------------------------------------------------------

  /** `str.isspace()` of one character; also what `strip()`, `split()` and the
      regular-expression class `\s` treat as whitespace. */
  predicate IsSpace(c: char) {
    c == ' ' || ('\t' <= c <= '\r') || ('\U{1C}' <= c <= '\U{1F}')
    || c == '\U{85}' || c == '\U{A0}' || c == '\U{1680}'
    || ('\U{2000}' <= c <= '\U{200A}') || c == '\U{2028}' || c == '\U{2029}'
    || c == '\U{202F}' || c == '\U{205F}' || c == '\U{3000}'
  }

  /** The line boundaries `str.splitlines()` splits on ("\r\n" counts as one). */
  predicate IsLineBreak(c: char) {
    c == '\n' || c == '\r' || c == '\U{0B}' || c == '\U{0C}'
    || ('\U{1C}' <= c <= '\U{1E}') || c == '\U{85}' || c == '\U{2028}' || c == '\U{2029}'
  }

  /** A non-empty run of characters none of which satisfies `sp`. */
  predicate IsRunOf(w: string, sp: char -> bool) {
    w != [] && forall i :: 0 <= i < |w| ==> !sp(w[i])
  }

  /** A non-empty run of non-whitespace characters, as `str.split()` yields them. */
  predicate IsWord(w: string) {
    IsRunOf(w, IsSpace)
  }

  function Last<T>(s: seq<T>): T
    requires s != []
  {
    s[|s| - 1]
  }

  // ---------------------------------------------------------------------------
  // Prefixes, suffixes and occurrences
  // ---------------------------------------------------------------------------

  /** `s.startswith(p)` */
  predicate StartsWith(s: string, p: string) {
    p <= s
  }

  /** `s.endswith(p)` */
  predicate EndsWith(s: string, p: string) {
    |p| <= |s| && s[|s| - |p|..] == p
  }

  predicate OccursAt(s: string, sub: string, i: nat) {
    i + |sub| <= |s| && s[i..i + |sub|] == sub
  }

  /** The middle piece of a concatenation occurs right after the first. */
  lemma OccursInMiddle(a: string, b: string, c: string)
    ensures OccursAt(a + b + c, b, |a|)
  {
    assert (a + b + c)[|a|..|a| + |b|] == b;
  }

  /** A concatenation ends with its last piece. */
  lemma EndsWithLast(a: string, b: string)
    ensures EndsWith(a + b, b)
  {
    assert (a + b)[|a|..] == b;
  }

  /** The first index at or after `from` where `sub` occurs in `s`. */
  function IndexOf(s: string, sub: string, from: nat): (r: Option<nat>)
    ensures r.Some? ==> from <= r.value && OccursAt(s, sub, r.value)
    ensures r.Some? ==> forall j :: from <= j < r.value ==> !OccursAt(s, sub, j)
    ensures r.None? ==> forall j :: from <= j ==> !OccursAt(s, sub, j)
    decreases |s| - from
  {
    if from + |sub| > |s| then None
    else if s[from..from + |sub|] == sub then Some(from)
    else IndexOf(s, sub, from + 1)
  }

  /** Python's `sub in s`. */
  predicate Contains(s: string, sub: string) {
    IndexOf(s, sub, 0).Some?
  }

  lemma ContainsIff(s: string, sub: string)
    ensures Contains(s, sub) <==> exists i: nat :: OccursAt(s, sub, i)
  {
    if Contains(s, sub) {
      var i := IndexOf(s, sub, 0).value;
      assert OccursAt(s, sub, i);
    }
  }

  /** `s.find(c)` for a single character; None stands for -1. */
  function FindChar(s: string, c: char): (r: Option<nat>)
    ensures r.Some? ==> r.value < |s| && s[r.value] == c && c !in s[..r.value]
    ensures r.None? <==> c !in s
  {
    if s == [] then None
    else if s[0] == c then Some(0)
    else
      var rest := FindChar(s[1..], c);
      assert s == [s[0]] + s[1..];
      if rest.None? then None else
        assert s[..rest.value + 1] == [s[0]] + s[1..][..rest.value];
        Some(rest.value + 1)
  }

  /** `s.rfind(c)` for a single character; None stands for -1. */
  function RFindChar(s: string, c: char): (r: Option<nat>)
    ensures r.Some? ==> r.value < |s| && s[r.value] == c && c !in s[r.value + 1..]
    ensures r.None? <==> c !in s
  {
    if s == [] then None
    else if s[|s| - 1] == c then Some(|s| - 1)
    else
      var rest := RFindChar(s[..|s| - 1], c);
      assert s == s[..|s| - 1] + [s[|s| - 1]];
      if rest.None? then None else
        assert s[rest.value + 1..] == s[..|s| - 1][rest.value + 1..] + [s[|s| - 1]];
        rest
  }

  /** The first occurrence is where `find` stops. */
  lemma FindCharAt(s: string, c: char, i: nat)
    requires i < |s| && s[i] == c && c !in s[..i]
    ensures FindChar(s, c) == Some(i)
  {
  }

  /** The last occurrence is where `rfind` stops. */
  lemma RFindCharAt(s: string, c: char, i: nat)
    requires i < |s| && s[i] == c && c !in s[i + 1..]
    ensures RFindChar(s, c) == Some(i)
  {
  }

  // ---------------------------------------------------------------------------
  // strip, lower
  // ---------------------------------------------------------------------------

  /** Drops the leading characters satisfying `drop` (`str.lstrip`). */
  function LStrip(s: string, drop: char -> bool): (r: string)
    ensures |r| <= |s| && r == s[|s| - |r|..]
    ensures r == [] || !drop(r[0])
    ensures forall i :: 0 <= i < |s| - |r| ==> drop(s[i])
  {
    if s != [] && drop(s[0]) then LStrip(s[1..], drop) else s
  }

  /** Drops the trailing characters satisfying `drop` (`str.rstrip`). */
  function RStrip(s: string, drop: char -> bool): (r: string)
    ensures |r| <= |s| && r == s[..|r|]
    ensures r == [] || !drop(r[|r| - 1])
    ensures forall i :: |r| <= i < |s| ==> drop(s[i])
  {
    if s != [] && drop(s[|s| - 1]) then RStrip(s[..|s| - 1], drop) else s
  }

  /** `r` sits in `s` at `i`, and everything around it satisfies `drop`. */
  predicate TrimmedAt(s: string, r: string, i: nat, drop: char -> bool) {
    && i + |r| <= |s| && s[i..i + |r|] == r
    && (forall j :: 0 <= j < i ==> drop(s[j]))
    && (forall j :: i + |r| <= j < |s| ==> drop(s[j]))
  }

  /** `str.strip(chars)`: both ends, every character satisfying `drop`. */
  function StripBy(s: string, drop: char -> bool): (r: string)
    ensures r == [] || (!drop(r[0]) && !drop(Last(r)))
    ensures TrimmedAt(s, r, |s| - |LStrip(s, drop)|, drop)
  {
    StripByTrims(s, drop);
    RStrip(LStrip(s, drop), drop)
  }

  lemma StripByTrims(s: string, drop: char -> bool)
    ensures RStrip(LStrip(s, drop), drop) == [] ||
      (!drop(RStrip(LStrip(s, drop), drop)[0]) && !drop(Last(RStrip(LStrip(s, drop), drop))))
    ensures TrimmedAt(s, RStrip(LStrip(s, drop), drop), |s| - |LStrip(s, drop)|, drop)
  {
    var l := LStrip(s, drop);
    var r := RStrip(l, drop);
    var i := |s| - |l|;
    assert s[i..] == l;
    StripTail(s, l, r, i, drop);
    assert forall j :: 0 <= j < i ==> drop(s[j]);
    assert TrimmedAt(s, r, i, drop);
    if r != [] {
      assert r[0] == l[0];
    }
  }

  lemma StripTail(s: string, l: string, r: string, i: nat, drop: char -> bool)
    requires i + |l| == |s| && s[i..] == l
    requires |r| <= |l| && r == l[..|r|]
    requires forall j :: |r| <= j < |l| ==> drop(l[j])
    ensures s[i..i + |r|] == r
    ensures forall j :: i + |r| <= j < |s| ==> drop(s[j])
  {
    forall j | i + |r| <= j < |s| ensures drop(s[j]) {
      assert s[j] == l[j - i];
    }
  }

  /** The strip is the only clean-ended piece of `s` with droppable surroundings. */
  lemma StripByUnique(s: string, r: string, i: nat, drop: char -> bool)
    requires TrimmedAt(s, r, i, drop)
    requires r == [] || (!drop(r[0]) && !drop(r[|r| - 1]))
    ensures StripBy(s, drop) == r
  {
    if r == [] {
      LStripSkips(s, |s|, drop);
    } else {
      assert s[i] == r[0];
      LStripSkips(s, i, drop);
      var t := s[i..];
      assert t[..|r|] == r;
      assert forall j :: |r| <= j < |t| ==> t[j] == s[i + j];
      RStripSkips(t, |r|, drop);
    }
  }

  lemma {:induction false} LStripSkips(s: string, i: nat, drop: char -> bool)
    requires i <= |s|
    requires forall j :: 0 <= j < i ==> drop(s[j])
    requires i == |s| || !drop(s[i])
    ensures LStrip(s, drop) == s[i..]
  {
    if i > 0 {
      LStripSkips(s[1..], i - 1, drop);
    }
  }

  lemma {:induction false} RStripSkips(s: string, n: nat, drop: char -> bool)
    requires 0 < n <= |s|
    requires forall j :: n <= j < |s| ==> drop(s[j])
    requires !drop(s[n - 1])
    ensures RStrip(s, drop) == s[..n]
    decreases |s|
  {
    if n < |s| {
      RStripSkips(s[..|s| - 1], n, drop);
    }
  }

  /** `str.strip()` with no argument: surrounding whitespace, taken off one
      character at a time. */
  function Strip(s: string): (r: string)
    ensures r == [] || (!IsSpace(r[0]) && !IsSpace(Last(r)))
    decreases |s|
  {
    if s != [] && IsSpace(s[0]) then Strip(s[1..])
    else if s != [] && IsSpace(Last(s)) then Strip(s[..|s| - 1])
    else s
  }

  /** What `Strip` keeps sits in the input with only whitespace around it. */
  lemma {:induction false} StripTrimmed(s: string)
    ensures exists i: nat :: TrimmedAt(s, Strip(s), i, IsSpace)
    decreases |s|
  {
    var r := Strip(s);
    if s != [] && IsSpace(s[0]) {
      StripTrimmed(s[1..]);
      var i: nat :| TrimmedAt(s[1..], r, i, IsSpace);
      TrimmedAtFront(s, r, i, IsSpace);
    } else if s != [] && IsSpace(Last(s)) {
      StripTrimmed(s[..|s| - 1]);
      var i: nat :| TrimmedAt(s[..|s| - 1], r, i, IsSpace);
      TrimmedAtBack(s, r, i, IsSpace);
    } else {
      assert s[0..|s|] == s;
      assert TrimmedAt(s, r, 0, IsSpace);
    }
  }

  lemma TrimmedAtFront(s: string, r: string, i: nat, drop: char -> bool)
    requires s != [] && drop(s[0]) && TrimmedAt(s[1..], r, i, drop)
    ensures TrimmedAt(s, r, i + 1, drop)
  {
    assert s[i + 1..i + 1 + |r|] == s[1..][i..i + |r|];
    assert forall j :: 1 <= j < |s| ==> s[j] == s[1..][j - 1];
  }

  lemma TrimmedAtBack(s: string, r: string, i: nat, drop: char -> bool)
    requires s != [] && drop(s[|s| - 1]) && TrimmedAt(s[..|s| - 1], r, i, drop)
    ensures TrimmedAt(s, r, i, drop)
  {
    assert s[i..i + |r|] == s[..|s| - 1][i..i + |r|];
    assert forall j :: 0 <= j < |s| - 1 ==> s[j] == s[..|s| - 1][j];
  }

  /** Stripping one character at a time agrees with `lstrip` followed by `rstrip`. */
  lemma StripIsStripBy(s: string)
    ensures Strip(s) == StripBy(s, IsSpace)
  {
    StripTrimmed(s);
    var i: nat :| TrimmedAt(s, Strip(s), i, IsSpace);
    StripByUnique(s, Strip(s), i, IsSpace);
  }

  /** A string with neither leading nor trailing whitespace is its own strip. */
  lemma StripOfStripped(s: string)
    requires s == [] || (!IsSpace(s[0]) && !IsSpace(s[|s| - 1]))
    ensures Strip(s) == s
  {
  }

  function LowerChar(c: char): char {
    if 'A' <= c <= 'Z' then (c as int + 32) as char else c
  }

  /** `str.lower()` on ASCII letters; other characters are kept. */
  function Lower(s: string): (r: string)
    ensures |r| == |s| && forall i :: 0 <= i < |s| ==> r[i] == LowerChar(s[i])
  {
    seq(|s|, i requires 0 <= i < |s| => LowerChar(s[i]))
  }

  // ---------------------------------------------------------------------------
  // split, join, replace, splitlines
  // ---------------------------------------------------------------------------

  /** The longest prefix of `s` with no character satisfying `stop`. */
  function PrefixUntil(s: string, stop: char -> bool): (r: string)
    ensures r <= s
    ensures forall i :: 0 <= i < |r| ==> !stop(r[i])
    ensures |r| < |s| ==> stop(s[|r|])
  {
    if s == [] || stop(s[0]) then [] else [s[0]] + PrefixUntil(s[1..], stop)
  }

  /** `sep.join(parts)` */
  function Join(parts: seq<string>, sep: string): string {
    if |parts| == 0 then ""
    else if |parts| == 1 then parts[0]
    else parts[0] + sep + Join(parts[1..], sep)
  }

  /** `s.split(sep)` for a non-empty separator: cut at every occurrence found
      scanning left to right, occurrences not overlapping. */
  function SplitOn(s: string, sep: string): (parts: seq<string>)
    requires sep != []
    ensures |parts| >= 1
    ensures |parts| >= 2 <==> Contains(s, sep)
    decreases |s|
  {
    match IndexOf(s, sep, 0)
    case None => [s]
    case Some(i) => [s[..i]] + SplitOn(s[i + |sep|..], sep)
  }

  /** `s.replace(pat, repl)` for a non-empty `pat`. */
  function Replace(s: string, pat: string, repl: string): string
    requires pat != []
    decreases |s|
  {
    match IndexOf(s, pat, 0)
    case None => s
    case Some(i) => s[..i] + repl + Replace(s[i + |pat|..], pat, repl)
  }

  /** The maximal runs of characters not satisfying `sp`. */
  function Runs(s: string, sp: char -> bool): (ws: seq<string>)
    decreases |s|
  {
    var t := LStrip(s, sp);
    if t == [] then []
    else
      var w := PrefixUntil(t, sp);
      assert |w| > 0;
      [w] + Runs(t[|w|..], sp)
  }

  /** Every run is non-empty and free of separators. */
  lemma {:induction false} RunsAreRuns(s: string, sp: char -> bool)
    ensures forall k :: 0 <= k < |Runs(s, sp)| ==> IsRunOf(Runs(s, sp)[k], sp)
    decreases |s|
  {
    var t := LStrip(s, sp);
    if t != [] {
      var w := PrefixUntil(t, sp);
      RunsAreRuns(t[|w|..], sp);
      RunsCons(s, sp);
      AllRunsCons(w, Runs(t[|w|..], sp), sp);
    }
  }

  lemma RunsCons(s: string, sp: char -> bool)
    requires LStrip(s, sp) != []
    ensures var t := LStrip(s, sp); var w := PrefixUntil(t, sp);
      IsRunOf(w, sp) && Runs(s, sp) == [w] + Runs(t[|w|..], sp)
  {
  }

  lemma AllRunsCons(w: string, rest: seq<string>, sp: char -> bool)
    requires IsRunOf(w, sp)
    requires forall k :: 0 <= k < |rest| ==> IsRunOf(rest[k], sp)
    ensures forall k :: 0 <= k < |[w] + rest| ==> IsRunOf(([w] + rest)[k], sp)
  {
    var r := [w] + rest;
    assert forall k :: 1 <= k < |r| ==> r[k] == rest[k - 1];
  }

  /** There are no runs exactly when every character is a separator. */
  lemma RunsEmpty(s: string, sp: char -> bool)
    ensures Runs(s, sp) == [] <==> forall i :: 0 <= i < |s| ==> sp(s[i])
  {
    var t := LStrip(s, sp);
    if t != [] {
      assert !sp(s[|s| - |t|]);
    }
  }

  /** `s.split()` with no argument: the maximal runs of non-whitespace. */
  function Words(s: string): (ws: seq<string>)
    ensures forall k :: 0 <= k < |ws| ==> IsWord(ws[k])
    ensures ws == [] <==> forall i :: 0 <= i < |s| ==> IsSpace(s[i])
  {
    RunsEmpty(s, IsSpace);
    RunsAreRuns(s, IsSpace);
    Runs(s, IsSpace)
  }

  /** Lines cut at the characters satisfying `br`, a "\r" directly followed
      by "\n" cutting once; the final line is kept only when non-empty. */
  function LinesBy(s: string, br: char -> bool): (lines: seq<string>)
    ensures lines == [] <==> s == []
    decreases |s|
  {
    if s == [] then []
    else
      var line := PrefixUntil(s, br);
      if |line| == |s| then [s]
      else
        var skip := if s[|line|] == '\r' && |line| + 1 < |s| && s[|line| + 1] == '\n' then 2 else 1;
        [line] + LinesBy(s[|line| + skip..], br)
  }

  /** `s.splitlines()`: no line keeps its break, and a final break does not
      start an extra empty line. */
  function SplitLines(s: string): (lines: seq<string>)
    ensures lines == [] <==> s == []
  {
    LinesBy(s, IsLineBreak)
  }

  // ---------------------------------------------------------------------------
  // Lemmas
  // ---------------------------------------------------------------------------

  /** Joining the pieces of a split with the same separator gives the text back. */
  lemma {:induction false} JoinSplitOn(s: string, sep: string)
    requires sep != []
    ensures Join(SplitOn(s, sep), sep) == s
    decreases |s|
  {
    match IndexOf(s, sep, 0)
    case None =>
    case Some(i) =>
      var rest := s[i + |sep|..];
      JoinSplitOn(rest, sep);
      assert s == s[..i] + sep + rest;
  }

  /** The last piece of a split holds no separator. */
  lemma {:induction false} SplitOnLastHasNoSeparator(s: string, sep: string)
    requires sep != []
    ensures !Contains(Last(SplitOn(s, sep)), sep)
    decreases |s|
  {
    match IndexOf(s, sep, 0)
    case None =>
      assert SplitOn(s, sep) == [s];
    case Some(i) =>
      var rest := s[i + |sep|..];
      var parts := SplitOn(rest, sep);
      SplitOnLastHasNoSeparator(rest, sep);
      assert SplitOn(s, sep) == [s[..i]] + parts;
      assert Last([s[..i]] + parts) == Last(parts);
  }

  /** When the first separator in `p + sep + r` is the one after `p` and `r`
      holds none, the split is exactly `[p, r]`. */
  lemma SplitOnAround(p: string, sep: string, r: string)
    requires sep != []
    requires forall j: nat :: j < |p| ==> !OccursAt(p + sep + r, sep, j)
    requires !Contains(r, sep)
    ensures SplitOn(p + sep + r, sep) == [p, r]
  {
    var s := p + sep + r;
    assert OccursAt(s, sep, |p|);
    assert IndexOf(s, sep, 0) == Some(|p|);
    assert s[..|p|] == p;
    assert s[|p| + |sep|..] == r;
  }

  /** `replace` is `join` over `split`: an independent reading of the same cut. */
  lemma {:induction false} ReplaceIsJoinOfSplit(s: string, pat: string, repl: string)
    requires pat != []
    ensures Replace(s, pat, repl) == Join(SplitOn(s, pat), repl)
    decreases |s|
  {
    match IndexOf(s, pat, 0)
    case None =>
      assert SplitOn(s, pat) == [s];
    case Some(i) =>
      var rest := s[i + |pat|..];
      var parts := SplitOn(rest, pat);
      ReplaceIsJoinOfSplit(rest, pat, repl);
      assert Replace(s, pat, repl) == s[..i] + repl + Replace(rest, pat, repl);
      assert SplitOn(s, pat) == [s[..i]] + parts;
      assert ([s[..i]] + parts)[1..] == parts;
      assert Join([s[..i]] + parts, repl) == s[..i] + repl + Join(parts, repl);
  }

  /** `replace` brings in no character that was in neither the text nor the replacement. */
  lemma {:induction false} ReplaceKeepsOut(s: string, pat: string, repl: string, c: char)
    requires pat != []
    requires c !in s && c !in repl
    ensures c !in Replace(s, pat, repl)
    decreases |s|
  {
    match IndexOf(s, pat, 0)
    case None =>
    case Some(i) =>
      var rest := s[i + |pat|..];
      assert c !in rest;
      assert c !in s[..i];
      ReplaceKeepsOut(rest, pat, repl, c);
  }

  /** A text with no occurrence of `pat` is unchanged by `replace`. */
  lemma ReplaceAbsent(s: string, pat: string, repl: string)
    requires pat != [] && !Contains(s, pat)
    ensures Replace(s, pat, repl) == s
  {
  }

  /** Splitting a single-space join of words on whitespace gives the words back. */
  lemma WordsOfJoin(ws: seq<string>)
    requires forall k :: 0 <= k < |ws| ==> IsWord(ws[k])
    ensures Words(Join(ws, " ")) == ws
  {
    RunsOfJoin(ws, IsSpace);
  }

  lemma {:induction false} RunsOfJoin(ws: seq<string>, sp: char -> bool)
    requires sp(' ')
    requires forall k :: 0 <= k < |ws| ==> IsRunOf(ws[k], sp)
    ensures Runs(Join(ws, " "), sp) == ws
    decreases |ws|
  {
    if |ws| == 1 {
      RunsOfJoinSingle(ws, sp);
    } else if |ws| >= 2 {
      AllRunsTail(ws, sp);
      RunsOfJoin(ws[1..], sp);
      assert IsRunOf(ws[0], sp) && IsRunOf(ws[1], sp);
      RunsOfJoinCons(ws, sp);
    }
  }

  lemma RunsOfJoinSingle(ws: seq<string>, sp: char -> bool)
    requires |ws| == 1 && IsRunOf(ws[0], sp)
    ensures Runs(Join(ws, " "), sp) == ws
  {
    var w := ws[0];
    assert Join(ws, " ") == w;
    assert LStrip(w, sp) == w by {
      assert !sp(w[0]);
    }
    PrefixUntilWhole(w, sp);
    var rest := w[|w|..];
    assert rest == [] && LStrip(rest, sp) == [];
    assert Runs(w, sp) == [w] + Runs(rest, sp);
    assert ws == [w];
  }

  lemma AllRunsTail(ws: seq<string>, sp: char -> bool)
    requires |ws| >= 1
    requires forall k :: 0 <= k < |ws| ==> IsRunOf(ws[k], sp)
    ensures forall k :: 0 <= k < |ws[1..]| ==> IsRunOf(ws[1..][k], sp)
  {
    var tail := ws[1..];
    forall k | 0 <= k < |tail| ensures IsRunOf(tail[k], sp) {
      assert tail[k] == ws[k + 1];
    }
  }

  lemma RunsOfJoinCons(ws: seq<string>, sp: char -> bool)
    requires sp(' ') && |ws| >= 2
    requires IsRunOf(ws[0], sp) && IsRunOf(ws[1], sp)
    requires Runs(Join(ws[1..], " "), sp) == ws[1..]
    ensures Runs(Join(ws, " "), sp) == ws
  {
    RunsOfJoinStep(ws, sp);
    assert [ws[0]] + ws[1..] == ws;
  }

  lemma RunsOfJoinStep(ws: seq<string>, sp: char -> bool)
    requires sp(' ') && |ws| >= 2
    requires IsRunOf(ws[0], sp) && IsRunOf(ws[1], sp)
    ensures Runs(Join(ws, " "), sp) == [ws[0]] + Runs(Join(ws[1..], " "), sp)
  {
    var w, tail := ws[0], ws[1..];
    var rest := Join(tail, " ");
    assert Join(ws, " ") == w + (" " + rest);
    assert tail[0] != [] && !sp(tail[0][0]);
    JoinHead(tail, " ");
    RunsOfRun(w, " " + rest, sp);
    RunsSkipSeparator(rest, sp);
  }

  lemma JoinHead(ws: seq<string>, sep: string)
    requires |ws| >= 1 && ws[0] != []
    ensures Join(ws, sep) != [] && Join(ws, sep)[0] == ws[0][0]
  {
  }

  /** A run followed by a separator (or by nothing) is the first run. */
  lemma RunsOfRun(w: string, t: string, sp: char -> bool)
    requires IsRunOf(w, sp)
    requires t == [] || sp(t[0])
    ensures Runs(w + t, sp) == [w] + Runs(t, sp)
  {
    var s := w + t;
    assert s[0] == w[0];
    assert LStrip(s, sp) == s;
    if t == [] {
      PrefixUntilWhole(w, sp);
      assert s == w;
      assert s[|w|..] == t;
    } else {
      PrefixUntilStopsAt(w, t, sp);
      assert s[|w|..] == t;
    }
    RunsIgnoreLeadingSeparators(t, sp);
  }

  lemma RunsIgnoreLeadingSeparators(t: string, sp: char -> bool)
    ensures Runs(t, sp) == Runs(LStrip(t, sp), sp)
  {
    var u := LStrip(t, sp);
    assert LStrip(u, sp) == u;
  }

  /** A single leading separator does not change the runs. */
  lemma RunsSkipSeparator(t: string, sp: char -> bool)
    requires sp(' ')
    ensures Runs(" " + t, sp) == Runs(t, sp)
  {
    assert (" " + t)[1..] == t;
    assert LStrip(" " + t, sp) == LStrip(t, sp);
    RunsIgnoreLeadingSeparators(t, sp);
  }

  lemma {:induction false} PrefixUntilWhole(s: string, stop: char -> bool)
    requires forall i :: 0 <= i < |s| ==> !stop(s[i])
    ensures PrefixUntil(s, stop) == s
  {
    if s != [] {
      PrefixUntilWhole(s[1..], stop);
      assert s == [s[0]] + s[1..];
    }
  }

  lemma {:induction false} PrefixUntilStopsAt(w: string, t: string, stop: char -> bool)
    requires forall i :: 0 <= i < |w| ==> !stop(w[i])
    requires t != [] && stop(t[0])
    ensures PrefixUntil(w + t, stop) == w
  {
    if w == [] {
      assert w + t == t;
    } else {
      assert (w + t)[0] == w[0];
      assert (w + t)[1..] == w[1..] + t;
      PrefixUntilStopsAt(w[1..], t, stop);
      assert w == [w[0]] + w[1..];
    }
  }

  /** `s` without one trailing "\n", if it has one. */
  function DropFinalNewline(s: string): string {
    if s != [] && s[|s| - 1] == '\n' then s[..|s| - 1] else s
  }

  /** A line with no break, followed by "\n" and more text, is the first line. */
  lemma LinesFirst(line: string, rest: string, br: char -> bool)
    requires br('\n')
    requires forall i :: 0 <= i < |line| ==> !br(line[i])
    ensures LinesBy(line + "\n" + rest, br) == [line] + LinesBy(rest, br)
  {
    var s := line + "\n" + rest;
    assert s == line + ("\n" + rest);
    PrefixUntilStopsAt(line, "\n" + rest, br);
    assert PrefixUntil(s, br) == line;
    assert s[|line|] == '\n';
    assert s[|line| + 1..] == rest;
  }

  /** On text whose only line breaks are "\n", rejoining `splitlines()` with
      "\n" gives the text back, less a final "\n". */
  lemma JoinSplitLines(s: string)
    requires forall i :: 0 <= i < |s| && IsLineBreak(s[i]) ==> s[i] == '\n'
    ensures Join(SplitLines(s), "\n") == DropFinalNewline(s)
  {
    JoinLines(s, IsLineBreak);
  }

  lemma {:induction false} JoinLines(s: string, br: char -> bool)
    requires br('\n')
    requires forall i :: 0 <= i < |s| && br(s[i]) ==> s[i] == '\n'
    ensures Join(LinesBy(s, br), "\n") == DropFinalNewline(s)
    decreases |s|
  {
    if s != [] {
      var line := PrefixUntil(s, br);
      if |line| == |s| {
        LinesWhole(s, br);
      } else {
        var rest := s[|line| + 1..];
        LinesSplitAtNewline(s, br);
        LinesFirst(line, rest, br);
        JoinLines(rest, br);
        JoinConsNewline(line, LinesBy(rest, br), rest);
      }
    }
  }

  lemma LinesWhole(s: string, br: char -> bool)
    requires s != [] && |PrefixUntil(s, br)| == |s|
    requires br('\n')
    ensures Join(LinesBy(s, br), "\n") == DropFinalNewline(s)
  {
    assert PrefixUntil(s, br) == s;
    assert !br(s[|s| - 1]);
  }

  lemma LinesSplitAtNewline(s: string, br: char -> bool)
    requires |PrefixUntil(s, br)| < |s|
    requires forall i :: 0 <= i < |s| && br(s[i]) ==> s[i] == '\n'
    ensures var line := PrefixUntil(s, br); var rest := s[|line| + 1..];
      && s == line + "\n" + rest
      && (forall i :: 0 <= i < |line| ==> !br(line[i]))
      && (forall i :: 0 <= i < |rest| && br(rest[i]) ==> rest[i] == '\n')
  {
    var line := PrefixUntil(s, br);
    var rest := s[|line| + 1..];
    assert s[|line|] == '\n';
    assert s == s[..|line|] + [s[|line|]] + rest;
    forall i | 0 <= i < |rest| && br(rest[i]) ensures rest[i] == '\n' {
      assert rest[i] == s[|line| + 1 + i];
    }
  }

  lemma JoinConsNewline(line: string, lines: seq<string>, rest: string)
    requires lines == [] <==> rest == []
    requires Join(lines, "\n") == DropFinalNewline(rest)
    ensures Join([line] + lines, "\n") == DropFinalNewline(line + "\n" + rest)
  {
    var s := line + "\n" + rest;
    if rest == [] {
      assert [line] + lines == [line];
      assert s[..|s| - 1] == line;
    } else {
      assert ([line] + lines)[1..] == lines;
      assert DropFinalNewline(s) == line + "\n" + DropFinalNewline(rest);
    }
  }

  /** A first line free of breaks, then "\n", then more: `splitlines()` starts with that line. */
  lemma SplitLinesFirst(line: string, rest: string)
    requires forall i :: 0 <= i < |line| ==> !IsLineBreak(line[i])
    ensures SplitLines(line + "\n" + rest) == [line] + SplitLines(rest)
  {
    LinesFirst(line, rest, IsLineBreak);
  }
}
