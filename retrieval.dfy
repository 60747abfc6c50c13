/** `fetch_urls_from_text`: `re.findall(r'(https?://[^\s,]+)', text)` written
    as a left-to-right scanner. */
module Retrieval {
  import opened Wrappers
  import opened Text

  /** A character the class `[^\s,]` accepts. */
  predicate UrlChar(c: char) {
    !IsSpace(c) && c != ','
  }

  predicate NotUrlChar(c: char) {
    !UrlChar(c)
  }

  /** The length of the scheme `https?://` matched at `i`, if any. */
  function SchemeAt(s: string, i: nat): (k: Option<nat>)
    ensures k.Some? ==> (k.value == 8 && OccursAt(s, "https://", i)) || (k.value == 7 && OccursAt(s, "http://", i))
    ensures k.None? ==> !OccursAt(s, "https://", i) && !OccursAt(s, "http://", i)
  {
    if OccursAt(s, "https://", i) then Some(8)
    else if OccursAt(s, "http://", i) then Some(7)
    else None
  }

  /** The end of the match starting at `i`: the scheme, then the longest
      non-empty run of URL characters. */
  function MatchAt(s: string, i: nat): (e: Option<nat>)
    requires i <= |s|
    ensures e.Some? ==> SchemeAt(s, i).Some? && i + SchemeAt(s, i).value < e.value <= |s|
    ensures e.Some? ==> forall j :: i + SchemeAt(s, i).value <= j < e.value ==> UrlChar(s[j])
    ensures e.Some? ==> e.value == |s| || !UrlChar(s[e.value])
  {
    match SchemeAt(s, i)
    case None => None
    case Some(k) =>
      var body := PrefixUntil(s[i + k..], NotUrlChar);
      if body == [] then None
      else
        assert forall j :: i + k <= j < i + k + |body| ==> s[j] == body[j - i - k];
        Some(i + k + |body|)
  }

  /** A match span: `MatchAt` at its start reaches its end. */
  predicate IsMatch(s: string, span: (nat, nat)) {
    span.0 < |s| && MatchAt(s, span.0) == Some(span.1)
  }

  /** The matches as `(start, end)` spans, scanning from `from`. */
  function UrlSpans(s: string, from: nat): (spans: seq<(nat, nat)>)
    requires from <= |s|
    ensures forall k :: 0 <= k < |spans| ==> from <= spans[k].0 && IsMatch(s, spans[k])
    ensures forall k :: 0 <= k < |spans| - 1 ==> spans[k].1 <= spans[k + 1].0
    decreases |s| - from
  {
    if from == |s| then []
    else
      match MatchAt(s, from)
      case Some(e) =>
        var rest := UrlSpans(s, e);
        SpansCons(from, e, rest);
        ConsAll((from, e), rest, span => IsMatch(s, span));
        [(from, e)] + rest
      case None => UrlSpans(s, from + 1)
  }

  /** Putting a span in front keeps the spans ordered and after `from`. */
  lemma SpansCons(from: nat, e: nat, rest: seq<(nat, nat)>)
    requires from < e
    requires forall k :: 0 <= k < |rest| ==> e <= rest[k].0
    requires forall k :: 0 <= k < |rest| - 1 ==> rest[k].1 <= rest[k + 1].0
    ensures var r := [(from, e)] + rest;
      && (forall k :: 0 <= k < |r| ==> from <= r[k].0)
      && (forall k :: 0 <= k < |r| - 1 ==> r[k].1 <= r[k + 1].0)
  {
    var r := [(from, e)] + rest;
    assert forall k :: 1 <= k < |r| ==> r[k] == rest[k - 1];
  }

  /** A property of every element survives putting one more element in front. */
  lemma ConsAll<T>(x: T, xs: seq<T>, p: T -> bool)
    requires p(x)
    requires forall k :: 0 <= k < |xs| ==> p(xs[k])
    ensures forall k :: 0 <= k < |[x] + xs| ==> p(([x] + xs)[k])
  {
    assert forall k :: 1 <= k < |[x] + xs| ==> ([x] + xs)[k] == xs[k - 1];
  }

  /** `fetch_urls_from_text` */
  function FetchUrlsFromText(text: string): (urls: seq<string>)
    ensures |urls| == |UrlSpans(text, 0)|
    ensures forall k :: 0 <= k < |urls| ==>
      var sp := UrlSpans(text, 0)[k];
      sp.0 < sp.1 <= |text| && urls[k] == text[sp.0..sp.1]
    ensures forall k :: 0 <= k < |urls| ==> (StartsWith(urls[k], "http://") || StartsWith(urls[k], "https://"))
    ensures forall k :: 0 <= k < |urls| ==> forall j :: 0 <= j < |urls[k]| ==> urls[k][j] != ','
    ensures forall k :: 0 <= k < |urls| ==> forall j :: 0 <= j < |urls[k]| ==> !IsSpace(urls[k][j])
  {
    var spans := UrlSpans(text, 0);
    seq(|spans|, k requires 0 <= k < |spans| => SpanUrl(text, spans[k]))
  }

  /** Position `i` lies inside one of the spans. */
  predicate Covered(spans: seq<(nat, nat)>, i: nat) {
    exists k :: 0 <= k < |spans| && spans[k].0 <= i < spans[k].1
  }

  /** Completeness of the scan: no match starts at a position, from `from`
      on, that lies outside every span found. */
  lemma {:induction false} GapsHoldNoMatch(s: string, from: nat, i: nat)
    requires from <= i < |s|
    requires !Covered(UrlSpans(s, from), i)
    ensures MatchAt(s, i).None?
    decreases |s| - from
  {
    ScanStep(s, from);
    var m := MatchAt(s, from);
    if m.Some? {
      CoveredCons((from, m.value), UrlSpans(s, m.value), i);
      GapsHoldNoMatch(s, m.value, i);
    } else if i > from {
      GapsHoldNoMatch(s, from + 1, i);
    }
  }

  /** One step of the scan: a match at `from` is taken whole, otherwise the
      scan moves on by one character. */
  lemma ScanStep(s: string, from: nat)
    requires from < |s|
    ensures MatchAt(s, from).Some? ==>
      (from < MatchAt(s, from).value <= |s|
       && UrlSpans(s, from) == [(from, MatchAt(s, from).value)] + UrlSpans(s, MatchAt(s, from).value))
    ensures MatchAt(s, from).None? ==> UrlSpans(s, from) == UrlSpans(s, from + 1)
  {
  }

  lemma CoveredCons(x: (nat, nat), rest: seq<(nat, nat)>, i: nat)
    requires !Covered([x] + rest, i)
    ensures !(x.0 <= i < x.1) && !Covered(rest, i)
  {
    assert ([x] + rest)[0] == x;
    forall k | 0 <= k < |rest| ensures !(rest[k].0 <= i < rest[k].1) {
      assert ([x] + rest)[k + 1] == rest[k];
    }
  }

  /** Every match that starts outside the inside of all spans found is one of
      them: `findall` reports each non-overlapping match, left to right. */
  lemma FindsEveryMatch(s: string, i: nat)
    requires i < |s| && MatchAt(s, i).Some?
    requires forall k :: 0 <= k < |UrlSpans(s, 0)| ==> !(UrlSpans(s, 0)[k].0 < i < UrlSpans(s, 0)[k].1)
    ensures exists k :: 0 <= k < |UrlSpans(s, 0)| && UrlSpans(s, 0)[k] == (i, MatchAt(s, i).value)
  {
    var spans := UrlSpans(s, 0);
    if !Covered(spans, i) {
      GapsHoldNoMatch(s, 0, i);
    }
    var k :| 0 <= k < |spans| && spans[k].0 <= i < spans[k].1;
    assert spans[k].0 == i;
    assert IsMatch(s, spans[k]);
  }

  /** The text of one span, with what a match guarantees about it. */
  function SpanUrl(text: string, span: (nat, nat)): (u: string)
    requires span.0 <= |text| && MatchAt(text, span.0) == Some(span.1)
    ensures StartsWith(u, "http://") || StartsWith(u, "https://")
    ensures forall j :: 0 <= j < |u| ==> u[j] != ',' && !IsSpace(u[j])
  {
    var u := text[span.0..span.1];
    var k := SchemeAt(text, span.0).value;
    assert forall j :: k <= j < |u| ==> u[j] == text[span.0 + j];
    assert k == 8 ==> u[..8] == text[span.0..span.0 + 8];
    assert k == 7 ==> u[..7] == text[span.0..span.0 + 7];
    u
  }

  /** Each match is maximal: the span ends at the end of the text or before a
      whitespace or comma; and it has at least one character after "://". */
  lemma SpansAreMaximal(s: string, k: nat)
    requires k < |UrlSpans(s, 0)|
    ensures var sp := UrlSpans(s, 0)[k];
      sp.1 == |s| || IsSpace(s[sp.1]) || s[sp.1] == ','
    ensures var sp := UrlSpans(s, 0)[k];
      sp.1 > sp.0 + SchemeAt(s, sp.0).value
  {
  }

  lemma NoHttpNoScheme(s: string, i: nat)
    requires !OccursAt(s, "http", i)
    ensures SchemeAt(s, i).None?
  {
    if i + 8 <= |s| {
      assert s[i..i + 4] == s[i..i + 8][..4];
    }
    if i + 7 <= |s| {
      assert s[i..i + 4] == s[i..i + 7][..4];
    }
  }

  /** Text without "http" holds no URL. */
  lemma NoHttpNoUrls(s: string, from: nat)
    requires from <= |s|
    requires forall i: nat :: !OccursAt(s, "http", i)
    ensures UrlSpans(s, from) == []
    decreases |s| - from
  {
    if from < |s| {
      assert !OccursAt(s, "http", from);
      NoHttpNoScheme(s, from);
      NoHttpNoUrls(s, from + 1);
    }
  }
}
