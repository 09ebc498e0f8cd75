/** The record helpers of backend/utils.py: `normalize_text`, the
    `/url?q=` redirect unwrap and `results_to_dataframe`, with the table
    reduced to its column names and rows. */
module Utils {
  import opened Wrappers
  import opened Text

  // ---------------------------------------------------------------------
  // normalize_text

  /** `CLEAN_RE.sub(" ", s)` with `CLEAN_RE = \s+`: every maximal run of
      whitespace becomes one space. */
  function Collapse(s: string): (r: string)
    ensures |r| <= |s|
    decreases |s|
  {
    if s == [] then []
    else if IsSpace(s[0]) then [' '] + Collapse(TrimStart(s[1..]))
    else [s[0]] + Collapse(s[1..])
  }

  /** `normalize_text`: `""` for a missing or empty value, otherwise the
      stripped text with its whitespace runs collapsed. */
  function NormalizeText(s: Option<string>): (r: string)
    ensures s.None? || s.value == "" ==> r == ""
  {
    if s.None? || s.value == "" then "" else Collapse(Strip(s.value))
  }

  /** Every whitespace character of `r` is a plain space. */
  predicate PlainSpaces(r: string) {
    forall i :: 0 <= i < |r| && IsSpace(r[i]) ==> r[i] == ' '
  }

  /** No two whitespace characters of `r` are adjacent. */
  predicate NoDoubleSpace(r: string) {
    forall i :: 0 <= i < |r| - 1 ==> !(IsSpace(r[i]) && IsSpace(r[i + 1]))
  }

  /** The output of `normalize_text`: no whitespace at either end, no two
      whitespace characters in a row, and every whitespace character a plain space. */
  predicate Clean(r: string) {
    && (r == [] || (!IsSpace(r[0]) && !IsSpace(r[|r| - 1])))
    && PlainSpaces(r)
    && NoDoubleSpace(r)
  }

  lemma ConsPlainSpaces(c: char, t: string)
    requires IsSpace(c) ==> c == ' '
    requires PlainSpaces(t)
    ensures PlainSpaces([c] + t)
  {
    forall i | 0 < i < |t| + 1 ensures ([c] + t)[i] == t[i - 1] {
    }
  }

  lemma ConsNoDoubleSpace(c: char, t: string)
    requires t == [] || !IsSpace(c) || !IsSpace(t[0])
    requires NoDoubleSpace(t)
    ensures NoDoubleSpace([c] + t)
  {
    forall i | 0 < i < |t| + 1 ensures ([c] + t)[i] == t[i - 1] {
    }
  }

  /** `Collapse` keeps whether the text is empty, starts with whitespace
      and ends with whitespace. */
  lemma {:induction false} CollapseEnds(s: string)
    ensures Collapse(s) == [] <==> s == []
    ensures s != [] ==> (IsSpace(Collapse(s)[0]) <==> IsSpace(s[0]))
    ensures s != [] ==> (IsSpace(Collapse(s)[|Collapse(s)| - 1]) <==> IsSpace(s[|s| - 1]))
    decreases |s|, 1
  {
    if s != [] {
      if IsSpace(s[0]) {
        CollapseEndsSpace(s);
      } else {
        CollapseEndsVisible(s);
      }
    }
  }

  /** `CollapseEnds` for a text that starts with whitespace. */
  lemma {:induction false} CollapseEndsSpace(s: string)
    requires s != [] && IsSpace(s[0])
    ensures Collapse(s) != [] && IsSpace(Collapse(s)[0])
    ensures IsSpace(Collapse(s)[|Collapse(s)| - 1]) <==> IsSpace(s[|s| - 1])
    decreases |s|, 0
  {
    var u := s[1..];
    var t := TrimStart(u);
    CollapseEnds(t);
    assert Collapse(s) == [' '] + Collapse(t);
    if t == [] {
      assert IsSpace(s[|s| - 1]) by {
        if |s| > 1 {
          assert s[|s| - 1] == u[|u| - 1];
        }
      }
    } else {
      assert t[|t| - 1] == s[|s| - 1];
    }
  }

  /** `CollapseEnds` for a text that starts with a visible character. */
  lemma {:induction false} CollapseEndsVisible(s: string)
    requires s != [] && !IsSpace(s[0])
    ensures Collapse(s) != [] && !IsSpace(Collapse(s)[0])
    ensures IsSpace(Collapse(s)[|Collapse(s)| - 1]) <==> IsSpace(s[|s| - 1])
    decreases |s|, 0
  {
    var u := s[1..];
    CollapseEnds(u);
    assert Collapse(s) == [s[0]] + Collapse(u);
    if u != [] {
      assert u[|u| - 1] == s[|s| - 1];
    }
  }

  /** `Collapse` leaves only single plain spaces. */
  lemma {:induction false} CollapseShape(s: string)
    ensures PlainSpaces(Collapse(s))
    ensures NoDoubleSpace(Collapse(s))
    decreases |s|
  {
    if s != [] {
      if IsSpace(s[0]) {
        var t := TrimStart(s[1..]);
        CollapseShape(t);
        CollapseEnds(t);
        ConsPlainSpaces(' ', Collapse(t));
        ConsNoDoubleSpace(' ', Collapse(t));
      } else {
        CollapseShape(s[1..]);
        ConsPlainSpaces(s[0], Collapse(s[1..]));
        ConsNoDoubleSpace(s[0], Collapse(s[1..]));
      }
    }
  }

  /** Dropping leading whitespace from `a + b` only touches `a` when `a`
      ends with a visible character. */
  lemma {:induction false} TrimStartAppend(a: string, b: string)
    requires a != [] && !IsSpace(a[|a| - 1])
    ensures TrimStart(a + b) == TrimStart(a) + b
    decreases |a|
  {
    if IsSpace(a[0]) {
      assert a[1..][|a| - 2] == a[|a| - 1];
      assert (a + b)[1..] == a[1..] + b;
      TrimStartAppend(a[1..], b);
    }
  }

  /** `Collapse` works run by run: a split after a visible character
      splits the result in the same place. */
  lemma {:induction false} CollapseAppend(a: string, b: string)
    requires a == [] || !IsSpace(a[|a| - 1])
    ensures Collapse(a + b) == Collapse(a) + Collapse(b)
    decreases |a|, 1
  {
    if a == [] {
      assert a + b == b;
    } else if IsSpace(a[0]) {
      CollapseAppendSpace(a, b);
    } else {
      CollapseAppendVisible(a, b);
    }
  }

  /** `CollapseAppend` for an `a` that starts with whitespace. */
  lemma {:induction false} CollapseAppendSpace(a: string, b: string)
    requires a != [] && IsSpace(a[0]) && !IsSpace(a[|a| - 1])
    ensures Collapse(a + b) == Collapse(a) + Collapse(b)
    decreases |a|, 0
  {
    CollapseSpaceStep(a, b);
    var t := TrimStart(a[1..]);
    CollapseAppend(t, b);
    PrefixJoin([' '], Collapse(t), Collapse(b), Collapse(a), Collapse(a + b));
  }

  /** Prepending the same text on both sides of a join. */
  lemma PrefixJoin(h: string, x: string, y: string, hx: string, hxy: string)
    requires hx == h + x && hxy == h + (x + y)
    ensures hxy == hx + y
  {
  }

  /** Unfolds `Collapse` once on `a` and on `a + b` when `a` starts with
      whitespace and ends with a visible character. */
  lemma CollapseSpaceStep(a: string, b: string)
    requires a != [] && IsSpace(a[0]) && !IsSpace(a[|a| - 1])
    ensures var t := TrimStart(a[1..]); t != [] && !IsSpace(t[|t| - 1])
    ensures Collapse(a) == [' '] + Collapse(TrimStart(a[1..]))
    ensures Collapse(a + b) == [' '] + Collapse(TrimStart(a[1..]) + b)
  {
    assert (a + b)[0] == a[0];
    assert (a + b)[1..] == a[1..] + b;
    assert a[1..][|a| - 2] == a[|a| - 1];
    TrimStartKeepsLast(a[1..]);
    TrimStartAppend(a[1..], b);
  }

  /** Dropping leading whitespace keeps a visible last character. */
  lemma TrimStartKeepsLast(u: string)
    requires u != [] && !IsSpace(u[|u| - 1])
    ensures TrimStart(u) != [] && TrimStart(u)[|TrimStart(u)| - 1] == u[|u| - 1]
    ensures !IsSpace(TrimStart(u)[|TrimStart(u)| - 1])
  {
  }

  /** `CollapseAppend` for an `a` that starts with a visible character. */
  lemma {:induction false} CollapseAppendVisible(a: string, b: string)
    requires a != [] && !IsSpace(a[0]) && !IsSpace(a[|a| - 1])
    ensures Collapse(a + b) == Collapse(a) + Collapse(b)
    decreases |a|, 0
  {
    var u := a[1..];
    assert (a + b)[0] == a[0];
    assert (a + b)[1..] == u + b;
    assert u == [] || u[|u| - 1] == a[|a| - 1];
    CollapseAppend(u, b);
    calc {
      Collapse(a + b);
      [a[0]] + Collapse(u + b);
      [a[0]] + (Collapse(u) + Collapse(b));
    }
  }

  lemma {:induction false} TrimStartOfSpaces(s: string)
    requires forall i :: 0 <= i < |s| ==> IsSpace(s[i])
    ensures TrimStart(s) == []
    decreases |s|
  {
    if s != [] {
      TrimStartOfSpaces(s[1..]);
    }
  }

  /** A whitespace run collapses to exactly one space. */
  lemma CollapseRun(s: string)
    requires s != [] && forall i :: 0 <= i < |s| ==> IsSpace(s[i])
    ensures Collapse(s) == " "
  {
    TrimStartOfSpaces(s[1..]);
  }

  /** `Collapse` keeps the visible characters. */
  lemma {:induction false} CollapseKeepsVisible(s: string)
    ensures Visible(Collapse(s)) == Visible(s)
    decreases |s|
  {
    if s != [] {
      if IsSpace(s[0]) {
        var u := s[1..];
        var t := TrimStart(u);
        var front := u[..|u| - |t|];
        assert u == front + t;
        VisibleOfSpaces(front);
        VisibleAppend(front, t);
        CollapseKeepsVisible(t);
        VisibleAppend([' '], Collapse(t));
      } else {
        CollapseKeepsVisible(s[1..]);
        VisibleAppend([s[0]], Collapse(s[1..]));
      }
    }
  }

  lemma TailOfSpaced(s: string)
    requires s != [] && PlainSpaces(s) && NoDoubleSpace(s)
    ensures PlainSpaces(s[1..]) && NoDoubleSpace(s[1..])
  {
    forall i | 0 <= i < |s| - 1 ensures s[1..][i] == s[i + 1] {
    }
  }

  /** On text with single plain spaces `Collapse` changes nothing. */
  lemma {:induction false} CollapseOfClean(s: string)
    requires PlainSpaces(s) && NoDoubleSpace(s)
    ensures Collapse(s) == s
    decreases |s|
  {
    if s != [] {
      var u := s[1..];
      TailOfSpaced(s);
      CollapseOfClean(u);
      if IsSpace(s[0]) {
        assert s[0] == ' ';
        if u != [] {
          assert u[0] == s[1];
        }
        assert TrimStart(u) == u;
      }
    }
  }

  /** `normalize_text` returns `""` for `None` and for `""`. */
  lemma NormalizeEmpty()
    ensures NormalizeText(None) == ""
    ensures NormalizeText(Some("")) == ""
  {
  }

  /** Collapsing stripped text gives clean text. */
  lemma CollapseOfStripped(v: string)
    ensures Clean(Collapse(Strip(v)))
  {
    StripEnds(v);
    CollapseShape(Strip(v));
    CollapseEnds(Strip(v));
  }

  /** The output of `normalize_text` is clean. */
  lemma NormalizeTextClean(s: Option<string>)
    ensures Clean(NormalizeText(s))
  {
    if s.Some? && s.value != "" {
      CollapseOfStripped(s.value);
    }
  }

  /** `normalize_text` keeps exactly the visible characters of its input;
      its output is empty exactly when the input has none. */
  lemma NormalizeTextKeepsVisible(s: Option<string>)
    ensures Visible(NormalizeText(s)) == Visible(s.UnwrapOr(""))
    ensures NormalizeText(s) == "" <==> Visible(s.UnwrapOr("")) == ""
  {
    if s.Some? && s.value != "" {
      var t := Strip(s.value);
      StripEnds(s.value);
      StripKeepsVisible(s.value);
      CollapseKeepsVisible(t);
      CollapseEnds(t);
      if t != [] {
        assert Visible(t) == [t[0]] + Visible(t[1..]);
      }
    }
  }

  /** `normalize_text` is idempotent. */
  lemma NormalizeTextIdempotent(s: Option<string>)
    ensures NormalizeText(Some(NormalizeText(s))) == NormalizeText(s)
  {
    var r := NormalizeText(s);
    NormalizeTextClean(s);
    if r != "" {
      assert TrimStart(r) == r;
      assert TrimEnd(r) == r;
      CollapseOfClean(r);
    }
  }

  // ---------------------------------------------------------------------
  // The /url?q= redirect unwrap

  /** The literal start of `URL_CLEAN_RE`. */
  const RedirectPrefix: string := "/url?q="

  /** How much of `s` the `https?://` part of the pattern takes: 7 or 8
      characters, or 0 when `s` does not start with a scheme. */
  function SchemeLength(s: string): (k: nat)
    ensures k == 0 || k == 7 || k == 8
    ensures k == 8 <==> HasPrefix(s, "https://")
    ensures k == 7 <==> HasPrefix(s, "http://")
  {
    if HasPrefix(s, "https://") then
      assert s[..8][4] == 's';
      8
    else if HasPrefix(s, "http://") then 7
    else 0
  }

  /** How many leading characters of `s` the greedy `[^&]+` takes: the
      whole run before the first `&`. */
  function AmpFreeRun(s: string): (n: nat)
    ensures n <= |s|
    ensures forall i :: 0 <= i < n ==> s[i] != '&'
    ensures n == |s| || s[n] == '&'
    decreases |s|
  {
    if s == [] || s[0] == '&' then 0 else 1 + AmpFreeRun(s[1..])
  }

  /** `URL_CLEAN_RE.match(url)` and its group `u`: the redirect target, or
      `None` when the pattern does not match. */
  function RedirectTarget(url: string): (r: Option<string>)
    ensures !HasPrefix(url, RedirectPrefix) ==> r.None?
    ensures r.Some? ==>
      && |RedirectPrefix| < |RedirectPrefix| + |r.value| <= |url|
      && url[|RedirectPrefix|..|RedirectPrefix| + |r.value|] == r.value
  {
    if !HasPrefix(url, RedirectPrefix) then None
    else
      var rest := url[|RedirectPrefix|..];
      var k := SchemeLength(rest);
      if k == 0 then None
      else
        var n := AmpFreeRun(rest[k..]);
        if n == 0 then None else Some(rest[..k + n])
  }

  /** The unwrap of `results_to_dataframe`: the captured target when the
      pattern matches, the URL unchanged otherwise. */
  function CleanUrl(url: string): (r: string)
    ensures RedirectTarget(url).None? ==> r == url
    ensures RedirectTarget(url).Some? ==> |r| < |url|
  {
    match RedirectTarget(url)
    case Some(u) => u
    case None => url
  }

  /** The pattern, read declaratively: `url` is the prefix, then `u` (a
      scheme followed by at least one character, no `&` anywhere), then
      nothing or a `&`. */
  predicate Captures(url: string, u: string) {
    && HasPrefix(url, RedirectPrefix + u)
    && SchemeLength(u) > 0
    && |u| > SchemeLength(u)
    && (forall i :: 0 <= i < |u| ==> u[i] != '&')
    && (|url| == |RedirectPrefix| + |u| || url[|RedirectPrefix| + |u|] == '&')
  }

  /** Every string the pattern captures is the target the unwrap finds. */
  lemma CapturedIsTarget(url: string, u: string)
    requires Captures(url, u)
    ensures RedirectTarget(url) == Some(u)
  {
    var p := RedirectPrefix;
    assert url[..|p|] == (p + u)[..|p|] == p;
    var rest := url[|p|..];
    assert rest[..|u|] == u;
    var k := SchemeLength(u);
    SchemeOfPrefix(u, rest);
    var n := AmpFreeRun(rest[k..]);
    forall i | 0 <= i < |u| - k ensures rest[k..][i] != '&' {
      assert rest[k..][i] == u[k + i];
    }
    assert n >= |u| - k;
    assert n <= |u| - k by {
      if |rest| > |u| {
        assert rest[k..][|u| - k] == url[|p| + |u|];
      }
    }
  }

  /** A scheme at the start of `u` is the scheme at the start of any
      string `u` begins. */
  lemma SchemeOfPrefix(u: string, s: string)
    requires |u| <= |s| && s[..|u|] == u
    requires |u| > SchemeLength(u) > 0
    ensures SchemeLength(s) == SchemeLength(u)
  {
    var k := SchemeLength(u);
    assert s[..k] == u[..k];
    assert s[..k + 1] == u[..k + 1];
  }

  /** The target the unwrap finds is captured by the pattern. */
  lemma TargetIsCaptured(url: string)
    requires RedirectTarget(url).Some?
    ensures Captures(url, RedirectTarget(url).value)
  {
    var p := RedirectPrefix;
    var u := RedirectTarget(url).value;
    assert url[..|p| + |u|] == p + u;
    TargetScheme(url);
    TargetHasNoAmp(url);
    TargetEnd(url);
  }

  /** The target begins with the scheme the pattern requires and holds
      more than that scheme. */
  lemma TargetScheme(url: string)
    requires RedirectTarget(url).Some?
    ensures var u := RedirectTarget(url).value; |u| > SchemeLength(u) > 0
  {
    var rest := url[|RedirectPrefix|..];
    var u := RedirectTarget(url).value;
    var k := SchemeLength(rest);
    assert u == rest[..k + AmpFreeRun(rest[k..])];
    assert u[..k] == rest[..k];
    assert u[..k + 1] == rest[..k + 1];
  }

  /** The target holds no `&`. */
  lemma TargetHasNoAmp(url: string)
    requires RedirectTarget(url).Some?
    ensures var u := RedirectTarget(url).value; forall i :: 0 <= i < |u| ==> u[i] != '&'
  {
    var rest := url[|RedirectPrefix|..];
    var u := RedirectTarget(url).value;
    var k := SchemeLength(rest);
    assert u == rest[..k + AmpFreeRun(rest[k..])];
    forall i | 0 <= i < |u| ensures u[i] != '&' {
      if i >= k {
        assert u[i] == rest[k..][i - k];
      } else {
        assert u[i] == rest[..k][i];
      }
    }
  }

  /** The target runs to the end of the URL or up to an `&`. */
  lemma TargetEnd(url: string)
    requires RedirectTarget(url).Some?
    ensures var u := RedirectTarget(url).value;
      |url| == |RedirectPrefix| + |u| || url[|RedirectPrefix| + |u|] == '&'
  {
    var p := RedirectPrefix;
    var rest := url[|p|..];
    var u := RedirectTarget(url).value;
    var k := SchemeLength(rest);
    var n := AmpFreeRun(rest[k..]);
    assert u == rest[..k + n];
    if |url| > |p| + |u| {
      assert n < |rest[k..]|;
      assert rest[k..][n] == '&';
      assert url[|p| + |u|] == rest[k + n];
    }
  }

  /** The unwrap is exactly the pattern: it finds the target `u` if and
      only if the pattern captures `u`. */
  lemma RedirectTargetExact(url: string, u: string)
    ensures RedirectTarget(url) == Some(u) <==> Captures(url, u)
  {
    if Captures(url, u) {
      CapturedIsTarget(url, u);
    }
    if RedirectTarget(url) == Some(u) {
      TargetIsCaptured(url);
    }
  }

  /** A target starts with `http://` or `https://` and holds no `&`; a URL
      without a match is left unchanged. */
  lemma CleanUrlShape(url: string)
    ensures RedirectTarget(url).Some? ==>
      var u := CleanUrl(url);
      && (HasPrefix(u, "http://") || HasPrefix(u, "https://"))
      && (forall i :: 0 <= i < |u| ==> u[i] != '&')
    ensures RedirectTarget(url).None? ==> CleanUrl(url) == url
  {
    if RedirectTarget(url).Some? {
      RedirectTargetExact(url, RedirectTarget(url).value);
    }
  }

  /** The unwrap is idempotent: a target starts with `h`, never with `/url?q=`. */
  lemma CleanUrlIdempotent(url: string)
    ensures CleanUrl(CleanUrl(url)) == CleanUrl(url)
  {
    CleanUrlShape(url);
    var u := CleanUrl(url);
    if RedirectTarget(url).Some? {
      assert u[0] == 'h';
      assert !HasPrefix(u, RedirectPrefix);
    }
  }

  // ---------------------------------------------------------------------
  // results_to_dataframe

  /** One input record as `results_to_dataframe` reads it: each key may be
      missing, or present with `None`. */
  datatype Row = Row(
    keyword: Option<string>,
    title: Option<string>,
    snippet: Option<string>,
    url: Option<string>,
    position: Option<int>)

  /** One row of the table. */
  datatype FrameRow = FrameRow(keyword: string, title: string, snippet: string, url: string, position: Option<int>)

  /** The table: its column names in order, and its rows. */
  datatype Frame = Frame(columns: seq<string>, rows: seq<FrameRow>)

  /** `expected_cols`. */
  const ExpectedColumns: seq<string> := ["keyword", "title", "snippet", "url", "position"]

  /** The dictionary the loop builds for one record. */
  function NormalizeRow(r: Row): FrameRow {
    FrameRow(Or(r.keyword, ""), NormalizeText(r.title), NormalizeText(r.snippet),
             CleanUrl(Or(r.url, "")), r.position)
  }

  /** The rows of the table: one per record, in order. */
  function Normalized(results: seq<Row>): (rows: seq<FrameRow>)
    ensures |rows| == |results|
  {
    seq(|results|, j requires 0 <= j < |results| => NormalizeRow(results[j]))
  }

  /** One more record appends its row. */
  lemma NormalizedStep(results: seq<Row>, i: nat)
    requires i < |results|
    ensures Normalized(results[..i + 1]) == Normalized(results[..i]) + [NormalizeRow(results[i])]
  {
    assert results[..i + 1] == results[..i] + [results[i]];
  }

  /** `results_to_dataframe`: the normalising loop, then the columns a
      table built from no records lacks are added one by one, so that
      selecting `expected_cols` finds every one of them. */
  method ResultsToDataframe(results: seq<Row>) returns (df: Frame)
    ensures df.columns == ExpectedColumns
    ensures df.rows == Normalized(results)
  {
    var normalized: seq<FrameRow> := [];
    for i := 0 to |results|
      invariant normalized == Normalized(results[..i])
    {
      var r := results[i];
      var title := NormalizeText(r.title);
      var snippet := NormalizeText(r.snippet);
      var url := Or(r.url, "");
      match RedirectTarget(url) {
        case Some(u) => url := u;
        case None =>
      }
      assert url == CleanUrl(Or(r.url, ""));
      normalized := normalized + [FrameRow(Or(r.keyword, ""), title, snippet, url, r.position)];
      NormalizedStep(results, i);
    }
    assert results[..|results|] == results;
    // pd.DataFrame(normalized) has the dictionary keys as columns, or none at all
    var columns: seq<string> := if |normalized| > 0 then ExpectedColumns else [];
    for c := 0 to |ExpectedColumns|
      invariant forall k :: 0 <= k < c ==> ExpectedColumns[k] in columns
      invariant forall x :: x in columns ==> x in ExpectedColumns
    {
      if ExpectedColumns[c] !in columns {
        columns := columns + [ExpectedColumns[c]];
      }
    }
    // df[expected_cols] raises KeyError unless every expected column exists
    assert forall x :: x in ExpectedColumns ==> x in columns;
    df := Frame(ExpectedColumns, normalized);
  }

  /** One table row per record, in order: a missing or falsy keyword becomes
      `""`, the texts are normalised, a redirect URL is unwrapped, and the
      position passes through unchanged. */
  lemma DataframeRows(results: seq<Row>)
    ensures var rows := Normalized(results);
      && |rows| == |results|
      && forall j :: 0 <= j < |rows| ==>
           && (results[j].keyword.None? || results[j].keyword == Some("") ==> rows[j].keyword == "")
           && (results[j].keyword.Some? ==> rows[j].keyword == results[j].keyword.value)
           && Clean(rows[j].title) && Clean(rows[j].snippet)
           && rows[j].url == CleanUrl(results[j].url.UnwrapOr(""))
           && rows[j].position == results[j].position
  {
    forall j | 0 <= j < |results| ensures Clean(Normalized(results)[j].title) && Clean(Normalized(results)[j].snippet) {
      NormalizeTextClean(results[j].title);
      NormalizeTextClean(results[j].snippet);
    }
  }

  /** A table row read back as a record. */
  function AsRow(f: FrameRow): Row {
    Row(Some(f.keyword), Some(f.title), Some(f.snippet), Some(f.url), f.position)
  }

  /** Normalising a row read back from the table changes nothing. */
  lemma NormalizeRowIdempotent(r: Row)
    ensures NormalizeRow(AsRow(NormalizeRow(r))) == NormalizeRow(r)
  {
    var n := NormalizeRow(r);
    var a := AsRow(n);
    assert Or(a.keyword, "") == n.keyword;
    NormalizeTextIdempotent(r.title);
    NormalizeTextIdempotent(r.snippet);
    assert Or(a.url, "") == n.url;
    CleanUrlIdempotent(Or(r.url, ""));
    assert CleanUrl(n.url) == n.url;
  }

  /** Normalising a table's own rows again changes nothing. */
  lemma DataframeIdempotent(results: seq<Row>)
    ensures var rows := Normalized(results);
      Normalized(seq(|rows|, j requires 0 <= j < |rows| => AsRow(rows[j]))) == rows
  {
    var rows := Normalized(results);
    var again := seq(|rows|, j requires 0 <= j < |rows| => AsRow(rows[j]));
    forall j | 0 <= j < |rows| ensures NormalizeRow(again[j]) == rows[j] {
      NormalizeRowIdempotent(results[j]);
    }
  }
}
