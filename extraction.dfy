/** The result extractor of backend/scraper.py (`extract_serp_from_html`).
    HTML parsing and CSS selection are abstracted: the page arrives as the
    list of result containers the primary selector matches and the list of
    all `h3` nodes of the document. */
module Extraction {
  import opened Wrappers

  /** One block matched by `div.g, div[data-hveid], div[data-ved]`: the text of
      its first `h3`, the `href` of its first `a[href]` and the text of its
      first snippet element (`.VwiC3b, .IsZvec, .aCOpRe, .s3v9rd`), each
      absent when the block has none. */
  datatype Container = Container(heading: Option<string>, href: Option<string>, snippet: Option<string>)

  /** One `h3` node of the document, with the `href` of its nearest enclosing `a[href]`. */
  datatype Heading = Heading(text: string, parentHref: Option<string>)

  /** The parsed page, in document order. */
  datatype Dom = Dom(containers: seq<Container>, headings: seq<Heading>)

  /** One extracted result: `{"title", "snippet", "url", "position"}`. */
  datatype SerpRow = SerpRow(title: string, snippet: string, url: string, position: int)

  /** The indices of the containers that have an `h3`, in document order:
      exactly the containers the primary loop does not skip. */
  function TitledIndices(cs: seq<Container>): (idx: seq<nat>)
    ensures forall j :: 0 <= j < |idx| ==> idx[j] < |cs| && cs[idx[j]].heading.Some?
    decreases |cs|
  {
    if cs == [] then []
    else
      var n := |cs| - 1;
      var front := cs[..n];
      assert forall k :: 0 <= k < n ==> front[k] == cs[k];
      TitledIndices(front) + (if cs[n].heading.Some? then [n] else [])
  }

  /** The titled indices are in document order. */
  lemma {:induction false} TitledIndicesIncreasing(cs: seq<Container>)
    ensures forall j, k :: 0 <= j < k < |TitledIndices(cs)| ==> TitledIndices(cs)[j] < TitledIndices(cs)[k]
    decreases |cs|
  {
    if cs != [] {
      var n := |cs| - 1;
      TitledIndicesIncreasing(cs[..n]);
      var front := TitledIndices(cs[..n]);
      var idx := TitledIndices(cs);
      assert idx == front + (if cs[n].heading.Some? then [n] else []);
      forall j, k | 0 <= j < k < |idx| ensures idx[j] < idx[k] {
        if k >= |front| {
          assert idx[j] == front[j] < n;
        } else {
          assert idx[j] == front[j] && idx[k] == front[k];
        }
      }
    }
  }

  /** The titled indices miss no titled container. */
  lemma {:induction false} TitledIndicesComplete(cs: seq<Container>, k: nat)
    requires k < |cs| && cs[k].heading.Some?
    ensures k in TitledIndices(cs)
    decreases |cs|
  {
    var n := |cs| - 1;
    if k < n {
      assert cs[..n][k] == cs[k];
      TitledIndicesComplete(cs[..n], k);
    }
  }

  /** Titled indices of a prefix of the containers are a prefix of the titled
      indices of all of them. */
  lemma {:induction false} TitledIndicesPrefix(cs: seq<Container>, i: nat)
    requires i <= |cs|
    ensures |TitledIndices(cs[..i])| <= |TitledIndices(cs)|
    ensures TitledIndices(cs[..i]) == TitledIndices(cs)[..|TitledIndices(cs[..i])|]
    decreases |cs|
  {
    if i < |cs| {
      var n := |cs| - 1;
      assert cs[..n][..i] == cs[..i];
      TitledIndicesPrefix(cs[..n], i);
    } else {
      assert cs[..i] == cs;
    }
  }

  /** Without a titled container there is no titled index. */
  lemma NoTitledIndices(cs: seq<Container>)
    requires forall k :: 0 <= k < |cs| ==> cs[k].heading.None?
    ensures TitledIndices(cs) == []
  {
  }

  /** One more container examined: its index joins the titled ones when it has an `h3`. */
  lemma TitledIndicesStep(cs: seq<Container>, i: nat)
    requires i < |cs|
    ensures TitledIndices(cs[..i + 1])
         == TitledIndices(cs[..i]) + (if cs[i].heading.Some? then [i] else [])
  {
    assert cs[..i + 1][..i] == cs[..i];
  }

  /** The row of the primary branch for a container that has an `h3`. */
  function ContainerRow(c: Container, position: int): SerpRow
    requires c.heading.Some?
  {
    SerpRow(c.heading.value, c.snippet.UnwrapOr(""), c.href.UnwrapOr(""), position)
  }

  /** The row of the global-`h3` fallback. */
  function HeadingRow(h: Heading, position: int): SerpRow {
    SerpRow(h.text, "", h.parentHref.UnwrapOr(""), position)
  }

  /** What `extract_serp_from_html(html, max_items)` returns: the first
      `max_items` containers that have an `h3`, or, when that yields nothing,
      the first `max_items` `h3` nodes of the document; positions count from 1. */
  function Extracted(dom: Dom, maxItems: int): (r: seq<SerpRow>)
    ensures |r| <= Cap(maxItems)
    ensures forall j :: 0 <= j < |r| ==> r[j].position == j + 1
  {
    var n := Min(|TitledIndices(dom.containers)|, Cap(maxItems));
    if n > 0 then PrimaryRows(dom.containers, n)
    else FallbackRows(dom.headings, Min(|dom.headings|, Cap(maxItems)))
  }

  /** The rows of the first `n` titled containers. */
  function PrimaryRows(cs: seq<Container>, n: nat): (r: seq<SerpRow>)
    requires n <= |TitledIndices(cs)|
  {
    seq(n, j requires 0 <= j < n => ContainerRow(cs[TitledIndices(cs)[j]], j + 1))
  }

  /** The rows of the first `m` `h3` nodes. */
  function FallbackRows(hs: seq<Heading>, m: nat): (r: seq<SerpRow>)
    requires m <= |hs|
  {
    seq(m, j requires 0 <= j < m => HeadingRow(hs[j], j + 1))
  }

  /** `extract_serp_from_html`: the primary loop over result containers with
      its `max_items` check and `pos` counter, then the global-`h3` fallback
      when the primary loop produced nothing. */
  method ExtractSerpFromHtml(dom: Dom, maxItems: int) returns (out: seq<SerpRow>)
    ensures out == Extracted(dom, maxItems)
    ensures |out| <= Cap(maxItems)
    ensures forall j :: 0 <= j < |out| ==> out[j].position == j + 1
  {
    out := [];
    var results := dom.containers;
    var pos := 1;
    var i := 0;
    ghost var kept: seq<nat> := [];
    while i < |results|
      invariant 0 <= i <= |results|
      invariant pos == |out| + 1
      invariant |out| <= Cap(maxItems)
      invariant kept == TitledIndices(results[..i])
      invariant |out| == |kept|
      invariant forall j :: 0 <= j < |out| ==> kept[j] < |results| && results[kept[j]].heading.Some?
      invariant forall j :: 0 <= j < |out| ==> out[j] == ContainerRow(results[kept[j]], j + 1)
    {
      if |out| >= maxItems {
        break;
      }
      var g := results[i];
      TitledIndicesStep(results, i);
      if g.heading.None? {
        i := i + 1;
        continue;
      }
      var title := g.heading.value;
      var url := if g.href.Some? then g.href.value else "";
      var snippet := if g.snippet.Some? then g.snippet.value else "";
      out := out + [SerpRow(title, snippet, url, pos)];
      kept := kept + [i];
      pos := pos + 1;
      i := i + 1;
    }
    PrimaryLoopDone(results, i, out, maxItems);
    if |out| == 0 {
      out := FallbackLoop(dom.headings, maxItems);
    }
    ExtractedShape(dom, maxItems);
  }

  /** The global-`h3` fallback loop: every `h3` of the document in order,
      with the `max_items` check before each. */
  method FallbackLoop(headings: seq<Heading>, maxItems: int) returns (out: seq<SerpRow>)
    ensures out == FallbackRows(headings, Min(|headings|, Cap(maxItems)))
  {
    out := [];
    var k := 0;
    while k < |headings|
      invariant 0 <= k <= |headings|
      invariant |out| == k <= Cap(maxItems)
      invariant forall j :: 0 <= j < k ==> out[j] == HeadingRow(headings[j], j + 1)
    {
      if |out| >= maxItems {
        break;
      }
      var h := headings[k];
      var url := if h.parentHref.Some? then h.parentHref.value else "";
      out := out + [SerpRow(h.text, "", url, |out| + 1)];
      k := k + 1;
    }
    assert |out| == Min(|headings|, Cap(maxItems));
  }

  /** When the primary loop stops, having examined `cs[..i]`, because it ran
      out of containers or reached the bound, it has produced the first
      `Min(titled, bound)` primary rows. */
  lemma PrimaryLoopDone(cs: seq<Container>, i: nat, out: seq<SerpRow>, maxItems: int)
    requires i <= |cs|
    requires i == |cs| || |out| >= maxItems
    requires |out| <= Cap(maxItems)
    requires |out| == |TitledIndices(cs[..i])|
    requires forall j :: 0 <= j < |out| ==> out[j] == ContainerRow(cs[TitledIndices(cs[..i])[j]], j + 1)
    ensures |out| == Min(|TitledIndices(cs)|, Cap(maxItems))
    ensures out == PrimaryRows(cs, |out|)
  {
    TitledIndicesPrefix(cs, i);
    assert i == |cs| ==> cs[..i] == cs;
  }

  /** Bounds: at most `max_items` rows, positions exactly 1..len in order, and
      nothing at all only when the bound is not positive or the page has
      neither a titled container nor an `h3`. */
  lemma ExtractedShape(dom: Dom, maxItems: int)
    ensures |Extracted(dom, maxItems)| <= Cap(maxItems)
    ensures forall j :: 0 <= j < |Extracted(dom, maxItems)| ==> Extracted(dom, maxItems)[j].position == j + 1
    ensures Extracted(dom, maxItems) == []
        <==> maxItems <= 0
             || (dom.headings == [] && forall k :: 0 <= k < |dom.containers| ==> dom.containers[k].heading.None?)
  {
    var idx := TitledIndices(dom.containers);
    if forall k :: 0 <= k < |dom.containers| ==> dom.containers[k].heading.None? {
      NoTitledIndices(dom.containers);
    } else {
      var k :| 0 <= k < |dom.containers| && dom.containers[k].heading.Some?;
      TitledIndicesComplete(dom.containers, k);
    }
  }

  /** Primary branch: when some container has an `h3` and the bound is
      positive, the rows are the titled containers in document order (none
      skipped, none reordered), and a missing link or snippet becomes `""`. */
  lemma PrimaryKeepsTitledContainers(dom: Dom, maxItems: int, k: nat)
    requires k < |dom.containers| && dom.containers[k].heading.Some?
    requires maxItems > 0
    ensures var r := Extracted(dom, maxItems);
            var idx := TitledIndices(dom.containers);
      && |r| == Min(|idx|, maxItems) > 0
      && (forall j, j' :: 0 <= j < j' < |idx| ==> idx[j] < idx[j'])
      && (forall c :: 0 <= c < |dom.containers| && dom.containers[c].heading.Some? ==> c in idx)
      && forall j :: 0 <= j < |r| ==>
           && Some(r[j].title) == dom.containers[idx[j]].heading
           && r[j].url == dom.containers[idx[j]].href.UnwrapOr("")
           && r[j].snippet == dom.containers[idx[j]].snippet.UnwrapOr("")
  {
    TitledIndicesIncreasing(dom.containers);
    forall c | 0 <= c < |dom.containers| && dom.containers[c].heading.Some?
      ensures c in TitledIndices(dom.containers)
    {
      TitledIndicesComplete(dom.containers, c);
    }
  }

  /** Fallback branch: it runs only when no container has an `h3`; it then
      takes the document's `h3` nodes in order, with an empty snippet. */
  lemma FallbackOnlyWithoutTitledContainers(dom: Dom, maxItems: int)
    requires forall k :: 0 <= k < |dom.containers| ==> dom.containers[k].heading.None?
    ensures var r := Extracted(dom, maxItems);
      && |r| == Min(|dom.headings|, Cap(maxItems))
      && forall j :: 0 <= j < |r| ==>
           && r[j].title == dom.headings[j].text
           && r[j].snippet == ""
           && r[j].url == dom.headings[j].parentHref.UnwrapOr("")
  {
    NoTitledIndices(dom.containers);
  }
}
