/** The JSON-to-rows mapping inside `serpapi_search` and `google_cse_search`
    of backend/scraper.py. The HTTP request, `raise_for_status` and JSON
    decoding are outside the model: a mapper starts from the decoded body. */
module ApiRows {
  import opened Wrappers
  import opened Text
  import opened Extraction

  /** One entry of SerpAPI's `organic_results`; every key may be missing. */
  datatype SerpApiItem = SerpApiItem(
    title: Option<string>,
    position: Option<int>,
    snippet: Option<string>,
    description: Option<string>,
    link: Option<string>,
    url: Option<string>)

  /** The decoded SerpAPI body; `organicResults` is absent when the key is missing. */
  datatype SerpApiResponse = SerpApiResponse(organicResults: Option<seq<SerpApiItem>>)

  /** One entry of Google Custom Search's `items`; every key may be missing.
      A key present with JSON `null` is read as missing here. */
  datatype CseItem = CseItem(title: Option<string>, snippet: Option<string>, link: Option<string>)

  /** The decoded Custom Search body; `items` is absent when the key is missing. */
  datatype CseResponse = CseResponse(items: Option<seq<CseItem>>)

  /** Python's `s[:k]`: a non-negative `k` keeps the first `k` elements, a
      negative one drops the last `-k`. */
  function SliceTo<T>(s: seq<T>, k: int): (r: seq<T>)
    ensures |r| <= |s| && r == s[..|r|]
    ensures k >= 0 ==> |r| == Min(|s|, k)
    ensures k < 0 ==> |r| == if |s| + k < 0 then 0 else |s| + k
  {
    if k >= 0 then (if k <= |s| then s[..k] else s)
    else if -k <= |s| then s[..|s| + k]
    else []
  }

  /** A JSON scalar as it can land in a row's `title`. */
  datatype Scalar = Text(text: string) | Number(number: int)

  /** `item.get("title") or item.get("position") or ""`, as written: when the
      title is missing or empty and the position is a non-zero number, the
      title becomes that number. */
  function SerpApiTitleAsWritten(item: SerpApiItem): (r: Scalar)
    ensures r.Text? ==> r.text == "" || item.title == Some(r.text)
    ensures r.Number? ==> item.position == Some(r.number) && r.number != 0
  {
    if item.title.Some? && item.title.value != "" then Text(item.title.value)
    else if item.position.Some? && item.position.value != 0 then Number(item.position.value)
    else Text("")
  }

  /** The as-written title is not a string for every item that lacks a title
      but carries a position, which SerpAPI always sends. */
  lemma SerpApiTitleAsWrittenNotText(item: SerpApiItem)
    requires item.title.None? || item.title == Some("")
    requires item.position.Some? && item.position.value >= 1
    ensures SerpApiTitleAsWritten(item) == Number(item.position.value)
    ensures !SerpApiTitleAsWritten(item).Text?
  {
  }

  /** The title as evidently intended: the item's title, or `""`. */
  function SerpApiTitle(item: SerpApiItem): (r: string)
    ensures item.title.Some? && item.title.value != "" ==> r == item.title.value
    ensures item.title.None? || item.title == Some("") ==> r == ""
  {
    Or(item.title, "")
  }

  /** The corrected title is always text, and it agrees with the as-written
      one on every item where the as-written one is text. */
  lemma SerpApiTitleAgrees(item: SerpApiItem)
    ensures SerpApiTitleAsWritten(item).Text? ==> SerpApiTitleAsWritten(item) == Text(SerpApiTitle(item))
    ensures SerpApiTitleAsWritten(item).Number? <==> SerpApiTitle(item) == "" && item.position.Some? && item.position.value != 0
  {
  }

  /** One SerpAPI row: snippet falls back to `description`, link to `url`, then `""`. */
  function SerpApiRow(item: SerpApiItem, position: int): SerpRow {
    SerpRow(SerpApiTitle(item), Or(item.snippet, Or(item.description, "")),
            Or(item.link, Or(item.url, "")), position)
  }

  /** One Custom Search row: `itm.get(key, "")` for each field. */
  function CseRow(item: CseItem, position: int): SerpRow {
    SerpRow(item.title.UnwrapOr(""), item.snippet.UnwrapOr(""), item.link.UnwrapOr(""), position)
  }

  /** `data.get("organic_results") or data.get("organic_results", [])`. */
  function OrganicResults(resp: SerpApiResponse): seq<SerpApiItem> {
    resp.organicResults.UnwrapOr([])
  }

  /** `data.get("items", [])`. */
  function CseItems(resp: CseResponse): seq<CseItem> {
    resp.items.UnwrapOr([])
  }

  /** The rows `serpapi_search` builds from a decoded body. */
  function SerpApiRows(resp: SerpApiResponse, maxItems: int): (r: seq<SerpRow>)
    ensures |r| == |SliceTo(OrganicResults(resp), maxItems)|
    ensures forall j :: 0 <= j < |r| ==> r[j] == SerpApiRow(OrganicResults(resp)[j], j + 1)
  {
    var items := SliceTo(OrganicResults(resp), maxItems);
    seq(|items|, j requires 0 <= j < |items| => SerpApiRow(items[j], j + 1))
  }

  /** The rows `google_cse_search` builds from a decoded body. */
  function CseRows(resp: CseResponse, maxItems: int): (r: seq<SerpRow>)
    ensures |r| == |SliceTo(CseItems(resp), maxItems)|
    ensures forall j :: 0 <= j < |r| ==> r[j] == CseRow(CseItems(resp)[j], j + 1)
  {
    var items := SliceTo(CseItems(resp), maxItems);
    seq(|items|, j requires 0 <= j < |items| => CseRow(items[j], j + 1))
  }

  /** The loop of `serpapi_search` over `serp[:max_items]` with its `pos` counter. */
  method SerpApiSearch(resp: SerpApiResponse, maxItems: int) returns (out: seq<SerpRow>)
    ensures out == SerpApiRows(resp, maxItems)
    ensures maxItems >= 0 ==> |out| <= maxItems
    ensures forall j :: 0 <= j < |out| ==> out[j].position == j + 1
  {
    var serp := OrganicResults(resp);
    var items := SliceTo(serp, maxItems);
    out := [];
    var pos := 1;
    for i := 0 to |items|
      invariant pos == i + 1 && |out| == i
      invariant forall j :: 0 <= j < i ==> out[j] == SerpApiRow(items[j], j + 1)
    {
      var item := items[i];
      var title := Or(item.title, "");
      var snippet := Or(item.snippet, Or(item.description, ""));
      var link := Or(item.link, Or(item.url, ""));
      out := out + [SerpRow(title, snippet, link, pos)];
      pos := pos + 1;
    }
  }

  /** The loop of `google_cse_search` over `items[:max_items]` with its `pos` counter. */
  method GoogleCseSearch(resp: CseResponse, maxItems: int) returns (out: seq<SerpRow>)
    ensures out == CseRows(resp, maxItems)
    ensures maxItems >= 0 ==> |out| <= maxItems
    ensures forall j :: 0 <= j < |out| ==> out[j].position == j + 1
  {
    var items := SliceTo(CseItems(resp), maxItems);
    out := [];
    var pos := 1;
    for i := 0 to |items|
      invariant pos == i + 1 && |out| == i
      invariant forall j :: 0 <= j < i ==> out[j] == CseRow(items[j], j + 1)
    {
      var itm := items[i];
      var title := if itm.title.Some? then itm.title.value else "";
      var snippet := if itm.snippet.Some? then itm.snippet.value else "";
      var link := if itm.link.Some? then itm.link.value else "";
      out := out + [SerpRow(title, snippet, link, pos)];
      pos := pos + 1;
    }
  }

  /** SerpAPI rows: one per leading item, in input order, positions 1..n,
      at most `max_items` of them (a negative bound drops items from the end),
      and `""` for a missing snippet or link. */
  lemma SerpApiRowsShape(resp: SerpApiResponse, maxItems: int)
    ensures var r := SerpApiRows(resp, maxItems);
            var items := OrganicResults(resp);
      && (maxItems >= 0 ==> |r| == Min(|items|, maxItems))
      && (maxItems < 0 ==> |r| == if |items| + maxItems < 0 then 0 else |items| + maxItems)
      && forall j :: 0 <= j < |r| ==>
           && r[j].position == j + 1
           && r[j].title == SerpApiTitle(items[j])
           && (Or(items[j].snippet, "") == "" && Or(items[j].description, "") == "" ==> r[j].snippet == "")
           && (Or(items[j].link, "") == "" && Or(items[j].url, "") == "" ==> r[j].url == "")
  {
  }

  /** Custom Search rows: one per leading item, in input order, positions
      1..n, at most `max_items` of them, and `""` for a missing field. */
  lemma CseRowsShape(resp: CseResponse, maxItems: int)
    ensures var r := CseRows(resp, maxItems);
            var items := CseItems(resp);
      && (maxItems >= 0 ==> |r| == Min(|items|, maxItems))
      && forall j :: 0 <= j < |r| ==>
           && r[j].position == j + 1
           && r[j].title == items[j].title.UnwrapOr("")
           && (items[j].snippet.None? ==> r[j].snippet == "")
           && (items[j].link.None? ==> r[j].url == "")
  {
  }
}
