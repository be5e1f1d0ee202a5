/**
 * One registry entry and what the client does with it (oembed/oembed.go:42-156):
 * the request URL of FetchOembed (ComposeURL, the maxwidth/maxheight
 * parameters, buildQueryString), the handling of the response in parseOembed,
 * and MatchURL. The compiled regular expression of an Item is kept as its
 * pattern text; matching is the parameter `matches(pattern, text)`.
 */
module Items {
  import opened Wrappers
  import opened Strings
  import Strconv
  import UrlEscape
  import opened OembedInfo

  /** Go's `int` on a 64-bit platform. */
  type GoInt = x: int | Strconv.MinInt64 <= x <= Strconv.MaxInt64

  /** Item (oembed/oembed.go:43-49); `pattern` stands for the compiled regex. */
  datatype Item = Item(
    isEndpointURLComplete: bool,
    endpointURL: string,
    providerName: string,
    providerURL: string,
    pattern: string)

  /**
   * Options (oembed/oembed.go:52-59) without the HTTP client. `order` is the
   * order in which Go's map iteration visits `extraOpts` in one call: any
   * arrangement of its keys.
   */
  datatype Options = Options(
    url: string,
    maxWidth: GoInt,
    maxHeight: GoInt,
    acceptLanguage: string,
    extraOpts: map<string, string>)

  predicate IsEnumeration(order: seq<string>, m: map<string, string>) {
    multiset(order) == multiset(m.Keys)
  }

  /**
   * ComposeURL: the URL of the oEmbed resource for target `u`. It always starts
   * with the endpoint URL, is exactly that URL when the endpoint is complete,
   * and otherwise adds only query-safe characters after it.
   */
  function ComposeURL(item: Item, u: string): (r: string)
    ensures HasPrefix(r, item.endpointURL)
    ensures item.isEndpointURLComplete ==> r == item.endpointURL
    ensures forall i :: |item.endpointURL| <= i < |r| ==> UrlEscape.IsQuerySafe(r[i])
  {
    UrlEscape.QueryEscapeCorrect(u);
    if item.isEndpointURLComplete then item.endpointURL
    else item.endpointURL + UrlEscape.QueryEscape(u)
  }

  /**
   * A complete endpoint URL is used as it is; otherwise the target URL is
   * appended to it, escaped as one query value (no `&`, `=`, `#`, `?` or
   * space) that decodes back to the target's bytes.
   */
  lemma ComposeURLCorrect(item: Item, u: string)
    ensures var r := ComposeURL(item, u);
      && (item.isEndpointURLComplete ==> r == item.endpointURL)
      && (!item.isEndpointURLComplete ==>
            HasPrefix(r, item.endpointURL)
            && UrlEscape.QueryUnescape(r[|item.endpointURL|..]) == Some(UrlEscape.EncodeUtf8(u))
            && forall i :: |item.endpointURL| <= i < |r| ==> UrlEscape.IsQuerySafe(r[i]))
  {
    if !item.isEndpointURLComplete {
      UrlEscape.QueryEscapeCorrect(u);
      var e := UrlEscape.QueryEscape(u);
      assert (item.endpointURL + e)[|item.endpointURL|..] == e;
    }
  }

  /** The characters MatchURL trims: carriage return and line feed. */
  const LineBreaks: set<char> := {'\r', '\n'}

  /**
   * MatchURL: the item's pattern applied to the URL with CR and LF trimmed
   * from both ends. A URL that neither starts nor ends with a line break is
   * tested as it is.
   */
  function MatchURL(item: Item, url: string, matches: (string, string) -> bool): (r: bool)
    ensures url == [] || (url[0] !in LineBreaks && url[|url| - 1] !in LineBreaks) ==>
      r == matches(item.pattern, url)
  {
    matches(item.pattern, Trim(url, LineBreaks))
  }

  /** Extra CR and LF characters around a URL do not change whether an item matches it. */
  lemma MatchURLIgnoresLineBreaks(item: Item, pre: string, url: string, suf: string, matches: (string, string) -> bool)
    requires AllIn(pre, LineBreaks) && AllIn(suf, LineBreaks)
    ensures MatchURL(item, pre + url + suf, matches) == MatchURL(item, url, matches)
  {
    TrimIgnoresCutAtEnds(pre, url, suf, LineBreaks);
  }

  // ------------------------------------------------------------ query string

  /** What one entry of the extras adds: `&key=value`, neither part escaped. */
  function Segment(key: string, value: string): string {
    "&" + key + "=" + value
  }

  /** The extras written in the given key order. */
  function QueryString(params: map<string, string>, order: seq<string>): string
    requires forall i :: 0 <= i < |order| ==> order[i] in params
    decreases |order|
  {
    if order == [] then ""
    else
      var key := order[|order| - 1];
      QueryString(params, order[..|order| - 1]) + Segment(key, params[key])
  }

  /** buildQueryString: one `&key=value` per entry, in the map's iteration order. */
  method BuildQueryString(params: map<string, string>, order: seq<string>) returns (q: string)
    requires IsEnumeration(order, params)
    ensures forall i :: 0 <= i < |order| ==> order[i] in params
    ensures q == QueryString(params, order)
  {
    assert forall i :: 0 <= i < |order| ==> order[i] in params by {
      forall i | 0 <= i < |order|
        ensures order[i] in params
      {
        assert order[i] in multiset(order);
      }
    }
    q := "";
    var i := 0;
    while i < |order|
      invariant 0 <= i <= |order|
      invariant q == QueryString(params, order[..i])
    {
      var key := order[i];
      q := q + "&" + key + "=" + params[key];
      assert order[..i + 1][..i] == order[..i];
      i := i + 1;
    }
    assert order[..|order|] == order;
  }

  /** Some key of a non-empty map. */
  ghost function AnyKey(m: map<string, string>): (k: string)
    requires |m| > 0
    ensures k in m
  {
    assert m.Keys != {};
    var k :| k in m; k
  }

  /** The summed length of all segments, Σ (2 + |key| + |value|), taken over the map itself. */
  ghost function SegmentsLength(m: map<string, string>): nat
    decreases |m|
  {
    if |m| == 0 then 0
    else
      var k := AnyKey(m);
      2 + |k| + |m[k]| + SegmentsLength(m - {k})
  }

  /** SegmentsLength may take out any key first. */
  lemma {:induction false} SegmentsLengthRemove(m: map<string, string>, k: string)
    requires k in m
    ensures SegmentsLength(m) == 2 + |k| + |m[k]| + SegmentsLength(m - {k})
    decreases |m|
  {
    var j := AnyKey(m);
    if j != k {
      var mj, mk := m - {j}, m - {k};
      assert SegmentsLength(mj) == 2 + |k| + |m[k]| + SegmentsLength(mj - {k}) by {
        RemoveOne(m, j);
        SegmentsLengthRemove(mj, k);
      }
      assert SegmentsLength(mk) == 2 + |j| + |m[j]| + SegmentsLength(mk - {j}) by {
        RemoveOne(m, k);
        SegmentsLengthRemove(mk, j);
      }
      assert mj - {k} == mk - {j};
    }
  }

  lemma RemoveOne(m: map<string, string>, k: string)
    requires k in m
    ensures |m - {k}| == |m| - 1
    ensures forall x :: x in m && x != k ==> x in m - {k} && (m - {k})[x] == m[x]
  {
    assert (m - {k}).Keys == m.Keys - {k};
  }

  /** QueryString reads only the entries it writes. */
  lemma {:induction false} QueryStringFrame(p1: map<string, string>, p2: map<string, string>, order: seq<string>)
    requires forall i :: 0 <= i < |order| ==> order[i] in p1 && order[i] in p2 && p1[order[i]] == p2[order[i]]
    ensures QueryString(p1, order) == QueryString(p2, order)
    decreases |order|
  {
    if order != [] {
      QueryStringFrame(p1, p2, order[..|order| - 1]);
    }
  }

  /**
   * buildQueryString of an empty map is empty; otherwise each entry adds
   * exactly one segment, so the length is Σ (2 + |key| + |value|) whatever
   * order the map is iterated in.
   */
  lemma {:induction false} QueryStringLength(params: map<string, string>, order: seq<string>)
    requires IsEnumeration(order, params)
    requires forall i :: 0 <= i < |order| ==> order[i] in params
    ensures |QueryString(params, order)| == SegmentsLength(params)
    ensures |params| == 0 <==> QueryString(params, order) == ""
    decreases |order|
  {
    if order == [] {
      assert multiset(params.Keys) == multiset{};
      assert params.Keys == {};
      assert |params| == |params.Keys|;
    } else {
      var x := order[|order| - 1];
      var rest := order[..|order| - 1];
      assert order == rest + [x];
      var m := params - {x};
      assert multiset(order) == multiset(rest) + multiset{x};
      assert multiset(params.Keys) == multiset(m.Keys) + multiset{x} by {
        assert params.Keys == m.Keys + {x};
        assert x !in m.Keys;
      }
      assert multiset(rest) == multiset(order) - multiset{x};
      assert multiset(m.Keys) == multiset(params.Keys) - multiset{x};
      forall i | 0 <= i < |rest|
        ensures rest[i] in m && rest[i] in params && params[rest[i]] == m[rest[i]]
      {
        assert rest[i] in multiset(m.Keys);
      }
      QueryStringLength(m, rest);
      QueryStringFrame(params, m, rest);
      SegmentsLengthRemove(params, x);
      assert QueryString(params, order) != "" by {
        assert |Segment(x, params[x])| >= 2;
      }
    }
  }

  // ------------------------------------------------------------ request URL

  /** The `&name=N` parameter FetchOembed adds for a positive option, or nothing; `key` is `&name=`. */
  function SizeParam(key: string, n: GoInt): string {
    if n > 0 then key + Strconv.FormatInt(n) else ""
  }

  /** The request URL of FetchOembed (oembed/oembed.go:112-124). */
  function RequestURL(item: Item, opts: Options, order: seq<string>): string
    requires forall i :: 0 <= i < |order| ==> order[i] in opts.extraOpts
  {
    ComposeURL(item, opts.url)
      + SizeParam("&maxwidth=", opts.maxWidth)
      + SizeParam("&maxheight=", opts.maxHeight)
      + (if |opts.extraOpts| > 0 then QueryString(opts.extraOpts, order) else "")
  }

  /** The URL-building part of FetchOembed, reassigning the URL one step at a time. */
  method FetchRequestURL(item: Item, opts: Options, order: seq<string>) returns (resURL: string)
    requires IsEnumeration(order, opts.extraOpts)
    ensures forall i :: 0 <= i < |order| ==> order[i] in opts.extraOpts
    ensures resURL == RequestURL(item, opts, order)
  {
    resURL := ComposeURL(item, opts.url);
    resURL := AppendSize(resURL, "&maxwidth=", opts.maxWidth);
    resURL := AppendSize(resURL, "&maxheight=", opts.maxHeight);
    assert forall i :: 0 <= i < |order| ==> order[i] in opts.extraOpts by {
      forall i | 0 <= i < |order|
        ensures order[i] in opts.extraOpts
      {
        assert order[i] in multiset(order);
      }
    }
    if |opts.extraOpts| > 0 {
      var q := BuildQueryString(opts.extraOpts, order);
      resURL := resURL + q;
    }
  }

  /** One `if n > 0 { resURL = fmt.Sprintf("%s&name=%d", resURL, n) }` step of FetchOembed. */
  method AppendSize(u: string, key: string, n: GoInt) returns (r: string)
    ensures r == u + SizeParam(key, n)
  {
    r := u;
    if n > 0 {
      r := r + key + Strconv.FormatInt(n);
    }
  }

  /** A size parameter is present exactly for a positive option, and its number reads back as the option. */
  lemma SizeParamRoundTrip(key: string, n: GoInt)
    ensures SizeParam(key, n) == "" <==> n <= 0
    ensures n > 0 ==> var p := SizeParam(key, n);
      HasPrefix(p, key) && Strconv.ParseInt(p[|key|..]) == Strconv.IntResult(n, None)
  {
    if n > 0 {
      var p := SizeParam(key, n);
      assert p[|key|..] == Strconv.FormatInt(n);
      Strconv.ParseFormatRoundTrip(n);
    }
  }

  /**
   * The request URL starts with ComposeURL of the target; `&maxwidth=N` comes
   * next only for a positive MaxWidth, then `&maxheight=N` only for a positive
   * MaxHeight, then the extras, whose length does not depend on the map's order.
   */
  lemma RequestURLLayout(item: Item, opts: Options, order: seq<string>)
    requires IsEnumeration(order, opts.extraOpts)
    requires forall i :: 0 <= i < |order| ==> order[i] in opts.extraOpts
    ensures var c := ComposeURL(item, opts.url);
      var r := RequestURL(item, opts, order);
      var w := SizeParam("&maxwidth=", opts.maxWidth);
      var h := SizeParam("&maxheight=", opts.maxHeight);
      && HasPrefix(r, c)
      && HasPrefix(r[|c|..], w)
      && HasPrefix(r[|c| + |w|..], h)
      && |r| == |c| + |w| + |h| + SegmentsLength(opts.extraOpts)
      && (r == c <==> opts.maxWidth <= 0 && opts.maxHeight <= 0 && |opts.extraOpts| == 0)
  {
    var c := ComposeURL(item, opts.url);
    var w := SizeParam("&maxwidth=", opts.maxWidth);
    var h := SizeParam("&maxheight=", opts.maxHeight);
    var e := if |opts.extraOpts| > 0 then QueryString(opts.extraOpts, order) else "";
    ConcatLayout(c, w, h, e);
    QueryStringLength(opts.extraOpts, order);
    SizeParamRoundTrip("&maxwidth=", opts.maxWidth);
    SizeParamRoundTrip("&maxheight=", opts.maxHeight);
  }

  lemma ConcatLayout(c: string, w: string, h: string, e: string)
    ensures var r := c + w + h + e;
      && HasPrefix(r, c) && HasPrefix(r[|c|..], w) && HasPrefix(r[|c| + |w|..], h)
      && |r| == |c| + |w| + |h| + |e|
      && (r == c <==> w == "" && h == "" && e == "")
  {
    var r := c + w + h + e;
    assert r == c + (w + (h + e));
    assert r[|c|..] == w + (h + e);
    assert r[|c| + |w|..] == h + e;
  }

  // ------------------------------------------------------------ response

  /** The record parseOembed returns on success: decoded, normalised, then defaulted. */
  function WithDefaults(r: Record, u: string, item: Item): Record {
    r.(url := if |r.url| == 0 then u else r.url,
       providerURL := if |r.providerURL| == 0 then item.providerURL else r.providerURL,
       providerName := if |r.providerName| == 0 then item.providerName else r.providerName)
  }

  /** What FillFromJSON leaves in a fresh Info when decoding succeeds. */
  function Decoded(p: Payload): Record {
    Normalized(Unmarshalled(EmptyRecord, p))
  }

  /**
   * parseOembed: a status above 200 yields an Info holding only that status,
   * without decoding anything; otherwise the decoded Info, or the decoding
   * error with no Info; on success the URL, provider URL and provider name
   * fall back to the target URL and the item's provider when empty. A `null`
   * body ends in FillFromJSON's nil dereference, with no Info.
   */
  method ParseOembed(item: Item, u: string, status: int, decoding: Decoding) returns (info: Info?, err: Option<string>)
    ensures status > 200 ==> info != null && fresh(info) && err.None? && info.Value() == EmptyRecord.(status := status)
    ensures status <= 200 && decoding.Null? ==> info == null && err == Some(NilDereference)
    ensures status <= 200 && decoding.Object? && decoding.error.Some? ==> info == null && err == decoding.error
    ensures status <= 200 && decoding.Object? && decoding.error.None? ==>
      info != null && fresh(info) && err.None? && info.Value() == WithDefaults(Decoded(decoding.stored), u, item)
  {
    hide Normalized, Unmarshalled;
    if status > 200 {
      info := new Info();
      info.status := status;
      return info, None;
    }
    info := new Info();
    err := info.FillFromJSON(decoding);
    if err.Some? {
      return null, err;
    }
    if |info.url| == 0 {
      info.url := u;
    }
    if |info.providerURL| == 0 {
      info.providerURL := item.providerURL;
    }
    if |info.providerName| == 0 {
      info.providerName := item.providerName;
    }
  }

  /**
   * On the success path the status is 0, each of URL, provider URL and
   * provider name is replaced exactly when it decoded empty, and every other
   * field is as decoded.
   */
  lemma ParsedRecord(p: Payload, u: string, item: Item)
    ensures var d := Decoded(p);
      var r := WithDefaults(d, u, item);
      && r.status == 0
      && r.(url := d.url, providerURL := d.providerURL, providerName := d.providerName) == d
      && (r.url == if d.url == "" then u else d.url)
      && (r.providerURL == if d.providerURL == "" then item.providerURL else d.providerURL)
      && (r.providerName == if d.providerName == "" then item.providerName else d.providerName)
      && Strconv.IsCanonical(r.width) && Strconv.IsCanonical(r.height)
      && Strconv.IsCanonical(r.thumbnailWidth) && Strconv.IsCanonical(r.thumbnailHeight)
  {
    NormalizedRecord(Unmarshalled(EmptyRecord, p));
  }
}
