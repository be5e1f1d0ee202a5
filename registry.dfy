/**
 * The provider registry of the client (oembed/oembed.go:23-40, 158-222):
 * the catalogue of providers and endpoints, the Items ParseProviders builds
 * from it (one per scheme of every endpoint, in catalogue order), FindItem,
 * which returns the first Item whose pattern matches a URL, and
 * prepareEndpointURL, which turns a catalogue endpoint URL into the prefix a
 * target URL is appended to.
 */
module Registry {
  import opened Wrappers
  import opened Strings
  import opened Patterns
  import opened Items

  /** Endpoint (oembed/oembed.go:29-33). */
  datatype Endpoint = Endpoint(url: string, discovery: bool, schemes: seq<string>)

  /** Provider (oembed/oembed.go:36-40). */
  datatype Provider = Provider(name: string, url: string, endpoints: seq<Endpoint>)

  /**
   * Why ParseProviders gives up: the catalogue could not be read or decoded
   * (the error's text), or a scheme's pattern does not compile, where Go's
   * regexp compilation panics (the pattern text).
   */
  datatype ParseError = CatalogError(message: string) | BadScheme(pattern: string)

  // ------------------------------------------------------- endpoint URL

  /** The endpoint URL after its two substitutions: `{format}` becomes `json`, every slash-star pair is dropped. */
  function Substituted(u: string): string {
    ReplaceAll(ReplaceAll(u, "{format}", "json"), "/*", "")
  }

  /** The prefix prepareEndpointURL returns: the format and an empty `url` parameter are appended. */
  function EndpointURL(u: string): string {
    var v := Substituted(u);
    if IndexRune(v, '?').None? then v + "?format=json&url=" else v + "&format=json&url="
  }

  /** prepareEndpointURL, reassigning the URL one step at a time. */
  method PrepareEndpointURL(u: string) returns (r: string)
    ensures r == EndpointURL(u)
  {
    r := ReplaceAll(u, "{format}", "json");
    r := ReplaceAll(r, "/*", "");
    if IndexRune(r, '?').None? {
      r := r + "?format=json&url=";
    } else {
      r := r + "&format=json&url=";
    }
  }

  /**
   * The prepared URL is the substituted one, then `?` when the catalogue URL
   * has no query yet and `&` when it has one (the substitutions neither add
   * nor remove a `?`), then `format=json&url=`, so that the escaped target
   * becomes the value of `url`.
   */
  lemma EndpointURLShape(u: string)
    ensures EndpointURL(u) == Substituted(u) + [if '?' in u then '&' else '?'] + "format=json&url="
  {
    hide ReplaceAll, IndexRune;
    var v1 := ReplaceAll(u, "{format}", "json");
    var v := Substituted(u);
    ReplaceAllKeepsChar(u, "{format}", "json", '?');
    ReplaceAllKeepsChar(v1, "/*", "", '?');
    assert IndexRune(v, '?').None? <==> '?' !in u;
    var c := if '?' in u then '&' else '?';
    assert [c] + "format=json&url=" == if '?' in u then "&format=json&url=" else "?format=json&url=";
    AppendAssoc(v, [c], "format=json&url=");
  }

  /**
   * A catalogue URL with no `{format}` placeholder, no `/` directly followed
   * by `*` and no `?` gets `?format=json&url=` appended and is otherwise kept.
   */
  lemma PlainEndpointURL(u: string)
    requires !Contains(u, "{format}") && !Contains(u, "/*") && '?' !in u
    ensures EndpointURL(u) == u + "?format=json&url="
  {
    ReplaceAllAbsent(u, "{format}", "json");
    ReplaceAllAbsent(u, "/*", "");
  }

  /** A `{format}` placeholder between plain text becomes `json`. */
  lemma FormatPlaceholder(a: string, b: string)
    requires '{' !in a && '*' !in a && '?' !in a
    requires '{' !in b && '*' !in b && '?' !in b
    ensures EndpointURL(a + "{format}" + b) == a + "json" + b + "?format=json&url="
  {
    var u := a + "{format}" + b;
    assert ReplaceAll(u, "{format}", "json") == a + "json" + b by {
      assert u == a + ("{format}" + b);
      ReplaceAllPrefix(a, "{format}" + b, "{format}", "json");
      assert ("{format}" + b)[..8] == "{format}" && ("{format}" + b)[8..] == b;
      MissingCharNotContained(b, "{format}", '{');
      ReplaceAllAbsent(b, "{format}", "json");
    }
    var v := a + "json" + b;
    assert '*' !in v && '?' !in v;
    MissingCharNotContained(v, "/*", '*');
    ReplaceAllAbsent(v, "/*", "");
  }

  // ------------------------------------------------------- candidates

  /** The scheme ParseProviders gives an endpoint that lists none: the provider's whole site. */
  function DefaultScheme(p: Provider): string {
    TrimRight(p.url, {'/'}) + "/*"
  }

  function SchemesOf(p: Provider, e: Endpoint): seq<string> {
    if |e.schemes| == 0 then [DefaultScheme(p)] else e.schemes
  }

  /** The Item ParseProviders builds for one scheme of an endpoint. */
  function CandidateItem(p: Provider, e: Endpoint, scheme: string): Item {
    Item(false, EndpointURL(e.url), p.name, p.url, SchemePattern(scheme))
  }

  /** The Items of the first `k` schemes in `ss`, in order. */
  function SchemeItemsUpTo(p: Provider, e: Endpoint, ss: seq<string>, k: nat): seq<Item>
    requires k <= |ss|
  {
    if k == 0 then [] else SchemeItemsUpTo(p, e, ss, k - 1) + [CandidateItem(p, e, ss[k - 1])]
  }

  /** The Items of one endpoint: one per scheme, or one for the default scheme. */
  function EndpointItems(p: Provider, e: Endpoint): seq<Item> {
    var ss := SchemesOf(p, e);
    SchemeItemsUpTo(p, e, ss, |ss|)
  }

  /** The Items of the first `j` endpoints of a provider, endpoint after endpoint. */
  function ProviderItemsUpTo(p: Provider, j: nat): seq<Item>
    requires j <= |p.endpoints|
  {
    if j == 0 then [] else ProviderItemsUpTo(p, j - 1) + EndpointItems(p, p.endpoints[j - 1])
  }

  function ProviderItems(p: Provider): seq<Item> {
    ProviderItemsUpTo(p, |p.endpoints|)
  }

  /** The Items of the first `i` providers of a catalogue, provider after provider. */
  function CandidatesUpTo(ps: seq<Provider>, i: nat): seq<Item>
    requires i <= |ps|
  {
    if i == 0 then [] else CandidatesUpTo(ps, i - 1) + ProviderItems(ps[i - 1])
  }

  /** The Items ParseProviders builds from a decoded catalogue, in order. */
  function Candidates(ps: seq<Provider>): seq<Item> {
    CandidatesUpTo(ps, |ps|)
  }

  predicate AllCompile(items: seq<Item>, compiles: string -> bool) {
    forall j {:trigger compiles(items[j].pattern)} :: 0 <= j < |items| ==> compiles(items[j].pattern)
  }

  function FirstBadFrom(items: seq<Item>, compiles: string -> bool, i: nat): (r: Option<nat>)
    requires i <= |items|
    ensures r.Some? ==> i <= r.value < |items| && !compiles(items[r.value].pattern)
    ensures r.Some? ==> forall j {:trigger compiles(items[j].pattern)} :: i <= j < r.value ==> compiles(items[j].pattern)
    ensures r.None? ==> forall j {:trigger compiles(items[j].pattern)} :: i <= j < |items| ==> compiles(items[j].pattern)
    decreases |items| - i
  {
    if i == |items| then None
    else if !compiles(items[i].pattern) then Some(i)
    else FirstBadFrom(items, compiles, i + 1)
  }

  /** The pattern of the first item that does not compile, where ParseProviders panics. */
  function FirstBad(items: seq<Item>, compiles: string -> bool): (r: Option<string>)
    ensures r.None? <==> AllCompile(items, compiles)
  {
    match FirstBadFrom(items, compiles, 0)
    case None => None
    case Some(k) => Some(items[k].pattern)
  }

  /** The first failure is the one at `k` when everything before `k` compiles. */
  lemma FirstBadAt(items: seq<Item>, compiles: string -> bool, k: nat)
    requires k < |items| && !compiles(items[k].pattern)
    requires forall j {:trigger compiles(items[j].pattern)} :: 0 <= j < k ==> compiles(items[j].pattern)
    ensures FirstBad(items, compiles) == Some(items[k].pattern)
  {
    var r := FirstBadFrom(items, compiles, 0);
    assert r.Some?;
    assert r.value == k;
  }

  /**
   * The first failure in two blocks, one after the other: the first block's,
   * or, when all of it compiles, the second block's.
   */
  lemma FirstBadAppend(a: seq<Item>, b: seq<Item>, compiles: string -> bool)
    ensures FirstBad(a + b, compiles) == if FirstBad(a, compiles).Some? then FirstBad(a, compiles) else FirstBad(b, compiles)
  {
    if FirstBad(a, compiles).Some? {
      var k := FirstBadFrom(a, compiles, 0).value;
      assert (a + b)[k] == a[k];
      assert forall j :: 0 <= j < k ==> (a + b)[j] == a[j];
      FirstBadAt(a + b, compiles, k);
    } else if FirstBad(b, compiles).Some? {
      var k := FirstBadFrom(b, compiles, 0).value;
      assert (a + b)[|a| + k] == b[k];
      forall j | 0 <= j < |a| + k
        ensures compiles((a + b)[j].pattern)
      {
        if j >= |a| {
          assert (a + b)[j] == b[j - |a|];
        }
      }
      FirstBadAt(a + b, compiles, |a| + k);
    } else {
      forall j | 0 <= j < |a + b|
        ensures compiles((a + b)[j].pattern)
      {
        if j >= |a| {
          assert (a + b)[j] == b[j - |a|];
        }
      }
    }
  }

  /** Once the first `k` schemes hold a failure, the later ones do not change it. */
  lemma {:induction false} SchemeBadStays(p: Provider, e: Endpoint, ss: seq<string>, k: nat, n: nat, compiles: string -> bool)
    requires k <= n <= |ss| && FirstBad(SchemeItemsUpTo(p, e, ss, k), compiles).Some?
    ensures FirstBad(SchemeItemsUpTo(p, e, ss, n), compiles) == FirstBad(SchemeItemsUpTo(p, e, ss, k), compiles)
    decreases n
  {
    hide CandidateItem;
    if n > k {
      SchemeBadStays(p, e, ss, k, n - 1, compiles);
      FirstBadAppend(SchemeItemsUpTo(p, e, ss, n - 1), [CandidateItem(p, e, ss[n - 1])], compiles);
    }
  }

  /** Once the first `j` endpoints hold a failure, the later ones do not change it. */
  lemma {:induction false} EndpointBadStays(p: Provider, j: nat, n: nat, compiles: string -> bool)
    requires j <= n <= |p.endpoints| && FirstBad(ProviderItemsUpTo(p, j), compiles).Some?
    ensures FirstBad(ProviderItemsUpTo(p, n), compiles) == FirstBad(ProviderItemsUpTo(p, j), compiles)
    decreases n
  {
    hide CandidateItem, EndpointItems;
    if n > j {
      EndpointBadStays(p, j, n - 1, compiles);
      FirstBadAppend(ProviderItemsUpTo(p, n - 1), EndpointItems(p, p.endpoints[n - 1]), compiles);
    }
  }

  /** Once the first `i` providers hold a failure, the later ones do not change it. */
  lemma {:induction false} ProviderBadStays(ps: seq<Provider>, i: nat, n: nat, compiles: string -> bool)
    requires i <= n <= |ps| && FirstBad(CandidatesUpTo(ps, i), compiles).Some?
    ensures FirstBad(CandidatesUpTo(ps, n), compiles) == FirstBad(CandidatesUpTo(ps, i), compiles)
    decreases n
  {
    hide CandidateItem, EndpointItems, ProviderItems;
    if n > i {
      ProviderBadStays(ps, i, n - 1, compiles);
      FirstBadAppend(CandidatesUpTo(ps, n - 1), ProviderItems(ps[n - 1]), compiles);
    }
  }

  // ------------------------------------------------------- building the items

  lemma AppendAssoc<T>(a: seq<T>, b: seq<T>, c: seq<T>)
    ensures (a + b) + c == a + (b + c)
  {
  }

  /**
   * The innermost loop of ParseProviders for one endpoint: its schemes, or
   * the default one, each prepared into an Item appended to `acc`; it stops
   * at the first scheme whose pattern does not compile.
   */
  method AddEndpoint(acc: seq<Item>, p: Provider, e: Endpoint, compiles: string -> bool)
    returns (out: seq<Item>, bad: Option<string>)
    ensures bad == FirstBad(EndpointItems(p, e), compiles)
    ensures bad.None? ==> out == acc + EndpointItems(p, e)
  {
    hide EndpointURL, SchemePattern;
    var schemes := e.schemes;
    if |schemes| == 0 {
      schemes := schemes + [TrimRight(p.url, {'/'}) + "/*"];
    }
    assert schemes == SchemesOf(p, e);
    out := acc;
    var k := 0;
    while k < |schemes|
      invariant 0 <= k <= |schemes|
      invariant out == acc + SchemeItemsUpTo(p, e, schemes, k)
      invariant FirstBad(SchemeItemsUpTo(p, e, schemes, k), compiles).None?
    {
      var endpointURL := PrepareEndpointURL(e.url);
      var re := ConvertSchemaURL2Regexp(schemes[k], compiles);
      ghost var it := CandidateItem(p, e, schemes[k]);
      FirstBadAppend(SchemeItemsUpTo(p, e, schemes, k), [it], compiles);
      assert FirstBad([it], compiles) == if re.Ok? then None else Some(re.error) by {
        if re.Err? {
          FirstBadAt([it], compiles, 0);
        }
      }
      if re.Err? {
        SchemeBadStays(p, e, schemes, k + 1, |schemes|, compiles);
        return out, Some(re.error);
      }
      out := out + [Item(false, endpointURL, p.name, p.url, re.value)];
      k := k + 1;
    }
    bad := None;
  }

  /** The middle loop of ParseProviders: the items of every endpoint of one provider. */
  method AddProvider(acc: seq<Item>, p: Provider, compiles: string -> bool)
    returns (out: seq<Item>, bad: Option<string>)
    ensures bad == FirstBad(ProviderItems(p), compiles)
    ensures bad.None? ==> out == acc + ProviderItems(p)
  {
    hide CandidateItem, EndpointItems;
    out := acc;
    var j := 0;
    while j < |p.endpoints|
      invariant 0 <= j <= |p.endpoints|
      invariant out == acc + ProviderItemsUpTo(p, j)
      invariant FirstBad(ProviderItemsUpTo(p, j), compiles).None?
    {
      var b;
      out, b := AddEndpoint(out, p, p.endpoints[j], compiles);
      AppendAssoc(acc, ProviderItemsUpTo(p, j), EndpointItems(p, p.endpoints[j]));
      FirstBadAppend(ProviderItemsUpTo(p, j), EndpointItems(p, p.endpoints[j]), compiles);
      if b.Some? {
        EndpointBadStays(p, j + 1, |p.endpoints|, compiles);
        return out, b;
      }
      j := j + 1;
    }
    bad := None;
  }

  /** The outer loop of ParseProviders: the items of every provider of the catalogue. */
  method AddProviders(ps: seq<Provider>, compiles: string -> bool) returns (out: seq<Item>, bad: Option<string>)
    ensures bad == FirstBad(Candidates(ps), compiles)
    ensures bad.None? ==> out == Candidates(ps)
  {
    hide CandidateItem, EndpointItems, ProviderItems;
    out := [];
    var i := 0;
    while i < |ps|
      invariant 0 <= i <= |ps|
      invariant out == CandidatesUpTo(ps, i)
      invariant FirstBad(CandidatesUpTo(ps, i), compiles).None?
    {
      var b;
      out, b := AddProvider(out, ps[i], compiles);
      FirstBadAppend(CandidatesUpTo(ps, i), ProviderItems(ps[i]), compiles);
      if b.Some? {
        ProviderBadStays(ps, i + 1, |ps|, compiles);
        return out, b;
      }
      i := i + 1;
    }
    bad := None;
  }

  // ------------------------------------------------------- lookup

  /** The index of the first item at or after `i` that matches `url`. */
  function FirstMatchFrom(items: seq<Item>, url: string, matches: (string, string) -> bool, i: nat): (r: Option<nat>)
    requires i <= |items|
    ensures r.Some? ==> i <= r.value < |items| && MatchURL(items[r.value], url, matches)
    ensures r.Some? ==> forall j {:trigger MatchURL(items[j], url, matches)} :: i <= j < r.value ==> !MatchURL(items[j], url, matches)
    ensures r.None? ==> forall j {:trigger MatchURL(items[j], url, matches)} :: i <= j < |items| ==> !MatchURL(items[j], url, matches)
    decreases |items| - i
  {
    if i == |items| then None
    else if MatchURL(items[i], url, matches) then Some(i)
    else FirstMatchFrom(items, url, matches, i + 1)
  }

  /** The first item that matches `url`, if any. */
  function FirstMatch(items: seq<Item>, url: string, matches: (string, string) -> bool): Option<Item> {
    match FirstMatchFrom(items, url, matches, 0)
    case None => None
    case Some(k) => Some(items[k])
  }

  /** Oembed (oembed/oembed.go:24-26): the Items built from the catalogue. */
  class Oembed {
    var items: seq<Item>

    /** NewOembed: no items yet. */
    constructor ()
      ensures items == []
    {
      items := [];
    }

    /**
     * ParseProviders: on a catalogue that could not be read or decoded,
     * that error and no change; otherwise the Items of every scheme of every
     * endpoint, in catalogue order, replace the old ones, unless some
     * scheme's pattern does not compile: then the first such pattern is
     * reported and the old Items stay.
     */
    method ParseProviders(catalog: Result<seq<Provider>, string>, compiles: string -> bool)
      returns (err: Option<ParseError>)
      modifies this
      ensures catalog.Err? ==> err == Some(CatalogError(catalog.error)) && items == old(items)
      ensures catalog.Ok? && AllCompile(Candidates(catalog.value), compiles) ==>
        err.None? && items == Candidates(catalog.value)
      ensures catalog.Ok? && !AllCompile(Candidates(catalog.value), compiles) ==>
        err == Some(BadScheme(FirstBad(Candidates(catalog.value), compiles).value)) && items == old(items)
    {
      if catalog.Err? {
        return Some(CatalogError(catalog.error));
      }
      var found, bad := AddProviders(catalog.value, compiles);
      if bad.Some? {
        return Some(BadScheme(bad.value));
      }
      items := found;
      return None;
    }

    /** FindItem: the first Item, in catalogue order, whose pattern matches `url`; None when none does. */
    method FindItem(url: string, matches: (string, string) -> bool) returns (r: Option<Item>)
      ensures r.None? <==> forall j {:trigger MatchURL(items[j], url, matches)} :: 0 <= j < |items| ==> !MatchURL(items[j], url, matches)
      ensures r.Some? ==> (exists k :: 0 <= k < |items| && r.value == items[k] && MatchURL(items[k], url, matches)
                                   && (forall j {:trigger MatchURL(items[j], url, matches)} :: 0 <= j < k ==> !MatchURL(items[j], url, matches)))
      ensures r == FirstMatch(items, url, matches)
    {
      var k := 0;
      while k < |items|
        invariant 0 <= k <= |items|
        invariant forall j {:trigger MatchURL(items[j], url, matches)} :: 0 <= j < k ==> !MatchURL(items[j], url, matches)
      {
        if MatchURL(items[k], url, matches) {
          assert FirstMatchFrom(items, url, matches, 0) == Some(k);
          return Some(items[k]);
        }
        k := k + 1;
      }
      return None;
    }
  }

  // ------------------------------------------------------- properties

  /** The Items of the first `k` schemes: one per scheme, in order. */
  lemma {:induction false} SchemeItemsIndex(p: Provider, e: Endpoint, ss: seq<string>, k: nat)
    requires k <= |ss|
    ensures |SchemeItemsUpTo(p, e, ss, k)| == k
    ensures forall m :: 0 <= m < k ==> SchemeItemsUpTo(p, e, ss, k)[m] == CandidateItem(p, e, ss[m])
    decreases k
  {
    hide CandidateItem;
    if k > 0 {
      SchemeItemsIndex(p, e, ss, k - 1);
    }
  }

  /** The Items of one endpoint: one per scheme, in order, each carrying the provider and the prepared endpoint URL. */
  lemma EndpointItemsShape(p: Provider, e: Endpoint)
    ensures |EndpointItems(p, e)| == if |e.schemes| == 0 then 1 else |e.schemes|
    ensures forall k :: 0 <= k < |EndpointItems(p, e)| ==>
      var it := EndpointItems(p, e)[k];
      && !it.isEndpointURLComplete
      && it.providerName == p.name && it.providerURL == p.url
      && it.endpointURL == EndpointURL(e.url)
      && it.pattern == SchemePattern(SchemesOf(p, e)[k])
    ensures |e.schemes| == 0 ==> EndpointItems(p, e)[0].pattern == SchemePattern(TrimRight(p.url, {'/'}) + "/*")
  {
    var ss := SchemesOf(p, e);
    SchemeItemsIndex(p, e, ss, |ss|);
  }

  /** An Item is among the first `j` endpoints' Items exactly when one of those endpoints built it. */
  lemma {:induction false} ProviderItemsMember(p: Provider, j: nat, it: Item)
    requires j <= |p.endpoints|
    ensures it in ProviderItemsUpTo(p, j) <==> exists m :: 0 <= m < j && it in EndpointItems(p, p.endpoints[m])
    decreases j
  {
    hide CandidateItem, EndpointItems;
    if j > 0 {
      ProviderItemsMember(p, j - 1, it);
    }
  }

  /** An Item is among the first `i` providers' Items exactly when one of those providers built it. */
  lemma {:induction false} CandidatesMember(ps: seq<Provider>, i: nat, it: Item)
    requires i <= |ps|
    ensures it in CandidatesUpTo(ps, i) <==> exists m :: 0 <= m < i && it in ProviderItems(ps[m])
    decreases i
  {
    hide CandidateItem, EndpointItems, ProviderItems;
    if i > 0 {
      CandidatesMember(ps, i - 1, it);
    }
  }

  /**
   * Exactly the candidates of the catalogue: an Item is built for a scheme of
   * an endpoint of a provider, and for nothing else.
   */
  lemma CandidatesExactly(ps: seq<Provider>, it: Item)
    ensures it in Candidates(ps) <==>
      exists i, j :: 0 <= i < |ps| && 0 <= j < |ps[i].endpoints| && it in EndpointItems(ps[i], ps[i].endpoints[j])
  {
    hide CandidateItem;
    CandidatesMember(ps, |ps|, it);
    forall i | 0 <= i < |ps|
      ensures it in ProviderItems(ps[i]) <==> exists j :: 0 <= j < |ps[i].endpoints| && it in EndpointItems(ps[i], ps[i].endpoints[j])
    {
      ProviderItemsMember(ps[i], |ps[i].endpoints|, it);
    }
  }

  /** An endpoint without schemes gets exactly one Item, for its provider's default scheme. */
  lemma DefaultSchemeItems(p: Provider, e: Endpoint)
    requires |e.schemes| == 0
    ensures EndpointItems(p, e) == [CandidateItem(p, e, DefaultScheme(p))]
  {
    hide CandidateItem;
    var ss := SchemesOf(p, e);
    assert ss == [DefaultScheme(p)];
    assert SchemeItemsUpTo(p, e, ss, 1) == [] + [CandidateItem(p, e, ss[0])];
  }

  /**
   * An endpoint without schemes covers its provider's whole site: for an
   * `https://` provider URL without special characters, the pattern is the
   * URL without trailing slashes, then `/.*`, anchored.
   */
  lemma DefaultSchemeCoversSite(p: Provider, e: Endpoint)
    requires |e.schemes| == 0
    requires HasPrefix(TrimRight(p.url, {'/'}), "https://") && Literal(p.url)
    ensures |EndpointItems(p, e)| == 1
    ensures EndpointItems(p, e)[0].pattern == "^" + TrimRight(p.url, {'/'}) + "/.*$"
  {
    hide EndpointURL, Rewritten;
    DefaultSchemeItems(p, e);
    var y := TrimRight(p.url, {'/'});
    assert Literal(y) by {
      TrimRightSpec(p.url, {'/'});
      assert forall k :: 0 <= k < |y| ==> y[k] == p.url[k];
    }
    SiteWideScheme(y);
  }

  /** The first `i` providers' Items do not depend on the providers after them. */
  lemma {:induction false} CandidatesUpToPrefix(ps: seq<Provider>, qs: seq<Provider>, i: nat)
    requires i <= |ps|
    ensures CandidatesUpTo(ps + qs, i) == CandidatesUpTo(ps, i)
    decreases i
  {
    hide CandidateItem, EndpointItems, ProviderItems;
    if i > 0 {
      CandidatesUpToPrefix(ps, qs, i - 1);
      assert (ps + qs)[i - 1] == ps[i - 1];
    }
  }

  lemma {:induction false} CandidatesUpToAppend(ps: seq<Provider>, qs: seq<Provider>, k: nat)
    requires k <= |qs|
    ensures CandidatesUpTo(ps + qs, |ps| + k) == Candidates(ps) + CandidatesUpTo(qs, k)
    decreases k
  {
    hide CandidateItem, EndpointItems, ProviderItems;
    if k == 0 {
      CandidatesUpToPrefix(ps, qs, |ps|);
    } else {
      CandidatesUpToAppend(ps, qs, k - 1);
      assert (ps + qs)[|ps| + k - 1] == qs[k - 1];
    }
  }

  /** Providers earlier in the catalogue come first: the candidates of two catalogues, one after the other. */
  lemma CandidatesInCatalogOrder(ps: seq<Provider>, qs: seq<Provider>)
    ensures Candidates(ps + qs) == Candidates(ps) + Candidates(qs)
  {
    hide CandidateItem, EndpointItems, ProviderItems;
    CandidatesUpToAppend(ps, qs, |qs|);
  }

  /** A match among the first items hides every later one. */
  lemma FirstMatchPrefers(a: seq<Item>, b: seq<Item>, url: string, matches: (string, string) -> bool)
    requires FirstMatch(a, url, matches).Some?
    ensures FirstMatch(a + b, url, matches) == FirstMatch(a, url, matches)
  {
    var k := FirstMatchFrom(a, url, matches, 0).value;
    assert (a + b)[k] == a[k];
    assert forall j :: 0 <= j < k ==> (a + b)[j] == a[j];
    var r := FirstMatchFrom(a + b, url, matches, 0);
    assert r.Some?;
    assert r.value == k;
  }

  /** Extra CR and LF characters around the URL do not change which item FindItem returns. */
  lemma FirstMatchIgnoresLineBreaks(items: seq<Item>, pre: string, url: string, suf: string, matches: (string, string) -> bool)
    requires AllIn(pre, LineBreaks) && AllIn(suf, LineBreaks)
    ensures FirstMatch(items, pre + url + suf, matches) == FirstMatch(items, url, matches)
  {
    forall j | 0 <= j < |items|
      ensures MatchURL(items[j], pre + url + suf, matches) == MatchURL(items[j], url, matches)
    {
      MatchURLIgnoresLineBreaks(items[j], pre, url, suf, matches);
    }
    FirstMatchSame(items, pre + url + suf, url, matches, 0);
  }

  lemma {:induction false} FirstMatchSame(items: seq<Item>, u1: string, u2: string, matches: (string, string) -> bool, i: nat)
    requires i <= |items|
    requires forall j {:trigger MatchURL(items[j], u1, matches)} :: 0 <= j < |items| ==> MatchURL(items[j], u1, matches) == MatchURL(items[j], u2, matches)
    ensures FirstMatchFrom(items, u1, matches, i) == FirstMatchFrom(items, u2, matches, i)
    decreases |items| - i
  {
    if i < |items| {
      FirstMatchSame(items, u1, u2, matches, i + 1);
    }
  }
}
