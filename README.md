# oEmbed client, modelled in Dafny

A Dafny model of the core of a Go oEmbed client. The modelled code is
`oembed/oembed.go` and `oembed/info.go`.

**The registry.** `ParseProviders` turns a catalogue of providers into a
registry: an ordered list of Items, one for every URL scheme of every endpoint
of every provider. Each Item carries:

- the prepared endpoint URL (`prepareEndpointURL`);
- the provider's name and URL;
- a regular expression built from the scheme (`convertSchemaURL2Regexp`).

`FindItem` returns the first Item whose expression matches a URL. CR and LF are
trimmed from both ends of the URL first.

**The request.** For a target URL, `FetchOembed` builds the request URL in
this order:

1. the prepared endpoint URL followed by the escaped target (`ComposeURL`);
2. `&maxwidth=N` and `&maxheight=N`, each only for a positive option;
3. one `&key=value` per extra option (`buildQueryString`).

**The response.** `parseOembed` handles the response:

- A status above 200 gives an Info holding only that status.
- Otherwise the JSON body fills an Info (`FillFromJSON`), and the four numeric
  fields are rewritten as `FormatInt(ParseInt(field))`.
- An empty URL, provider URL or provider name falls back to the target URL and
  to the Item's provider.

`MergeWith` fills the empty descriptive fields of an Info from another Info.
The thumbnail URL, width and height move as one group.

**Modules**, one per file:

- `Wrappers`: `Option` and `Result`.
- `Strings`: Go's `strings.Replace` (all occurrences), `IndexRune`, `Trim` and
  `TrimRight`.
- `Strconv`: `ParseInt` and `FormatInt` in base 10 with the int64 limits,
  including `ParseUint`'s early stop on overflow.
- `UrlEscape`: `url.QueryEscape` over UTF-8, with `QueryUnescape` as its
  reference decoder.
- `OembedInfo`: the `Info` class and its record value.
- `Patterns`: `convertSchemaURL2Regexp`.
- `Items`: `Item`, the request URL, `parseOembed` and `MatchURL`.
- `Registry`: the `Oembed` class, `ParseProviders`, `FindItem` and
  `prepareEndpointURL`.

The Go library calls the core makes are modelled as functions under the same
names, each with lemmas of its own: `Strings.ReplaceAll`, `Strings.IndexRune`,
`Strings.Trim`, `Strings.TrimLeft` and `Strings.TrimRight`;
`Strconv.ParseInt` and `Strconv.FormatInt`; and `UrlEscape.QueryEscape`. The
six lines of `convertSchemaURL2Regexp` are the step functions
`Patterns.EscapeQuestionMarks`, `Patterns.SubdomainWildcard`,
`Patterns.PathWildcard`, `Patterns.SuffixWildcard`, `Patterns.WidenHttp` and
the final `%` rewrite, composed in `Patterns.Rewritten`.

**How the model stands in for the Go runtime:**

- **Regular expressions.** Compiling and matching are parameters:
  `compiles(pattern)` and `matches(pattern, text)`. An Item keeps its
  expression as the pattern text.
- **Compile failures.** Go panics when a scheme's expression does not compile.
  In the model, `ParseProviders` returns `BadScheme` with the first such
  pattern and leaves the registry unchanged.
- **Map order.** Go iterates a map in no fixed order. The iteration order is a
  parameter `order`: any arrangement of the map's keys.
- **JSON decoding.** `json.Unmarshal` into an Info is a `Payload`: for each
  JSON key the Info declares, what was stored, or None when the key was
  absent. It comes with the error the decoder reported, if any. A body that is
  the JSON literal `null` is a case of its own (`Decoding.Null`). The provider
  catalogue arrives already decoded, or as the read or decode error.
- **Nil dereference.** On a `null` body, `json.Unmarshal` sets
  `FillFromJSON`'s own copy of its receiver to nil without an error, and the
  next line reads a field through it, which panics. The model returns that
  panic as the error `NilDereference`, and `parseOembed` then gives no Info.

**Behaviour of the code that the model keeps.**

- The four scheme rewrites su2re1 to su2re4 (oembed/oembed.go:227-230) run in
  sequence, each on the previous step's output, and every one that fits is
  applied. One consequence, proved in `Patterns.TwoHostStars`: in a
  scheme with two `*` in the host, when the second `*` is not the scheme's
  last character, su2re2 turns it into `.*?`. That is because the `[^/]`
  inserted by su2re1 contains a `/`. The resulting `.*?` also matches `/`. A
  second `*` that ends the scheme becomes `.*` through su2re3 instead
  (`Patterns.TwoHostStarsLast`).
- Only `?` is escaped in a scheme. Other characters with a meaning in regular
  expressions, such as `.`, `+`, `(` and `[`, pass into the pattern unchanged,
  so `https://example.com` also matches `https://exampleXcom`.
- The decoder has no `summary` alias for `description` and no `cache_age`
  field.
- The numeric fields are `json.Number` texts. A missing or empty number
  becomes `"0"`. So does a fractional or exponent number whose integer part
  fits in 64 unsigned bits. A longer integer part is clamped to the int64
  bound of its sign, whatever follows it, because `ParseUint` stops at the
  overflow. An integer beyond int64 is clamped in the same way.
- Any status above 200 short-circuits `parseOembed`, including 201 to 299.

## Model

| member | source | states |
|---|---|---|
| Strings.ReplaceAllAbsent | oembed/oembed.go:213-214 | strings.Replace changes nothing when the pattern does not occur |
| Strings.ReplaceAllPrefix | oembed/oembed.go:213 | a prefix that cannot start an occurrence passes through the replacement unchanged |
| Strings.ReplaceAllKeepsChar | oembed/oembed.go:213-214 | a character in neither the pattern nor the replacement is in the result exactly when it is in the input |
| Strings.ReplaceCharGone | oembed/oembed.go:231 | replacing a one-character pattern everywhere leaves none of it |
| Strings.ReplaceCharPrefix | oembed/oembed.go:231 | a prefix without the replaced character is kept as is |
| Strings.IndexRune | oembed/oembed.go:215 | IndexRune is None exactly when the character is absent; otherwise it is its first index |
| Strings.TrimLeftSpec | oembed/oembed.go:155 | TrimLeft keeps a suffix that does not start with a cut character and drops only cut characters |
| Strings.TrimRightSpec | oembed/oembed.go:184 | TrimRight keeps a prefix that does not end with a cut character and drops only cut characters |
| Strings.TrimIgnoresCutAtEnds | oembed/oembed.go:155 | Trim is unchanged by extra cut characters at either end |
| Strconv.ParseInt | oembed/info.go:49 | the value is always within int64, and a syntax error gives 0 |
| Strconv.ParseFormatRoundTrip | oembed/info.go:49-50 | ParseInt of FormatInt(t) gives back t without error, for every int64 t |
| Strconv.FormatIntCanonical | oembed/info.go:50 | FormatInt produces the canonical decimal form of its argument |
| Strconv.CanonicalIsFormatted | oembed/info.go:50 | every canonical decimal string is FormatInt of its value |
| Strconv.ParseCanonical | oembed/info.go:49 | ParseInt reads a canonical int64 decimal as the value it denotes |
| Strconv.ParseIntDigits | oembed/info.go:49 | an optionally signed digit string parses to its value clamped to int64 |
| Strconv.ParseIntNonDigit | oembed/info.go:49 | a non-digit after an in-range digit prefix is a syntax error with value 0 |
| Strconv.ParseIntOverflowFirst | oembed/info.go:49 | digits beyond 64 unsigned bits decide the value before anything after them is read: it is the int64 bound of the sign |
| Strconv.ScanStopsForever | oembed/info.go:49 | once ParseUint's scan stops on an error, later characters do not change the outcome |
| UrlEscape.QueryEscapeCorrect | oembed/oembed.go:67 | QueryEscape writes only unreserved characters, `+` and `%`, and QueryUnescape gives back the UTF-8 bytes of the input |
| Items.ComposeURL | oembed/oembed.go:62-68 | the result starts with the endpoint URL, is exactly that URL for a complete endpoint, and otherwise adds only query-safe characters after it |
| Items.ComposeURLCorrect | oembed/oembed.go:62-68 | a complete endpoint URL is returned as is; otherwise the endpoint URL is followed by one query value that decodes back to the target |
| Items.MatchURL | oembed/oembed.go:154-156 | the item's pattern is tested on the URL with CR and LF trimmed from both ends, so a URL that neither starts nor ends with a line break is tested as it is |
| Items.MatchURLIgnoresLineBreaks | oembed/oembed.go:154-156 | extra CR and LF at either end of the URL do not change whether an Item matches |
| Items.BuildQueryString | oembed/oembed.go:100-108 | the loop writes one `&key=value` per entry, in the iteration order |
| Items.QueryStringLength | oembed/oembed.go:100-108 | the extras are empty exactly for an empty map, and their length is the sum over the entries of 2 + key length + value length, whatever the order |
| Items.QueryStringFrame | oembed/oembed.go:103-105 | the extras depend only on the entries they write |
| Items.FetchRequestURL | oembed/oembed.go:111-124 | the request URL is ComposeURL of the target, then the positive size parameters, then the extras when there are any |
| Items.AppendSize | oembed/oembed.go:114-120 | one size step appends `&name=N` exactly for a positive option |
| Items.SizeParamRoundTrip | oembed/oembed.go:114-120 | a size parameter is present exactly for a positive option, and its number parses back to the option |
| Items.RequestURLLayout | oembed/oembed.go:111-124 | the request URL begins with ComposeURL, then maxwidth, then maxheight; its length is the sum of the parts; it equals ComposeURL exactly when no option applies |
| Items.ParseOembed | oembed/oembed.go:70-98 | a status above 200 gives an Info with only that status; a decoding error gives no Info and the error; a `null` body gives no Info and the nil-dereference panic as the error; otherwise the decoded Info with the URL and the provider defaulted |
| Items.ParsedRecord | oembed/oembed.go:85-95 | on success each of URL, provider URL and provider name is replaced exactly when it decoded empty; the rest is as decoded, and the numbers are canonical |
| OembedInfo.NormalizeNumber | oembed/info.go:48-59 | each numeric field becomes a canonical int64 decimal |
| OembedInfo.Info.constructor | oembed/info.go:30-32 | NewInfo has Go's zero value |
| OembedInfo.Info.FillFromJSON | oembed/info.go:35-62 | a `null` body changes nothing and ends in the nil-dereference panic, returned as an error; otherwise the decoder's stores are applied; on an error that error is returned and nothing is normalised; otherwise the four numbers are normalised |
| OembedInfo.Info.Store | oembed/info.go:42 | json.Unmarshal overwrites exactly the fields whose keys were present |
| OembedInfo.Info.StoreText | oembed/info.go:42 | the type, URL, provider, title and description fields are overwritten when present; nothing else changes |
| OembedInfo.Info.StoreMedia | oembed/info.go:42 | the size and thumbnail fields are overwritten when present; nothing else changes |
| OembedInfo.Info.StoreAuthor | oembed/info.go:42 | the author and HTML fields are overwritten when present; nothing else changes |
| OembedInfo.Info.NormalizeNumbers | oembed/info.go:48-59 | each numeric field becomes FormatInt(ParseInt(field)); nothing else changes |
| OembedInfo.Info.MergeWith | oembed/info.go:65-89 | the new state is the merge of the old state with base's old state, including when base is this object |
| OembedInfo.Info.MergeHead | oembed/info.go:66-77 | type, URL, provider URL and provider name are taken from base exactly when empty |
| OembedInfo.Info.MergeText | oembed/info.go:78-83 | title and description are taken from base exactly when empty |
| OembedInfo.MergeFillsEmptyStrings | oembed/info.go:66-83 | each descriptive string takes base's value exactly when it was empty; a set value is never overwritten |
| OembedInfo.MergeThumbnailGroup | oembed/info.go:84-88 | the thumbnail URL, width and height move together, keyed on the thumbnail URL alone |
| OembedInfo.MergeKeepsOtherFields | oembed/info.go:65-89 | status, width, height, author and HTML are never touched by a merge |
| OembedInfo.MergeIdempotent | oembed/info.go:65-89 | merging twice with the same base is merging once; merging with an equal copy changes nothing |
| OembedInfo.NormalizeNumberIdempotent | oembed/info.go:48-59 | canonical int64 decimals are kept, so normalising twice is normalising once |
| OembedInfo.NormalizeNumberDropsSignAndZeros | oembed/info.go:49-50 | "+7" and "007" both become "7" |
| OembedInfo.NormalizeNumberNonDigit | oembed/info.go:49-50 | a number whose optionally signed integer part fits in 64 unsigned bits and is followed by a non-digit becomes "0" |
| OembedInfo.NormalizeNumberOverflowFirst | oembed/info.go:49-50 | a number whose integer part passes 64 unsigned bits becomes the int64 bound of its sign, whatever follows |
| OembedInfo.NormalizeNumberNonIntegers | oembed/info.go:49-50 | the empty string, `640.5` and `1e3` become "0" |
| OembedInfo.NormalizeNumberClamps | oembed/info.go:49-50 | digit strings beyond the int64 range become the int64 bound of their sign |
| OembedInfo.NormalizedRecord | oembed/info.go:48-59 | normalisation rewrites only the four numeric fields, each to a canonical int64 decimal, and is idempotent |
| Patterns.HostStar | oembed/oembed.go:17 | su2re1 takes the first `*` after the scheme prefix with no `/` before it, when it is not the last character |
| Patterns.PathStar | oembed/oembed.go:18 | su2re2 takes the first `*` after the first `/` past the scheme prefix, when it is not the last character |
| Patterns.ConvertSchemaURL2Regexp | oembed/oembed.go:224-240 | the result is the anchored rewritten scheme, or that same pattern as an error exactly when it does not compile |
| Patterns.EscapeQuestionMarksRoundTrip | oembed/oembed.go:226 | undoing the escape gives back the scheme, and every `?` in the escaped text has a backslash before it |
| Patterns.EscapeKeepsPrefixTest | oembed/oembed.go:226 | escaping keeps a prefix free of `?` and backslash recognisable exactly when it was there before |
| Patterns.WildcardStepsKeepPrefix | oembed/oembed.go:226-229 | the first four steps keep an `http://` or `https://` prefix |
| Patterns.HttpWidened | oembed/oembed.go:230 | a scheme declared with `http://` gets a pattern for both `http` and `https` |
| Patterns.HttpsKept | oembed/oembed.go:230 | a scheme declared with `https://` is never widened |
| Patterns.NoPercentLeft | oembed/oembed.go:231 | no `%` is left in the pattern, including any that the scheme itself contained |
| Patterns.PlainScheme | oembed/oembed.go:226-233 | a scheme without `*` or `%` passes into the pattern unchanged except that each `?` is escaped as `\?` and a leading `http://` is widened |
| Patterns.NonHttpScheme | oembed/oembed.go:226-231 | without an `http://` or `https://` prefix, only the `?` escape and the `%` rewrite apply |
| Patterns.SubdomainScheme | oembed/oembed.go:227-231 | a host `*` becomes `[^/]*?` and a final `*` becomes `.*`; everything else is kept |
| Patterns.PathScheme | oembed/oembed.go:228-231 | a `*` in the middle of the path becomes `.*?`, and `http://` is widened |
| Patterns.TwoHostStars | oembed/oembed.go:227-228 | with two `*` in the host and the second not last, only the first becomes `[^/]*?`; su2re2 turns the second into `.*?` |
| Patterns.TwoHostStarsLast | oembed/oembed.go:227-229 | with two `*` in the host and the second last, the first becomes `[^/]*?`; su2re2 does not fire, and su2re3 turns the second into `.*` |
| Patterns.SiteWideScheme | oembed/oembed.go:229 | an `https://` site followed by a final `*` becomes the site followed by `.*` |
| Registry.PrepareEndpointURL | oembed/oembed.go:212-222 | the prepared URL is the endpoint URL after both substitutions, followed by the format and an empty `url` parameter |
| Registry.EndpointURLShape | oembed/oembed.go:215-219 | the separator is `&` exactly when the catalogue URL already has a `?`, and `?` otherwise |
| Registry.PlainEndpointURL | oembed/oembed.go:212-222 | a URL without a `{format}` placeholder, a `/*` pair or a `?` is kept and gets `?format=json&url=` appended |
| Registry.FormatPlaceholder | oembed/oembed.go:213 | a `{format}` placeholder becomes `json` |
| Registry.FirstBad | oembed/oembed.go:233-237 | there is no failing pattern exactly when every pattern compiles |
| Registry.FirstBadAppend | oembed/oembed.go:181-193 | the first failure in two blocks is the first block's, or the second block's when all of the first block compiles |
| Registry.AddEndpoint | oembed/oembed.go:183-191 | one Item per scheme, or one for the default scheme, is appended; the loop stops at the first scheme that does not compile |
| Registry.AddProvider | oembed/oembed.go:182-192 | the Items of every endpoint of a provider are appended, up to the first failing pattern |
| Registry.AddProviders | oembed/oembed.go:181-193 | the Items of the whole catalogue are built, or its first failing pattern is reported |
| Registry.Oembed.constructor | oembed/oembed.go:159-161 | NewOembed has no Items |
| Registry.Oembed.ParseProviders | oembed/oembed.go:164-198 | a read or decode error is returned and the Items are unchanged; otherwise the Items become the catalogue's candidates, or the first failing pattern is reported and the Items stay |
| Registry.Oembed.FindItem | oembed/oembed.go:201-209 | the result is the first Item that matches the URL, and None exactly when no Item matches |
| Registry.EndpointItemsShape | oembed/oembed.go:183-190 | an endpoint gets one Item per scheme, or one for the default scheme, in order, each with the provider, the prepared URL and that scheme's pattern |
| Registry.CandidatesExactly | oembed/oembed.go:181-193 | an Item is registered exactly when it is built for an endpoint of a provider of the catalogue |
| Registry.DefaultSchemeItems | oembed/oembed.go:183-185 | an endpoint without schemes gets exactly one Item, for its provider's URL without trailing slashes followed by `/*` |
| Registry.DefaultSchemeCoversSite | oembed/oembed.go:183-189 | for an `https://` provider URL without special characters, the default scheme's pattern is that URL without trailing slashes, then `/.*`, anchored |
| Registry.CandidatesInCatalogOrder | oembed/oembed.go:181-195 | the Items of two catalogues one after the other are the first's Items followed by the second's |
| Registry.FirstMatchPrefers | oembed/oembed.go:202-206 | a match among the earlier Items hides every later one |
| Registry.FirstMatchIgnoresLineBreaks | oembed/oembed.go:201-209 | extra CR and LF around the URL do not change which Item FindItem returns |

## Left out

- HTTP: building the request, the `Accept-Language` header, the client, `Do` and closing the body (oembed/oembed.go:126-148). They are I/O. The model covers the request URL and the handling of the status and decoded body.
- `ioutil.ReadAll`, the 40 KB `io.LimitReader` and JSON decoding. The bytes are never seen. Decoding is the `Decoding` value for a response and a `Result` for the catalogue, so a body cut short at 40 KB shows up only as the decoding error it causes.
- Regular expression compilation and matching (`regexp.Compile`, `MatchString`) are the parameters `compiles` and `matches`. The su2re1 to su2re4 expressions are written out as the string rewrites they perform.
- Patterns.HostStar: su2re1 to su2re3 use `.`, which in Go does not match a newline. The model does not distinguish newlines inside a scheme, because schemes are single-line URLs.
- Go strings are bytes, while Dafny strings are characters. The rewrites and trims only touch ASCII, so they act the same on both. The byte view is used only where it matters, in `QueryEscape`.
- A JSON `null` catalogue (a nil slice) and an empty one both give no Items, which is what the model's empty sequence gives.
- `Info.ToJSON` and `Info.String` (oembed/info.go:91-105) are JSON encoding only.
- Registry.Oembed.ParseProviders: Go sets `IsEndpointURLComplete` on no Item, and the model builds every Item with it false. ComposeURL still handles both values.
- The `discovery` field of an endpoint is decoded but never read, and is carried unused.
- OembedInfo.Info.FillFromJSON: a `null` response body makes Go panic with a nil dereference, and `parseOembed` never returns. The model returns the panic as the error `NilDereference`, and `Items.ParseOembed` passes it on with no Info.
- Patterns.EscapeQuestionMarksRoundTrip: proved for the output of the escaping step. `Patterns.PlainScheme` and `Patterns.NonHttpScheme` carry each `\?` through to the pattern for schemes without `*` or `%`, and for schemes without an `http(s)://` prefix. For other schemes, no lemma follows each `\?` through the wildcard rewrites.
- Registry.AddProviders: Go `panic`s on the first bad pattern, and the model returns it instead. Go's `items` slice is then abandoned, and the model keeps the old Items, which is what the panic leaves behind.
- The example program `simple.go` is not part of this model.
