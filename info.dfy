/**
 * The oEmbed response record of oembed/info.go: the Info object that a
 * response fills in place, the canonicalisation of its four json.Number
 * fields, and MergeWith, which fills empty fields from a fallback record.
 */
module OembedInfo {
  import opened Wrappers
  import Strconv

  /**
   * The value of every field of an Info. The four json.Number fields hold
   * the number's text, as json.Number does; the empty string is their zero value.
   */
  datatype Record = Record(
    status: int,
    typ: string,
    url: string,
    providerURL: string,
    providerName: string,
    title: string,
    description: string,
    width: string,
    height: string,
    thumbnailURL: string,
    thumbnailWidth: string,
    thumbnailHeight: string,
    authorName: string,
    authorURL: string,
    html: string)

  /** Go's zero Info: status 0 and every string and number empty. */
  const EmptyRecord: Record := Record(0, "", "", "", "", "", "", "", "", "", "", "", "", "", "")

  /**
   * What json.Unmarshal stored for each JSON key the Info declares: None when
   * the key was absent or null (the field is then left as it was). `Status`
   * is tagged `json:"-"` and has no key.
   */
  datatype Payload = Payload(
    typ: Option<string>,
    url: Option<string>,
    providerURL: Option<string>,
    providerName: Option<string>,
    title: Option<string>,
    description: Option<string>,
    width: Option<string>,
    height: Option<string>,
    thumbnailURL: Option<string>,
    thumbnailWidth: Option<string>,
    thumbnailHeight: Option<string>,
    authorName: Option<string>,
    authorURL: Option<string>,
    html: Option<string>)

  /**
   * The outcome of reading the body and decoding it with json.Unmarshal.
   * Object: the fields it stored (none after a read or syntax error, some
   * after a type mismatch) and the error it reported, if any.
   * Null: the body was the JSON literal `null`. Unmarshal then sets the
   * method's own copy of the receiver pointer to nil and reports no error.
   */
  datatype Decoding =
    | Object(stored: Payload, error: Option<string>)
    | Null

  /** The run-time panic Go raises when FillFromJSON reads a field through its nil receiver. */
  const NilDereference: string := "runtime error: invalid memory address or nil pointer dereference"

  /** The record after json.Unmarshal stored `p` into it: present keys overwrite, the rest stay. */
  function Unmarshalled(r: Record, p: Payload): Record {
    Record(
      r.status,
      p.typ.GetOr(r.typ),
      p.url.GetOr(r.url),
      p.providerURL.GetOr(r.providerURL),
      p.providerName.GetOr(r.providerName),
      p.title.GetOr(r.title),
      p.description.GetOr(r.description),
      p.width.GetOr(r.width),
      p.height.GetOr(r.height),
      p.thumbnailURL.GetOr(r.thumbnailURL),
      p.thumbnailWidth.GetOr(r.thumbnailWidth),
      p.thumbnailHeight.GetOr(r.thumbnailHeight),
      p.authorName.GetOr(r.authorName),
      p.authorURL.GetOr(r.authorURL),
      p.html.GetOr(r.html))
  }

  /**
   * One numeric field after FillFromJSON: FormatInt(ParseInt(s, 10, 64)) with
   * the parse error discarded. The result is always a canonical int64 decimal.
   */
  function NormalizeNumber(s: string): (r: string)
    ensures Strconv.IsCanonical(r) && Strconv.InInt64(Strconv.CanonicalValue(r))
  {
    var t := Strconv.ParseInt(s).value;
    Strconv.FormatIntCanonical(t);
    Strconv.FormatInt(t)
  }

  /** The record after FillFromJSON's canonicalisation of the four numeric fields. */
  function Normalized(r: Record): Record {
    r.(width := NormalizeNumber(r.width),
       height := NormalizeNumber(r.height),
       thumbnailWidth := NormalizeNumber(r.thumbnailWidth),
       thumbnailHeight := NormalizeNumber(r.thumbnailHeight))
  }

  /**
   * The record after MergeWith: each of the six descriptive strings is taken
   * from `base` when empty, and the thumbnail URL, width and height are taken
   * from `base` together when the thumbnail URL is empty.
   */
  function Merged(info: Record, base: Record): Record {
    var thumb := |info.thumbnailURL| == 0;
    info.(
      typ := if |info.typ| == 0 then base.typ else info.typ,
      url := if |info.url| == 0 then base.url else info.url,
      providerURL := if |info.providerURL| == 0 then base.providerURL else info.providerURL,
      providerName := if |info.providerName| == 0 then base.providerName else info.providerName,
      title := if |info.title| == 0 then base.title else info.title,
      description := if |info.description| == 0 then base.description else info.description,
      thumbnailURL := if thumb then base.thumbnailURL else info.thumbnailURL,
      thumbnailWidth := if thumb then base.thumbnailWidth else info.thumbnailWidth,
      thumbnailHeight := if thumb then base.thumbnailHeight else info.thumbnailHeight)
  }

  /** An oEmbed response record, updated in place. */
  class Info {
    var status: int
    var typ: string
    var url: string
    var providerURL: string
    var providerName: string
    var title: string
    var description: string
    var width: string
    var height: string
    var thumbnailURL: string
    var thumbnailWidth: string
    var thumbnailHeight: string
    var authorName: string
    var authorURL: string
    var html: string

    function Value(): Record
      reads this
    {
      Record(status, typ, url, providerURL, providerName, title, description, width, height,
             thumbnailURL, thumbnailWidth, thumbnailHeight, authorName, authorURL, html)
    }

    /** NewInfo: an Info at Go's zero value. */
    constructor ()
      ensures Value() == EmptyRecord
    {
      status := 0;
      typ, url, providerURL, providerName, title, description := "", "", "", "", "", "";
      width, height := "", "";
      thumbnailURL, thumbnailWidth, thumbnailHeight := "", "", "";
      authorName, authorURL, html := "", "", "";
    }

    /**
     * FillFromJSON: store what the decoder found; on a decoding error return
     * it at once, otherwise rewrite each numeric field as FormatInt(ParseInt(field)).
     * A `null` body leaves this object as it was and ends in Go's nil
     * dereference, returned here as the error NilDereference.
     */
    method FillFromJSON(decoding: Decoding) returns (err: Option<string>)
      modifies this
      ensures decoding.Null? ==> err == Some(NilDereference) && Value() == old(Value())
      ensures decoding.Object? ==> err == decoding.error
      ensures decoding.Object? && err.Some? ==> Value() == Unmarshalled(old(Value()), decoding.stored)
      ensures decoding.Object? && err.None? ==> Value() == Normalized(Unmarshalled(old(Value()), decoding.stored))
    {
      if decoding.Null? {
        return Some(NilDereference);
      }
      Store(decoding.stored);
      if decoding.error.Some? {
        return decoding.error;
      }
      NormalizeNumbers();
      return None;
    }

    /** json.Unmarshal into this object: each key present overwrites its field. */
    method Store(p: Payload)
      modifies this
      ensures Value() == Unmarshalled(old(Value()), p)
    {
      StoreText(p);
      StoreMedia(p);
      StoreAuthor(p);
    }

    /** Store's first part: type, URL, provider, title and description. */
    method StoreText(p: Payload)
      modifies this
      ensures Value() == old(Value()).(
        typ := p.typ.GetOr(old(typ)), url := p.url.GetOr(old(url)),
        providerURL := p.providerURL.GetOr(old(providerURL)),
        providerName := p.providerName.GetOr(old(providerName)),
        title := p.title.GetOr(old(title)), description := p.description.GetOr(old(description)))
    {
      typ := p.typ.GetOr(typ);
      url := p.url.GetOr(url);
      providerURL := p.providerURL.GetOr(providerURL);
      providerName := p.providerName.GetOr(providerName);
      title := p.title.GetOr(title);
      description := p.description.GetOr(description);
    }

    /** Store's second part: the size and the thumbnail. */
    method StoreMedia(p: Payload)
      modifies this
      ensures Value() == old(Value()).(
        width := p.width.GetOr(old(width)), height := p.height.GetOr(old(height)),
        thumbnailURL := p.thumbnailURL.GetOr(old(thumbnailURL)),
        thumbnailWidth := p.thumbnailWidth.GetOr(old(thumbnailWidth)),
        thumbnailHeight := p.thumbnailHeight.GetOr(old(thumbnailHeight)))
    {
      width := p.width.GetOr(width);
      height := p.height.GetOr(height);
      thumbnailURL := p.thumbnailURL.GetOr(thumbnailURL);
      thumbnailWidth := p.thumbnailWidth.GetOr(thumbnailWidth);
      thumbnailHeight := p.thumbnailHeight.GetOr(thumbnailHeight);
    }

    /** Store's last part: the author and the HTML. */
    method StoreAuthor(p: Payload)
      modifies this
      ensures Value() == old(Value()).(
        authorName := p.authorName.GetOr(old(authorName)), authorURL := p.authorURL.GetOr(old(authorURL)),
        html := p.html.GetOr(old(html)))
    {
      authorName := p.authorName.GetOr(authorName);
      authorURL := p.authorURL.GetOr(authorURL);
      html := p.html.GetOr(html);
    }

    /** The tail of FillFromJSON: each numeric field becomes FormatInt of its ParseInt value. */
    method NormalizeNumbers()
      modifies this
      ensures Value() == Normalized(old(Value()))
    {
      hide NormalizeNumber, Strconv.IsCanonical, Strconv.CanonicalValue;
      width, height, thumbnailWidth, thumbnailHeight :=
        NormalizeNumber(width), NormalizeNumber(height),
        NormalizeNumber(thumbnailWidth), NormalizeNumber(thumbnailHeight);
    }

    /**
     * MergeWith: fill each empty descriptive field from `base`; when the
     * thumbnail URL is empty, take URL, width and height from `base` together.
     * `base` may be this very object.
     */
    method MergeWith(base: Info)
      modifies this
      ensures Value() == Merged(old(Value()), old(base.Value()))
    {
      // Each field of base is read only after writes to other fields of
      // this object, so reading base once up front is the same when base == this.
      var b := base.Value();
      MergeHead(b);
      MergeText(b);
      if |thumbnailURL| == 0 {
        thumbnailURL, thumbnailWidth, thumbnailHeight := b.thumbnailURL, b.thumbnailWidth, b.thumbnailHeight;
      }
    }

    /** The first part of MergeWith: type, URL, provider URL and provider name, one at a time. */
    method MergeHead(b: Record)
      modifies this
      ensures Value() == old(Value()).(
        typ := if |old(typ)| == 0 then b.typ else old(typ),
        url := if |old(url)| == 0 then b.url else old(url),
        providerURL := if |old(providerURL)| == 0 then b.providerURL else old(providerURL),
        providerName := if |old(providerName)| == 0 then b.providerName else old(providerName))
    {
      if |typ| == 0 { typ := b.typ; }
      if |url| == 0 { url := b.url; }
      if |providerURL| == 0 { providerURL := b.providerURL; }
      if |providerName| == 0 { providerName := b.providerName; }
    }

    /** The second part of MergeWith: title and description. */
    method MergeText(b: Record)
      modifies this
      ensures Value() == old(Value()).(
        title := if |old(title)| == 0 then b.title else old(title),
        description := if |old(description)| == 0 then b.description else old(description))
    {
      if |title| == 0 { title := b.title; }
      if |description| == 0 { description := b.description; }
    }
  }

  /** Each descriptive string takes base's value exactly when it was empty, and a set value is never overwritten. */
  lemma MergeFillsEmptyStrings(info: Record, base: Record)
    ensures var r := Merged(info, base);
      && (info.typ == "" ==> r.typ == base.typ) && (info.typ != "" ==> r.typ == info.typ)
      && (info.url == "" ==> r.url == base.url) && (info.url != "" ==> r.url == info.url)
      && (info.providerURL == "" ==> r.providerURL == base.providerURL)
      && (info.providerURL != "" ==> r.providerURL == info.providerURL)
      && (info.providerName == "" ==> r.providerName == base.providerName)
      && (info.providerName != "" ==> r.providerName == info.providerName)
      && (info.title == "" ==> r.title == base.title) && (info.title != "" ==> r.title == info.title)
      && (info.description == "" ==> r.description == base.description)
      && (info.description != "" ==> r.description == info.description)
  {
  }

  /** The thumbnail triple moves as one group, keyed on the thumbnail URL alone. */
  lemma MergeThumbnailGroup(info: Record, base: Record)
    ensures var r := Merged(info, base);
      && (info.thumbnailURL == "" ==>
            r.thumbnailURL == base.thumbnailURL && r.thumbnailWidth == base.thumbnailWidth
            && r.thumbnailHeight == base.thumbnailHeight)
      && (info.thumbnailURL != "" ==>
            r.thumbnailURL == info.thumbnailURL && r.thumbnailWidth == info.thumbnailWidth
            && r.thumbnailHeight == info.thumbnailHeight)
  {
  }

  /** Status, width, height, author and html are never touched by a merge. */
  lemma MergeKeepsOtherFields(info: Record, base: Record)
    ensures var r := Merged(info, base);
      r.status == info.status && r.width == info.width && r.height == info.height
      && r.authorName == info.authorName && r.authorURL == info.authorURL && r.html == info.html
  {
  }

  /** Merging twice with the same base is merging once; merging with an equal copy changes nothing. */
  lemma MergeIdempotent(info: Record, base: Record)
    ensures Merged(Merged(info, base), base) == Merged(info, base)
    ensures Merged(info, info) == info
  {
  }

  /** Canonical int64 decimals are left as they are; so normalising twice is normalising once. */
  lemma NormalizeNumberIdempotent(s: string)
    ensures NormalizeNumber(NormalizeNumber(s)) == NormalizeNumber(s)
    ensures Strconv.IsCanonical(s) && Strconv.InInt64(Strconv.CanonicalValue(s)) ==> NormalizeNumber(s) == s
  {
    var n := NormalizeNumber(s);
    Strconv.ParseCanonical(n);
    Strconv.CanonicalIsFormatted(n);
    if Strconv.IsCanonical(s) && Strconv.InInt64(Strconv.CanonicalValue(s)) {
      Strconv.ParseCanonical(s);
      Strconv.CanonicalIsFormatted(s);
    }
  }

  /** A sign or leading zeros disappear: "+7" and "007" both become "7". */
  lemma NormalizeNumberDropsSignAndZeros()
    ensures NormalizeNumber("+7") == "7" && NormalizeNumber("007") == "7"
  {
    assert "+7" == "+" + "7";
    Strconv.ParseIntDigits("+", "7");
    assert Strconv.ParseInt("+7").value == 7;
    assert "007"[..2] == "00" && "00"[..1] == "0" && "0"[..0] == "";
    assert Strconv.DigitsValue("007") == 7;
    assert "007" == "" + "007";
    Strconv.ParseIntDigits("", "007");
    assert Strconv.ParseInt("007").value == 7;
  }

  /**
   * A number whose integer part fits in 64 unsigned bits and is followed by
   * anything that is not a digit (a fraction, an exponent) becomes "0".
   */
  lemma NormalizeNumberNonDigit(sign: string, p: string, c: char, q: string)
    requires sign == "" || sign == "+" || sign == "-"
    requires Strconv.AllDigits(p) && Strconv.DigitsValue(p) <= Strconv.MaxUint64 && !Strconv.IsDigit(c)
    requires sign == "" && p == [] ==> c != '+' && c != '-'
    ensures NormalizeNumber(sign + p + [c] + q) == "0"
  {
    Strconv.ParseIntNonDigit(sign, p, c, q);
  }

  /**
   * An integer part beyond 64 unsigned bits decides the result before the rest
   * is read: the number becomes the int64 bound of its sign, whatever follows.
   */
  lemma NormalizeNumberOverflowFirst(sign: string, p: string, q: string)
    requires sign == "" || sign == "+" || sign == "-"
    requires Strconv.AllDigits(p) && Strconv.DigitsValue(p) > Strconv.MaxUint64
    ensures Strconv.CanonicalValue(NormalizeNumber(sign + p + q)) == if sign == "-" then Strconv.MinInt64 else Strconv.MaxInt64
  {
    Strconv.ParseIntOverflowFirst(sign, p, q);
    Strconv.FormatIntCanonical(Strconv.ParseInt(sign + p + q).value);
  }

  /** Empty, fractional and exponent forms become "0". */
  lemma NormalizeNumberNonIntegers()
    ensures NormalizeNumber("") == "0" && NormalizeNumber("640.5") == "0" && NormalizeNumber("1e3") == "0"
  {
    assert "640"[..2] == "64" && "64"[..1] == "6" && "6"[..0] == "";
    assert Strconv.DigitsValue("640") == 640;
    assert "640.5" == "" + "640" + ['.'] + "5";
    NormalizeNumberNonDigit("", "640", '.', "5");
    assert "1"[..0] == "";
    assert "1e3" == "" + "1" + ['e'] + "3";
    NormalizeNumberNonDigit("", "1", 'e', "3");
  }

  /** Digit strings beyond the int64 range, with or without a sign, clamp to the int64 bounds. */
  lemma NormalizeNumberClamps(sign: string, s: string)
    requires sign == "" || sign == "+" || sign == "-"
    requires |s| >= 1 && Strconv.AllDigits(s)
    ensures sign != "-" && Strconv.DigitsValue(s) > Strconv.MaxInt64 ==>
      Strconv.CanonicalValue(NormalizeNumber(sign + s)) == Strconv.MaxInt64
    ensures sign == "-" && Strconv.DigitsValue(s) > -Strconv.MinInt64 ==>
      Strconv.CanonicalValue(NormalizeNumber(sign + s)) == Strconv.MinInt64
  {
    hide Strconv.ParseInt, Strconv.FormatInt, Strconv.DigitsValue, Strconv.CanonicalValue;
    var t := Strconv.ParseInt(sign + s).value;
    Strconv.ParseIntDigits(sign, s);
    Strconv.FormatIntCanonical(t);
    assert NormalizeNumber(sign + s) == Strconv.FormatInt(t);
  }

  /** Normalisation only rewrites the four numeric fields, each to a canonical int64 decimal, and is idempotent. */
  lemma NormalizedRecord(r: Record)
    ensures var n := Normalized(r);
      && n.(width := r.width, height := r.height, thumbnailWidth := r.thumbnailWidth,
            thumbnailHeight := r.thumbnailHeight) == r
      && Strconv.IsCanonical(n.width) && Strconv.IsCanonical(n.height)
      && Strconv.IsCanonical(n.thumbnailWidth) && Strconv.IsCanonical(n.thumbnailHeight)
      && Normalized(n) == n
  {
    NormalizeNumberIdempotent(r.width);
    NormalizeNumberIdempotent(r.height);
    NormalizeNumberIdempotent(r.thumbnailWidth);
    NormalizeNumberIdempotent(r.thumbnailHeight);
  }
}
