/** Client-side normalisation of the content blocks handed to the renderer:
    the items prop (one item or a list) becomes a list of TEXT, CODE and IMAGE
    blocks with defaults filled in; items of any other type are dropped. */
module ContentRenderer {
  import opened Wrappers
  import opened Js
  import opened Strings
  import FetchContent

  const DefaultBucket: string := "images"
  const DefaultWidth: int := 1600
  const DefaultHeight: int := 900

  /** `isHttpUrl`: `!!v && /^https?:\/\//i.test(v)`, the test reading `String(v)`. */
  predicate IsHttpUrl(v: Value)
    ensures IsHttpUrl(v) ==> Truthy(v) && |ToJsString(v)| >= 7
    ensures IsNullish(v) ==> !IsHttpUrl(v)
  {
    var s := ToJsString(v);
    Truthy(v) && (StartsWithIgnoreCase(s, "http://") || StartsWithIgnoreCase(s, "https://"))
  }

  /** `stripAccidentalSuffix`: a string loses one trailing "$0" and then its
      surrounding whitespace; any other value is returned as is. */
  function StripAccidentalSuffix(url: Value): (r: Value)
    ensures !url.Str? ==> r == url
    ensures url.Str? ==> r.Str? && |r.s| <= |url.s|
    ensures url.Str? && r.s != "" ==> !IsJsWhitespace(r.s[0]) && !IsJsWhitespace(r.s[|r.s| - 1])
  {
    if url.Str? then Str(Trim(StripDollarZero(url.s))) else url
  }

  datatype ImagePayload =
    ImagePayload(url: Value, path: Value, bucket: Value, alt: Value, caption: Value,
                 width: JsNumber, height: JsNumber)

  /** `typeof v === "number" ? v : default`. */
  function NumberOr(v: Value, default: int): (n: JsNumber)
    ensures v.Num? ==> n == v.num
    ensures !v.Num? ==> n == Finite(default)
  {
    if v.Num? then v.num else Finite(default)
  }

  /** `asImagePayload`: the nested `data` object when it is defined, the input
      itself otherwise, with defaults. Reading `.data` of null or undefined throws. */
  function AsImagePayload(input: Value): (r: Result<ImagePayload>)
    ensures r.TypeError? <==> IsNullish(input)
    ensures r.Ok? ==> !IsNullish(r.value.bucket)
    ensures r.Ok? && Get(input, "data") == Undefined ==> r.value.path == Get(input, "path") && r.value.alt == Get(input, "alt")
  {
    if IsNullish(input) then TypeError
    else
      var payload := if Get(input, "data") != Undefined then Get(input, "data") else input;
      Ok(ImagePayload(StripAccidentalSuffix(Get(payload, "url")),
                      Get(payload, "path"),
                      Coalesce(Get(payload, "bucket"), Str(DefaultBucket)),
                      Get(payload, "alt"),
                      Get(payload, "caption"),
                      NumberOr(Get(payload, "width"), DefaultWidth),
                      NumberOr(Get(payload, "height"), DefaultHeight)))
  }

  datatype Block =
    | TextBlock(title: Value, subtitle: Value, text: Value)
    | CodeBlock(title: Value, subtitle: Value, code: Value, language: Value)
    | ImageBlock(title: Value, subtitle: Value, image: ImagePayload)

  /** `v ?? undefined`: null becomes undefined. */
  function OrUndefined(v: Value): (r: Value)
    ensures r == (if v.Null? then Undefined else v)
  {
    Coalesce(v, Undefined)
  }

  /** The callback of `normalizeItems`'s map: a block, None for an unknown type
      (dropped by the filter), or the TypeError thrown when the item itself is
      null or undefined, or when an IMAGE item has no `data`. */
  function NormalizeItem(it: Value): (r: Result<Option<Block>>)
    ensures r.TypeError? ==> IsNullish(it) || Get(it, "type") == Str("IMAGE")
    ensures r.Ok? && r.value.Some? ==> !r.value.value.title.Null? && !r.value.value.subtitle.Null?
  {
    if IsNullish(it) then TypeError
    else
      var title, subtitle := OrUndefined(Get(it, "title")), OrUndefined(Get(it, "subtitle"));
      var kind, data := Get(it, "type"), Get(it, "data");
      if kind == Str("TEXT") then
        Ok(Some(TextBlock(title, subtitle, Coalesce(Get(data, "text"), Str("")))))
      else if kind == Str("CODE") then
        Ok(Some(CodeBlock(title, subtitle, Coalesce(Get(data, "code"), Str("")), OrUndefined(Get(data, "language")))))
      else if kind == Str("IMAGE") then
        match AsImagePayload(data)
        case TypeError => TypeError
        case Ok(image) => Ok(Some(ImageBlock(title, subtitle, image)))
      else
        Ok(None)
  }

  /** `normalizeItems`: `items.map(...).filter(Boolean)`. */
  function NormalizeItems(items: seq<Value>): (r: Result<seq<Block>>)
    ensures r.Ok? <==> forall i :: 0 <= i < |items| ==> NormalizeItem(items[i]).Ok?
    ensures r.Ok? ==> |r.value| <= |items|
  {
    MapFilter(items, NormalizeItem)
  }

  /** `Array.isArray(items) ? items : [items]`. */
  function ItemsList(items: Value): (list: seq<Value>)
    ensures items.Arr? ==> list == items.elems
    ensures !items.Arr? ==> list == [items]
  {
    if items.Arr? then items.elems else [items]
  }

  /** The blocks `ContentRenderer` renders for its `items` prop. */
  function RenderedBlocks(items: Value): (r: Result<seq<Block>>)
    ensures r.Ok? <==> forall i :: 0 <= i < |ItemsList(items)| ==> NormalizeItem(ItemsList(items)[i]).Ok?
    ensures r.Ok? && !items.Arr? ==> |r.value| <= 1
    ensures r.Ok? && items.Arr? ==> |r.value| <= |items.elems|
  {
    NormalizeItems(ItemsList(items))
  }

  // ---------------------------------------------------------------------------
  // Properties

  /** The block types, matched case-sensitively. */
  predicate IsKnownItem(it: Value) {
    Get(it, "type") == Str("TEXT") || Get(it, "type") == Str("CODE") || Get(it, "type") == Str("IMAGE")
  }

  /** The number of items with a known type. */
  function CountKnown(items: seq<Value>): nat {
    if items == [] then 0 else (if IsKnownItem(items[0]) then 1 else 0) + CountKnown(items[1..])
  }

  /** A string is an http(s) URL exactly when it starts with "http://" or
      "https://" in any ASCII case. */
  lemma HttpUrlOfString(s: string)
    ensures IsHttpUrl(Str(s)) <==> StartsWithIgnoreCase(s, "http://") || StartsWithIgnoreCase(s, "https://")
    ensures IsHttpUrl(Str(s)) ==> |s| >= 7
    ensures !IsHttpUrl(Undefined) && !IsHttpUrl(Null) && !IsHttpUrl(Str(""))
  {
  }

  lemma HttpUrlExamples()
    ensures IsHttpUrl(Str("HTTPS://x"))
    ensures !IsHttpUrl(Str("ftp://x"))
  {
    assert Upper("HTTPS://x"[..8]) == Upper("https://");
    assert Upper("ftp://x"[..7]) != Upper("http://") by {
      assert Upper("ftp://x"[..7])[0] == 'F';
    }
  }

  /** On strings the client and the server versions of the suffix clean-up agree. */
  lemma StripAgreesWithServer(s: string)
    ensures StripAccidentalSuffix(Str(s)) == Str(FetchContent.StripAccidentalSuffix(Some(s)).value)
  {
    if s == "" {
      assert StripDollarZero(s) == "" && TrimStart("") == "" && TrimEnd("") == "";
    }
  }

  /** The image payload is `input.data` when defined and `input` otherwise; the
      bucket defaults to "images", width and height to 1600 and 900 when not
      numbers; path, alt and caption are copied. It throws only on null or
      undefined input. */
  lemma ImagePayloadChoice(input: Value)
    ensures AsImagePayload(input).TypeError? <==> IsNullish(input)
    ensures AsImagePayload(input).Ok? ==>
      var p, img := (if Get(input, "data") != Undefined then Get(input, "data") else input), AsImagePayload(input).value;
      && img.url == StripAccidentalSuffix(Get(p, "url"))
      && img.path == Get(p, "path") && img.alt == Get(p, "alt") && img.caption == Get(p, "caption")
      && (IsNullish(Get(p, "bucket")) ==> img.bucket == Str(DefaultBucket))
      && (!IsNullish(Get(p, "bucket")) ==> img.bucket == Get(p, "bucket"))
      && (Get(p, "width").Num? ==> img.width == Get(p, "width").num)
      && (!Get(p, "width").Num? ==> img.width == Finite(DefaultWidth))
      && (Get(p, "height").Num? ==> img.height == Get(p, "height").num)
      && (!Get(p, "height").Num? ==> img.height == Finite(DefaultHeight))
  {
  }

  /** One item: a known type gives a block of that type, any other type gives
      nothing; it throws only for a null or undefined item or an IMAGE item
      without `data`. */
  lemma ItemDecision(it: Value)
    ensures NormalizeItem(it).TypeError? <==>
              IsNullish(it) || (Get(it, "type") == Str("IMAGE") && IsNullish(Get(it, "data")))
    ensures NormalizeItem(it).Ok? ==> (NormalizeItem(it).value.Some? <==> IsKnownItem(it))
    ensures NormalizeItem(it).Ok? && NormalizeItem(it).value.Some? ==>
              var b := NormalizeItem(it).value.value;
              && (b.TextBlock? <==> Get(it, "type") == Str("TEXT"))
              && (b.CodeBlock? <==> Get(it, "type") == Str("CODE"))
              && (b.ImageBlock? <==> Get(it, "type") == Str("IMAGE"))
              && b.title == OrUndefined(Get(it, "title")) && b.subtitle == OrUndefined(Get(it, "subtitle"))
              && !b.title.Null? && !b.subtitle.Null?
  {
  }

  /** Missing text or code becomes ""; a present language is kept and a null
      one becomes undefined. */
  lemma TextAndCodeDefaults(it: Value)
    requires NormalizeItem(it).Ok? && NormalizeItem(it).value.Some?
    ensures var b, data := NormalizeItem(it).value.value, Get(it, "data");
      && (b.TextBlock? && IsNullish(Get(data, "text")) ==> b.text == Str(""))
      && (b.TextBlock? && !IsNullish(Get(data, "text")) ==> b.text == Get(data, "text"))
      && (b.CodeBlock? && IsNullish(Get(data, "code")) ==> b.code == Str(""))
      && (b.CodeBlock? && !IsNullish(Get(data, "code")) ==> b.code == Get(data, "code"))
      && (b.CodeBlock? ==> !b.language.Null?)
      && (b.CodeBlock? ==> b.language == OrUndefined(Get(data, "language")))
  {
  }

  /** Normalising a concatenation concatenates the results, so the kept blocks
      keep the items' relative order; one item gives its block or nothing. */
  lemma NormalizeItemsAppend(a: seq<Value>, b: seq<Value>)
    ensures var ra, rb, r := NormalizeItems(a), NormalizeItems(b), NormalizeItems(a + b);
      && (r.Ok? <==> ra.Ok? && rb.Ok?)
      && (r.Ok? ==> r.value == ra.value + rb.value)
    ensures forall it :: NormalizeItem(it) == Ok(None) ==> NormalizeItems([it]) == Ok([])
  {
    MapFilterAppend(a, b, NormalizeItem);
    forall it | NormalizeItem(it) == Ok(None) ensures NormalizeItems([it]) == Ok([]) {
      MapFilterOne(it, NormalizeItem);
    }
  }

  /** Exactly the items of a known type are kept. */
  lemma {:induction false} KeepsKnownItems(items: seq<Value>)
    requires NormalizeItems(items).Ok?
    ensures |NormalizeItems(items).value| == CountKnown(items)
  {
    if items != [] {
      ItemDecision(items[0]);
      KeepsKnownItems(items[1..]);
    }
  }

  /** A single item that is not an array is rendered as a one-element list. */
  lemma SingleItemIsWrapped(it: Value)
    requires !it.Arr?
    ensures RenderedBlocks(it) == NormalizeItems([it])
    ensures RenderedBlocks(Arr([it])) == RenderedBlocks(it)
  {
  }
}
