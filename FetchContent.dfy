/** Server-side normalisation of content rows: a loosely typed row, whose
    `data` may be an object, a nested `{ data: ... }` object or stringified
    JSON, becomes a TEXT, CODE or IMAGE item, or is skipped.

    `JSON.parse` and `Number(string)` are not modelled; they are the parameters
    `jsonParse` (None when it throws) and `numberOf`. */
module FetchContent {
  import opened Wrappers
  import opened Js
  import opened Strings

  const DefaultWidth: int := 1600
  const DefaultHeight: int := 900

  /** A row of the content table. */
  datatype RawContentItem =
    RawContentItem(id: string, itemType: string, data: Value, order: int, sectionId: string,
                   title: Value, subtitle: Value)

  /** The payload of a normalised item; the constructor is its `type`. */
  datatype ItemData =
    | TextData(text: string)
    | CodeData(code: string, language: Option<string>)
    | ImageData(url: Option<string>, path: Option<string>, bucket: Option<string>,
                alt: Option<string>, caption: Option<string>, width: JsNumber, height: JsNumber)

  datatype NormalizedItem =
    NormalizedItem(id: string, title: Value, subtitle: Value, order: int, sectionId: string, data: ItemData)

  /** The `type` field of a normalised item. */
  function TypeTag(d: ItemData): string {
    match d
    case TextData(_) => "TEXT"
    case CodeData(_, _) => "CODE"
    case ImageData(_, _, _, _, _, _, _) => "IMAGE"
  }

  /** `toNumber`: a finite number as is, a non-blank string that `Number`
      converts to something other than NaN, and undefined otherwise. */
  function ToNumber(v: Value, numberOf: string -> JsNumber): (r: Option<JsNumber>)
    ensures r.Some? ==> r.value != NaN
    ensures r.Some? ==> v.Num? || v.Str?
    ensures v.Num? ==> (r.Some? <==> v.num.Finite?) && (r.Some? ==> r.value == v.num)
    ensures v.Str? ==> (r.Some? <==> Trim(v.s) != "" && numberOf(v.s) != NaN)
                       && (r.Some? ==> r.value == numberOf(v.s))
  {
    if v.Num? && v.num.Finite? then Some(v.num)
    else if v.Str? && Trim(v.s) != "" && numberOf(v.s) != NaN then Some(numberOf(v.s))
    else None
  }

  /** `stripAccidentalSuffix`: undefined and "" come back unchanged; any other
      URL loses one trailing "$0" and then its surrounding whitespace. */
  function StripAccidentalSuffix(url: Option<string>): (r: Option<string>)
    ensures url.None? <==> r.None?
    ensures url == Some("") ==> r == Some("")
    ensures url.Some? && url.value != "" ==> r == Some(Trim(StripDollarZero(url.value)))
    ensures r.Some? && r.value != "" ==> !IsJsWhitespace(r.value[0]) && !IsJsWhitespace(r.value[|r.value| - 1])
  {
    if url.None? || url.value == "" then url
    else Some(Trim(StripDollarZero(url.value)))
  }

  /** `safeParse`: what `JSON.parse` yields, or `{}` when it throws. */
  function SafeParse(s: string, jsonParse: string -> Option<Value>): (v: Value)
    ensures jsonParse(s).None? ==> v == Obj(map[])
    ensures jsonParse(s).Some? ==> v == jsonParse(s).value
  {
    jsonParse(s).GetOr(Obj(map[]))
  }

  /** `parsed`: a string `data` parsed, anything else as is. */
  function Parsed(raw: RawContentItem, jsonParse: string -> Option<Value>): (v: Value)
    ensures raw.data.Str? && jsonParse(raw.data.s).Some? ==> v == jsonParse(raw.data.s).value
    ensures raw.data.Str? && jsonParse(raw.data.s).None? ==> v == Obj(map[])
    ensures !raw.data.Str? ==> v == raw.data
  {
    if raw.data.Str? then SafeParse(raw.data.s, jsonParse) else raw.data
  }

  /** `parsed?.data ?? parsed ?? {}`. */
  function Payload(parsed: Value): (payload: Value)
    ensures !IsNullish(payload)
  {
    Coalesce(Get(parsed, "data"), Coalesce(parsed, Obj(map[])))
  }

  /** `(parsed?.type ?? raw.type)?.toUpperCase()`, which throws when `parsed.type`
      is present but not a string. */
  function ItemTypeOf(raw: RawContentItem, parsed: Value): (r: Result<string>)
    ensures r.TypeError? <==> !IsNullish(Get(parsed, "type")) && !Get(parsed, "type").Str?
    ensures r.Ok? ==> forall i :: 0 <= i < |r.value| ==> !('a' <= r.value[i] <= 'z')
    ensures IsNullish(Get(parsed, "type")) ==> r == Ok(Upper(raw.itemType))
    ensures Get(parsed, "type").Str? ==> r == Ok(Upper(Get(parsed, "type").s))
  {
    var t := Coalesce(Get(parsed, "type"), Str(raw.itemType));
    if t.Str? then Ok(Upper(t.s)) else TypeError
  }

  /** `v ? String(v) : undefined`. */
  function StringIfTruthy(v: Value): (r: Option<string>)
    ensures r.Some? <==> Truthy(v)
    ensures v.Str? && r.Some? ==> r.value == v.s && r.value != ""
  {
    if Truthy(v) then Some(ToJsString(v)) else None
  }

  /** `String(v ?? "")`. */
  function StringOrEmpty(v: Value): (r: string)
    ensures IsNullish(v) ==> r == ""
    ensures v.Str? ==> r == v.s
  {
    ToJsString(Coalesce(v, Str("")))
  }

  /** The IMAGE data read from a payload; the field by field facts are in
      `ImageDataFields`. */
  function ImageDataOf(payload: Value, numberOf: string -> JsNumber): (d: ItemData)
    ensures d.ImageData? && d.width != NaN && d.height != NaN
    ensures d.path.None? <==> !Truthy(Get(payload, "path"))
  {
    ImageData(StripAccidentalSuffix(StringIfTruthy(Get(payload, "url"))),
              StringIfTruthy(Get(payload, "path")),
              StringIfTruthy(Get(payload, "bucket")),
              StringIfTruthy(Get(payload, "alt")),
              StringIfTruthy(Get(payload, "caption")),
              ToNumber(Get(payload, "width"), numberOf).GetOr(Finite(DefaultWidth)),
              ToNumber(Get(payload, "height"), numberOf).GetOr(Finite(DefaultHeight)))
  }

  /** `normalizeItem`: the item, None for an unknown type (skipped), or the
      TypeError thrown by upper-casing a non-string `type`. */
  function NormalizeItem(raw: RawContentItem, jsonParse: string -> Option<Value>, numberOf: string -> JsNumber)
    : (r: Result<Option<NormalizedItem>>)
    ensures r.Ok? && r.value.Some? ==>
              var item := r.value.value;
              && item.id == raw.id && item.order == raw.order && item.sectionId == raw.sectionId
              && !item.title.Undefined? && !item.subtitle.Undefined?
    ensures r.Ok? && r.value.Some? ==> IsKnownType(TypeTag(r.value.value.data))
  {
    var parsed := Parsed(raw, jsonParse);
    var payload := Payload(parsed);
    match ItemTypeOf(raw, parsed)
    case TypeError => TypeError
    case Ok(t) =>
      var base := NormalizedItem(raw.id,
                                 Coalesce(raw.title, Coalesce(Get(parsed, "title"), Null)),
                                 Coalesce(raw.subtitle, Coalesce(Get(parsed, "subtitle"), Null)),
                                 raw.order, raw.sectionId, TextData(""));
      if t == "TEXT" then
        Ok(Some(base.(data := TextData(StringOrEmpty(Get(payload, "text"))))))
      else if t == "CODE" then
        Ok(Some(base.(data := CodeData(StringOrEmpty(Get(payload, "code")),
                                       StringIfTruthy(Get(payload, "language"))))))
      else if t == "IMAGE" then
        Ok(Some(base.(data := ImageDataOf(payload, numberOf))))
      else
        Ok(None)
  }

  /** `rows.map(normalizeItem).filter(Boolean)`; the map throws when any row does. */
  function NormalizeRows(rows: seq<RawContentItem>, jsonParse: string -> Option<Value>, numberOf: string -> JsNumber)
    : (r: Result<seq<NormalizedItem>>)
    ensures r.Ok? <==> forall i :: 0 <= i < |rows| ==> NormalizeItem(rows[i], jsonParse, numberOf).Ok?
    ensures r.Ok? ==> |r.value| <= |rows|
    ensures r.Ok? ==> forall k :: 0 <= k < |r.value| ==>
              exists i :: 0 <= i < |rows| && NormalizeItem(rows[i], jsonParse, numberOf) == Ok(Some(r.value[k]))
  {
    var r := MapFilter(rows, row => NormalizeItem(row, jsonParse, numberOf));
    if r.Ok? then MapFilterSources(rows, row => NormalizeItem(row, jsonParse, numberOf)); r else r
  }

  /** The item list of `fetchSectionContent` for the rows its query returned
      (None for a null result). */
  function SectionItems(rows: Option<seq<RawContentItem>>, jsonParse: string -> Option<Value>,
                        numberOf: string -> JsNumber): (r: Result<seq<NormalizedItem>>)
    ensures rows.None? ==> r == Ok([])
    ensures rows.Some? ==> r == NormalizeRows(rows.value, jsonParse, numberOf)
  {
    if rows.None? then Ok([]) else NormalizeRows(rows.value, jsonParse, numberOf)
  }

  // ---------------------------------------------------------------------------
  // Properties

  predicate IsKnownType(t: string) {
    t == "TEXT" || t == "CODE" || t == "IMAGE"
  }

  /** The type comes from `parsed.type` when present and from the row
      otherwise, upper-cased: TEXT, CODE and IMAGE give an item of that type,
      any other string skips the row, and a non-string `parsed.type` throws. */
  lemma TypeDecision(raw: RawContentItem, jsonParse: string -> Option<Value>, numberOf: string -> JsNumber)
    ensures var parsed, r := Parsed(raw, jsonParse), NormalizeItem(raw, jsonParse, numberOf);
            var pt := Get(parsed, "type");
            var t := if pt.Str? then pt.s else raw.itemType;
      && (r.TypeError? <==> !IsNullish(pt) && !pt.Str?)
      && (r.Ok? ==> (r.value.Some? <==> IsKnownType(Upper(t))))
      && (r.Ok? && r.value.Some? ==> TypeTag(r.value.value.data) == Upper(t))
  {
  }

  lemma {:induction false} UpperIdempotent(s: string)
    ensures Upper(Upper(s)) == Upper(s)
  {
  }

  /** The row's type is matched ignoring ASCII case. */
  lemma TypeIgnoresCase(raw: RawContentItem, s: string, jsonParse: string -> Option<Value>,
                        numberOf: string -> JsNumber)
    ensures NormalizeItem(raw.(itemType := s), jsonParse, numberOf)
            == NormalizeItem(raw.(itemType := Upper(s)), jsonParse, numberOf)
  {
    UpperIdempotent(s);
  }

  /** The payload is `parsed.data` when present, else `parsed`, else `{}`; a
      string that does not parse gives `{}`. */
  lemma PayloadChoice(raw: RawContentItem, jsonParse: string -> Option<Value>)
    ensures var parsed := Parsed(raw, jsonParse);
      && (!IsNullish(Get(parsed, "data")) ==> Payload(parsed) == Get(parsed, "data"))
      && (IsNullish(Get(parsed, "data")) && !IsNullish(parsed) ==> Payload(parsed) == parsed)
      && (IsNullish(parsed) ==> Payload(parsed) == Obj(map[]))
    ensures raw.data.Str? && jsonParse(raw.data.s).None? ==> Payload(Parsed(raw, jsonParse)) == Obj(map[])
  {
  }

  /** `id`, `order` and `sectionId` are the row's; the title and subtitle are
      the row's, else the parsed data's, else null. */
  lemma BaseFields(raw: RawContentItem, jsonParse: string -> Option<Value>, numberOf: string -> JsNumber)
    requires NormalizeItem(raw, jsonParse, numberOf).Ok? && NormalizeItem(raw, jsonParse, numberOf).value.Some?
    ensures var item, parsed := NormalizeItem(raw, jsonParse, numberOf).value.value, Parsed(raw, jsonParse);
      && item.id == raw.id && item.order == raw.order && item.sectionId == raw.sectionId
      && (!IsNullish(raw.title) ==> item.title == raw.title)
      && (IsNullish(raw.title) && !IsNullish(Get(parsed, "title")) ==> item.title == Get(parsed, "title"))
      && (IsNullish(raw.title) && IsNullish(Get(parsed, "title")) ==> item.title == Null)
      && (!IsNullish(raw.subtitle) ==> item.subtitle == raw.subtitle)
      && (IsNullish(raw.subtitle) && !IsNullish(Get(parsed, "subtitle")) ==> item.subtitle == Get(parsed, "subtitle"))
      && (IsNullish(raw.subtitle) && IsNullish(Get(parsed, "subtitle")) ==> item.subtitle == Null)
  {
  }

  /** Missing text or code reads as ""; a string is kept; the language is set
      only when the payload's is truthy. */
  lemma TextAndCodeFields(raw: RawContentItem, jsonParse: string -> Option<Value>, numberOf: string -> JsNumber)
    requires NormalizeItem(raw, jsonParse, numberOf).Ok? && NormalizeItem(raw, jsonParse, numberOf).value.Some?
    ensures var d, payload := NormalizeItem(raw, jsonParse, numberOf).value.value.data, Payload(Parsed(raw, jsonParse));
      && (d.TextData? && IsNullish(Get(payload, "text")) ==> d.text == "")
      && (d.TextData? && Get(payload, "text").Str? ==> d.text == Get(payload, "text").s)
      && (d.CodeData? && IsNullish(Get(payload, "code")) ==> d.code == "")
      && (d.CodeData? && Get(payload, "code").Str? ==> d.code == Get(payload, "code").s)
      && (d.CodeData? ==> (d.language.Some? <==> Truthy(Get(payload, "language"))))
      && (d.CodeData? && Get(payload, "language").Str? && Get(payload, "language").s != ""
          ==> d.language == Some(Get(payload, "language").s))
  {
  }

  /** Width and height default to 1600 and 900 when `toNumber` gives undefined;
      falsy path, bucket, alt and caption are undefined; there is no default
      bucket here. */
  lemma ImageDataFields(payload: Value, numberOf: string -> JsNumber)
    ensures var d := ImageDataOf(payload, numberOf);
      && (ToNumber(Get(payload, "width"), numberOf).None? ==> d.width == Finite(DefaultWidth))
      && (ToNumber(Get(payload, "width"), numberOf).Some? ==> d.width == ToNumber(Get(payload, "width"), numberOf).value)
      && (ToNumber(Get(payload, "height"), numberOf).None? ==> d.height == Finite(DefaultHeight))
      && (ToNumber(Get(payload, "height"), numberOf).Some? ==> d.height == ToNumber(Get(payload, "height"), numberOf).value)
      && d.width != NaN && d.height != NaN
      && (d.bucket.None? <==> !Truthy(Get(payload, "bucket")))
      && (d.path.None? <==> !Truthy(Get(payload, "path")))
      && (d.alt.None? <==> !Truthy(Get(payload, "alt")))
      && (d.caption.None? <==> !Truthy(Get(payload, "caption")))
      && (d.url.None? <==> !Truthy(Get(payload, "url")))
      && (Get(payload, "url").Str? && Get(payload, "url").s != ""
          ==> d.url == Some(Trim(StripDollarZero(Get(payload, "url").s))))
  {
  }

  /** The same fields on a normalised IMAGE item, read from the row's payload. */
  lemma ImageFields(raw: RawContentItem, jsonParse: string -> Option<Value>, numberOf: string -> JsNumber)
    requires NormalizeItem(raw, jsonParse, numberOf).Ok? && NormalizeItem(raw, jsonParse, numberOf).value.Some?
    requires NormalizeItem(raw, jsonParse, numberOf).value.value.data.ImageData?
    ensures var d, payload := NormalizeItem(raw, jsonParse, numberOf).value.value.data, Payload(Parsed(raw, jsonParse));
      && (ToNumber(Get(payload, "width"), numberOf).None? ==> d.width == Finite(DefaultWidth))
      && (ToNumber(Get(payload, "width"), numberOf).Some? ==> d.width == ToNumber(Get(payload, "width"), numberOf).value)
      && (ToNumber(Get(payload, "height"), numberOf).None? ==> d.height == Finite(DefaultHeight))
      && (ToNumber(Get(payload, "height"), numberOf).Some? ==> d.height == ToNumber(Get(payload, "height"), numberOf).value)
      && d.width != NaN && d.height != NaN
      && (d.bucket.None? <==> !Truthy(Get(payload, "bucket")))
      && (d.path.None? <==> !Truthy(Get(payload, "path")))
      && (d.alt.None? <==> !Truthy(Get(payload, "alt")))
      && (d.caption.None? <==> !Truthy(Get(payload, "caption")))
      && (d.url.None? <==> !Truthy(Get(payload, "url")))
      && (Get(payload, "url").Str? && Get(payload, "url").s != ""
          ==> d.url == Some(Trim(StripDollarZero(Get(payload, "url").s))))
  {
    var payload := Payload(Parsed(raw, jsonParse));
    assert NormalizeItem(raw, jsonParse, numberOf).value.value.data == ImageDataOf(payload, numberOf);
    ImageDataFields(payload, numberOf);
  }

  /** The surrounding whitespace is trimmed after the "$0" is removed, so a
      "$0" followed by whitespace survives. */
  lemma SuffixBeforeTrim()
    ensures StripAccidentalSuffix(Some("x$0 ")) == Some("x$0")
  {
    assert StripDollarZero("x$0 ") == "x$0 ";
    assert TrimStart("x$0 ") == "x$0 ";
    assert "x$0 "[..3] == "x$0";
    assert TrimEnd("x$0 ") == TrimEnd("x$0") == "x$0";
  }

  /** Normalising a concatenation of rows concatenates the results: the kept
      items stay in row order. */
  lemma NormalizeRowsAppend(a: seq<RawContentItem>, b: seq<RawContentItem>,
                            jsonParse: string -> Option<Value>, numberOf: string -> JsNumber)
    ensures var ra, rb, r := NormalizeRows(a, jsonParse, numberOf), NormalizeRows(b, jsonParse, numberOf),
                             NormalizeRows(a + b, jsonParse, numberOf);
      && (r.Ok? <==> ra.Ok? && rb.Ok?)
      && (r.Ok? ==> r.value == ra.value + rb.value)
  {
    MapFilterAppend(a, b, row => NormalizeItem(row, jsonParse, numberOf));
  }

  /** One row gives its item, or nothing when it is skipped. */
  lemma NormalizeOneRow(row: RawContentItem, jsonParse: string -> Option<Value>, numberOf: string -> JsNumber)
    ensures var r, one := NormalizeItem(row, jsonParse, numberOf), NormalizeRows([row], jsonParse, numberOf);
      && (r.TypeError? <==> one.TypeError?)
      && (r == Ok(None) ==> one == Ok([]))
      && (r.Ok? && r.value.Some? ==> one == Ok([r.value.value]))
  {
    MapFilterOne(row, row => NormalizeItem(row, jsonParse, numberOf));
  }
}
