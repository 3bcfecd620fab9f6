/** `format_response` and what a route hands back to the web framework. The
    XML and JSON serializers themselves are foreign libraries and stay
    abstract: a response records the media type and which document it
    carries. */
module Responses {
  import opened Wrappers
  import opened Geo
  import opened CacheAside

  const JsonMediaType := "application/json"
  const XmlMediaType := "application/xml"

  /** The root element the XML document is wrapped in. */
  const XmlRoot := "response"

  /** The document a response carries: the collection itself, serialized as
      JSON, or `{root: collection}` serialized as XML. */
  datatype Body = JsonBody(data: Collection) | XmlBody(root: string, data: Collection)

  /** A `Response`/`JSONResponse`: media type and body. */
  datatype Rendered = Rendered(mediaType: string, body: Body)

  /** Lower-casing of one character. Only ASCII letters are mapped: no other
      code point lower-cases to `x`, `m` or `l`, so the comparison with `"xml"`
      below decides the same as Python's `str.lower`. */
  function LowerChar(c: char): (d: char)
    ensures 'A' <= c <= 'Z' ==> d as int == c as int + 32
    ensures !('A' <= c <= 'Z') ==> d == c
  {
    if 'A' <= c <= 'Z' then (c as int + 32) as char else c
  }

  function Lower(s: string): (t: string)
    ensures |t| == |s|
    ensures forall i :: 0 <= i < |s| ==> t[i] == LowerChar(s[i])
  {
    if s == [] then [] else [LowerChar(s[0])] + Lower(s[1..])
  }

  /** `format_type.lower() == 'xml'`. */
  predicate WantsXml(format: string) {
    Lower(format) == "xml"
  }

  /** `format_response(data, format_type)`. */
  function FormatResponse(data: Collection, format: string): (r: Rendered)
    ensures r.body.data == data
    ensures r.mediaType == XmlMediaType <==> WantsXml(format)
    ensures r.body.XmlBody? <==> WantsXml(format)
  {
    if WantsXml(format) then Rendered(XmlMediaType, XmlBody(XmlRoot, data))
    else Rendered(JsonMediaType, JsonBody(data))
  }

  /** XML is chosen for exactly the eight spellings of `xml` in any mix of
      letter cases; every other format string, `json` included, gives JSON. */
  lemma XmlSpellings(format: string)
    ensures WantsXml(format) <==>
      |format| == 3 && (format[0] == 'x' || format[0] == 'X') &&
      (format[1] == 'm' || format[1] == 'M') && (format[2] == 'l' || format[2] == 'L')
  {
    if |format| == 3 {
      var t := Lower(format);
      if t == "xml" {
        assert t[0] == 'x' && t[1] == 'm' && t[2] == 'l';
      }
    }
  }

  /** A few concrete requests, as the clients send them. */
  lemma FormatExamples(data: Collection)
    ensures FormatResponse(data, "xml") == Rendered("application/xml", XmlBody("response", data))
    ensures FormatResponse(data, "XML").mediaType == "application/xml"
    ensures FormatResponse(data, "json") == Rendered("application/json", JsonBody(data))
    ensures FormatResponse(data, "yaml").mediaType == "application/json"
    ensures FormatResponse(data, "").mediaType == "application/json"
  {
    XmlSpellings("xml");
    XmlSpellings("XML");
    XmlSpellings("json");
    XmlSpellings("yaml");
    XmlSpellings("");
  }

  /** What one request produces: the response (or the HTTP error raised), the
      cache store afterwards and the queries sent upstream. */
  datatype Handled = Handled(response: Result<Rendered, HttpError>, store: Option<StoreState>, queries: seq<Pairs>)

  /** A request turned down before the cache or upstream was consulted. */
  function Rejected(e: HttpError, store: Option<StoreState>): (h: Handled)
    ensures h.response == Err(e) && h.store == store && h.queries == []
  {
    Handled(Err(e), store, [])
  }
}
