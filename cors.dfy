/** The CORS helpers of the native Node servers: the three (or four)
    `Access-Control-Allow-*` headers, and the answer to a preflight request. */
module Cors {
  import opened Wrappers
  import opened Strings
  import opened Http

  /** The allowed origin: one string, or a list joined with ", ". */
  datatype Origin = OriginText(text: string) | OriginList(origins: seq<string>)

  /** The options of `setCorsHeaders`; `None` is a missing option, and a
      missing `credentials` is `false`. */
  datatype CorsOptions = CorsOptions(
    origin: Option<Origin>,
    methods: Option<seq<string>>,
    headers: Option<seq<string>>,
    credentials: bool)

  /** No options at all. */
  const NoOptions := CorsOptions(None, None, None, false)

  const DefaultMethods: seq<string> := ["GET", "POST", "OPTIONS"]
  const DefaultHeaders: seq<string> := ["Content-Type"]

  /** The value of `Access-Control-Allow-Origin`. */
  function OriginValue(o: Option<Origin>): (r: string)
    ensures o.None? ==> r == "*"
    ensures o.Some? && o.value.OriginText? ==> r == o.value.text
    ensures o.Some? && o.value.OriginList? && |o.value.origins| == 1 ==> r == o.value.origins[0]
  {
    match o
    case None => "*"
    case Some(OriginText(text)) => text
    case Some(OriginList(origins)) => Join(origins, ", ")
  }

  /** The headers `setCorsHeaders` sets, in order. */
  function CorsHeaderList(o: CorsOptions): (r: Headers)
    ensures |r| == if o.credentials then 4 else 3
  {
    [ ("Access-Control-Allow-Origin", OriginValue(o.origin)),
      ("Access-Control-Allow-Methods", Join(o.methods.GetOr(DefaultMethods), ", ")),
      ("Access-Control-Allow-Headers", Join(o.headers.GetOr(DefaultHeaders), ", ")) ]
    + (if o.credentials then [("Access-Control-Allow-Credentials", "true")] else [])
  }

  /** `setCorsHeaders(res, options)`. */
  method SetCorsHeaders(res: Response, o: CorsOptions)
    modifies res
    ensures res.headers == WithHeaders(old(res.headers), CorsHeaderList(o))
    ensures res.statusCode == old(res.statusCode) && res.ended == old(res.ended)
    ensures res.payload == old(res.payload)
  {
    var list := CorsHeaderList(o);
    ghost var start := res.headers;
    assert list[..0] == [];
    SetNext(start, list, 0);
    res.SetHeader(list[0].0, list[0].1);
    assert res.headers == WithHeaders(start, list[..1]);
    SetNext(start, list, 1);
    res.SetHeader(list[1].0, list[1].1);
    assert res.headers == WithHeaders(start, list[..2]);
    SetNext(start, list, 2);
    res.SetHeader(list[2].0, list[2].1);
    assert res.headers == WithHeaders(start, list[..3]);
    if o.credentials {
      SetNext(start, list, 3);
      res.SetHeader("Access-Control-Allow-Credentials", "true");
      assert list[..4] == list;
    } else {
      assert list[..3] == list;
    }
  }

  /** `handlePreflight(req, res, options)`: an OPTIONS request gets the CORS
      headers and an empty 204 answer, and is reported handled; any other
      request leaves the response alone. */
  method HandlePreflight(requestMethod: string, res: Response, o: CorsOptions) returns (handled: bool)
    modifies res
    ensures handled <==> requestMethod == "OPTIONS"
    ensures handled ==> res.headers == WithHeaders(old(res.headers), CorsHeaderList(o))
                        && res.statusCode == 204 && res.ended && res.payload == None
    ensures !handled ==> res.headers == old(res.headers) && res.statusCode == old(res.statusCode)
                         && res.ended == old(res.ended) && res.payload == old(res.payload)
  {
    if requestMethod == "OPTIONS" {
      SetCorsHeaders(res, o);
      res.WriteHead(204, []);
      res.End(None);
      return true;
    }
    return false;
  }

  lemma HeaderNamesDistinct(o: CorsOptions)
    ensures DistinctNames(CorsHeaderList(o))
  {
    var list := CorsHeaderList(o);
    var n0, n1, n2 := list[0].0, list[1].0, list[2].0;
    assert |n0| == 27 && |n1| == 28 && |n2| == 28;
    assert n1[21] == 'M' && n2[21] == 'H';
    NamesDiffer(n0, n1);
    NamesDiffer(n0, n2);
    NamesDifferAt(n1, n2, 21);
    if o.credentials {
      var n3 := list[3].0;
      assert |n3| == 32;
      NamesDiffer(n0, n3);
      NamesDiffer(n1, n3);
      NamesDiffer(n2, n3);
    }
  }

  /** After `setCorsHeaders` the origin, methods and headers read as the
      options (or their defaults) give them, the credentials header is set
      exactly when credentials are allowed, and every other header is as it
      was. */
  lemma CorsHeadersSet(hs: Headers, o: CorsOptions, other: string)
    ensures var after := WithHeaders(hs, CorsHeaderList(o));
      && GetHeader(after, "Access-Control-Allow-Origin") == Some(OriginValue(o.origin))
      && GetHeader(after, "Access-Control-Allow-Methods") == Some(Join(o.methods.GetOr(DefaultMethods), ", "))
      && GetHeader(after, "Access-Control-Allow-Headers") == Some(Join(o.headers.GetOr(DefaultHeaders), ", "))
      && (o.credentials ==> GetHeader(after, "Access-Control-Allow-Credentials") == Some("true"))
      && (!o.credentials ==> GetHeader(after, "Access-Control-Allow-Credentials")
                             == GetHeader(hs, "Access-Control-Allow-Credentials"))
      && ((forall k :: 0 <= k < |CorsHeaderList(o)| ==> !SameName(CorsHeaderList(o)[k].0, other))
          ==> GetHeader(after, other) == GetHeader(hs, other))
  {
    var list := CorsHeaderList(o);
    HeaderNamesDistinct(o);
    SetDistinct(hs, list, other);
    var after := WithHeaders(hs, list);
    assert GetHeader(after, list[0].0) == Some(list[0].1);
    assert GetHeader(after, list[1].0) == Some(list[1].1);
    assert GetHeader(after, list[2].0) == Some(list[2].1);
    if o.credentials {
      assert GetHeader(after, list[3].0) == Some(list[3].1);
    } else {
      var c := "Access-Control-Allow-Credentials";
      NamesDiffer(list[0].0, c);
      NamesDiffer(list[1].0, c);
      NamesDiffer(list[2].0, c);
      SetDistinct(hs, list, c);
    }
  }

  /** With no options, the defaults: any origin, GET, POST and OPTIONS, and
      the Content-Type header. */
  lemma DefaultValues()
    ensures OriginValue(NoOptions.origin) == "*"
    ensures Join(NoOptions.methods.GetOr(DefaultMethods), ", ") == "GET, POST, OPTIONS"
    ensures Join(NoOptions.headers.GetOr(DefaultHeaders), ", ") == "Content-Type"
    ensures |CorsHeaderList(NoOptions)| == 3
  {
    var m := DefaultMethods;
    assert Join(m, ", ") == m[0] + ", " + Join(m[1..], ", ");
    assert m[1..][1..] == [m[2]];
  }
}
