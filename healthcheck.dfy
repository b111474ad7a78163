/** The `/api/health` handler of the native Node servers: a GET answers 200
    with the service's name, version, the time, the uptime in whole seconds
    and the environment; any other method answers 405. Clock readings are
    parameters (milliseconds since the epoch, and the ISO 8601 text of the
    same instant). */
module HealthCheck {
  import opened Wrappers
  import opened Strings
  import opened Http

  /** What `createHealthCheck` captures: the name, the version and the
      moment the handler was created. */
  datatype HealthCheck = HealthCheck(serviceName: string, version: string, startTime: int)

  /** `createHealthCheck(serviceName, version)` at time `now`; a missing
      version is "1.0.0". */
  function CreateHealthCheck(serviceName: string, version: Option<string>, now: int): (h: HealthCheck)
    ensures h.serviceName == serviceName && h.startTime == now
    ensures h.version == if version.Some? then version.value else "1.0.0"
  {
    HealthCheck(serviceName, version.GetOr("1.0.0"), now)
  }

  /** Whole seconds elapsed, rounded down (also for a clock that went back). */
  function Uptime(startTime: int, now: int): (r: int)
    ensures r * 1000 <= now - startTime < r * 1000 + 1000
    ensures now >= startTime ==> r >= 0
  {
    (now - startTime) / 1000
  }

  /** NODE_ENV, with "production" for an unset or empty value. */
  function Environment(nodeEnv: Option<string>): (r: string)
    ensures r != []
    ensures nodeEnv.Some? && nodeEnv.value != [] ==> r == nodeEnv.value
  {
    if nodeEnv.Some? && nodeEnv.value != [] then nodeEnv.value else "production"
  }

  /** The body of a successful answer. */
  function HealthBody(h: HealthCheck, now: int, isoNow: string, nodeEnv: Option<string>): Json {
    JObject([
      ("ok", JBool(true)),
      ("service", JString(h.serviceName)),
      ("version", JString(h.version)),
      ("timestamp", JString(isoNow)),
      ("uptime", JNumber(Uptime(h.startTime, now))),
      ("environment", JString(Environment(nodeEnv)))
    ])
  }

  /** The body of the answer to any method but GET. */
  const MethodNotAllowedBody: Json := JObject([("ok", JBool(false)), ("error", JString("Method not allowed"))])

  const JsonContent: Headers := [("Content-Type", "application/json")]

  /** The handler `createHealthCheck` returns, called at time `now`. */
  method Handle(h: HealthCheck, requestMethod: string, res: Response, now: int, isoNow: string, nodeEnv: Option<string>)
    modifies res
    ensures requestMethod != "GET" ==> res.statusCode == 405 && res.payload == Some(MethodNotAllowedBody)
    ensures requestMethod == "GET" ==> res.statusCode == 200 && res.payload == Some(HealthBody(h, now, isoNow, nodeEnv))
    ensures res.headers == WithHeaders(old(res.headers), JsonContent) && res.ended
  {
    if requestMethod != "GET" {
      res.WriteHead(405, JsonContent);
      res.End(Some(MethodNotAllowedBody));
      return;
    }
    var uptime := Uptime(h.startTime, now);
    var body := JObject([
      ("ok", JBool(true)),
      ("service", JString(h.serviceName)),
      ("version", JString(h.version)),
      ("timestamp", JString(isoNow)),
      ("uptime", JNumber(uptime)),
      ("environment", JString(Environment(nodeEnv)))
    ]);
    res.WriteHead(200, JsonContent);
    res.End(Some(body));
  }

  /** The uptime never decreases as the clock moves forward. */
  lemma UptimeMonotone(startTime: int, a: int, b: int)
    requires a <= b
    ensures Uptime(startTime, a) <= Uptime(startTime, b)
  {
  }

  /** Each field of a successful answer reads as the handler's state and
      the clock give it; `ok` is true, and false in the 405 answer. */
  lemma HealthFields(h: HealthCheck, now: int, isoNow: string, nodeEnv: Option<string>)
    ensures var body := HealthBody(h, now, isoNow, nodeEnv);
      && Field(body, "ok") == Some(JBool(true))
      && Field(body, "service") == Some(JString(h.serviceName))
      && Field(body, "version") == Some(JString(h.version))
      && Field(body, "timestamp") == Some(JString(isoNow))
      && Field(body, "uptime") == Some(JNumber(Uptime(h.startTime, now)))
      && Field(body, "environment") == Some(JString(Environment(nodeEnv)))
    ensures Field(MethodNotAllowedBody, "ok") == Some(JBool(false))
    ensures Field(MethodNotAllowedBody, "error") == Some(JString("Method not allowed"))
  {
    var fields := HealthBody(h, now, isoNow, nodeEnv).fields;
    var n := [|fields[0].0|, |fields[1].0|, |fields[2].0|, |fields[3].0|, |fields[4].0|, |fields[5].0|];
    assert n == [2, 7, 7, 9, 6, 11] && fields[1].0[0] != fields[2].0[0];
    FieldInAt(fields, fields[0].0, 0);
    FieldInAt(fields, fields[1].0, 1);
    FieldInAt(fields, fields[2].0, 2);
    FieldInAt(fields, fields[3].0, 3);
    FieldInAt(fields, fields[4].0, 4);
    FieldInAt(fields, fields[5].0, 5);
    var other := MethodNotAllowedBody.fields;
    assert |other[0].0| == 2 && |other[1].0| == 5;
    FieldInAt(other, other[1].0, 1);
  }

  /** Both answers are labelled as JSON, whatever case the header name is
      looked up in. */
  lemma AnswerIsJson(hs: Headers)
    ensures GetHeader(WithHeaders(hs, JsonContent), "content-type") == Some("application/json")
  {
    var name := JsonContent[0].0;
    var lookup := "content-type";
    assert SameName(name, lookup) by {
      forall i | 0 <= i < |name| ensures LowerChar(name[i]) == LowerChar(lookup[i]) {
      }
    }
    GetAfterWithHeaders(hs, JsonContent, lookup);
  }
}
