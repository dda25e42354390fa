/**
 * `test_proxy`: the scheme negotiation of the proxy tester.
 *
 * The two network calls are oracles: `target` answers the request for the
 * target URL, `geo` the request for the geolocation endpoint. The clock is
 * folded into the target oracle, whose response carries the monotonic time
 * the request took, in ticks.
 */
module Tester {
  import opened Wrappers

  datatype Scheme = Http | Https

  function SchemeName(scheme: Scheme): string {
    match scheme
    case Http => "http"
    case Https => "https"
  }

  /** The schemes in the order they are tried. */
  const Schemes: seq<Scheme> := [Http, Https]

  const GeoUrl: string := "https://ipapi.co/json"
  const TargetTimeout: nat := 8
  const GeoTimeout: nat := 6
  const BuiltInTarget: string := "https://ib.tejaratbank.ir/"

  /** The `proxies` mapping: the upstream for plain and for encrypted traffic. */
  datatype Routes = Routes(http: string, https: string)

  /** One GET as it leaves the tester. */
  datatype Request = Request(url: string, routes: Routes, timeout: nat)

  /** The target's answer: an exception, or a status and the time the request took. */
  datatype Reply = Raised | Response(status: int, elapsed: nat)

  /**
   * The geolocation answer: an exception (including a body that is not JSON),
   * or `geo.ok` and `str(data.get("country_code"))`, with `None` for a
   * missing or null field.
   */
  datatype GeoReply = GeoRaised | GeoResponse(ok: bool, countryCode: Option<string>)

  /** The module-level settings read from the environment at import time. */
  datatype Config = Config(defaultTarget: string, verifyIr: bool)

  /** What `test_proxy` returns: `(working, latency, scheme)`. */
  datatype Outcome = Outcome(working: bool, latency: Option<nat>, scheme: Option<Scheme>)

  const Failure: Outcome := Outcome(false, None, None)

  /** The settings from `TARGET_URL` and `VERIFY_IR` (each `None` when unset). */
  function ConfigFrom(targetEnv: Option<string>, verifyEnv: Option<string>): (c: Config)
    ensures c.verifyIr <==> verifyEnv == Some("1")
    ensures targetEnv.None? ==> c.defaultTarget == BuiltInTarget
    ensures targetEnv.Some? ==> c.defaultTarget == targetEnv.value
  {
    Config(targetEnv.GetOr(BuiltInTarget), verifyEnv == Some("1"))
  }

  /** `target_url or DEFAULT_TARGET`: a missing or empty target falls back to the default. */
  function TargetFor(config: Config, targetUrl: Option<string>): string {
    match targetUrl
    case None => config.defaultTarget
    case Some(url) => if url == "" then config.defaultTarget else url
  }

  /** Both entries of the mapping point at `scheme://proxy`. */
  function RoutesFor(scheme: Scheme, proxy: string): (r: Routes)
    ensures r.http == r.https
  {
    var upstream := SchemeName(scheme) + "://" + proxy;
    Routes(upstream, upstream)
  }

  function StrOf(value: Option<string>): string {
    value.GetOr("None")
  }

  // ---------------------------------------------------------------------
  // The attempt through one scheme, and the decision over both

  datatype Attempt = Rejected | Accepted(latency: nat)

  predicate InStatusRange(status: int) {
    200 <= status < 400
  }

  /** The geolocation gate: an exception or a reachable foreign exit rejects; a failed lookup does not. */
  predicate GeoPasses(reply: GeoReply) {
    match reply
    case GeoRaised => false
    case GeoResponse(ok, countryCode) => !ok || StrOf(countryCode) == "IR"
  }

  function TargetRequest(config: Config, proxy: string, targetUrl: Option<string>, scheme: Scheme): Request {
    Request(TargetFor(config, targetUrl), RoutesFor(scheme, proxy), TargetTimeout)
  }

  function GeoRequest(proxy: string, scheme: Scheme): Request {
    Request(GeoUrl, RoutesFor(scheme, proxy), GeoTimeout)
  }

  /** Whether the attempt through `scheme` passes, and with what latency. */
  function AttemptWith(config: Config, target: Request -> Reply, geo: Request -> GeoReply,
                       proxy: string, targetUrl: Option<string>, scheme: Scheme): Attempt
  {
    match target(TargetRequest(config, proxy, targetUrl, scheme))
    case Raised => Rejected
    case Response(status, elapsed) =>
      if !InStatusRange(status) then Rejected
      else if config.verifyIr && !GeoPasses(geo(GeoRequest(proxy, scheme))) then Rejected
      else Accepted(elapsed)
  }

  /** The requests the attempt through `scheme` sends: the geolocation one only after an in-range status. */
  function AttemptRequests(config: Config, target: Request -> Reply,
                           proxy: string, targetUrl: Option<string>, scheme: Scheme): seq<Request>
  {
    var first := TargetRequest(config, proxy, targetUrl, scheme);
    match target(first)
    case Raised => [first]
    case Response(status, _) =>
      if InStatusRange(status) && config.verifyIr then [first, GeoRequest(proxy, scheme)] else [first]
  }

  /** The first scheme, in the order of `Schemes`, whose attempt passes. */
  function Decision(config: Config, target: Request -> Reply, geo: Request -> GeoReply,
                    proxy: string, targetUrl: Option<string>): Outcome
  {
    match AttemptWith(config, target, geo, proxy, targetUrl, Http)
    case Accepted(latency) => Outcome(true, Some(latency), Some(Http))
    case Rejected =>
      match AttemptWith(config, target, geo, proxy, targetUrl, Https)
      case Accepted(latency) => Outcome(true, Some(latency), Some(Https))
      case Rejected => Failure
  }

  /** Every request sent: the `https` attempt only when the `http` one did not pass. */
  function RequestsSent(config: Config, target: Request -> Reply, geo: Request -> GeoReply,
                        proxy: string, targetUrl: Option<string>): seq<Request>
  {
    AttemptRequests(config, target, proxy, targetUrl, Http)
    + if AttemptWith(config, target, geo, proxy, targetUrl, Http).Accepted? then []
      else AttemptRequests(config, target, proxy, targetUrl, Https)
  }

  /**
   * `test_proxy(proxy, target_url)`: the loop over the schemes, returning the
   * outcome and the requests it sent, in order.
   */
  method TestProxy(config: Config, target: Request -> Reply, geo: Request -> GeoReply,
                   proxy: string, targetUrl: Option<string>)
    returns (outcome: Outcome, sent: seq<Request>)
    ensures outcome == Decision(config, target, geo, proxy, targetUrl)
    ensures sent == RequestsSent(config, target, geo, proxy, targetUrl)
  {
    sent := [];
    for i := 0 to |Schemes|
      invariant i == 0 ==> sent == []
      invariant i >= 1 ==> AttemptWith(config, target, geo, proxy, targetUrl, Http).Rejected?
      invariant i == 1 ==> sent == AttemptRequests(config, target, proxy, targetUrl, Http)
      invariant i == 2 ==> AttemptWith(config, target, geo, proxy, targetUrl, Https).Rejected?
      invariant i == 2 ==> sent == RequestsSent(config, target, geo, proxy, targetUrl)
    {
      var scheme := Schemes[i];
      var routes := RoutesFor(scheme, proxy);
      var request := Request(TargetFor(config, targetUrl), routes, TargetTimeout);
      sent := sent + [request];
      var reply := target(request);
      if reply.Response? {
        var latency := reply.elapsed;
        if 200 <= reply.status < 400 {
          if config.verifyIr {
            var geoRequest := Request(GeoUrl, routes, GeoTimeout);
            sent := sent + [geoRequest];
            var geoReply := geo(geoRequest);
            if geoReply.GeoRaised? {
              continue;
            }
            if geoReply.ok && StrOf(geoReply.countryCode) != "IR" {
              continue;
            }
          }
          return Outcome(true, Some(latency), Some(scheme)), sent;
        }
      }
    }
    return Failure, sent;
  }

  // ---------------------------------------------------------------------
  // Properties of the decision

  /**
   * A success carries both a latency and a scheme, and a failure is exactly
   * `(False, None, None)`; the latency is the target request's own time.
   */
  lemma OutcomeShape(config: Config, target: Request -> Reply, geo: Request -> GeoReply,
                     proxy: string, targetUrl: Option<string>)
    ensures var o := Decision(config, target, geo, proxy, targetUrl);
            && (o.working <==> o.latency.Some?)
            && (o.working <==> o.scheme.Some?)
            && (!o.working ==> o == Failure)
            && (o.working ==>
                  var reply := target(TargetRequest(config, proxy, targetUrl, o.scheme.value));
                  reply.Response? && InStatusRange(reply.status) && o.latency == Some(reply.elapsed))
  {
  }

  /** `http` is tried first: `https` is reported only when the `http` attempt did not pass. */
  lemma SchemeOrder(config: Config, target: Request -> Reply, geo: Request -> GeoReply,
                    proxy: string, targetUrl: Option<string>)
    ensures var o := Decision(config, target, geo, proxy, targetUrl);
            && (o.scheme == Some(Http) <==> AttemptWith(config, target, geo, proxy, targetUrl, Http).Accepted?)
            && (o.scheme == Some(Https) <==>
                  && AttemptWith(config, target, geo, proxy, targetUrl, Http).Rejected?
                  && AttemptWith(config, target, geo, proxy, targetUrl, Https).Accepted?)
  {
  }

  /** A status outside [200, 400) or an exception on the target request rejects the attempt, whatever the geolocation says. */
  lemma StatusGate(config: Config, target: Request -> Reply, geo: Request -> GeoReply,
                   proxy: string, targetUrl: Option<string>, scheme: Scheme)
    ensures var reply := target(TargetRequest(config, proxy, targetUrl, scheme));
            AttemptWith(config, target, geo, proxy, targetUrl, scheme).Accepted? ==>
              reply.Response? && InStatusRange(reply.status)
  {
  }

  /**
   * The gate of one attempt, over all replies: it passes exactly when the
   * target request answers with a status in [200, 400) and, with
   * `VERIFY_IR`, the geolocation reply passes.
   */
  lemma AttemptGate(config: Config, target: Request -> Reply, geo: Request -> GeoReply,
                    proxy: string, targetUrl: Option<string>, scheme: Scheme)
    ensures var reply := target(TargetRequest(config, proxy, targetUrl, scheme));
            AttemptWith(config, target, geo, proxy, targetUrl, scheme).Accepted?
            <==> && reply.Response? && InStatusRange(reply.status)
                 && (config.verifyIr ==> GeoPasses(geo(GeoRequest(proxy, scheme))))
  {
  }

  /**
   * The geolocation reply: an exception rejects, an ok answer passes only
   * with country code `IR`, and a response that is not ok passes.
   */
  lemma GeoGate(reply: GeoReply)
    ensures reply.GeoRaised? ==> !GeoPasses(reply)
    ensures reply.GeoResponse? && reply.ok ==> (GeoPasses(reply) <==> reply.countryCode == Some("IR"))
    ensures reply.GeoResponse? && !reply.ok ==> GeoPasses(reply)
  {
    if reply.GeoResponse? && reply.ok && reply.countryCode.None? {
      assert StrOf(reply.countryCode) == "None";
    }
  }

  /**
   * The environment drives the requests: the first request of a call
   * without a target URL goes to `TARGET_URL` (or the built-in bank URL),
   * only the 8-second target requests are sent unless `VERIFY_IR` is `"1"`,
   * and with it an in-range `http` status is followed by the geolocation
   * request through the same scheme.
   */
  lemma ConfigDrivesRequests(targetEnv: Option<string>, verifyEnv: Option<string>,
                             target: Request -> Reply, geo: Request -> GeoReply, proxy: string)
    ensures var c := ConfigFrom(targetEnv, verifyEnv);
            var sent := RequestsSent(c, target, geo, proxy, None);
            && sent[0].url == (if targetEnv.Some? then targetEnv.value else BuiltInTarget)
            && (verifyEnv != Some("1") ==> forall r :: r in sent ==> r.timeout == TargetTimeout)
            && (verifyEnv == Some("1") && target(sent[0]).Response? && InStatusRange(target(sent[0]).status) ==>
                  |sent| >= 2 && sent[1] == GeoRequest(proxy, Http))
  {
  }

  /** Without `VERIFY_IR` no geolocation request is sent, and with it one per in-range status. */
  lemma GeoRequestsOnlyWhenVerifying(config: Config, target: Request -> Reply, geo: Request -> GeoReply,
                                     proxy: string, targetUrl: Option<string>)
    ensures var sent := RequestsSent(config, target, geo, proxy, targetUrl);
            && (!config.verifyIr ==> forall r :: r in sent ==> r.url == TargetFor(config, targetUrl) && r.timeout == TargetTimeout)
            && 1 <= |sent| <= 4
            && sent[0] == TargetRequest(config, proxy, targetUrl, Http)
  {
  }

  /** Every request of an attempt sends plain and encrypted traffic through the same upstream. */
  lemma SameUpstreamForBoth(config: Config, target: Request -> Reply, geo: Request -> GeoReply,
                            proxy: string, targetUrl: Option<string>)
    ensures forall r :: r in RequestsSent(config, target, geo, proxy, targetUrl) ==>
              r.routes.http == r.routes.https &&
              (r.routes == RoutesFor(Http, proxy) || r.routes == RoutesFor(Https, proxy))
  {
  }

  /** A missing or empty target URL sends the first request to the configured default. */
  lemma DefaultTargetUsed(config: Config, target: Request -> Reply, geo: Request -> GeoReply,
                          proxy: string, targetUrl: Option<string>)
    requires targetUrl == None || targetUrl == Some("")
    ensures RequestsSent(config, target, geo, proxy, targetUrl)[0].url == config.defaultTarget
  {
  }

  /**
   * A target reachable only through the encrypted scheme: the outcome is
   * `https` with that request's latency, never `http`.
   */
  lemma HttpsOnlyTarget(config: Config, target: Request -> Reply, geo: Request -> GeoReply,
                        proxy: string, targetUrl: Option<string>, elapsed: nat)
    requires !config.verifyIr
    requires forall r :: target(r) == if r.routes == RoutesFor(Https, proxy) then Response(200, elapsed) else Raised
    ensures Decision(config, target, geo, proxy, targetUrl) == Outcome(true, Some(elapsed), Some(Https))
  {
    assert SchemeName(Http) != SchemeName(Https);
    assert RoutesFor(Http, proxy).http[..5] == "http:";
    assert RoutesFor(Https, proxy).http[..5] == "https";
  }

  /** With verification on, a reachable proxy whose exit is outside Iran fails on both schemes. */
  lemma ForeignExitRejected(config: Config, target: Request -> Reply, geo: Request -> GeoReply,
                            proxy: string, targetUrl: Option<string>, elapsed: nat)
    requires config.verifyIr
    requires forall r :: target(r) == Response(200, elapsed)
    requires forall r :: geo(r) == GeoResponse(true, Some("DE"))
    ensures Decision(config, target, geo, proxy, targetUrl) == Failure
  {
  }

  /** A geolocation lookup that answers but is not ok does not block the proxy. */
  lemma FailedLookupStillPasses(config: Config, target: Request -> Reply, geo: Request -> GeoReply,
                                proxy: string, targetUrl: Option<string>, elapsed: nat)
    requires config.verifyIr
    requires forall r :: target(r) == Response(302, elapsed)
    requires forall r :: geo(r) == GeoResponse(false, None)
    ensures Decision(config, target, geo, proxy, targetUrl) == Outcome(true, Some(elapsed), Some(Http))
  {
  }

  /** With verification on, an Iranian exit passes on the first scheme whose target request succeeds. */
  lemma IranianExitPasses(config: Config, target: Request -> Reply, geo: Request -> GeoReply,
                          proxy: string, targetUrl: Option<string>, elapsed: nat)
    requires config.verifyIr
    requires forall r :: target(r) == Response(200, elapsed)
    requires forall r :: geo(r) == GeoResponse(true, Some("IR"))
    ensures Decision(config, target, geo, proxy, targetUrl) == Outcome(true, Some(elapsed), Some(Http))
    ensures |RequestsSent(config, target, geo, proxy, targetUrl)| == 2
  {
  }
}
