/** frontend/server/gateway.ts: one browser request, what it asks of IAM and which session the
    browser is left with. */
module Gateway {
  import opened Wrappers
  import opened Bytes
  import opened SessionRefresh

  /** The pieces of a path between its slashes: "/api/session" is ["api", "session"]. */
  type Path = seq<string>

  const BODY_LIMIT := 262144

  /** A body as it streams in: its announced length, its chunks, and whether reading then fails. */
  datatype Body = Body(announced: Option<int>, chunks: seq<Text>, broken: bool)

  /** `sameOrigin` is None without an Origin header. */
  datatype Request = Request(
    verb: string, path: Path, encodedSeparator: bool, trustedHost: bool, consoleHost: bool, scopeRequest: bool,
    fromFrontend: bool, crossSite: bool, sameOrigin: Option<bool>,
    session: Option<Session>, idempotencyKey: string, body: Body)

  // ----- routes -----

  predicate HexId(s: string) {
    s != "" && forall i :: 0 <= i < |s| ==> '0' <= s[i] <= '9' || 'a' <= s[i] <= 'f' || s[i] == '-'
  }

  predicate ApiV1(path: Path) {
    |path| >= 3 && path[0] == "api" && path[1] == "v1"
  }

  predicate SignupStep(steps: Path) {
    || steps == []
    || (|steps| == 2 && HexId(steps[0]) && steps[1] in {"email", "phone", "complete"})
    || (|steps| == 3 && HexId(steps[0]) && steps[1] in {"email", "phone"} && steps[2] == "verify")
  }

  predicate LoginVerify(path: Path) {
    ApiV1(path) && |path| == 6 && path[2..4] == ["login", "challenges"] && HexId(path[4]) && path[5] == "verify"
  }

  predicate IsPublic(path: Path, verb: string) {
    || (verb == "POST" && ApiV1(path) && |path| >= 4
          && ((path[2..4] == ["signup", "sessions"] && SignupStep(path[4..]))
                || path[2..] == ["login", "challenges"] || LoginVerify(path)))
    || (verb == "GET"
          && ((ApiV1(path) && |path| == 5 && path[2] in {"carbon-ids", "organization-ids"} && path[3] != "" && path[4] == "availability")
                || path == ["api", "v1", "version"]))
  }

  predicate NavigationRoute(path: Path) {
    || path == ["api", "v1", "login"] || path == ["api", "v1", "login", "status"] || path == ["api", "v1", "sso", "callback"]
    || (ApiV1(path) && |path| == 6 && path[2] == "organizations" && path[3] != "" && path[4..] == ["sso", "authorize"])
  }

  predicate BlockedRoute(path: Path) {
    || (ApiV1(path) && |path| >= 4 && path[2..4] == ["auth", "tokens"])
    || (ApiV1(path) && path[2] in {"silicon-auth", "oauth", "provider-webhooks", "application-directory", "obo-access"})
    || path == ["api", "v1", "app-auth", "tokens"]
  }

  const CONTINUE: Path := ["auth", "continue"]
  const SESSION: Path := ["api", "session"]
  const TEST_VIEW: Path := ["api", "test-application-view"]
  const LOGOUT: Path := ["api", "v1", "logout"]

  predicate Navigation(r: Request) {
    r.verb == "GET" && (NavigationRoute(r.path) || r.path == CONTINUE)
  }

  predicate Reads(verb: string) {
    verb in {"GET", "HEAD"}
  }

  /** Routes of the browser's API this gateway passes on. */
  predicate Available(r: Request) {
    ApiV1(r.path) && !BlockedRoute(r.path) && r.verb in {"GET", "POST", "PUT", "PATCH", "DELETE"}
  }

  predicate Own(path: Path) {
    path in [CONTINUE, SESSION, TEST_VIEW]
  }

  /** What the gateway answers on its own, before it looks at the session. */
  predicate Early(r: Request, configured: bool) {
    || !configured || r.encodedSeparator || !r.trustedHost
    || (r.verb == "GET" && r.scopeRequest && (r.path == ["applications"] || (r.path == ["scope-reviews"] && !r.consoleHost)))
    || r.path == ["api", "web", "telemetry"] || (r.path == ["api", "config"] && r.verb == "GET")
    || |r.path| < 2 || r.path[0] !in {"api", "auth"}
    || Forged(r)
  }

  /** Anything but a navigation must come from the frontend itself. */
  predicate Forged(r: Request) {
    && !Navigation(r)
    && (!r.fromFrontend || r.crossSite || r.sameOrigin == Some(false) || (!Reads(r.verb) && r.sameOrigin != Some(true)))
  }

  // ----- what IAM does -----

  datatype Refusal = RefusedWith(status: nat) | Unavailable

  type Renewal = Result<Session, Refusal>

  datatype Location = Missing | Unparsable | Unsafe | Safe

  /** An upstream answer; `content` is None when it is no JSON. */
  datatype Fetched = Response(status: nat, content: Option<Tokens>, location: Location) | NoAnswer

  /** What IAM will do for this request: renew the session if it is due (None when it is not),
      answer, renew it by force, and answer once more. */
  datatype Upstream = Upstream(renewal: Option<Renewal>, answer: Fetched, forced: Renewal, retried: Fetched, now: Time)

  datatype ApiRequest = ApiRequest(verb: string, path: Path, idempotencyKey: string, body: Option<Text>)

  /** One exchange with IAM. */
  datatype Call = Renewing(outcome: Renewal) | Asking(api: ApiRequest, session: Option<Session>, answer: Fetched)

  predicate Accepted(f: Fetched) {
    f.Response? && 200 <= f.status < 300
  }

  // ----- what the browser gets -----

  datatype Cookie = Keep | Clear | Store(session: Session)

  datatype Answer = Fails(status: nat, code: string) | Redirects | Serves(page: string) | Passes(upstream: Fetched)

  datatype Reply = Reply(answer: Answer, cookie: Cookie)

  function Kept(changed: Option<Session>): Cookie {
    if changed.Some? then Store(changed.value) else Keep
  }

  // ----- bodies -----

  function Joined(chunks: seq<Text>): Text {
    if chunks == [] then [] else Joined(chunks[..|chunks| - 1]) + chunks[|chunks| - 1]
  }

  lemma {:induction false} JoinedGrows(chunks: seq<Text>, n: nat)
    requires n <= |chunks|
    ensures |Joined(chunks[..n])| <= |Joined(chunks)|
    decreases |chunks|
  {
    if n == |chunks| {
      assert chunks[..n] == chunks;
    } else {
      assert chunks[..|chunks| - 1][..n] == chunks[..n];
      JoinedGrows(chunks[..|chunks| - 1], n);
    }
  }

  function BodyOf(body: Body): Option<Text> {
    if (body.announced.Some? && body.announced.value > BODY_LIMIT) || |Joined(body.chunks)| > BODY_LIMIT || body.broken
    then None else Some(Joined(body.chunks))
  }

  /** boundedBody: the whole body, unless it announces or brings more than the limit. */
  method BoundedBody(body: Body) returns (r: Option<Text>)
    ensures r == BodyOf(body)
  {
    if body.announced.Some? && body.announced.value > BODY_LIMIT { return None; }
    var length := Measure(body.chunks);
    if length.None? || body.broken { return None; }
    var bytes := Copy(body.chunks, length.value);
    return Some(bytes);
  }

  /** Reads chunk by chunk, giving up as soon as there is more than the limit. */
  method Measure(chunks: seq<Text>) returns (r: Option<nat>)
    ensures r == if |Joined(chunks)| > BODY_LIMIT then None else Some(|Joined(chunks)|)
  {
    var length, i := 0, 0;
    while i < |chunks|
      invariant 0 <= i <= |chunks|
      invariant length == |Joined(chunks[..i])| <= BODY_LIMIT
    {
      assert chunks[..i + 1][..i] == chunks[..i];
      length := length + |chunks[i]|;
      if length > BODY_LIMIT {
        JoinedGrows(chunks, i + 1);
        return None;
      }
      i := i + 1;
    }
    assert chunks[..i] == chunks;
    return Some(length);
  }

  /** Fills one buffer with all chunks. */
  method Copy(chunks: seq<Text>, length: nat) returns (r: Text)
    requires length == |Joined(chunks)|
    ensures r == Joined(chunks)
  {
    var buffer := new Byte[length];
    var offset, k := 0, 0;
    while k < |chunks|
      invariant 0 <= k <= |chunks|
      invariant offset == |Joined(chunks[..k])| <= buffer.Length
      invariant buffer[..offset] == Joined(chunks[..k])
    {
      assert chunks[..k + 1][..k] == chunks[..k];
      JoinedGrows(chunks, k + 1);
      var chunk := chunks[k];
      forall j | 0 <= j < |chunk| { buffer[offset + j] := chunk[j]; }
      assert buffer[..offset + |chunk|] == Joined(chunks[..k]) + chunk;
      offset, k := offset + |chunk|, k + 1;
    }
    assert chunks[..k] == chunks && buffer[..] == buffer[..offset];
    return buffer[..];
  }

  // ----- the conversation with IAM -----

  predicate IsPublicRequest(r: Request) {
    IsPublic(r.path, r.verb)
  }

  /** The session the request is served with once a due one was renewed. */
  function Current(r: Request, w: Upstream): Option<Session> {
    if r.session.Some? && !IsPublicRequest(r) && w.renewal.Some? && w.renewal.value.Ok? then Some(w.renewal.value.value)
    else r.session
  }

  /** The calls that renew a due session. */
  function Renewals(r: Request, w: Upstream): seq<Call> {
    if r.session.Some? && !IsPublicRequest(r) && w.renewal.Some? then [Renewing(w.renewal.value)] else []
  }

  /** The calls that ask once, and after a 401 renew the session and ask the same again. */
  function Asked(api: ApiRequest, session: Option<Session>, public: bool, w: Upstream): seq<Call> {
    var first := Asking(api, if public then None else session, w.answer);
    if session.None? || public || !w.answer.Response? || w.answer.status != 401 then [first]
    else if w.forced.Err? then [first, Renewing(w.forced)]
    else [first, Renewing(w.forced), Asking(api, Some(w.forced.value), w.retried)]
  }

  /** The newest session obtained by renewing. */
  function Newest(calls: seq<Call>): Option<Session> {
    if calls == [] then None
    else
      var last := calls[|calls| - 1];
      if last.Renewing? && last.outcome.Ok? then Some(last.outcome.value) else Newest(calls[..|calls| - 1])
  }

  predicate CalledApi(calls: seq<Call>) {
    exists i :: 0 <= i < |calls| && calls[i].Asking?
  }

  /** The API request a browser request becomes. */
  function ApiOf(r: Request): ApiRequest {
    if r.path == SESSION then ApiRequest("GET", ["api", "v1", "me"], r.idempotencyKey, None)
    else ApiRequest(r.verb, r.path, r.idempotencyKey, if Reads(r.verb) then None else BodyOf(r.body))
  }

  predicate Renewed(r: Request, w: Upstream) {
    Renewals(r, w) != [] ==> w.renewal.value.Ok?
  }

  /** A change must bring an acceptable body and an idempotency key. */
  predicate WellFormed(r: Request) {
    Reads(r.verb) || (BodyOf(r.body).Some? && r.idempotencyKey != "")
  }

  /** The request reaches IAM's API. */
  predicate Asks(r: Request, configured: bool, w: Upstream) {
    && !Early(r, configured) && Renewed(r, w) && r.path != CONTINUE && r.path != TEST_VIEW
    && if r.path == SESSION then r.verb == "GET" && r.session.Some?
       else Available(r) && (r.session.Some? || IsPublicRequest(r)) && WellFormed(r)
  }

  /** All exchanges with IAM for one request, in order. */
  function Conversation(r: Request, configured: bool, w: Upstream): seq<Call> {
    if Early(r, configured) then []
    else Renewals(r, w) + if Asks(r, configured, w) then Asked(ApiOf(r), Current(r, w), IsPublicRequest(r), w) else []
  }

  // ----- which session the browser keeps -----

  predicate SignedOutByRefusal(calls: seq<Call>) {
    calls != [] && calls[|calls| - 1] == Renewing(Err(RefusedWith(401)))
  }

  predicate LoggedOut(r: Request, calls: seq<Call>) {
    r.path == LOGOUT && calls != [] && calls[|calls| - 1].Asking? && Accepted(calls[|calls| - 1].answer)
  }

  /** Somebody without a session navigates to a route that needs one. */
  predicate SessionlessNavigation(r: Request, configured: bool) {
    !Early(r, configured) && r.session.None? && r.verb == "GET" && NavigationRoute(r.path)
  }

  /** The session a completed login establishes. */
  function LoggedIn(r: Request, calls: seq<Call>, now: Time): Option<Session> {
    if LoginVerify(r.path) && calls != [] && calls[|calls| - 1].Asking? && Accepted(calls[|calls| - 1].answer)
       && calls[|calls| - 1].answer.content.Some?
    then FromTokens(calls[|calls| - 1].answer.content.value, None, now, now) else None
  }

  /** Answers that forget a session renewed for this very request. */
  predicate Forgets(r: Request) {
    if r.path == SESSION then r.verb != "GET"
    else !Own(r.path) && (!Available(r) || !WellFormed(r))
  }

  /** What the last answer of the API becomes. */
  function Concluded(r: Request, f: Fetched, now: Time): (a: Answer)
    ensures a == Redirects ==> Navigation(r) && f.Response? && (300 <= f.status < 400 ==> f.location == Safe)
    ensures a.Passes? ==> a.upstream == f && f.Response? && (300 <= f.status < 400 ==> r.path == SESSION)
    ensures Navigation(r) ==> !a.Passes? || Accepted(f)
  {
    if f.NoAnswer? then Fails(502, "upstream_unavailable")
    else if r.path == SESSION then
      if f.status == 401 then Fails(503, "session_unconfirmed")
      else if !Accepted(f) then Passes(f)
      else if f.content.None? then Fails(502, "upstream_unavailable") else Serves("session")
    else if 300 <= f.status < 400 then
      if !Navigation(r) then Fails(502, "unexpected_redirect")
      else match f.location
        case Missing => Fails(502, "invalid_redirect")
        case Unparsable => Fails(502, "upstream_unavailable")
        case Unsafe => Fails(502, "unsafe_redirect")
        case Safe => if f.status in {301, 302, 303, 307, 308} then Redirects else Fails(502, "upstream_unavailable")
    else if Accepted(f) && LoginVerify(r.path) then
      if f.content.Some? && FromTokens(f.content.value, None, now, now).Some? then Serves("session")
      else Fails(502, "upstream_unavailable")
    else if Navigation(r) && !Accepted(f) then Redirects
    else Passes(f)
  }

  /** authenticatedFetch: asks, and after a 401 renews the session and asks the same again. */
  method AuthenticatedFetch(api: ApiRequest, session: Option<Session>, public: bool, w: Upstream)
    returns (result: Result<Fetched, Refusal>, now: Option<Session>, changed: Option<Session>, calls: seq<Call>)
    ensures calls == Asked(api, session, public, w)
    ensures changed == Newest(calls) && now == (if changed.Some? then changed else session)
    ensures var last := calls[|calls| - 1];
            if last.Renewing? then last.outcome.Err? && result == Err(last.outcome.error)
            else result == if last.answer.NoAnswer? then Err(Unavailable) else Ok(last.answer)
  {
    now, changed := session, None;
    calls := [Asking(api, if public then None else session, w.answer)];
    assert calls[..0] == [] && Newest(calls) == None;
    if w.answer.NoAnswer? { return Err(Unavailable), now, changed, calls; }
    var response := w.answer;
    if response.status == 401 && now.Some? && !public {
      calls := calls + [Renewing(w.forced)];
      assert calls[..1] == [Asking(api, now, w.answer)];
      assert Newest(calls[..1]) == None;
      if w.forced.Err? { return Err(w.forced.error), now, changed, calls; }
      now := Some(w.forced.value);
      changed := now;
      calls := calls + [Asking(api, now, w.retried)];
      assert calls[..2] == [Asking(api, session, w.answer), Renewing(w.forced)];
      if w.retried.NoAnswer? { return Err(Unavailable), now, changed, calls; }
      response := w.retried;
    }
    result := Ok(response);
  }

  function RefreshFailure(e: Refusal, changed: Option<Session>): Reply {
    match e
    case Unavailable => Reply(Fails(502, "upstream_unavailable"), Kept(changed))
    case RefusedWith(status) =>
      if status == 401 then Reply(Fails(401, "session_expired"), Clear)
      else Reply(Fails(503, "refresh_unavailable"), Kept(changed))
  }

  /** The answers to requests that never reach the API though their session is good. */
  function QuietAnswer(r: Request): Answer {
    if r.path == CONTINUE then Redirects
    else if r.path == SESSION then
      if r.verb != "GET" then Fails(405, "method_not_allowed") else Serves("session")
    else if r.path == TEST_VIEW && r.verb != "POST" then Fails(405, "method_not_allowed")
    else if r.path != TEST_VIEW && !Available(r) then Fails(404, "route_not_available")
    else if r.session.None? && !IsPublicRequest(r) then
      if Navigation(r) then Redirects else Fails(401, "sign_in_required")
    else if BodyOf(r.body).None? then Fails(413, "request_too_large")
    else if r.path == TEST_VIEW then Serves("test-view")
    else Fails(400, "idempotency_key_required")
  }

  /** The answers given before the session is looked at. */
  function EarlyAnswer(r: Request, configured: bool): Answer
    requires Early(r, configured)
  {
    if !configured then Fails(503, "frontend_configuration")
    else if r.encodedSeparator then Fails(400, "invalid_path")
    else if !r.trustedHost then Fails(403, "untrusted_host")
    else if r.verb == "GET" && r.scopeRequest && (r.path == ["applications"] || (r.path == ["scope-reviews"] && !r.consoleHost))
    then Redirects
    else if r.path == ["api", "web", "telemetry"] then Serves("telemetry")
    else if r.path == ["api", "config"] && r.verb == "GET" then Serves("config")
    else if |r.path| < 2 || r.path[0] !in {"api", "auth"} then Serves("asset")
    else Fails(403, "frontend_csrf")
  }

  lemma {:induction false} NewestJoin(a: seq<Call>, b: seq<Call>)
    ensures Newest(a + b) == if Newest(b).Some? then Newest(b) else Newest(a)
    decreases |b|
  {
    if b == [] {
      assert a + b == a;
    } else {
      assert (a + b)[..|a + b| - 1] == a + b[..|b| - 1];
      NewestJoin(a, b[..|b| - 1]);
    }
  }

  /** What the browser is told and left with once the API was called. */
  ghost predicate Settled(r: Request, calls: seq<Call>, now: Time, reply: Reply)
    requires calls != []
  {
    var last := calls[|calls| - 1];
    && (reply.cookie == Clear <==> SignedOutByRefusal(calls) || LoggedOut(r, calls))
    && (reply.cookie != Clear ==>
          reply.cookie == Kept(if LoggedIn(r, calls, now).Some? then LoggedIn(r, calls, now) else Newest(calls)))
    && (reply.answer == Fails(401, "session_expired") <==> SignedOutByRefusal(calls))
    && match last
       case Asking(_, _, answer) => reply.answer == Concluded(r, answer, now)
       case Renewing(outcome) => outcome.Err? && reply.answer == RefreshFailure(outcome.error, None).answer
  }

  /** Ask the API, then answer the browser. */
  method Ask(r: Request, session: Option<Session>, renewed: Option<Session>, before: seq<Call>, w: Upstream)
    returns (reply: Reply, calls: seq<Call>)
    requires renewed == Newest(before)
    ensures calls == before + Asked(ApiOf(r), session, IsPublicRequest(r), w)
    ensures calls != [] && Settled(r, calls, w.now, reply)
  {
    var result, now, again, asked := AuthenticatedFetch(ApiOf(r), session, IsPublicRequest(r), w);
    var changed := if again.Some? then again else renewed;
    calls := before + asked;
    NewestJoin(before, asked);
    assert calls[|calls| - 1] == asked[|asked| - 1];
    hide Newest, Asked, ApiOf, IsPublicRequest, FromTokens, HexId, ApiV1, NavigationRoute, Concluded;
    match result {
      case Err(e) =>
        reply := RefreshFailure(e, changed);
        assert Concluded(r, NoAnswer, w.now) == Fails(502, "upstream_unavailable") by { NothingConcluded(r, w.now); }
      case Ok(response) =>
        var cookie := CookieFor(r, response, changed, w.now);
        reply := Reply(Concluded(r, response, w.now), cookie);
    }
  }

  lemma NothingConcluded(r: Request, now: Time)
    ensures Concluded(r, NoAnswer, now) == Fails(502, "upstream_unavailable")
  {
  }

  /** The cookie of an answered request: the session a login establishes, none after a logout, the
      newest one otherwise. */
  method CookieFor(r: Request, response: Fetched, changed: Option<Session>, now: Time) returns (cookie: Cookie)
    ensures var established := if LoginVerify(r.path) && Accepted(response) && response.content.Some?
                               then FromTokens(response.content.value, None, now, now) else None;
            cookie == if r.path == LOGOUT && Accepted(response) then Clear
                      else Kept(if established.Some? then established else changed)
    ensures Concluded(r, response, now) != Fails(401, "session_expired")
  {
    hide FromTokens, HexId, NavigationRoute;
    cookie := Kept(changed);
    if Concluded(r, response, now) == Serves("session") && r.path != SESSION {
      cookie := Kept(FromTokens(response.content.value, None, now, now));
    } else if r.path == LOGOUT && Accepted(response) {
      cookie := Clear;
    }
  }

  /** A request passed on to the API has somebody to serve and says what IAM needs. */
  predicate PassedOn(r: Request, session: Option<Session>) {
    Available(r) && (session.Some? || IsPublicRequest(r)) && WellFormed(r)
  }

  /** Pass a request on to the API, if it may be. */
  method Pass(r: Request, session: Option<Session>, renewed: Option<Session>, before: seq<Call>, w: Upstream)
    returns (reply: Reply, calls: seq<Call>)
    requires renewed == Newest(before)
    ensures calls == before + if PassedOn(r, session) then Asked(ApiOf(r), session, IsPublicRequest(r), w) else []
    ensures PassedOn(r, session) ==> calls != [] && Settled(r, calls, w.now, reply)
    ensures !PassedOn(r, session) ==>
              && reply.cookie == (if Available(r) && session.None? && !IsPublicRequest(r) && Navigation(r) then Clear else Keep)
              && (!Own(r.path) && (session.Some? <==> r.session.Some?) ==> reply.answer == QuietAnswer(r))
  {
    hide NavigationRoute, IsPublic, BlockedRoute, ApiV1, Asked, ApiOf, BodyOf, Settled, Newest;
    var public := IsPublicRequest(r);
    if !Available(r) { return Reply(Fails(404, "route_not_available"), Keep), before; }
    if session.None? && !public {
      if Navigation(r) { return Reply(Redirects, Clear), before; }
      return Reply(Fails(401, "sign_in_required"), Keep), before;
    }
    if !Reads(r.verb) {
      var body := BoundedBody(r.body);
      if body.None? { return Reply(Fails(413, "request_too_large"), Keep), before; }
      if r.idempotencyKey == "" { return Reply(Fails(400, "idempotency_key_required"), Keep), before; }
    }
    reply, calls := Ask(r, session, renewed, before, w);
  }

  /** A route for navigation is passed on, needs a session and is none of the gateway's own. */
  lemma NavigationsPass(r: Request)
    requires r.verb == "GET" && NavigationRoute(r.path)
    ensures Available(r) && !IsPublicRequest(r) && !Own(r.path) && WellFormed(r)
  {
    var p := r.path;
    assert |p| == 3 ==> p[2] in {"login"};
    assert |p| >= 4 ==> p[2..4][0] == p[2];
  }

  /** The session the browser is left with. It is cleared only when IAM refused to renew, on
      logout and on a sessionless navigation; after a call of the API every other reply carries the
      newest session obtained; without one, a renewed session is carried unless the answer is one
      that forgets it. */
  ghost predicate CookieLaw(r: Request, configured: bool, now: Time, calls: seq<Call>, cookie: Cookie) {
    && (cookie == Clear <==> SignedOutByRefusal(calls) || LoggedOut(r, calls) || SessionlessNavigation(r, configured))
    && (cookie != Clear && CalledApi(calls) ==>
          cookie == Kept(if LoggedIn(r, calls, now).Some? then LoggedIn(r, calls, now) else Newest(calls)))
    && (cookie != Clear && !CalledApi(calls) ==> cookie == if Forgets(r) then Keep else Kept(Newest(calls)))
  }

  /** What the browser is told: the API's last answer concludes a request, and a refused or failed
      renewal ends it. */
  ghost predicate AnswerLaw(r: Request, configured: bool, now: Time, calls: seq<Call>, answer: Answer) {
    && (Early(r, configured) ==> answer == EarlyAnswer(r, configured))
    && (!Early(r, configured) && !CalledApi(calls) && (calls != [] ==> calls[|calls| - 1].outcome.Ok?) ==>
          answer == QuietAnswer(r))
    && (answer == Fails(401, "session_expired") <==> SignedOutByRefusal(calls))
    && (calls != [] ==>
          match calls[|calls| - 1]
          case Asking(_, _, fetched) => answer == Concluded(r, fetched, now)
          case Renewing(Ok(_)) => !CalledApi(calls)
          case Renewing(Err(RefusedWith(status))) => status != 401 ==> answer == Fails(503, "refresh_unavailable")
          case Renewing(Err(Unavailable)) =>
            answer == if CalledApi(calls) then Fails(502, "upstream_unavailable") else Fails(503, "refresh_unavailable"))
  }

  /** A reply without asking the API. */
  lemma QuietLaws(r: Request, configured: bool, w: Upstream, calls: seq<Call>, reply: Reply)
    requires !Early(r, configured) && calls == Renewals(r, w) && Renewed(r, w)
    requires reply.cookie == if SessionlessNavigation(r, configured) then Clear
                             else if Forgets(r) then Keep else Kept(Newest(calls))
    requires !Asks(r, configured, w) && reply.answer == QuietAnswer(r)
    ensures CookieLaw(r, configured, w.now, calls, reply.cookie) && AnswerLaw(r, configured, w.now, calls, reply.answer)
  {
    hide Early, IsPublicRequest, Forgets, Concluded, NavigationRoute;
  }

  /** A reply after asking it. */
  lemma AskedLaws(r: Request, configured: bool, w: Upstream, before: seq<Call>, session: Option<Session>, calls: seq<Call>, reply: Reply)
    requires !Early(r, configured) && !SessionlessNavigation(r, configured)
    requires calls == before + Asked(ApiOf(r), session, IsPublicRequest(r), w) && Settled(r, calls, w.now, reply)
    ensures CookieLaw(r, configured, w.now, calls, reply.cookie) && AnswerLaw(r, configured, w.now, calls, reply.answer)
  {
    assert calls[|before|].Asking?;
    hide Early, IsPublicRequest, Forgets, Concluded, NavigationRoute, LoggedIn, Newest, LoggedOut;
  }

  lemma TestViewNotPublic(r: Request)
    ensures r.path == TEST_VIEW ==> !IsPublicRequest(r) && !Navigation(r)
  {
  }

  /** Everything after the session was looked at. */
  method Serve(r: Request, configured: bool, session: Option<Session>, changed: Option<Session>, before: seq<Call>, w: Upstream)
    returns (reply: Reply, calls: seq<Call>)
    requires !Early(r, configured) && Renewed(r, w) && before == Renewals(r, w)
    requires session == Current(r, w) && changed == Newest(before)
    ensures calls == before + if Asks(r, configured, w) then Asked(ApiOf(r), session, IsPublicRequest(r), w) else []
    ensures Asks(r, configured, w) ==> calls != [] && Settled(r, calls, w.now, reply) && !SessionlessNavigation(r, configured)
    ensures !Asks(r, configured, w) ==>
              && reply.cookie == (if SessionlessNavigation(r, configured) then Clear
                                  else if Forgets(r) then Keep else Kept(changed))
              && reply.answer == QuietAnswer(r)
  {
    TestViewNotPublic(r);
    if r.verb == "GET" && NavigationRoute(r.path) { NavigationsPass(r); }
    hide NavigationRoute, IsPublic, BlockedRoute, ApiV1, Asked, Settled, ApiOf, Early, BodyOf, Kept;
    assert session.None? ==> changed.None?;
    hide Newest, Renewals;
    if r.path == CONTINUE {
      return Reply(Redirects, Kept(changed)), before;
    }
    if r.path == SESSION {
      if r.verb != "GET" { return Reply(Fails(405, "method_not_allowed"), Keep), before; }
      if session.None? { return Reply(Serves("session"), Keep), before; }
      reply, calls := Ask(r, session, changed, before, w);
      return;
    }
    if r.path == TEST_VIEW {
      if r.verb != "POST" { return Reply(Fails(405, "method_not_allowed"), Kept(changed)), before; }
      if session.None? { return Reply(Fails(401, "sign_in_required"), Kept(changed)), before; }
      var input := BoundedBody(r.body);
      if input.None? { return Reply(Fails(413, "request_too_large"), Kept(changed)), before; }
      return Reply(Serves("test-view"), Kept(changed)), before;
    }
    reply, calls := Pass(r, session, changed, before, w);
  }

  /** gateway: the whole handling of a request. */
  method Handle(r: Request, configured: bool, w: Upstream) returns (reply: Reply, calls: seq<Call>)
    ensures calls == Conversation(r, configured, w)
    ensures CookieLaw(r, configured, w.now, calls, reply.cookie)
    ensures AnswerLaw(r, configured, w.now, calls, reply.answer)
  {
    hide IsPublicRequest, Asked, ApiOf, Concluded, Forgets, Settled;
    calls := [];
    assert Newest(calls) == None;
    if Early(r, configured) {
      return Reply(EarlyAnswer(r, configured), Keep), calls;
    }
    var session, changed := r.session, None;
    var public := IsPublicRequest(r);
    if session.Some? && !public && w.renewal.Some? {
      calls := [Renewing(w.renewal.value)];
      match w.renewal.value {
        case Ok(newer) =>
          changed := Some(newer);
          session := changed;
        case Err(RefusedWith(401)) =>
          return Reply(Fails(401, "session_expired"), Clear), calls;
        case Err(_) =>
          return Reply(Fails(503, "refresh_unavailable"), Keep), calls;
      }
    }
    reply, calls := Serve(r, configured, session, changed, calls, w);
    if Asks(r, configured, w) {
      AskedLaws(r, configured, w, Renewals(r, w), session, calls, reply);
    } else {
      QuietLaws(r, configured, w, calls, reply);
    }
  }

  // ----- what follows for every conversation -----

  /** The calls at i and j ask the same twice, around the one renewal that a 401 makes. */
  ghost predicate AskedAgain(calls: seq<Call>, i: nat, j: nat)
    requires i < j < |calls| && calls[i].Asking?
  {
    && j == i + 2 && |calls| == j + 1
    && calls[i].answer.Response? && calls[i].answer.status == 401
    && calls[i + 1].Renewing? && calls[i + 1].outcome.Ok?
  }

  lemma AskedShape(api: ApiRequest, session: Option<Session>, public: bool, w: Upstream, i: nat)
    requires var calls := Asked(api, session, public, w); i < |calls| && calls[i].Asking?
    ensures var calls := Asked(api, session, public, w);
            && calls[i].api == api
            && calls[i].session == (if public then None else if i == 0 then session else Newest(calls[..i]))
            && (i == 0 <==> Newest(calls[..i]).None?)
            && forall j :: i < j < |calls| && calls[j].Asking? ==> !public && i == 0 && AskedAgain(calls, i, j)
  {
    var calls := Asked(api, session, public, w);
    if i == 0 {
      assert calls[..0] == [];
    } else {
      assert i == 2 && calls[..2][..1] == [calls[0]] && calls[..2][1] == calls[1];
    }
  }

  /** The API is asked at most twice, both times for exactly the same, with the newest session the
      request then has; the second time only after a 401 and a renewal. Public requests show no
      session. */
  lemma AskedAtMostTwice(r: Request, configured: bool, w: Upstream, i: nat)
    requires var calls := Conversation(r, configured, w); i < |calls| && calls[i].Asking?
    ensures var calls := Conversation(r, configured, w);
            && calls[i].api == ApiOf(r)
            && calls[i].session == (if IsPublicRequest(r) then None
                                    else if Newest(calls[..i]).Some? then Newest(calls[..i]) else r.session)
            && forall j :: i < j < |calls| && calls[j].Asking? ==> !IsPublicRequest(r) && AskedAgain(calls, i, j)
  {
    var calls, before := Conversation(r, configured, w), Renewals(r, w);
    var asked := Asked(ApiOf(r), Current(r, w), IsPublicRequest(r), w);
    assert calls == before + asked && |before| <= i;
    assert Newest(before).Some? ==> Current(r, w) == Newest(before);
    assert Newest(before).None? ==> Current(r, w) == r.session;
    var k := i - |before|;
    assert calls[i] == asked[k] && calls[..i] == before + asked[..k];
    AskedShape(ApiOf(r), Current(r, w), IsPublicRequest(r), w, k);
    NewestJoin(before, asked[..k]);
    hide Asked, Asks, IsPublicRequest, ApiOf, Newest, Renewals, Conversation, Current;
    forall j | i < j < |calls| && calls[j].Asking? ensures !IsPublicRequest(r) && AskedAgain(calls, i, j) {
      assert calls[j] == asked[j - |before|] && calls[i + 1] == asked[k + 1];
      assert AskedAgain(asked, k, j - |before|);
    }
  }

  /** What IAM is asked: the browser's own request, with its idempotency key and, for a change, its
      whole body; on /api/session, who the user is. */
  lemma AskedForTheBrowser(r: Request, configured: bool, w: Upstream, i: nat)
    requires var calls := Conversation(r, configured, w); i < |calls| && calls[i].Asking?
    ensures var api := Conversation(r, configured, w)[i].api;
            && api.idempotencyKey == r.idempotencyKey
            && if r.path == ["api", "session"] then api.verb == "GET" && api.path == ["api", "v1", "me"] && api.body == None
               else && api.verb == r.verb && api.path == r.path
                    && api.body == (if r.verb in {"GET", "HEAD"} then None else Some(Joined(r.body.chunks)))
                    && (r.verb !in {"GET", "HEAD"} ==> r.idempotencyKey != "" && |Joined(r.body.chunks)| <= 262144)
  {
    AskedAtMostTwice(r, configured, w, i);
    var calls := Conversation(r, configured, w);
    assert Asks(r, configured, w) by { AskingAsks(r, configured, w, i); }
    hide Conversation, Early, Available, IsPublicRequest, Renewed, AskedAgain;
  }

  lemma AskingAsks(r: Request, configured: bool, w: Upstream, i: nat)
    requires var calls := Conversation(r, configured, w); i < |calls| && calls[i].Asking?
    ensures Asks(r, configured, w)
  {
    hide Asks, Early, IsPublicRequest;
  }

  /** Whom IAM is asked for at all: a trusted host, and for anything but a navigation the frontend
      itself, on routes of the browser's API, with a session or on the routes that lead to one. */
  lemma AskedOnlyIf(r: Request, configured: bool, w: Upstream)
    requires Conversation(r, configured, w) != []
    ensures configured && !r.encodedSeparator && r.trustedHost
    ensures r.verb != "GET" ==> r.fromFrontend && !r.crossSite && r.sameOrigin != Some(false)
    ensures r.verb !in {"GET", "HEAD"} ==> r.sameOrigin == Some(true)
    ensures r.verb == "GET" && r.path != ["auth", "continue"] && r.path != ["api", "v1", "login"]
            && r.path != ["api", "v1", "login", "status"] && r.path != ["api", "v1", "sso", "callback"]
            && !(|r.path| == 6 && r.path[5] == "authorize") ==>
              r.fromFrontend && !r.crossSite && r.sameOrigin != Some(false)
  {
    assert !Early(r, configured);
    hide Conversation, Renewals, Asked, IsPublicRequest;
  }

  lemma RoutesAsked(r: Request, configured: bool, w: Upstream, i: nat)
    requires var calls := Conversation(r, configured, w); i < |calls| && calls[i].Asking?
    ensures (r.path == ["api", "session"] && r.verb == "GET" && r.session.Some?)
         || (&& |r.path| >= 3 && r.path[0] == "api" && r.path[1] == "v1" && r.verb in {"GET", "POST", "PUT", "PATCH", "DELETE"}
             && r.path[2] !in {"silicon-auth", "oauth", "provider-webhooks", "application-directory", "obo-access"}
             && !(|r.path| >= 4 && r.path[2] == "auth" && r.path[3] == "tokens")
             && (r.session.None? ==> r.path[2] in {"signup", "login", "carbon-ids", "organization-ids", "version"}))
  {
    AskingAsks(r, configured, w, i);
    hide Conversation, Early, WellFormed;
    assert |r.path| >= 4 ==> r.path[2..4][0] == r.path[2] && r.path[2..4][1] == r.path[3];
    assert r.path == ["api", "v1", "version"] ==> r.path[2] == "version";
    assert |r.path| >= 4 && r.path[2..] == ["login", "challenges"] ==> r.path[2..][0] == "login";
    hide SignupStep, HexId;
  }

  /** Every well-formed request of a signed-in browser is passed on: after the renewal of a due
      session, and once more after a 401 and a forced one. */
  lemma WellFormedIsPassedOn(r: Request, w: Upstream)
    requires !r.encodedSeparator && r.trustedHost && r.session.Some?
    requires |r.path| >= 3 && r.path[0] == "api" && r.path[1] == "v1"
    requires r.path[2] !in {"silicon-auth", "oauth", "provider-webhooks", "application-directory", "obo-access",
                            "auth", "app-auth", "signup", "login", "carbon-ids", "organization-ids", "version"}
    requires r.fromFrontend && !r.crossSite && r.sameOrigin == Some(true)
    requires r.verb in {"GET", "POST", "PUT", "PATCH", "DELETE"}
    requires r.verb != "GET" ==>
               && r.idempotencyKey != "" && !r.body.broken && |Joined(r.body.chunks)| <= 262144
               && (r.body.announced.Some? ==> r.body.announced.value <= 262144)
    ensures var api := ApiRequest(r.verb, r.path, r.idempotencyKey,
                                  if r.verb == "GET" then None else Some(Joined(r.body.chunks)));
            var again := if !w.answer.Response? || w.answer.status != 401 then []
                         else [Renewing(w.forced)]
                              + if w.forced.Ok? then [Asking(api, Some(w.forced.value), w.retried)] else [];
            Conversation(r, true, w) ==
              match w.renewal
              case None => [Asking(api, r.session, w.answer)] + again
              case Some(Ok(newer)) => [Renewing(Ok(newer)), Asking(api, Some(newer), w.answer)] + again
              case Some(Err(e)) => [Renewing(Err(e))]
  {
    SignedInRoutes(r);
    hide Early, Available, IsPublicRequest, Joined;
    assert r.path != SESSION && r.path != CONTINUE && r.path != TEST_VIEW;
    assert WellFormed(r);
    hide WellFormed;
    if w.renewal.None? || w.renewal.value.Ok? { assert Asks(r, true, w); }
    hide Asks;
  }

  lemma SignedInRoutes(r: Request)
    requires !r.encodedSeparator && r.trustedHost
    requires |r.path| >= 3 && r.path[0] == "api" && r.path[1] == "v1"
    requires r.path[2] !in {"silicon-auth", "oauth", "provider-webhooks", "application-directory", "obo-access",
                            "auth", "app-auth", "signup", "login", "carbon-ids", "organization-ids", "version"}
    requires r.fromFrontend && !r.crossSite && r.sameOrigin == Some(true)
    requires r.verb in {"GET", "POST", "PUT", "PATCH", "DELETE"}
    ensures !Early(r, true) && Available(r) && !IsPublicRequest(r)
  {
    assert |r.path| >= 4 ==> r.path[2..4][0] == r.path[2];
    assert r.path[2..][0] == r.path[2];
    hide HexId, SignupStep, NavigationRoute;
  }

  /** Who the browser's session belongs to is asked of IAM; so is a login, without any session. */
  lemma SessionAndLoginAreAsked(r: Request, w: Upstream)
    requires !r.encodedSeparator && r.trustedHost && r.fromFrontend && !r.crossSite && r.sameOrigin == Some(true)
    ensures r.path == ["api", "session"] && r.verb == "GET" && r.session.Some? && w.renewal.None?
            && (w.answer.Response? ==> w.answer.status != 401) ==>
              Conversation(r, true, w)
                == [Asking(ApiRequest("GET", ["api", "v1", "me"], r.idempotencyKey, None), r.session, w.answer)]
    ensures r.path == ["api", "v1", "login", "challenges"] && r.verb == "POST" && r.idempotencyKey != ""
            && r.body == Body(None, [], false) ==>
              Conversation(r, true, w) == [Asking(ApiRequest("POST", r.path, r.idempotencyKey, Some([])), None, w.answer)]
  {
    hide NavigationRoute, BlockedRoute, HexId, SignupStep, LoginVerify;
    assert r.path == ["api", "session"] ==> !NavigationRoute(r.path) && !IsPublicRequest(r) by { SessionNotPublic(r); }
    assert r.path == ["api", "v1", "login", "challenges"] ==> r.path[2..] == ["login", "challenges"] && !BlockedRoute(r.path)
      by { LoginNotBlocked(r.path); }
    assert Joined([]) == [];
  }

  lemma SessionNotPublic(r: Request)
    ensures r.path == ["api", "session"] ==> !NavigationRoute(r.path) && !IsPublicRequest(r)
  {
  }

  lemma LoginNotBlocked(path: Path)
    ensures path == ["api", "v1", "login", "challenges"] ==>
              path[2..] == ["login", "challenges"] && !BlockedRoute(path) && !NavigationRoute(path)
  {
    assert path == ["api", "v1", "login", "challenges"] ==> path[2..4][0] == "login";
  }

  /** What a browser that may not ask is told. */
  lemma RefusedEarly(r: Request, configured: bool)
    ensures !configured ==> Early(r, configured) && EarlyAnswer(r, configured) == Fails(503, "frontend_configuration")
    ensures configured && r.encodedSeparator ==> Early(r, configured) && EarlyAnswer(r, configured) == Fails(400, "invalid_path")
    ensures configured && !r.encodedSeparator && !r.trustedHost ==>
              Early(r, configured) && EarlyAnswer(r, configured) == Fails(403, "untrusted_host")
    ensures configured && !r.encodedSeparator && r.trustedHost && |r.path| > 3 && r.path[0] == "api" && r.path[1] == "v1"
            && r.verb == "POST" && (!r.fromFrontend || r.crossSite || r.sameOrigin != Some(true)) ==>
              Early(r, configured) && EarlyAnswer(r, configured) == Fails(403, "frontend_csrf")
  {
    hide NavigationRoute;
  }

  /** And one that forgot to sign in, or a change without its body or key. */
  lemma RefusedQuietly(r: Request)
    requires |r.path| > 3 && r.path[0] == "api" && r.path[1] == "v1" && r.verb == "POST" && !IsPublicRequest(r)
    ensures BlockedRoute(r.path) ==> QuietAnswer(r) == Fails(404, "route_not_available")
    ensures !BlockedRoute(r.path) && r.session.None? ==> QuietAnswer(r) == Fails(401, "sign_in_required")
    ensures !BlockedRoute(r.path) && r.session.Some? && BodyOf(r.body).None? ==> QuietAnswer(r) == Fails(413, "request_too_large")
    ensures !BlockedRoute(r.path) && r.session.Some? && BodyOf(r.body).Some? && r.idempotencyKey == "" ==>
              QuietAnswer(r) == Fails(400, "idempotency_key_required")
  {
    hide BlockedRoute, IsPublicRequest, NavigationRoute;
  }

  /** What the last answer of the API becomes, case by case. */
  lemma ConcludedIff(r: Request, f: Fetched, now: Time)
    requires f.Response?
    ensures Concluded(r, f, now).Passes? <==>
              if r.path == SESSION then f.status != 401 && !(200 <= f.status < 300)
              else !(300 <= f.status < 400) && !(200 <= f.status < 300 && LoginVerify(r.path))
                   && (Navigation(r) ==> 200 <= f.status < 300)
    ensures Concluded(r, f, now).Serves? <==>
              200 <= f.status < 300 && f.content.Some?
              && (r.path == SESSION || (LoginVerify(r.path) && FromTokens(f.content.value, None, now, now).Some?))
    ensures Concluded(r, f, now).Redirects? <==>
              && Navigation(r) && r.path != SESSION
              && if 300 <= f.status < 400 then f.location == Safe && f.status in {301, 302, 303, 307, 308}
                 else !(200 <= f.status < 300)
    ensures Concluded(r, f, now).Fails? ==> Concluded(r, f, now).status in {502, 503}
  {
    hide HexId, NavigationRoute, FromTokens;
  }

  /** A refreshed session is lost exactly by the replies that forget it: here one that leaves out
      its idempotency key, after IAM has already rotated the session's tokens. */
  lemma RefreshedSessionLost(older: Session, newer: Session, now: Time)
    ensures var r := Request("POST", ["api", "v1", "organizations"], false, true, true, false, true, false, Some(true),
                             Some(older), "", Body(None, [], false));
            var w := Upstream(Some(Ok(newer)), NoAnswer, Ok(newer), NoAnswer, now);
            && Conversation(r, true, w) == [Renewing(Ok(newer))] && Forgets(r)
            && forall cookie :: CookieLaw(r, true, now, Conversation(r, true, w), cookie) ==> cookie == Keep
  {
  }
}
