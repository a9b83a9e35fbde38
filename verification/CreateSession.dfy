/** The new-session request from end to end: placement, the upstream's answer, health, metrics, the public id. */
module CreateSession {
  import opened Wrappers
  import opened Config
  import opened Json
  import opened SessionId
  import opened HealthSpec
  import opened MetricsSpec
  import opened Metrics
  import opened Health
  import opened Routing
  import opened Placement
  import opened Proxy

  /** Outcome label, and whether it should degrade the backend's health. */
  function ClassifyUpstreamStatus(code: int): (string, bool) {
    if code >= 500 then ("failure", true)
    else if code in {408, 425, 429, 401, 403} then ("failure", true)
    else if code >= 400 then ("client_error", false)
    else ("success", false)
  }

  /** What comes back from the backend; an answer's body is decoded if it is one JSON object. */
  datatype Reply = TransportError | BodyError | Answer(status: int, body: Option<map<string, Json>>)

  datatype CreateResult =
    | Refused(status: int)
    | Relayed(status: int)
    | Created(status: int, payload: map<string, Json>, publicSessionId: string, upstreamSessionId: string)

  predicate IsSuccessStatus(status: int) {
    200 <= status < 300
  }

  /** A 2xx answer from which a public id can be made. */
  predicate Usable(reply: Reply, token: string) {
    && reply.Answer? && IsSuccessStatus(reply.status) && reply.body.Some?
    && UpstreamIdOf(reply.body.value).Some? && Encode(token, UpstreamIdOf(reply.body.value).value).Some?
  }

  /** The reports that a status alone gives rise to. */
  function StatusReports(status: int, backendId: string, at: int): seq<Event> {
    var (outcome, unhealthy) := ClassifyUpstreamStatus(status);
    if unhealthy then [Failed(backendId, at)]
    else if outcome == "success" then [Succeeded(backendId, at)]
    else []
  }

  /** The health reports of one attempt, in order: the status is judged at `at`, the missing id at `refusedAt`. */
  function ReportsOf(reply: Reply, token: string, backendId: string, at: int, refusedAt: int): seq<Event> {
    match reply
    case TransportError => [Failed(backendId, at)]
    case BodyError => [Failed(backendId, at)]
    case Answer(status, _) =>
      StatusReports(status, backendId, at) +
      if IsSuccessStatus(status) && !Usable(reply, token) then [Failed(backendId, refusedAt)] else []
  }

  /** The classes of status: the backend's fault, the caller's fault, and success. */
  lemma StatusTable(status: int, backendId: string, at: int)
    ensures status >= 500 || status in {401, 403, 408, 425, 429} ==>
              StatusReports(status, backendId, at) == [Failed(backendId, at)]
              && ClassifyUpstreamStatus(status).0 == "failure"
    ensures 400 <= status < 500 && status !in {401, 403, 408, 425, 429} ==>
              StatusReports(status, backendId, at) == [] && ClassifyUpstreamStatus(status).0 == "client_error"
    ensures status < 400 ==>
              StatusReports(status, backendId, at) == [Succeeded(backendId, at)]
              && ClassifyUpstreamStatus(status).0 == "success"
  {}

  /** Side endpoints are proxied under no protocol of their own. */
  function ProtocolLabel(protocol: Protocol): string {
    if protocol == "" then "side" else protocol
  }

  /** The proxy metrics of one attempt: an unreadable body goes unrecorded. */
  function RecordsOf(reply: Reply, backendId: string, seconds: real): seq<Observation<Pair, string>> {
    match reply
    case TransportError => [Observation((WEBDRIVER, backendId), "error", seconds)]
    case BodyError => []
    case Answer(status, _) => [Observation((WEBDRIVER, backendId), ClassifyUpstreamStatus(status).0, seconds)]
  }

  /** One report per attempt, except none for a caller's error and two for a 2xx answer without a usable id. */
  lemma ReportCount(reply: Reply, token: string, backendId: string, at: int, refusedAt: int)
    ensures var n := |ReportsOf(reply, token, backendId, at, refusedAt)|;
            && n <= 2
            && (n == 0 <==> reply.Answer? && 400 <= reply.status < 500 && reply.status !in {401, 403, 408, 425, 429})
            && (n == 2 <==> reply.Answer? && IsSuccessStatus(reply.status) && !Usable(reply, token))
  {}

  // ---- Backends that answer 2xx with nothing usable ----

  /** Such an answer is reported as a success and then, separately, as a failure. */
  lemma UnusableReports(reply: Reply, token: string, backendId: string, at: int, refusedAt: int)
    requires reply.Answer? && IsSuccessStatus(reply.status) && !Usable(reply, token)
    ensures ReportsOf(reply, token, backendId, at, refusedAt) ==
            [Succeeded(backendId, at), Failed(backendId, refusedAt)]
    ensures Project(ReportsOf(reply, token, backendId, at, refusedAt), backendId) == [Success(at), Failure(refusedAt)]
  {
    var both := [Succeeded(backendId, at), Failed(backendId, refusedAt)];
    assert both[..1][..0] == [] && both[..1] == [Succeeded(backendId, at)];
    assert Project(both[..1], backendId) == [Success(at)];
  }

  /** One attempt after another, each with the instants of its two reports. */
  function UnusableAttempts(times: seq<(int, int)>): seq<Op> {
    if times == [] then []
    else
      var n := |times| - 1;
      UnusableAttempts(times[..n]) + [Success(times[n].0), Failure(times[n].1)]
  }

  /**
    Without overlap the success of each such attempt wipes the failure of the one
    before, so the backend is never taken out of rotation, unless one failure
    suffices. `Overlap.UnusableTripsByOverlap` tells what overlap changes.
   */
  lemma {:induction false} UnusableAnswersTripOnlyAtOne(p: Policy, times: seq<(int, int)>)
    requires p.enabled && p.threshold >= 1 && times != []
    ensures Run(Fresh(p), UnusableAttempts(times)).until.Some? <==> p.threshold == 1
    ensures p.threshold > 1 ==> Run(Fresh(p), UnusableAttempts(times)).failures == 1
  {
    var n := |times| - 1;
    var (s, f) := times[n];
    var before := UnusableAttempts(times[..n]);
    if n > 0 {
      UnusableAnswersTripOnlyAtOne(p, times[..n]);
    }
    RunKeepsInStep(Fresh(p), before);
    RunConcat(Fresh(p), before, [Success(s), Failure(f)]);
    OneAttempt(Run(Fresh(p), before), s, f);
  }

  lemma OneAttempt(c: Cell, s: int, f: int)
    requires InStep(c) && c.policy.enabled && (c.policy.threshold > 1 ==> c.until.None?)
    ensures var r := Run(c, [Success(s), Failure(f)]);
            (r.until.Some? <==> c.policy.threshold == 1) && (c.policy.threshold > 1 ==> r.failures == 1)
  {
    TwoSteps(c, Success(s), Failure(f), []);
    assert [Success(s), Failure(f)] + [] == [Success(s), Failure(f)];
  }

  // ---- The handler ----

  ghost function HealthFrame(health: Manager?): set<object>
    reads health
  {
    if health == null then {} else {health as object} + set state <- health.backends.Values :: state as object
  }

  ghost function MetricsFrame(metrics: Accumulator?): set<object>
    reads if metrics == null then {} else {metrics.proxy.durations as object}
  {
    if metrics == null then {} else {metrics.proxy as object} + metrics.proxy.durations.Repr
  }

  ghost function MetricsReads(metrics: Accumulator?): set<object>
    reads if metrics == null then {} else {metrics.proxy.durations as object, metrics.http.durations}
  {
    if metrics == null then {} else metrics.Footprint()
  }

  /** Both collaborators, where present, are in order; the metrics share nothing with `apart`, where health lives. */
  ghost predicate Ready(health: Manager?, metrics: Accumulator?, apart: set<object>)
    reads HealthFrame(health), MetricsReads(metrics)
  {
    && (health != null ==> health.Valid())
    && (metrics != null ==> metrics.Valid())
    && HealthFrame(health) <= apart && apart !! MetricsReads(metrics)
  }

  ghost function Reports(health: Manager?): seq<Event>
    reads health
  {
    if health == null then [] else health.history
  }

  ghost function Records(metrics: Accumulator?): seq<Observation<Pair, string>>
    reads metrics, if metrics == null then {} else {metrics.proxy as object}
  {
    if metrics == null then [] else metrics.proxy.log
  }

  method ReportOne(health: Manager?, metrics: Accumulator?, ghost apart: set<object>, e: Event)
    requires Ready(health, metrics, apart) && !e.Scraped?
    modifies HealthFrame(health)
    ensures Ready(health, metrics, apart)
    ensures health != null ==> Reports(health) == old(Reports(health)) + [e]
  {
    if health != null {
      if e.Failed? {
        health.ReportFailure(e.id, e.at);
      } else {
        health.ReportSuccess(e.id, e.at);
      }
    }
  }

  method RecordOne(
    health: Manager?, metrics: Accumulator?, ghost apart: set<object>,
    protocol: Protocol, backendId: string, outcome: string, seconds: real)
    requires Ready(health, metrics, apart)
    modifies MetricsFrame(metrics)
    ensures Ready(health, metrics, apart)
    ensures metrics != null ==>
              Records(metrics) == old(Records(metrics)) +
                [Observation((ProtocolLabel(protocol), backendId), outcome, seconds)]
  {
    if metrics != null {
      metrics.RecordProxyRequest(ProtocolLabel(protocol), backendId, outcome, seconds);
    }
  }

  /** The reports and records that one attempt leaves behind, where anyone listens. */
  twostate predicate Accounted(
    health: Manager?, metrics: Accumulator?,
    backendId: string, token: string, reply: Reply, at: int, refusedAt: int, seconds: real)
    reads health, metrics, if metrics == null then {} else {metrics.proxy as object}
  {
    && (health != null ==> Reports(health) == old(Reports(health)) + ReportsOf(reply, token, backendId, at, refusedAt))
    && (metrics != null ==> Records(metrics) == old(Records(metrics)) + RecordsOf(reply, backendId, seconds))
  }

  /** The client gets an id exactly when the answer is usable, and that id decodes to this backend's token. */
  ghost predicate Answers(r: CreateResult, reply: Reply, token: string) {
    && (r.Created? <==> Usable(reply, token))
    && (r.Created? ==>
          && r.status == reply.status
          && Decode(r.publicSessionId) == Some(Parts(token, r.upstreamSessionId))
          && UpstreamIdOf(reply.body.value) == Some(r.upstreamSessionId)
          && OnlySlotsChanged(reply.body.value, r.payload, r.publicSessionId))
    && (r.Relayed? <==> reply.Answer? && !IsSuccessStatus(reply.status))
    && (r.Relayed? ==> r.status == reply.status)
    && (r.Refused? ==> r.status == 502)
  }

  method ClassifyAndRecord(
    health: Manager?, metrics: Accumulator?, ghost apart: set<object>,
    protocol: Protocol, backendId: string, status: int, at: int, seconds: real)
    requires Ready(health, metrics, apart)
    modifies HealthFrame(health), MetricsFrame(metrics)
    ensures Ready(health, metrics, apart)
    ensures health != null ==> Reports(health) == old(Reports(health)) + StatusReports(status, backendId, at)
    ensures metrics != null ==>
              Records(metrics) == old(Records(metrics)) +
                [Observation((ProtocolLabel(protocol), backendId), ClassifyUpstreamStatus(status).0, seconds)]
  {
    var (outcome, unhealthy) := ClassifyUpstreamStatus(status);
    if unhealthy {
      ReportOne(health, metrics, apart, Failed(backendId, at));
    } else if outcome == "success" {
      ReportOne(health, metrics, apart, Succeeded(backendId, at));
    }
    RecordOne(health, metrics, apart, protocol, backendId, outcome, seconds);
  }

  method NoAnswer(
    health: Manager?, metrics: Accumulator?, ghost apart: set<object>,
    protocol: Protocol, backendId: string, at: int, seconds: real)
    requires Ready(health, metrics, apart)
    modifies HealthFrame(health), MetricsFrame(metrics)
    ensures Ready(health, metrics, apart)
    ensures health != null ==> Reports(health) == old(Reports(health)) + [Failed(backendId, at)]
    ensures metrics != null ==>
              Records(metrics) == old(Records(metrics)) +
                [Observation((ProtocolLabel(protocol), backendId), "error", seconds)]
  {
    ReportOne(health, metrics, apart, Failed(backendId, at));
    RecordOne(health, metrics, apart, protocol, backendId, "error", seconds);
  }

  // ---- Proxied requests ----

  /** How a proxied request ended: no answer at all, or one with this status. */
  datatype Proxied = Broken | Returned(status: int)

  function ProxiedReports(end: Proxied, backendId: string, at: int): seq<Event> {
    match end
    case Broken => [Failed(backendId, at)]
    case Returned(status) => StatusReports(status, backendId, at)
  }

  function ProxiedRecords(
    end: Proxied, protocol: Protocol, backendId: string, seconds: real): seq<Observation<Pair, string>> {
    var outcome := match end case Broken => "error" case Returned(status) => ClassifyUpstreamStatus(status).0;
    [Observation((ProtocolLabel(protocol), backendId), outcome, seconds)]
  }

  /** The same for what a proxied request leaves behind. */
  lemma ProxiedTable(end: Proxied, protocol: Protocol, backendId: string, at: int, seconds: real)
    ensures ProxiedReports(end, backendId, at) ==
            if end.Broken? || end.status >= 500 || end.status in {401, 403, 408, 425, 429} then [Failed(backendId, at)]
            else if end.status >= 400 then []
            else [Succeeded(backendId, at)]
    ensures var outcome := if end.Broken? then "error"
                         else if end.status >= 500 || end.status in {401, 403, 408, 425, 429} then "failure"
                         else if end.status >= 400 then "client_error"
                         else "success";
            ProxiedRecords(end, protocol, backendId, seconds) ==
            [Observation((if protocol == "" then "side" else protocol, backendId), outcome, seconds)]
  {
    if end.Returned? {
      StatusTable(end.status, backendId, at);
    }
  }

  /** One metric, and one report unless the status is a plain client error. */
  method RelayReply(
    health: Manager?, metrics: Accumulator?, ghost apart: set<object>,
    protocol: Protocol, backendId: string, end: Proxied, at: int, seconds: real)
    requires Ready(health, metrics, apart)
    modifies HealthFrame(health), MetricsFrame(metrics)
    ensures Ready(health, metrics, apart)
    ensures health != null ==> Reports(health) == old(Reports(health)) + ProxiedReports(end, backendId, at)
    ensures metrics != null ==>
              Records(metrics) == old(Records(metrics)) + ProxiedRecords(end, protocol, backendId, seconds)
    ensures health != null ==>
              Reports(health) == old(Reports(health)) +
                if end.Broken? || end.status >= 500 || end.status in {401, 403, 408, 425, 429}
                then [Failed(backendId, at)]
                else if end.status >= 400 then []
                else [Succeeded(backendId, at)]
    ensures metrics != null ==>
              var outcome := if end.Broken? then "error"
                           else if end.status >= 500 || end.status in {401, 403, 408, 425, 429} then "failure"
                           else if end.status >= 400 then "client_error"
                           else "success";
              Records(metrics) == old(Records(metrics)) +
                [Observation((if protocol == "" then "side" else protocol, backendId), outcome, seconds)]
  {
    ProxiedTable(end, protocol, backendId, at, seconds);
    match end
    case Broken => NoAnswer(health, metrics, apart, protocol, backendId, at, seconds);
    case Returned(status) => ClassifyAndRecord(health, metrics, apart, protocol, backendId, status, at, seconds);
  }

  // ---- Relays that trip ----

  /** The reports of one proxied request after another, each with its end and the instant of its report. */
  function RelayedReports(ends: seq<(Proxied, int)>, backendId: string): seq<Event> {
    if ends == [] then []
    else
      var n := |ends| - 1;
      RelayedReports(ends[..n], backendId) + ProxiedReports(ends[n].0, backendId, ends[n].1)
  }

  predicate AtFault(end: Proxied) {
    end.Broken? || end.status >= 500 || end.status in {401, 403, 408, 425, 429}
  }

  function FailuresAt(ends: seq<(Proxied, int)>): seq<Op> {
    if ends == [] then [] else FailuresAt(ends[..|ends| - 1]) + [Failure(ends[|ends| - 1].1)]
  }

  lemma {:induction false} FailingRelaysProject(ends: seq<(Proxied, int)>, backendId: string)
    requires forall i | 0 <= i < |ends| :: AtFault(ends[i].0)
    ensures Project(RelayedReports(ends, backendId), backendId) == FailuresAt(ends)
  {
    if ends != [] {
      var n := |ends| - 1;
      var (end, at) := ends[n];
      FailingRelaysProject(ends[..n], backendId);
      ProxiedTable(end, WEBDRIVER, backendId, at, 0.0);
      ProjectOneMore(RelayedReports(ends[..n], backendId), Failed(backendId, at), backendId);
    }
  }

  lemma {:induction false} FailuresInARow(p: Policy, ends: seq<(Proxied, int)>)
    requires p.enabled && |ends| <= p.threshold
    ensures HealthSpec.Run(Fresh(p), FailuresAt(ends)) ==
            Cell(
              p, |ends|,
              if ends != [] && |ends| == p.threshold then Some(ends[|ends| - 1].1 + p.cooldown) else None)
  {
    if ends != [] {
      var n := |ends| - 1;
      FailuresInARow(p, ends[..n]);
      HealthSpec.RunOne(Fresh(p), FailuresAt(ends[..n]), Failure(ends[n].1));
      OneFailure(p, n, ends[n].1);
    }
  }

  lemma OneFailure(p: Policy, failures: nat, at: int)
    requires p.enabled && failures < p.threshold
    ensures Apply(Cell(p, failures, None), Failure(at)) ==
            Cell(p, failures + 1, if failures + 1 == p.threshold then Some(at + p.cooldown) else None)
  {}

  /**
    As many proxied requests in a row as the threshold, each without an answer or
    with a status that is the backend's fault, take an untripped backend without
    failures out of rotation until one cooldown after the last.
   */
  lemma FailingRelaysTrip(m: Model, ends: seq<(Proxied, int)>, backendId: string, now: int)
    requires backendId in m && m[backendId].policy.enabled && m[backendId].policy.threshold >= 1
    requires m[backendId] == Fresh(m[backendId].policy) && |ends| == m[backendId].policy.threshold
    requires forall e <- ends :: e.0.Broken? || e.0.status >= 500 || e.0.status in {401, 403, 408, 425, 429}
    ensures HealthSpec.Available(RunAll(m, RelayedReports(ends, backendId)), backendId, now) <==>
            now >= ends[|ends| - 1].1 + m[backendId].policy.cooldown
  {
    forall i | 0 <= i < |ends| ensures AtFault(ends[i].0) {
      assert ends[i] in ends;
    }
    FailingRelaysProject(ends, backendId);
    FailuresInARow(m[backendId].policy, ends);
    RunAllProjects(m, RelayedReports(ends, backendId), backendId);
  }

  /** What the client is told about an answer. */
  method Respond(status: int, body: Option<map<string, Json>>, token: string) returns (r: CreateResult)
    ensures Answers(r, Answer(status, body), token)
  {
    if !IsSuccessStatus(status) {
      return Relayed(status);
    }
    var rewritten := RewriteNewSessionResponse(body, token);
    if rewritten.None? {
      return Refused(502);
    }
    return Created(status, rewritten.value.payload, rewritten.value.publicSessionId, rewritten.value.upstreamSessionId);
  }

  /** What a new-session attempt leaves behind, reply by reply. */
  lemma ReplyTable(
    r: CreateResult, reply: Reply, token: string, backendId: string, at: int, refusedAt: int, seconds: real)
    requires Answers(r, reply, token)
    ensures ReportsOf(reply, token, backendId, at, refusedAt) ==
            match reply
            case TransportError => [Failed(backendId, at)]
            case BodyError => [Failed(backendId, at)]
            case Answer(status, _) =>
              if status >= 500 || status in {401, 403, 408, 425, 429} then [Failed(backendId, at)]
              else if status >= 400 then []
              else [Succeeded(backendId, at)] + if r.Refused? then [Failed(backendId, refusedAt)] else []
    ensures RecordsOf(reply, backendId, seconds) ==
            match reply
            case TransportError => [Observation(("webdriver", backendId), "error", seconds)]
            case BodyError => []
            case Answer(status, _) =>
              var outcome := if status >= 500 || status in {401, 403, 408, 425, 429} then "failure"
                           else if status >= 400 then "client_error"
                           else "success";
              [Observation(("webdriver", backendId), outcome, seconds)]
    ensures r.Relayed? <==> reply.Answer? && !(200 <= reply.status < 300)
  {
    if reply.Answer? {
      StatusTable(reply.status, backendId, at);
    }
  }

  method HandleReply(
    health: Manager?, metrics: Accumulator?, ghost apart: set<object>,
    backendId: string, token: string, reply: Reply, at: int, refusedAt: int, seconds: real)
    returns (r: CreateResult)
    requires Ready(health, metrics, apart)
    modifies HealthFrame(health), MetricsFrame(metrics)
    ensures Ready(health, metrics, apart)
    ensures Accounted(health, metrics, backendId, token, reply, at, refusedAt, seconds)
    ensures Answers(r, reply, token)
    ensures health != null ==>
              Reports(health) == old(Reports(health)) +
                match reply
                case TransportError => [Failed(backendId, at)]
                case BodyError => [Failed(backendId, at)]
                case Answer(status, _) =>
                  if status >= 500 || status in {401, 403, 408, 425, 429} then [Failed(backendId, at)]
                  else if status >= 400 then []
                  else [Succeeded(backendId, at)] + if r.Refused? then [Failed(backendId, refusedAt)] else []
  {
    match reply
    case TransportError =>
      NoAnswer(health, metrics, apart, WEBDRIVER, backendId, at, seconds);
      r := Refused(502);
    case BodyError =>
      ReportOne(health, metrics, apart, Failed(backendId, at));
      r := Refused(502);
    case Answer(status, body) =>
      r := HandleAnswer(health, metrics, apart, backendId, token, status, body, at, refusedAt, seconds);
      ReplyTable(r, reply, token, backendId, at, refusedAt, seconds);
  }

  /** The second report goes with the refusal. */
  lemma RefusalReports(
    r: CreateResult, status: int, body: Option<map<string, Json>>, token: string, backendId: string, at: int,
    refusedAt: int)
    requires Answers(r, Answer(status, body), token)
    ensures ReportsOf(Answer(status, body), token, backendId, at, refusedAt) ==
            StatusReports(status, backendId, at) + if r.Refused? then [Failed(backendId, refusedAt)] else []
  {}

  method HandleAnswer(
    health: Manager?, metrics: Accumulator?, ghost apart: set<object>,
    backendId: string, token: string, status: int, body: Option<map<string, Json>>,
    at: int, refusedAt: int, seconds: real)
    returns (r: CreateResult)
    requires Ready(health, metrics, apart)
    modifies HealthFrame(health), MetricsFrame(metrics)
    ensures Ready(health, metrics, apart)
    ensures Accounted(health, metrics, backendId, token, Answer(status, body), at, refusedAt, seconds)
    ensures Answers(r, Answer(status, body), token)
  {
    ClassifyAndRecord(health, metrics, apart, WEBDRIVER, backendId, status, at, seconds);
    r := RespondAndReport(health, metrics, apart, backendId, token, status, body, refusedAt);
    RefusalReports(r, status, body, token, backendId, at, refusedAt);
  }

  /** A refusal is a failure of the backend's. */
  method RespondAndReport(
    health: Manager?, metrics: Accumulator?, ghost apart: set<object>,
    backendId: string, token: string, status: int, body: Option<map<string, Json>>, refusedAt: int)
    returns (r: CreateResult)
    requires Ready(health, metrics, apart)
    modifies HealthFrame(health)
    ensures Ready(health, metrics, apart) && Answers(r, Answer(status, body), token)
    ensures health != null ==>
              Reports(health) == old(Reports(health)) + if r.Refused? then [Failed(backendId, refusedAt)] else []
  {
    r := Respond(status, body, token);
    if r.Refused? {
      ReportOne(health, metrics, apart, Failed(backendId, refusedAt));
    }
  }

  /** The JSON object in a request body; a JSON `null` decodes to an empty one. */
  function ObjectIn(body: Body): Option<Caps> {
    match body
    case Document(Object(fields)) => Some(fields)
    case Document(Null) => Some(map[])
    case _ => None
  }

  /** Only a document that is an object, or `null`, has one. */
  lemma ObjectForms(fields: Caps, json: Json, raw: string)
    ensures ObjectIn(Document(Object(fields))) == Some(fields) && ObjectIn(Document(Null)) == Some(map[])
    ensures !json.Object? && !json.Null? ==> ObjectIn(Document(json)) == None
    ensures ObjectIn(Absent) == ObjectIn(TooLarge) == ObjectIn(Opaque(raw)) == None
  {}

  /** The capabilities payload of a request body whose JSON document ends after `end` bytes. */
  function PayloadOf(body: Body, end: nat): Option<Caps> {
    Decoded(ObjectIn(body), end)
  }

  /** The backend serves the client's first satisfiable entry, by the draw. */
  ghost predicate PlacedOn(h: Handler, payload: Caps, view: View, draw: int -> int, backend: BackendPool) {
    exists i ::
      && EntrySatisfiable(payload, i, h.selector.catalog, h.selector.pools, view)
      && (forall j | 0 <= j < i :: !EntrySatisfiable(payload, j, h.selector.catalog, h.selector.pools, view))
      && var req := RequestAt(payload, i).value;
         Chosen(h.selector.pools, req, view, draw(Bound(h.selector.pools, req, view)), backend)
  }

  /** Some entry of the client's list can be served now. */
  ghost predicate Servable(h: Handler, payload: Option<Caps>, view: View) {
    payload.Some? && exists i :: EntrySatisfiable(payload.value, i, h.selector.catalog, h.selector.pools, view)
  }

  /** Placement alone: the first satisfiable entry of the client's list, or nothing if no entry is satisfiable. */
  method Place(h: Handler, body: Body, end: nat, at: int, draw: int -> int) returns (backend: Option<BackendPool>)
    requires FairDraw(draw) && (h.health != null ==> h.health.Valid())
    ensures backend.Some? <==> Servable(h, PayloadOf(body, end), ViewOf(h.health, at))
    ensures backend.Some? ==> PlacedOn(h, PayloadOf(body, end).value, ViewOf(h.health, at), draw, backend.value)
    ensures backend.Some? ==> backend.value in h.selector.pools
  {
    var candidates := ParseWebDriverNewSession(ObjectIn(body), end);
    ghost var payload := PayloadOf(body, end);
    if candidates.None? {
      if payload.Some? {
        NoSatisfiableEntry(payload.value, h.selector.catalog, h.selector.pools, ViewOf(h.health, at));
      }
      return None;
    }
    var selected, served := h.selector.SelectFirst(candidates.value, h.health, at, draw);
    if selected.Err? {
      NoSatisfiableEntry(payload.value, h.selector.catalog, h.selector.pools, ViewOf(h.health, at));
      return None;
    }
    LeastSatisfiableEntry(payload.value, served, h.selector.catalog, h.selector.pools, ViewOf(h.health, at));
    CandidateMembers(h.selector.pools, candidates.value[served], ViewOf(h.health, at));
    return Some(selected.value.0);
  }

  /**
    Chosen is the backend of the first satisfiable entry, if the request is a
    servable one; otherwise why it is not.
   */
  ghost predicate Admitted(
    h: Handler, isPost: bool, body: Body, end: nat, view: View, draw: int -> int, chosen: Result<BackendPool, int>)
  {
    && (chosen.Ok? <==> isPost && !body.TooLarge? && Servable(h, PayloadOf(body, end), view))
    && (chosen.Ok? ==>
          chosen.value in h.selector.pools && PlacedOn(h, PayloadOf(body, end).value, view, draw, chosen.value))
    && (chosen.Err? ==> chosen.error == if !isPost then 405 else if body.TooLarge? then 413 else 400)
  }

  method Admit(h: Handler, isPost: bool, body: Body, end: nat, at: int, draw: int -> int)
    returns (chosen: Result<BackendPool, int>)
    requires FairDraw(draw) && (h.health != null ==> h.health.Valid())
    ensures Admitted(h, isPost, body, end, ViewOf(h.health, at), draw, chosen)
  {
    if !isPost {
      return Err(405);
    }
    if body.TooLarge? {
      return Err(413);
    }
    var backend := Place(h, body, end, at, draw);
    return if backend.None? then Err(400) else Ok(backend.value);
  }

  /**
    The whole request. Nothing is reported unless a backend was chosen; one that
    was chosen serves the client's first satisfiable entry, is accounted for
    once, and an id handed out decodes to its token.
   */
  method Create(
    h: Handler, digest: Digest, metrics: Accumulator?, ghost apart: set<object>, isPost: bool, body: Body, end: nat,
    draw: int -> int, selectedAt: int, reply: Reply, repliedAt: int, refusedAt: int, seconds: real)
    returns (r: CreateResult, chosen: Result<BackendPool, int>)
    requires Ready(h.health, metrics, apart) && FairDraw(draw)
    requires forall p <- h.selector.pools :: p.id != ""
    modifies HealthFrame(h.health), MetricsFrame(metrics)
    ensures Ready(h.health, metrics, apart)
    ensures Admitted(h, isPost, body, end, old(ViewOf(h.health, selectedAt)), draw, chosen)
    ensures chosen.Err? ==> r == Refused(chosen.error)
    ensures chosen.Err? ==> Reports(h.health) == old(Reports(h.health)) && Records(metrics) == old(Records(metrics))
    ensures chosen.Ok? ==>
              Accounted(
                h.health, metrics, chosen.value.id, Token(digest, chosen.value.id),
                reply, repliedAt, refusedAt, seconds)
    ensures chosen.Ok? ==> Answers(r, reply, Token(digest, chosen.value.id))
  {
    chosen := Admit(h, isPost, body, end, selectedAt, draw);
    if chosen.Err? {
      return Refused(chosen.error), chosen;
    }
    var backend := chosen.value;
    r := HandleReply(
      h.health, metrics, apart, backend.id, TokenForBackend(digest, backend.id).value,
      reply, repliedAt, refusedAt, seconds);
  }
}
