/** The `POST /events` handler of apps/collector/src/hono/app.ts: validate
    the payload, find the visitor's address, check that the project exists
    and that the page's host name is on the project's allow-list, look the
    address up, and store one event. */
module Collector {
  import opened Wrappers
  import opened Text
  import opened JsValues
  import opened Requests
  import opened ClientIp
  import opened RequestHost
  import opened DomainMatch
  import opened CollectorSchema
  import opened Tables

  /** The fields of an ip-api.com answer the handler reads; `hosting` is
      part of the answer but never decides anything. */
  datatype IpInfo = IpInfo(
    country: Option<string>, regionName: Option<string>, city: Option<string>,
    zip: Option<string>, isp: Option<string>, asName: Option<string>,
    proxy: Option<bool>, mobile: Option<bool>, hosting: Option<bool>)

  /** An answer from ip-api.com: its `status` and its fields. */
  datatype IpApiResponse = IpApiResponse(success: bool, info: IpInfo)

  /** `getEventType`: a proxy first, then a mobile network, and everything
      else is counted as hosting. */
  function GetEventType(info: IpInfo): EventType {
    if info.proxy == Some(true) then Proxy
    else if info.mobile == Some(true) then Mobile
    else Hosting
  }

  /** Each answer of `getEventType` in terms of the two flags it reads. */
  lemma EventTypeMeaning(info: IpInfo, hosting: Option<bool>)
    ensures GetEventType(info) == Proxy <==> info.proxy == Some(true)
    ensures GetEventType(info) == Mobile <==> info.proxy != Some(true) && info.mobile == Some(true)
    ensures GetEventType(info) == Hosting <==> info.proxy != Some(true) && info.mobile != Some(true)
    ensures GetEventType(info.(hosting := hosting)) == GetEventType(info)
  {
  }

  /** `ipInfo`: the answer when the lookup returned one with status
      "success", and nothing when the request failed, was not OK, or the
      status was "fail". */
  function IpInfoOf(lookup: Option<IpApiResponse>): Option<IpInfo> {
    if lookup.Some? && lookup.value.success then Some(lookup.value.info) else None
  }

  /** The incoming request: the body (`None` when it is not JSON), the
      headers, and the request URL. */
  datatype Request = Request(body: Option<Json>, headers: Headers, url: string)

  /** Why a request is turned away. */
  datatype Rejection =
    | InvalidJson | ProjectIdRequired | TimestampNotNumber | InvalidPayload
    | IpRequired | ProjectMissing | NoHostname | HostnameNotAllowed

  function Status(r: Rejection): int {
    match r
    case ProjectMissing => 404
    case HostnameNotAllowed => 403
    case _ => 400
  }

  function Message(r: Rejection): string {
    match r
    case InvalidJson => "Invalid JSON payload"
    case ProjectIdRequired => "projectId is required"
    case TimestampNotNumber => "timestamp must be a number"
    case InvalidPayload => "Invalid payload"
    case IpRequired => "IP address required"
    case ProjectMissing => "Project not found"
    case NoHostname => "Unable to determine request hostname"
    case HostnameNotAllowed => "Hostname not allowed for project"
  }

  /** The verdict on a request: turned away, or admitted with the accepted
      project id, timestamp and address. */
  datatype Verdict = Reject(reason: Rejection) | Admit(projectId: string, timestamp: real, ipAddress: string)

  /** The answer to a payload the schema refused: an issue about
      `projectId` wins over one about `timestamp`. */
  function Classify(issues: seq<Issue>): (r: Rejection)
    ensures r == ProjectIdRequired <==> HasIssueAt(issues, "projectId")
    ensures r == TimestampNotNumber <==> !HasIssueAt(issues, "projectId") && HasIssueAt(issues, "timestamp")
    ensures r == InvalidPayload <==> !HasIssueAt(issues, "projectId") && !HasIssueAt(issues, "timestamp")
  {
    if HasIssueAt(issues, "projectId") then ProjectIdRequired
    else if HasIssueAt(issues, "timestamp") then TimestampNotNumber
    else InvalidPayload
  }

  /** The allow-list rows of one project, in table order. */
  function RulesOf(ds: seq<ProjectDomain>, projectId: string): (r: seq<DomainRule>)
    ensures |r| <= |ds|
    ensures forall rule :: rule in r <==>
              exists i :: 0 <= i < |ds| && ds[i].projectId == projectId && rule == DomainRule(ds[i].hostname, ds[i].wildcard)
  {
    if ds == [] then []
    else
      var last := ds[|ds| - 1];
      var init := ds[..|ds| - 1];
      var r := RulesOf(init, projectId) + (if last.projectId == projectId then [DomainRule(last.hostname, last.wildcard)] else []);
      assert forall i :: 0 <= i < |init| ==> init[i] == ds[i];
      r
  }

  /** The checks that follow a valid payload, in the handler's order. */
  function Admission(s: Store, request: EventRequest, headers: Headers, url: string, parseHost: HostParser): Verdict {
    match GetClientIp(headers)
    case None => Reject(IpRequired)
    case Some(ip) =>
      if !HasProject(s, request.projectId) then Reject(ProjectMissing)
      else
        var host := GetRequestHostname(headers, url, parseHost);
        if host.None? || host.value == [] then Reject(NoHostname)
        else if !AnyRuleAdmits(host.value, RulesOf(s.domains, request.projectId)) then Reject(HostnameNotAllowed)
        else Admit(request.projectId, request.timestamp, ip)
  }

  /** Every check of the handler, in its order. */
  function Decide(s: Store, req: Request, toNumber: ToNumber, parseHost: HostParser): Verdict {
    if req.body.None? then Reject(InvalidJson)
    else
      match ParseEventRequest(req.body.value, toNumber)
      case Err(issues) => Reject(Classify(issues))
      case Ok(request) => Admission(s, request, req.headers, req.url, parseHost)
  }

  /** An admitted request passed every check: its payload was valid, its
      address is a valid literal found in the headers, its project exists,
      and the page's host name is admitted by one of that project's own
      allow-list rows. */
  lemma AdmittedMeansAllowed(s: Store, req: Request, toNumber: ToNumber, parseHost: HostParser)
    requires Decide(s, req, toNumber, parseHost).Admit?
    ensures var v := Decide(s, req, toNumber, parseHost);
            && req.body.Some?
            && ParseEventRequest(req.body.value, toNumber) == Ok(EventRequest(v.projectId, v.timestamp))
            && GetClientIp(req.headers) == Some(v.ipAddress)
            && IpAddress.IsValidIp(v.ipAddress)
            && HasProject(s, v.projectId)
            && var host := GetRequestHostname(req.headers, req.url, parseHost);
               && host.Some? && host.value != []
               && AnyRuleAdmits(host.value, RulesOf(s.domains, v.projectId))
  {
    var parsed := ParseEventRequest(req.body.value, toNumber);
    assert Decide(s, req, toNumber, parseHost) == Admission(s, parsed.value, req.headers, req.url, parseHost);
  }

  /** The handler fails closed, one check after another: no JSON body, then
      a refused payload, then no address, then an unknown project, then no
      host name, then a host name no rule admits; a request that passes
      every check is admitted with its project, timestamp and address. */
  lemma DecideOrder(s: Store, req: Request, toNumber: ToNumber, parseHost: HostParser)
    ensures req.body.None? ==> Decide(s, req, toNumber, parseHost) == Reject(InvalidJson)
    ensures req.body.Some? && ParseEventRequest(req.body.value, toNumber).Err? ==>
              Decide(s, req, toNumber, parseHost) == Reject(Classify(ParseEventRequest(req.body.value, toNumber).error))
    ensures req.body.Some? && ParseEventRequest(req.body.value, toNumber).Ok? ==>
              var q := ParseEventRequest(req.body.value, toNumber).value;
              var ip := GetClientIp(req.headers);
              var host := GetRequestHostname(req.headers, req.url, parseHost);
              var d := Decide(s, req, toNumber, parseHost);
              && (ip.None? ==> d == Reject(IpRequired))
              && (ip.Some? && !HasProject(s, q.projectId) ==> d == Reject(ProjectMissing))
              && (ip.Some? && HasProject(s, q.projectId) && (host.None? || host.value == []) ==> d == Reject(NoHostname))
              && (ip.Some? && HasProject(s, q.projectId) && host.Some? && host.value != [] ==>
                    if AnyRuleAdmits(host.value, RulesOf(s.domains, q.projectId))
                    then d == Admit(q.projectId, q.timestamp, ip.value)
                    else d == Reject(HostnameNotAllowed))
  {
    if req.body.Some? && ParseEventRequest(req.body.value, toNumber).Ok? {
      var q := ParseEventRequest(req.body.value, toNumber).value;
      assert Decide(s, req, toNumber, parseHost) == Admission(s, q, req.headers, req.url, parseHost);
    }
  }

  /** A project with no allow-list rows has no rules. */
  lemma {:induction false} NoRowsNoRules(ds: seq<ProjectDomain>, projectId: string)
    requires forall d :: d in ds ==> d.projectId != projectId
    ensures RulesOf(ds, projectId) == []
  {
    if ds != [] {
      var init := ds[..|ds| - 1];
      assert forall d :: d in init ==> d in ds;
      assert ds[|ds| - 1] in ds;
      NoRowsNoRules(init, projectId);
    }
  }

  /** A project with no allow-list rows receives no events: an empty
      allow-list admits nothing. */
  lemma EmptyAllowListRejects(s: Store, req: Request, toNumber: ToNumber, parseHost: HostParser)
    requires req.body.Some? && ParseEventRequest(req.body.value, toNumber).Ok?
    requires forall d :: d in s.domains ==> d.projectId != ParseEventRequest(req.body.value, toNumber).value.projectId
    ensures !Decide(s, req, toNumber, parseHost).Admit?
  {
    var request := ParseEventRequest(req.body.value, toNumber).value;
    NoRowsNoRules(s.domains, request.projectId);
    assert Decide(s, req, toNumber, parseHost) == Admission(s, request, req.headers, req.url, parseHost);
  }

  /** A refused payload is answered from its issues alone: any issue about
      `projectId` gives "projectId is required", even when the timestamp is
      bad too. */
  lemma RefusedPayload(s: Store, req: Request, toNumber: ToNumber, parseHost: HostParser)
    requires req.body.Some? && ParseEventRequest(req.body.value, toNumber).Err?
    ensures var issues := ParseEventRequest(req.body.value, toNumber).error;
            && Decide(s, req, toNumber, parseHost) == Reject(Classify(issues))
            && (HasIssueAt(issues, "projectId") ==> Decide(s, req, toNumber, parseHost) == Reject(ProjectIdRequired))
  {
    var parsed := ParseEventRequest(req.body.value, toNumber);
    assert Decide(s, req, toNumber, parseHost) == Reject(Classify(parsed.error));
  }

  /** The allow-list only widens: adding domain rows never turns an
      admitted request away, and adding rows for other projects never
      changes the verdict at all. */
  lemma MoreDomainsAdmitMore(s: Store, more: seq<ProjectDomain>, req: Request, toNumber: ToNumber, parseHost: HostParser)
    ensures var t := s.(domains := s.domains + more);
            Decide(s, req, toNumber, parseHost).Admit? ==> Decide(t, req, toNumber, parseHost) == Decide(s, req, toNumber, parseHost)
  {
    var t := s.(domains := s.domains + more);
    if Decide(s, req, toNumber, parseHost).Admit? {
      AdmittedMeansAllowed(s, req, toNumber, parseHost);
      var v := Decide(s, req, toNumber, parseHost);
      var host := GetRequestHostname(req.headers, req.url, parseHost).value;
      var rules := RulesOf(s.domains, v.projectId);
      var rules' := RulesOf(t.domains, v.projectId);
      forall rule | rule in rules ensures rule in rules' {
        var i :| 0 <= i < |s.domains| && s.domains[i].projectId == v.projectId
                 && rule == DomainRule(s.domains[i].hostname, s.domains[i].wildcard);
        assert t.domains[i] == s.domains[i];
      }
      AllowListMonotone(host, rules, rules');
      var parsed := ParseEventRequest(req.body.value, toNumber);
      assert Decide(t, req, toNumber, parseHost) == Admission(t, parsed.value, req.headers, req.url, parseHost);
    }
  }

  /** Rows that belong to other projects play no part in the verdict. */
  lemma OtherProjectsIrrelevant(s: Store, other: ProjectDomain, req: Request, toNumber: ToNumber, parseHost: HostParser)
    requires req.body.Some? && ParseEventRequest(req.body.value, toNumber).Ok?
    requires other.projectId != ParseEventRequest(req.body.value, toNumber).value.projectId
    ensures Decide(s.(domains := s.domains + [other]), req, toNumber, parseHost) == Decide(s, req, toNumber, parseHost)
  {
    var t := s.(domains := s.domains + [other]);
    var request := ParseEventRequest(req.body.value, toNumber).value;
    assert t.domains[..|t.domains| - 1] == s.domains;
    assert RulesOf(t.domains, request.projectId) == RulesOf(s.domains, request.projectId);
    assert Decide(t, req, toNumber, parseHost) == Admission(t, request, req.headers, req.url, parseHost);
    assert Decide(s, req, toNumber, parseHost) == Admission(s, request, req.headers, req.url, parseHost);
  }

  /** The largest time, in milliseconds either side of the epoch, that a
      JavaScript `Date` can hold. */
  const MaxTime: real := 8640000000000000.0

  /** `new Date(t).getTime()` for a finite number `t` (ECMAScript's
      TimeClip): `t` truncated toward zero, or no time at all (an invalid
      `Date`) when it lies more than `MaxTime` from the epoch. */
  function TimeClip(t: real): (r: Option<int>)
    ensures r.Some? <==> -MaxTime <= t <= MaxTime
    ensures r.Some? && t >= 0.0 ==> 0 <= r.value && r.value as real <= t < r.value as real + 1.0
    ensures r.Some? && t < 0.0 ==> r.value <= 0 && r.value as real - 1.0 < t <= r.value as real
  {
    if t < -MaxTime || t > MaxTime then None
    else if t >= 0.0 then Some(t.Floor)
    else Some(-((-t).Floor))
  }

  /** Fractions are dropped toward zero on both sides of the epoch, and a
      time beyond the `Date` range is invalid. */
  lemma TimeClipExamples()
    ensures TimeClip(1.5) == Some(1)
    ensures TimeClip(-1.5) == Some(-1)
    ensures TimeClip(1700000000000.0) == Some(1700000000000)
    ensures TimeClip(10000000000000000.0) == None
  {
  }

  /** The stored row: the accepted project and address, the time in whole
      milliseconds, the lookup's fields where there was an answer, and
      `hosting` with no location when there was none. */
  function EventRecord(id: string, v: Verdict, ms: int, info: Option<IpInfo>): Event
    requires v.Admit?
  {
    Event(id, v.projectId, ms, v.ipAddress,
          if info.Some? then GetEventType(info.value) else Hosting,
          if info.Some? then info.value.country else None,
          if info.Some? then info.value.regionName else None,
          if info.Some? then info.value.city else None,
          if info.Some? then info.value.zip else None,
          if info.Some? then info.value.isp else None,
          if info.Some? then info.value.asName else None)
  }

  /** `{ error }`, `{ id }`, or the plain text of the framework's default
      error handler. */
  datatype ResponseBody = ErrorBody(error: string) | IdBody(id: string) | TextBody(text: string)

  /** What the framework answers, with status 500, when a handler throws. */
  const InternalError: string := "Internal Server Error"

  datatype Response = Response(status: int, body: ResponseBody)

  /** The answer and the tables after the handler ran. */
  datatype Outcome = Outcome(response: Response, store: Store)

  /** The handler. `toNumber` and `parseHost` stand for JavaScript's
      `Number(...)` and `new URL(...)`, `lookup` for the ip-api.com call
      (`None` when it threw or was not OK), and `eventId` for the fresh
      UUID. An admitted timestamp that no `Date` can hold leaves the
      NOT NULL `timestamp_ms` column without a value: the insert throws,
      nothing is stored, and the answer is the framework's 500. */
  function PostEventsOutcome(s: Store, req: Request, toNumber: ToNumber, parseHost: HostParser,
                             lookup: Option<IpApiResponse>, eventId: string): Outcome
  {
    match Decide(s, req, toNumber, parseHost)
    case Reject(r) => Outcome(Response(Status(r), ErrorBody(Message(r))), s)
    case Admit(_, _, _) =>
      var v := Decide(s, req, toNumber, parseHost);
      match TimeClip(v.timestamp)
      case None => Outcome(Response(500, TextBody(InternalError)), s)
      case Some(ms) => Outcome(Response(201, IdBody(eventId)), InsertEvent(s, EventRecord(eventId, v, ms, IpInfoOf(lookup))))
  }

  /** Exactly one event is stored when the answer is 201, and none
      otherwise; the stored time is the payload's, truncated to whole
      milliseconds; the tables stay consistent; refusals are 400, 403 or
      404 with their message, and a time out of the `Date` range is 500. */
  lemma PostEventsFacts(s: Store, req: Request, toNumber: ToNumber, parseHost: HostParser,
                        lookup: Option<IpApiResponse>, eventId: string)
    requires Valid(s) && !UsedEventId(s, eventId)
    ensures var o := PostEventsOutcome(s, req, toNumber, parseHost, lookup, eventId);
            var v := Decide(s, req, toNumber, parseHost);
            && Valid(o.store)
            && o.store.projects == s.projects && o.store.domains == s.domains
            && (o.response.status == 201 <==> v.Admit? && TimeClip(v.timestamp).Some?)
            && (v.Admit? && TimeClip(v.timestamp).Some? ==>
                  && o.response.body == IdBody(eventId)
                  && o.store.events == s.events + [EventRecord(eventId, v, TimeClip(v.timestamp).value, IpInfoOf(lookup))])
            && (v.Admit? && TimeClip(v.timestamp).None? ==>
                  o.store == s && o.response == Response(500, TextBody(InternalError)))
            && (v.Reject? ==> o.store == s
                              && o.response == Response(Status(v.reason), ErrorBody(Message(v.reason)))
                              && o.response.status in {400, 403, 404})
  {
    var v := Decide(s, req, toNumber, parseHost);
    if v.Admit? {
      if TimeClip(v.timestamp).Some? {
        AdmittedMeansAllowed(s, req, toNumber, parseHost);
        var e := EventRecord(eventId, v, TimeClip(v.timestamp).value, IpInfoOf(lookup));
        assert PostEventsOutcome(s, req, toNumber, parseHost, lookup, eventId) == Outcome(Response(201, IdBody(eventId)), InsertEvent(s, e));
        InsertEventValid(s, e);
      } else {
        assert PostEventsOutcome(s, req, toNumber, parseHost, lookup, eventId) == Outcome(Response(500, TextBody(InternalError)), s);
      }
    } else {
      assert PostEventsOutcome(s, req, toNumber, parseHost, lookup, eventId) == Outcome(Response(Status(v.reason), ErrorBody(Message(v.reason))), s);
    }
  }

  /** Without a usable lookup answer the event is stored as hosting, with
      no location. */
  lemma NoLookupMeansHosting(id: string, v: Verdict, ms: int, lookup: Option<IpApiResponse>)
    requires v.Admit? && (lookup.None? || !lookup.value.success)
    ensures var e := EventRecord(id, v, ms, IpInfoOf(lookup));
            && e.eventType == Hosting
            && e.country.None? && e.region.None? && e.city.None? && e.zip.None? && e.isp.None? && e.asName.None?
            && e.ipAddress == v.ipAddress && e.projectId == v.projectId && e.timestamp == ms
  {
  }

  /** The example the collector exists for: a well-formed payload for a
      page at `https://a.example.com` of a project whose allow-list holds
      the wildcard row `example.com`, sent from 1.2.3.4, is admitted. */
  lemma AdmittedExample(s: Store, req: Request, toNumber: ToNumber, parseHost: HostParser,
                        projectId: string, t: real, ip: string, host: string, domain: string)
    requires projectId == "p1" && domain == "example.com" && host == "a.example.com" && ip == "1.2.3.4"
    requires req.body == Some(JObj(map["projectId" := JStr(projectId), "timestamp" := JNum(Finite(t))]))
    requires HasProject(s, projectId)
    requires ProjectDomain("d1", projectId, domain, true) in s.domains
    requires req.headers.cfConnectingIpv4 == Some(ip)
    requires GetRequestHostname(req.headers, req.url, parseHost) == Some(host)
    ensures Decide(s, req, toNumber, parseHost) == Admit(projectId, t, ip)
  {
    var payload := req.body.value;
    assert PickProjectId(payload) == projectId;
    assert Trimmed(projectId);
    TrimOfTrimmed(projectId);
    WellFormedPayloadAccepted(payload, toNumber, t);
    var request := ParseEventRequest(payload, toNumber).value;
    IpAddress.DottedQuadIsIpv4(1, 2, 3, 4);
    assert IpAddress.DottedQuad(1, 2, 3, 4) == ip;
    Ipv4HeaderWins(req.headers, ip);
    DotBoundaryExample(host, "notexample.com", domain);
    var i :| 0 <= i < |s.domains| && s.domains[i] == ProjectDomain("d1", projectId, domain, true);
    var rules := RulesOf(s.domains, projectId);
    assert DomainRule(domain, true) in rules;
    var j :| 0 <= j < |rules| && rules[j] == DomainRule(domain, true);
    assert AnyRuleAdmits(host, rules);
    assert Decide(s, req, toNumber, parseHost) == Admission(s, request, req.headers, req.url, parseHost);
  }

  // ------------------------------------------------------------ the handler as a method

  /** `select ... from projects where id = projectId`: the collector looks
      a project up by id alone, whoever owns it. */
  method FindProject(db: Database, projectId: string) returns (found: bool)
    ensures found <==> HasProject(db.State(), projectId)
  {
    var i := 0;
    while i < |db.projects|
      invariant 0 <= i <= |db.projects|
      invariant forall j :: 0 <= j < i ==> db.projects[j].id != projectId
    {
      if db.projects[i].id == projectId {
        return true;
      }
      i := i + 1;
    }
    return false;
  }

  /** `select hostname, wildcard from project_domains where projectId = ...` */
  method SelectRules(ds: seq<ProjectDomain>, projectId: string) returns (rules: seq<DomainRule>)
    ensures rules == RulesOf(ds, projectId)
  {
    rules := [];
    var i := 0;
    while i < |ds|
      invariant 0 <= i <= |ds|
      invariant rules == RulesOf(ds[..i], projectId)
    {
      assert ds[..i + 1][..i] == ds[..i];
      if ds[i].projectId == projectId {
        rules := rules + [DomainRule(ds[i].hostname, ds[i].wildcard)];
      }
      i := i + 1;
    }
    assert ds[..i] == ds;
  }

  /** `domains.some((domain) => matchesDomain(requestHostname, ...))` */
  method SomeRuleAdmits(hostname: string, rules: seq<DomainRule>) returns (allowed: bool)
    ensures allowed <==> AnyRuleAdmits(hostname, rules)
  {
    var i := 0;
    while i < |rules|
      invariant 0 <= i <= |rules|
      invariant !AnyRuleAdmits(hostname, rules[..i])
    {
      assert rules[..i + 1] == rules[..i] + [rules[i]];
      if MatchesDomain(hostname, rules[i].hostname, rules[i].wildcard) {
        return true;
      }
      i := i + 1;
    }
    assert rules[..i] == rules;
    return false;
  }

  /** The checks after a valid payload, in the handler's order, against
      the tables as they are. */
  method CheckAdmission(db: Database, request: EventRequest, headers: Headers, url: string,
                        parseHost: HostParser) returns (v: Verdict)
    ensures v == Admission(db.State(), request, headers, url, parseHost)
  {
    var ipAddress := GetClientIp(headers);
    if ipAddress.None? {
      return Reject(IpRequired);
    }
    var project := FindProject(db, request.projectId);
    if !project {
      return Reject(ProjectMissing);
    }
    var requestHostname := GetRequestHostname(headers, url, parseHost);
    if requestHostname.None? || requestHostname.value == [] {
      return Reject(NoHostname);
    }
    var domains := SelectRules(db.domains, request.projectId);
    var isAllowedDomain := SomeRuleAdmits(requestHostname.value, domains);
    if !isAllowedDomain {
      return Reject(HostnameNotAllowed);
    }
    return Admit(request.projectId, request.timestamp, ipAddress.value);
  }

  /** `POST /events`: answers the request and stores the event when every
      check passes. */
  method PostEvents(db: Database, req: Request, toNumber: ToNumber, parseHost: HostParser,
                    lookup: Option<IpApiResponse>, eventId: string) returns (response: Response)
    modifies db
    ensures Outcome(response, db.State()) == PostEventsOutcome(old(db.State()), req, toNumber, parseHost, lookup, eventId)
  {
    if req.body.None? {
      return Response(400, ErrorBody(Message(InvalidJson)));
    }
    var parsedPayload := ParseEventRequest(req.body.value, toNumber);
    if parsedPayload.Err? {
      var reason := Classify(parsedPayload.error);
      return Response(400, ErrorBody(Message(reason)));
    }
    var verdict := CheckAdmission(db, parsedPayload.value, req.headers, req.url, parseHost);
    assert Decide(db.State(), req, toNumber, parseHost) == verdict;
    if verdict.Reject? {
      return Response(Status(verdict.reason), ErrorBody(Message(verdict.reason)));
    }
    var timestamp := TimeClip(verdict.timestamp);
    if timestamp.None? {
      return Response(500, TextBody(InternalError));
    }
    var eventRecord := EventRecord(eventId, verdict, timestamp.value, IpInfoOf(lookup));
    db.events := db.events + [eventRecord];
    return Response(201, IdBody(eventId));
  }
}
