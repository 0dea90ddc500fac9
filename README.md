# iptrack core, modelled in Dafny

iptrack records visits to web pages. A small script on a tracked page posts
`{ projectId, timestamp }` to the collector's `POST /events` endpoint. The
collector takes the visitor's address from the Cloudflare and proxy headers
and checks that the project exists. It then checks that the page's host name
is on the project's allow-list, looks the address up at ip-api.com, and stores
one event. The web application lets an owner do three things:

- create, rename and delete projects;
- keep each project's allow-list of domains;
- page through its events.

The dashboard shows the owner's projects with a search box and three sort
orders.

This project models that core and proves properties of it:

| file | module | what it models |
|---|---|---|
| `wrappers.dfy` | `Wrappers` | `Option` and `Result` |
| `text.dfy` | `Text` | the JavaScript string operations the core uses: `trim`, ASCII `toLowerCase`, `split`, `includes`, code-point order |
| `js_values.dfy` | `JsValues` | decoded JSON values, numbers, and validation issues with their paths |
| `requests.dfy` | `Requests` | the request headers the collector reads |
| `ip_address.dfy` | `IpAddress` | `IPV4_REGEX`, `IPV6_REGEX`, `isValidIpAddress` |
| `client_ip.dfy` | `ClientIp` | `getClientIp` |
| `request_host.dfy` | `RequestHost` | `getRequestHostname` |
| `domain_match.dfy` | `DomainMatch` | `matchesDomain` and the allow-list test |
| `collector_schema.dfy` | `CollectorSchema` | `CollectorEventRequestSchema` |
| `collector.dfy` | `Collector` | `getEventType` and the `/events` handler, as a verdict function and as a method over the tables |
| `project_schemas.dfy` | `ProjectSchemas` | the zod schemas of `packages/data-ops/src/zod-schema/projects.ts` |
| `domain_values.dfy` | `DomainValues` | `DomainValueSchema` and the stored/displayed form of an allow-list entry |
| `tables.dfy` | `Tables` | the `projects`, `project_domains` and `events` tables, as rows with referential integrity |
| `projects_api.dfy` | `ProjectsApi` | the project server functions |
| `dashboard.dfy` | `Dashboard` | the dashboard's filter and sort, and its state cells |

Every handler that changes the tables has three parts:

- an outcome function: the reply plus the tables afterwards, as values;
- a `...Facts` lemma: what that outcome means;
- a method over a `Database` object, which is proved to produce exactly that outcome.

Things outside the core enter as parameters:

- `Number(...)` (`CollectorSchema.ToNumber`);
- `new URL(...).hostname` (`RequestHost.HostParser`);
- the ip-api.com answer (`lookup`);
- fresh UUIDs;
- the clock;
- the signed-in user's id.

## Model

| member | source | states |
|---|---|---|
| IpAddress.IsIPv4 | apps/collector/src/hono/app.ts:72-73 | `IPV4_REGEX` as a predicate; its meaning is stated by `Ipv4Groups` and, conversely, `DottedQuadIsIpv4` |
| IpAddress.IsIPv6 | apps/collector/src/hono/app.ts:74-75 | `IPV6_REGEX` as a predicate, alternative by alternative; its meaning is stated by `Ipv6Shape` |
| IpAddress.IsValidIp | apps/collector/src/hono/app.ts:77-79 | `isValidIpAddress`: either pattern; stated by `ValidIpShape` and `Ipv4IsNotIpv6` |
| IpAddress.OctetInRange | apps/collector/src/hono/app.ts:72-73 | every group the IPv4 pattern admits is 1 to 3 decimal digits worth at most 255 |
| IpAddress.OctetOfNumber | apps/collector/src/hono/app.ts:72-73 | conversely, every number 0..255 in its usual decimal spelling is an admitted group denoting that number |
| IpAddress.Ipv4Groups | apps/collector/src/hono/app.ts:72-73 | a valid IPv4 literal splits on `.` into exactly four groups, each a decimal number of at most 255 |
| IpAddress.DottedQuadIsIpv4 | apps/collector/src/hono/app.ts:72-73 | any four numbers 0..255 written as a dotted quad are a valid IPv4 literal |
| IpAddress.Ipv4Alphabet | apps/collector/src/hono/app.ts:72-73 | an IPv4 literal holds only digits and dots and is at least 7 characters long |
| IpAddress.Ipv6Shape | apps/collector/src/hono/app.ts:74-75 | every literal the IPv6 pattern admits is hex digits and colons, has no group longer than 4 digits, at most one `::`, and at most 8 groups |
| IpAddress.Ipv4IsNotIpv6 | apps/collector/src/hono/app.ts:72-75 | no string matches both patterns |
| IpAddress.ValidIpShape | apps/collector/src/hono/app.ts:77-79 | an address `isValidIpAddress` accepts is non-empty, has no whitespace and no comma |
| IpAddress.Ipv4Accepts | apps/collector/src/hono/app.ts:72-73 | `192.168.1.1` is accepted |
| IpAddress.Ipv4RejectsLargeGroup | apps/collector/src/hono/app.ts:72-73 | `256.1.1.1` is rejected |
| IpAddress.Ipv4RejectsThreeGroups | apps/collector/src/hono/app.ts:72-73 | `1.2.3` is rejected |
| IpAddress.Ipv6AcceptsLoopback | apps/collector/src/hono/app.ts:74-75 | `::1` is accepted |
| IpAddress.Ipv6AcceptsCompressed | apps/collector/src/hono/app.ts:74-75 | `2001:db8::1` is accepted |
| IpAddress.Ipv6AcceptsTrailingCompression | apps/collector/src/hono/app.ts:74-75 | `fe80::` is accepted |
| IpAddress.Ipv6RejectsTwoCompressions | apps/collector/src/hono/app.ts:74-75 | `1::2::3` is rejected |
| IpAddress.Ipv6RejectsLongGroup | apps/collector/src/hono/app.ts:74-75 | `12345::1` is rejected |
| IpAddress.Ipv6RejectsMapped | apps/collector/src/hono/app.ts:74-75 | the IPv4-mapped spelling `::ffff:192.0.2.1` is not an IPv6 literal for the pattern |
| ClientIp.GenericHeader | apps/collector/src/hono/app.ts:91-97 | `CF-Connecting-IP ?? X-Forwarded-For`: an absent `CF-Connecting-IP` gives way, an empty one does not; stated by `ConnectingIpShadowsForwardedFor` |
| ClientIp.FirstEntry | apps/collector/src/hono/app.ts:99 | the first comma-separated entry, trimmed, has no comma, no whitespace at its ends, and occurs in the header |
| ClientIp.FromEntry | apps/collector/src/hono/app.ts:100-107 | an entry `::ffff:` followed by a valid IPv4 literal gives that literal; any other entry gives itself exactly when it is a valid address, and nothing otherwise |
| ClientIp.GetClientIp | apps/collector/src/hono/app.ts:81-108 | any address returned is a valid IPv4 or IPv6 literal |
| ClientIp.AddressFromHeaders | apps/collector/src/hono/app.ts:81-108 | a returned address appears verbatim in one of the four headers |
| ClientIp.Ipv4HeaderWins | apps/collector/src/hono/app.ts:82-85 | a valid `CF-Connecting-IPV4` is returned whatever the other headers hold |
| ClientIp.Ipv6HeaderWins | apps/collector/src/hono/app.ts:86-89 | without a valid `CF-Connecting-IPV4`, a valid `CF-Connecting-IPV6` is returned whatever the generic headers hold |
| ClientIp.InvalidDedicatedSkipped | apps/collector/src/hono/app.ts:82-90 | a dedicated header without a valid address is ignored, as if absent |
| ClientIp.ConnectingIpShadowsForwardedFor | apps/collector/src/hono/app.ts:91-97 | when `CF-Connecting-IP` is present, `X-Forwarded-For` is never read, even if `CF-Connecting-IP` is empty |
| ClientIp.OnlyFirstEntryCounts | apps/collector/src/hono/app.ts:99 | what follows the first comma plays no part |
| ClientIp.GenericEntryDecides | apps/collector/src/hono/app.ts:91-107 | without dedicated headers, the first entry of the generic header decides |
| ClientIp.MappedExample | apps/collector/src/hono/app.ts:99-104 | `::ffff:192.0.2.1, 10.0.0.1` gives `192.0.2.1` |
| ClientIp.PriorityExample | apps/collector/src/hono/app.ts:82-85 | `CF-Connecting-IPV4` beats `CF-Connecting-IP` |
| ClientIp.MalformedExample | apps/collector/src/hono/app.ts:107 | `not-an-ip` gives no address |
| RequestHost.Source | apps/collector/src/hono/app.ts:111-130 | the text parsed is a non-empty `Origin`, else a non-empty `Referer`, else the request URL |
| RequestHost.GetRequestHostname | apps/collector/src/hono/app.ts:110-134 | the host name is the parse of that one source, and a parse failure is final |
| RequestHost.OriginDecides | apps/collector/src/hono/app.ts:111-118 | with an `Origin`, neither `Referer` nor the URL matters, and an unparsable `Origin` gives no host name |
| RequestHost.RefererDecides | apps/collector/src/hono/app.ts:120-127 | `Referer` is read only without an `Origin`, and then decides alone |
| RequestHost.UrlAsLastResort | apps/collector/src/hono/app.ts:129-133 | the URL is read only when both headers are missing or empty |
| RequestHost.HostFromSources | apps/collector/src/hono/app.ts:110-134 | any host name is the parse of `Origin`, `Referer` or the URL |
| RequestHost.RefererExample | apps/collector/src/hono/app.ts:120-124 | without `Origin`, a parsable `Referer` gives its host |
| DomainMatch.NormalHost | apps/collector/src/hono/app.ts:137 | `hostname.trim().toLowerCase()`; stated by `NormalHostIdempotent` and `MatchIgnoresHostSpelling` |
| DomainMatch.NormalDomain | apps/collector/src/hono/app.ts:138 | the domain trimmed, lower-cased and without a leading `*.`; used in `WildcardMeaning` and `ExactMeaning` |
| DomainMatch.MatchesDomain | apps/collector/src/hono/app.ts:136-152 | `matchesDomain`; its meaning is stated by `WildcardMeaning`, `ExactMeaning` and `ExactImpliesWildcard` |
| DomainMatch.WildcardMeaning | apps/collector/src/hono/app.ts:136-148 | a wildcard rule admits the domain itself and exactly the names ending in a dot plus the domain |
| DomainMatch.ExactMeaning | apps/collector/src/hono/app.ts:136-151 | an exact rule admits exactly the name equal to the non-empty normalised domain |
| DomainMatch.ExactImpliesWildcard | apps/collector/src/hono/app.ts:144-151 | what an exact rule admits, the wildcard rule for the same domain admits |
| DomainMatch.NormalHostIdempotent | apps/collector/src/hono/app.ts:137 | normalising a host name twice is normalising it once |
| DomainMatch.MatchIgnoresHostSpelling | apps/collector/src/hono/app.ts:137-151 | matching ignores surrounding whitespace and ASCII case in the host name |
| DomainMatch.CleanMatch | apps/collector/src/hono/app.ts:136-151 | for names already trimmed and lower-case, rules compare them directly |
| DomainMatch.DotBoundaryExample | apps/collector/src/hono/app.ts:144-148 | `*.example.com` admits `a.example.com` but not `notexample.com` |
| DomainMatch.ExactIgnoresCaseExample | apps/collector/src/hono/app.ts:137-151 | an exact `example.com` rule admits ` Example.COM ` |
| DomainMatch.ExactSubdomainExample | apps/collector/src/hono/app.ts:151 | an exact rule does not admit `sub.example.com` |
| DomainMatch.AnyRuleAdmits | apps/collector/src/hono/app.ts:223-225 | `domains.some(...)` over the rules; stated by `AllowListMonotone` |
| DomainMatch.AllowListMonotone | apps/collector/src/hono/app.ts:223-225 | an empty allow-list admits nothing, and adding rules never takes an admitted name away |
| CollectorSchema.PickProjectId | packages/data-ops/src/zod-schema/collector.ts:10-15 | the string `projectId`, else the string `project_id`, else the empty string; stated by `ProjectIdWins` and `ProjectIdFallback` |
| CollectorSchema.PickTimestamp | packages/data-ops/src/zod-schema/collector.ts:16-19 | `Number(timestamp)` of the object; stated by `PreprocessedFields` and `BadTimestampRefused` |
| CollectorSchema.Preprocess | packages/data-ops/src/zod-schema/collector.ts:3-22 | a non-object passes through unchanged; an object (arrays included) becomes exactly `{ projectId: string, timestamp: number }` |
| CollectorSchema.ParseProjectId | packages/data-ops/src/zod-schema/collector.ts:24 | accepted exactly when a string whose trim is non-empty; the result is the trimmed string |
| CollectorSchema.ParseTimestamp | packages/data-ops/src/zod-schema/collector.ts:25 | accepted exactly when a finite number; the result is that number |
| CollectorSchema.ValidateObject | packages/data-ops/src/zod-schema/collector.ts:23-26 | a non-object gets one issue at the root; an object is accepted exactly when both fields are, the request then holding their values, and a refusal carries an issue at each refused field and only there |
| CollectorSchema.ParseEventRequest | packages/data-ops/src/zod-schema/collector.ts:3-26 | `safeParse` of the schema; stated both ways by `AcceptedPayload` and `WellFormedPayloadAccepted` |
| CollectorSchema.AcceptedPayload | packages/data-ops/src/zod-schema/collector.ts:3-26 | an accepted payload was an object whose picked id, trimmed, is the accepted id and whose picked timestamp is finite |
| CollectorSchema.WellFormedPayloadAccepted | packages/data-ops/src/zod-schema/collector.ts:3-26 | conversely, an object whose picked id is non-blank and whose picked timestamp converts to a finite number is accepted, with the trimmed id and that number |
| CollectorSchema.FieldIssues | packages/data-ops/src/zod-schema/collector.ts:23-26 | the issues of the two fields together name a field exactly when that field was refused |
| CollectorSchema.ProjectIdWins | packages/data-ops/src/zod-schema/collector.ts:10-12 | a string `projectId` wins; `project_id` is then never read |
| CollectorSchema.ProjectIdFallback | packages/data-ops/src/zod-schema/collector.ts:10-15 | without a string `projectId`, a string `project_id` stands in for it |
| CollectorSchema.MissingProjectIdRefused | packages/data-ops/src/zod-schema/collector.ts:10-15 | no string id, or only whitespace, is refused with an issue at `projectId` |
| CollectorSchema.PreprocessedFields | packages/data-ops/src/zod-schema/collector.ts:10-21 | the preprocessed object holds the picked id and the converted timestamp |
| CollectorSchema.BadTimestampRefused | packages/data-ops/src/zod-schema/collector.ts:16-19 | a timestamp that converts to NaN or an infinity is refused with an issue at `timestamp` |
| CollectorSchema.OtherFieldsIgnored | packages/data-ops/src/zod-schema/collector.ts:3-22 | payloads that agree on `projectId`, `project_id` and `timestamp` get the same answer |
| CollectorSchema.NonObjectRefused | packages/data-ops/src/zod-schema/collector.ts:5-7 | null, strings, numbers and booleans are refused with a root issue that names neither field |
| Collector.GetEventType | apps/collector/src/hono/app.ts:154-162 | `getEventType`; stated by `EventTypeMeaning` |
| Collector.EventTypeMeaning | apps/collector/src/hono/app.ts:154-162 | proxy exactly when `proxy`; mobile exactly when not proxy and `mobile`; hosting otherwise; `hosting` itself never matters |
| Collector.Classify | apps/collector/src/hono/app.ts:172-190 | a `projectId` issue gives "projectId is required"; otherwise a `timestamp` issue gives "timestamp must be a number"; otherwise "Invalid payload" |
| Collector.RulesOf | apps/collector/src/hono/app.ts:215-221 | the rules are exactly the rows of the requested project |
| Collector.Admission | apps/collector/src/hono/app.ts:194-229 | the checks after a valid payload; stated by `DecideOrder` |
| Collector.Decide | apps/collector/src/hono/app.ts:164-229 | the handler's verdict; stated both ways by `DecideOrder` and `AdmittedMeansAllowed` |
| Collector.AdmittedMeansAllowed | apps/collector/src/hono/app.ts:164-229 | an admitted request had a valid payload, a valid header address, an existing project, a non-empty host name, and a rule of that project admitting it |
| Collector.DecideOrder | apps/collector/src/hono/app.ts:164-229 | the checks run in the handler's order and the first failure decides: no JSON body, then a refused payload, then no address, then an unknown project, then no host name, then the allow-list; a request passing all of them is admitted with its id, timestamp and address |
| Collector.EmptyAllowListRejects | apps/collector/src/hono/app.ts:215-229 | a project with no allow-list rows receives no events |
| Collector.RefusedPayload | apps/collector/src/hono/app.ts:172-190 | a refused payload is answered from its issues alone, and a `projectId` issue wins |
| Collector.MoreDomainsAdmitMore | apps/collector/src/hono/app.ts:215-229 | adding domain rows never turns an admitted request away |
| Collector.OtherProjectsIrrelevant | apps/collector/src/hono/app.ts:215-221 | rows of other projects never change the verdict |
| Collector.TimeClip | apps/collector/src/hono/app.ts:249 | a time is kept exactly when it lies within 8.64e15 ms of the epoch, and is then truncated toward zero to whole milliseconds |
| Collector.TimeClipExamples | apps/collector/src/hono/app.ts:249 | 1.5 gives 1, -1.5 gives -1, a present-day time is kept, and 1e16 gives no time |
| Collector.IpInfoOf | apps/collector/src/hono/app.ts:234-243 | the lookup's answer only when its `status` is `success`; used by `NoLookupMeansHosting` |
| Collector.EventRecord | apps/collector/src/hono/app.ts:245-260 | the stored row; stated by `NoLookupMeansHosting` |
| Collector.PostEventsOutcome | apps/collector/src/hono/app.ts:164-265 | the answer and the tables after the handler; stated by `PostEventsFacts` |
| Collector.PostEventsFacts | apps/collector/src/hono/app.ts:164-265 | 201 exactly when admitted with a time a `Date` can hold; the event is then appended with that time truncated to whole milliseconds and the other tables are untouched; an admitted time out of the `Date` range gets 500 and changes nothing; refusals are 400, 403 or 404 with their message and change nothing; the tables stay consistent |
| Collector.NoLookupMeansHosting | apps/collector/src/hono/app.ts:234-259 | without a successful lookup the event is hosting with no location, and keeps the verdict's project, address and the given time |
| Collector.AdmittedExample | apps/collector/src/hono/app.ts:164-229 | the payload `{ projectId: "p1", timestamp: t }` for a page at `a.example.com`, sent with `CF-Connecting-IPV4: 1.2.3.4` to a project with the wildcard row `example.com`, is admitted with exactly those values |
| Collector.FindProject | apps/collector/src/hono/app.ts:200-208 | true exactly when a project with this id exists, whoever owns it |
| Collector.SelectRules | apps/collector/src/hono/app.ts:215-221 | the rows of the project, in table order, as rules |
| Collector.SomeRuleAdmits | apps/collector/src/hono/app.ts:223-225 | true exactly when some rule admits the host name |
| Collector.CheckAdmission | apps/collector/src/hono/app.ts:194-229 | the checks after a valid payload give the verdict of the reference definition |
| Collector.PostEvents | apps/collector/src/hono/app.ts:164-265 | the answer and the new tables are those of the reference outcome, including the 500 for a time out of the `Date` range |
| ProjectSchemas.ParseName | packages/data-ops/src/zod-schema/projects.ts:4 | accepted exactly when the trimmed string is 1 to 120 characters; the result is the trimmed string |
| ProjectSchemas.ParseId | packages/data-ops/src/zod-schema/projects.ts:10 | accepted exactly when a non-empty string, kept as it is |
| ProjectSchemas.CreateProject | packages/data-ops/src/zod-schema/projects.ts:3-5 | an input is accepted exactly when it is an object whose `name` is a string with a trimmed length of 1 to 120; the result is the trimmed name; a refused object has its issue at `name`, a non-object at the root |
| ProjectSchemas.DeleteProject | packages/data-ops/src/zod-schema/projects.ts:9-11 | an input is accepted exactly when it is an object whose `id` is a non-empty string, which is the result; a refused object has its issue at `id`, a non-object at the root |
| ProjectSchemas.RenameProject | packages/data-ops/src/zod-schema/projects.ts:15-18 | an input is accepted exactly when it is an object with a non-empty string `id` and a `name` whose trimmed length is 1 to 120; the result is the id and the trimmed name |
| ProjectSchemas.ProjectId | packages/data-ops/src/zod-schema/projects.ts:22-24 | an input is accepted exactly when it is an object whose `projectId` is a non-empty string, which is the result; a refused object has its issue at `projectId` |
| ProjectSchemas.SortKeyNamesRoundTrip | packages/data-ops/src/zod-schema/projects.ts:28-38 | every sort key is accepted under its own name |
| ProjectSchemas.ParseSortKeyName | packages/data-ops/src/zod-schema/projects.ts:28-38 | a name is refused exactly when no sort key has it |
| ProjectSchemas.ParseBoundedInt | packages/data-ops/src/zod-schema/projects.ts:42-43 | a missing value takes the default; a present one is accepted exactly when an integer within the bounds |
| ProjectSchemas.ParseSearch | packages/data-ops/src/zod-schema/projects.ts:44 | an absent search stays absent; a present one is accepted exactly when it is a string, and is then its trimmed text |
| ProjectSchemas.ParseSortBy | packages/data-ops/src/zod-schema/projects.ts:45 | an absent sort key is `timestamp`; a present one is accepted exactly when it is the name of a sort key, and is that key |
| ProjectSchemas.ParseSortDir | packages/data-ops/src/zod-schema/projects.ts:46 | an absent direction is descending; a present one is accepted exactly when it is `"asc"` or `"desc"`, and is that direction |
| ProjectSchemas.ListProjectEvents | packages/data-ops/src/zod-schema/projects.ts:40-47 | an object is accepted exactly when each of its six fields is, and the query then holds their values: a non-empty project id, page ≥ 1, page size 1..100, a trimmed search, a sort key and a direction |
| ProjectSchemas.ListDefaults | packages/data-ops/src/zod-schema/projects.ts:42-46 | a query naming only the project gets page 1 of 25, by timestamp, descending, with no search |
| ProjectSchemas.NameRules | packages/data-ops/src/zod-schema/projects.ts:4-17 | creating and renaming accept the same names and keep the same trimmed form |
| DomainValues.ParseDomainValue | apps/web/src/core/functions/projects.ts:305-318 | accepted exactly when the trimmed value is 1 to 255 characters and, lower-cased, is `localhost`, `127.0.0.1`, a host name or a wildcard name; the result is the trimmed value |
| DomainValues.ToStored | apps/web/src/core/functions/projects.ts:373-375 | the row is a wildcard row exactly when the lower-cased value starts with `*.`, and the prefix plus the host name give the lower-cased value back |
| DomainValues.Display | apps/web/src/core/functions/projects.ts:347-350 | a row's displayed value: `*.` before the host name of a wildcard row; stated by `DisplayOfStored` and `StoredOfDisplay` |
| DomainValues.DisplayOfStored | apps/web/src/core/functions/projects.ts:373-385 | storing then displaying gives the lower-cased value |
| DomainValues.StoredOfDisplay | apps/web/src/core/functions/projects.ts:349 | displaying then storing a clean row gives the row back |
| DomainValues.WildcardFormIsPattern | apps/web/src/core/functions/projects.ts:312-317 | an accepted form starting with `*.` can only be a wildcard name |
| DomainValues.StoredHostnameIsClean | apps/web/src/core/functions/projects.ts:305-318 | the stored host name of an accepted value is non-empty, trimmed, lower-case and has no `*.` of its own |
| DomainValues.StoredRuleAdmitsItsName | apps/web/src/core/functions/projects.ts:373-383 | a stored row admits its own host name |
| DomainValues.DotlessForm | apps/web/src/core/functions/projects.ts:312-317 | a value without a dot is accepted only as `localhost` |
| Tables.InsertProject | apps/web/src/core/functions/projects.ts:50 | `insert(projects)`: the row appended; stated by `InsertProjectValid` |
| Tables.InsertProjectValid | packages/data-ops/src/drizzle/schema.ts:5-18 | inserting a project under a fresh id keeps the tables consistent and the project is its owner's |
| Tables.RenameProject | apps/web/src/core/functions/projects.ts:93-98 | `update(projects)` where id and owner match; stated by `RenameOwned` and `RenameProjectValid` |
| Tables.RenameOwned | apps/web/src/core/functions/projects.ts:93-98 | exactly the rows with this id and owner get the new name |
| Tables.RenameProjectValid | apps/web/src/core/functions/projects.ts:93-98 | renaming keeps the tables consistent and changes nothing for a non-owner |
| Tables.DeleteProjectCascade | apps/web/src/core/functions/projects.ts:76-80 | exactly the project's events, domains and the project itself are removed |
| Tables.DeleteProjectCascadeValid | packages/data-ops/src/drizzle/schema.ts:24-51 | after the cascade no row refers to the deleted project and the tables stay consistent |
| Tables.DeleteProjectCascadeIdempotent | apps/web/src/core/functions/projects.ts:76-80 | deleting twice is deleting once |
| Tables.InsertDomain | apps/web/src/core/functions/projects.ts:378-383 | `insert(projectDomains)`: the row appended; stated by `InsertDomainValid` |
| Tables.InsertDomainValid | packages/data-ops/src/drizzle/schema.ts:45-59 | inserting a domain row under a fresh id into an existing project keeps the tables consistent |
| Tables.UpdateDomain | apps/web/src/core/functions/projects.ts:413-421 | `update(projectDomains)` where id and project match; stated by `UpdateDomainRows` and `UpdateDomainValid` |
| Tables.UpdateDomainRows | apps/web/src/core/functions/projects.ts:413-421 | only rows with this id in this project are rewritten |
| Tables.UpdateDomainValid | apps/web/src/core/functions/projects.ts:413-421 | updating keeps the tables consistent |
| Tables.DeleteDomain | apps/web/src/core/functions/projects.ts:446-453 | exactly the rows with this id in this project are removed; the other tables are untouched |
| Tables.DeleteDomainValid | apps/web/src/core/functions/projects.ts:446-453 | deleting a domain row keeps the tables consistent |
| Tables.InsertEvent | apps/collector/src/hono/app.ts:262 | `insert(events)`: the row appended; stated by `InsertEventValid` |
| Tables.InsertEventValid | packages/data-ops/src/drizzle/schema.ts:20-43 | inserting an event under a fresh id into an existing project keeps the tables consistent |
| ProjectsApi.AssertProjectOwner | apps/web/src/core/functions/projects.ts:103-113 | true exactly when a project with this id belongs to this user |
| ProjectsApi.TrimName | apps/web/src/core/functions/projects.ts:46 | trimming an already trimmed name changes nothing |
| ProjectsApi.CreateProjectOutcome | apps/web/src/core/functions/projects.ts:36-52 | `createProject` on the tables as values; stated by `CreateProjectFacts` |
| ProjectsApi.CreateProjectFacts | apps/web/src/core/functions/projects.ts:36-52 | a valid name creates one project under the fresh id, owned by the caller, with the trimmed name; an invalid one changes nothing |
| ProjectsApi.CreateProjectValid | apps/web/src/core/functions/projects.ts:36-52 | creating keeps the tables consistent and the project belongs to the caller |
| ProjectsApi.CreateProject | apps/web/src/core/functions/projects.ts:36-52 | the reply and the new tables are those of the reference outcome |
| ProjectsApi.DeleteProjectOutcome | apps/web/src/core/functions/projects.ts:54-83 | `deleteProject` on the tables as values; stated by `DeleteProjectFacts` |
| ProjectsApi.DeleteProjectFacts | apps/web/src/core/functions/projects.ts:54-83 | success whether or not the caller owns the project; only the owner's call removes anything, namely the project with its domains and events |
| ProjectsApi.DeleteProjectIdempotent | apps/web/src/core/functions/projects.ts:54-83 | repeating a delete changes nothing more |
| ProjectsApi.DeleteProject | apps/web/src/core/functions/projects.ts:54-83 | the reply and the new tables are those of the reference outcome |
| ProjectsApi.RenameProjectOutcome | apps/web/src/core/functions/projects.ts:85-101 | `renameProject` on the tables as values; stated by `RenameProjectFacts` |
| ProjectsApi.RenameProjectFacts | apps/web/src/core/functions/projects.ts:85-101 | success for any valid input; only the caller's own project is renamed, to the trimmed name, and nothing else changes |
| ProjectsApi.RenameProject | apps/web/src/core/functions/projects.ts:85-101 | the reply and the new tables are those of the reference outcome |
| ProjectsApi.ParseValue | apps/web/src/core/functions/projects.ts:353-355 | accepted exactly when a string the domain value schema accepts; the result is trimmed |
| ProjectsApi.ParseAddDomain | apps/web/src/core/functions/projects.ts:353-355 | an input is accepted exactly when it is an object with a non-empty string `projectId` and a string `value` the domain value schema accepts; the result holds the id and the trimmed value |
| ProjectsApi.ParseUpdateDomain | apps/web/src/core/functions/projects.ts:388-391 | an input is accepted exactly when it is an object with non-empty string `projectId` and `id` and an accepted string `value`; the result holds them with the value trimmed |
| ProjectsApi.ParseDeleteDomain | apps/web/src/core/functions/projects.ts:426-428 | an input is accepted exactly when it is an object with non-empty string `projectId` and `id`; the result holds them |
| ProjectsApi.AddProjectDomainOutcome | apps/web/src/core/functions/projects.ts:357-386 | `addProjectDomain` on the tables as values; stated by `AddProjectDomainFacts` |
| ProjectsApi.AddProjectDomainFacts | apps/web/src/core/functions/projects.ts:357-386 | success exactly for an accepted input on one's own project, and a refused input is answered with its issues; on success the old rows are kept, exactly one row is appended under the fresh id, and that row displays as the lower-cased value, which is also the answer; a non-owner gets "Project not found" and nothing changes; the tables stay consistent |
| ProjectsApi.AddProjectDomain | apps/web/src/core/functions/projects.ts:357-386 | the reply and the new tables are those of the reference outcome, whose success and effects `AddProjectDomainFacts` states |
| ProjectsApi.UpdateProjectDomainOutcome | apps/web/src/core/functions/projects.ts:393-424 | `updateProjectDomain` on the tables as values; stated by `UpdateProjectDomainFacts` |
| ProjectsApi.UpdateProjectDomainFacts | apps/web/src/core/functions/projects.ts:393-424 | success exactly for an accepted input on one's own project, and a refused input is answered with its issues; only the row with this id in this project is rewritten, and it displays the lower-cased value; the answer is given even when no row matched |
| ProjectsApi.UpdateProjectDomain | apps/web/src/core/functions/projects.ts:393-424 | the reply and the new tables are those of the reference outcome, whose success and effects `UpdateProjectDomainFacts` states |
| ProjectsApi.DeleteProjectDomainOutcome | apps/web/src/core/functions/projects.ts:430-456 | `deleteProjectDomain` on the tables as values; stated by `DeleteProjectDomainFacts` |
| ProjectsApi.DeleteProjectDomainFacts | apps/web/src/core/functions/projects.ts:430-456 | success exactly for an accepted input on one's own project, and a refused input is answered with its issues; only the row with this id in the caller's project is removed; otherwise "Project not found" |
| ProjectsApi.DeleteProjectDomain | apps/web/src/core/functions/projects.ts:430-456 | the reply and the new tables are those of the reference outcome, whose success and effects `DeleteProjectDomainFacts` states |
| ProjectsApi.SearchTerm | apps/web/src/core/functions/projects.ts:133 | a search term, when there is one, is non-empty and has no capitals |
| ProjectsApi.Selected | apps/web/src/core/functions/projects.ts:134-137 | the `where` of the listing: the project, and the address containing the term; stated by `Matching` and `SearchIgnoresCase` |
| ProjectsApi.Matching | apps/web/src/core/functions/projects.ts:134-137 | exactly the events of the project whose address contains the term |
| ProjectsApi.Window | apps/web/src/core/functions/projects.ts:171-172 | at most `limit` rows, each the row `offset` places further on |
| ProjectsApi.OffsetSteps | apps/web/src/core/functions/projects.ts:152 | page 1 starts at 0, and each page starts `pageSize` after the previous one |
| ProjectsApi.PagesApart | apps/web/src/core/functions/projects.ts:152 | a later page starts after an earlier one ends |
| ProjectsApi.PageOfRow | apps/web/src/core/functions/projects.ts:152-172 | every row lies on exactly one page, and that page's window shows it |
| ProjectsApi.QueryOutcome | apps/web/src/core/functions/projects.ts:133-187 | the listing for an accepted query; stated by `QueryOutcomeFacts` |
| ProjectsApi.QueryOutcomeFacts | apps/web/src/core/functions/projects.ts:133-187 | for a valid query: success exactly for the owner, anyone else getting "Project not found"; the total counts the selected events and the items are the window of them at the page's offset, at most `pageSize`, all events of the project |
| ProjectsApi.Offset | apps/web/src/core/functions/projects.ts:152 | the offset of a page 1 or later is never negative |
| ProjectsApi.ListProjectEventsOutcome | apps/web/src/core/functions/projects.ts:115-188 | `listProjectEvents` as a value; stated by `ListProjectEventsFacts` |
| ProjectsApi.ListProjectEventsFacts | apps/web/src/core/functions/projects.ts:115-188 | a refused query is answered with its issues; an accepted one succeeds exactly for the owner, anyone else getting "Project not found"; a page echoes the requested page and size, its total is the number of matching events, and its items are the `pageSize` matching events starting at `(page - 1) * pageSize` |
| ProjectsApi.SearchIgnoresCase | apps/web/src/core/functions/projects.ts:133-137 | the search ignores letter case, and an empty search is no search |
| ProjectsApi.SelectEvents | apps/web/src/core/functions/projects.ts:134-137 | the events the filters select, in table order |
| ProjectsApi.ListProjectEvents | apps/web/src/core/functions/projects.ts:115-188 | the answer is that of the reference outcome, whose success and contents `ListProjectEventsFacts` states |
| Dashboard.ToTimestamp | apps/web/src/components/projects/projects-dashboard.tsx:71-76 | a missing value is 0, a `Date` its time, a number itself (0 included, although it is falsy) |
| Dashboard.SearchKey | apps/web/src/components/projects/projects-dashboard.tsx:141 | the key is as long as the trimmed term, so it is empty exactly when the term is blank |
| Dashboard.KeepMatching | apps/web/src/components/projects/projects-dashboard.tsx:142-145 | each matching project is kept as often as it was listed, and no other project is kept |
| Dashboard.FilterProjects | apps/web/src/components/projects/projects-dashboard.tsx:141-146 | the search filter; stated by `FilterProjectsMeaning` and `KeepMatching` |
| Dashboard.FilterProjectsMeaning | apps/web/src/components/projects/projects-dashboard.tsx:141-146 | a blank term keeps the list as it is; otherwise exactly the projects whose lower-cased name contains the lower-cased trimmed term are kept |
| Dashboard.InOrderTotal | apps/web/src/components/projects/projects-dashboard.tsx:148-155 | any two projects are comparable in every sort order |
| Dashboard.InOrderTransitive | apps/web/src/components/projects/projects-dashboard.tsx:148-155 | each sort order is transitive |
| Dashboard.Insert | apps/web/src/components/projects/projects-dashboard.tsx:148-155 | inserting adds exactly one element |
| Dashboard.SortProjects | apps/web/src/components/projects/projects-dashboard.tsx:148 | the sorted list is a permutation of its input |
| Dashboard.InsertSorted | apps/web/src/components/projects/projects-dashboard.tsx:148-155 | inserting into a sorted list keeps it sorted |
| Dashboard.SortSorted | apps/web/src/components/projects/projects-dashboard.tsx:148-155 | the sorted list is sorted |
| Dashboard.SortedPairs | apps/web/src/components/projects/projects-dashboard.tsx:148-155 | in a sorted list every earlier project is in order with every later one |
| Dashboard.FilteredProjects | apps/web/src/components/projects/projects-dashboard.tsx:140-156 | `filteredProjects`: filter, then sort; stated by `FilteredProjectsFacts` |
| Dashboard.FilteredProjectsFacts | apps/web/src/components/projects/projects-dashboard.tsx:140-156 | the shown list rearranges the filtered list; "oldest" shows non-decreasing times, "newest" non-increasing ones, "az" names in order |
| Dashboard.AfterCreate | apps/web/src/components/projects/projects-dashboard.tsx:124-133 | `handleCreate` as a state transition; stated by `CreateFacts` and `TransitionsKeepCallsWellFormed` |
| Dashboard.AfterCreateSucceeded | apps/web/src/components/projects/projects-dashboard.tsx:100-109 | the create mutation's `onSuccess`; stated by `TransitionsKeepCallsWellFormed` |
| Dashboard.AfterCreateFailed | apps/web/src/components/projects/projects-dashboard.tsx:110-114 | the create mutation's `onError`; stated by `TransitionsKeepCallsWellFormed` |
| Dashboard.AfterDeleteRequested | apps/web/src/components/projects/projects-dashboard.tsx:135-137 | `handleDelete`: the target becomes this project; stated by `TransitionsKeepCallsWellFormed` |
| Dashboard.AfterDeleteConfirmed | apps/web/src/components/projects/projects-dashboard.tsx:411-419 | the confirm button of the delete dialog; stated by `ConfirmDeleteFacts` |
| Dashboard.AfterDeleteDialogOpenChange | apps/web/src/components/projects/projects-dashboard.tsx:390-394 | the delete dialog's `onOpenChange`; stated by `CancelThenConfirmSendsNothing` |
| Dashboard.CreateFacts | apps/web/src/components/projects/projects-dashboard.tsx:124-133 | a blank name sets "Project name is required." and sends nothing; any other name is sent once, trimmed |
| Dashboard.ConfirmDeleteFacts | apps/web/src/components/projects/projects-dashboard.tsx:411-419 | with no target nothing happens; with one, one delete for its id is sent and the target cleared, so confirming again sends nothing |
| Dashboard.CancelThenConfirmSendsNothing | apps/web/src/components/projects/projects-dashboard.tsx:390-419 | closing the dialog forgets the target, so a later confirmation sends nothing |
| Dashboard.TransitionsKeepCallsWellFormed | apps/web/src/components/projects/projects-dashboard.tsx:100-137 | no transition ever sends a create call with a blank or untrimmed name |
| Dashboard.ProjectsDashboard.constructor | apps/web/src/components/projects/projects-dashboard.tsx:81-91 | the first render: dialog closed, empty name, no error, no target |
| Dashboard.ProjectsDashboard.SetProjectName | apps/web/src/components/projects/projects-dashboard.tsx:363-364 | the name field holds what was typed, and nothing else changes |
| Dashboard.ProjectsDashboard.HandleCreate | apps/web/src/components/projects/projects-dashboard.tsx:124-133 | the new state is `AfterCreate` of the old one |
| Dashboard.ProjectsDashboard.CreateSucceeded | apps/web/src/components/projects/projects-dashboard.tsx:100-109 | closes the dialog, clears the name and the error, and opens the new project's page |
| Dashboard.ProjectsDashboard.CreateFailed | apps/web/src/components/projects/projects-dashboard.tsx:110-114 | the error shown is the error's message, or "Create failed." |
| Dashboard.ProjectsDashboard.HandleDelete | apps/web/src/components/projects/projects-dashboard.tsx:135-137 | the target becomes this project |
| Dashboard.ProjectsDashboard.ConfirmDelete | apps/web/src/components/projects/projects-dashboard.tsx:411-419 | the new state is `AfterDeleteConfirmed` of the old one |
| Dashboard.ProjectsDashboard.DeleteDialogOpenChange | apps/web/src/components/projects/projects-dashboard.tsx:390-394 | closing forgets the target; opening changes nothing |

## Left out

- Network I/O is not modelled. This covers the ip-api.com request and its JSON decoding, the Hono app and CORS setup, the embedded tracking script, and the JSON decoding of the request body. The body arrives already decoded, or `None` when it is not JSON. The lookup arrives as an optional answer.
- `lat` and `lon` are not modelled: they are floating-point values that the handler only copies.
- `Number(...)` and `new URL(...).hostname` are function parameters. Their JavaScript definitions are not part of this model.
- NaN and the infinities are one value, `NonFinite`. The schemas only ever ask whether a number is finite.
- `toLowerCase` is modelled for ASCII letters only. Lengths count code points, not UTF-16 units.
- `trim` uses the full JavaScript white-space and line-terminator set.
- `localeCompare` is replaced by code-point order.
- Dashboard.ToTimestamp: does not model NaN, an invalid `Date`, or fractional milliseconds. Times are whole numbers.
- Dashboard.SortProjects: stability, meaning equal projects keep their listed order, is built into `Insert` but not stated as a property.
- ProjectsApi.Matching: SQL `LIKE` wildcards (`%`, `_`) inside the search term are not modelled; the term is matched literally. SQLite's case-insensitive `LIKE` is modelled as a comparison after ASCII lower-casing.
- ProjectsApi.Offset: page numbers and the offset are exact unbounded integers. The source computes `(page - 1) * pageSize` in JavaScript doubles, which round above 2^53. The schema bounds `page` only from below, so an accepted page can give an offset beyond the 64-bit range that SQL `OFFSET` takes. Neither the rounding nor that limit is modelled.
- ProjectsApi.QueryOutcome: the listing succeeds for the owner on every accepted page, including pages whose offset lies beyond SQL's 64-bit `OFFSET` range, where the database would refuse the query (see `ProjectsApi.Offset`).
- ProjectsApi.QueryOutcomeFacts: "success exactly for the owner" holds of the model; in the source, an owner's listing whose offset lies beyond SQL's 64-bit `OFFSET` range fails (see `ProjectsApi.Offset`).
- ProjectsApi.ListProjectEventsOutcome: inherits the unbounded offset of `ProjectsApi.QueryOutcome`, and the `ORDER BY` gap of `ProjectsApi.ListProjectEvents`.
- ProjectsApi.ListProjectEventsFacts: "an accepted query by the owner succeeds" holds of the model, not of an offset beyond SQL's 64-bit `OFFSET` range (see `ProjectsApi.Offset`).
- ProjectsApi.ListProjectEvents: the offset gap of `ProjectsApi.QueryOutcome` applies to the method as well. The `ORDER BY` on the chosen sort column is not modelled. The page is cut from the selected events in table order. The sort key and direction are only validated.
- Concurrency and transactions are not modelled: each handler runs alone against the tables. `deleteProject`'s batch is one step.
- The authentication middleware is not modelled. The signed-in user's id is a parameter.
- UUIDs and the clock are not modelled. Fresh ids and the current time are parameters, and freshness is a precondition of the consistency lemmas.
- Four server functions are outside the modelled core: `listProjects`, `listProjectLocations`, `getProjectOverview` and `listProjectDomains`. They are read-only queries. `listProjectDomains`' display form is modelled as `DomainValues.Display`.
- Not modelled: query invalidation and refetching after a mutation; the JSX rendering; the dialog-open, search-box and sort-menu bindings of the dashboard.
- `apps/web/src/core/functions/projects.ts` uses `z` and `ProjectIdSchema` (lines 190, 305, 353, 388 and 426) without importing them (its imports are lines 1-16). As written, the module does not type-check and would throw at line 190 when loaded. The model reads `ProjectIdSchema` as the schema of the same name in `packages/data-ops/src/zod-schema/projects.ts:22-24` (`ProjectSchemas.ProjectId`), and `z` as zod.
- The insert of an event whose `new Date(timestamp)` is invalid is taken to throw, because the `timestamp_ms` column is NOT NULL. The handler then answers with the framework's default 500. The driver's treatment of an invalid `Date` is not part of this model.
- Dashboard.ProjectsDashboard.CreateSucceeded: the navigation is recorded as the id of the opened project, not as a route.
