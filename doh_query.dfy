/** The resolver-fallback decision procedure shared by `EmailValidator::isValid`
    and `validateEmailDomainWithDoH`: how an e-mail address yields the domain
    to query, how a DNS-over-HTTPS query URL is formed, how one resolver's
    reply is classified, what is logged for it, and — as the specification
    function `Walk` — the outcome of trying an ordered list of resolvers.

    The replies use the DNS JSON API (`accept: application/dns-json`), not the
    wire format of RFC 8484. The network is an oracle from query URL to reply. */
module DohQuery {
  import opened Optional
  import opened Decimal
  import opened Explode
  import opened Logging

  /** One DoH service: its display name (the key of the PHP array) and the
      endpoint URL the query string is appended to. */
  datatype Resolver = Resolver(name: string, urlPrefix: string)

  /** The decoded JSON body: the RCODE in `Status`, and the `data` fields of
      the `Answer` array, or None when `Answer` is absent or null. */
  datatype DnsJson = DnsJson(status: int, answer: Option<seq<string>>)

  /** What `json_decode` made of the body: an error message, or a value. */
  datatype Body = Malformed(jsonError: string) | Decoded(json: DnsJson)

  /** One cURL exchange: the body (None when `curl_exec` returned false) and
      the HTTP status code cURL reports. */
  datatype Reply = Reply(body: Option<Body>, httpCode: int)

  /** The six ways one attempt ends, in the order the source tests them. */
  datatype Attempt =
    | TransportFailed(httpCode: int)
    | BadJson(jsonError: string)
    | Refused
    | RcodeError(status: int)
    | Sinkholed
    | Answered

  /** The address some resolvers return in place of a blocked domain's MX. */
  const Sinkhole: string := "0.0.0.0"

  const Https: string := "https://"

  /** The URL uses the `https` scheme. */
  predicate IsHttps(url: string) {
    |url| >= |Https| && url[..|Https|] == Https
  }

  /** The built-in resolvers, in priority order: the first two filter domains
      of bad reputation, the last two do not and serve only as fallbacks.
      Each endpoint is written as its scheme and the rest of its URL. */
  const DefaultServers: seq<Resolver> := [
    Resolver("Quad9 Foundation", Https + "dns.quad9.net:5053/dns-query"),
    Resolver("Cloudflare for Teams", Https + "security.cloudflare-dns.com/dns-query"),
    Resolver("Cloudflare", Https + "cloudflare-dns.com/dns-query"),
    Resolver("Google", Https + "dns.google/resolve")
  ]

  /** The list actually walked: the caller's when given (even an empty one),
      the defaults only when none was given. */
  function EffectiveServers(configured: Option<seq<Resolver>>): (servers: seq<Resolver>)
    ensures configured.Some? ==> servers == configured.value
    ensures configured.None? ==>
              |servers| == 4 && forall k :: 0 <= k < |servers| ==> IsHttps(servers[k].urlPrefix)
  {
    match configured
    case None => DefaultServers
    case Some(servers) => servers
  }

  /** Defaulting is idempotent: a list that was already resolved, stored back
      as the configured list, resolves to itself. */
  lemma EffectiveServersStable(configured: Option<seq<Resolver>>)
    ensures EffectiveServers(Some(EffectiveServers(configured))) == EffectiveServers(configured)
  {
  }

  /** `explode('@', $email)[1]`: the piece between the first `@` and the
      next one (or the end). */
  function DomainOf(email: string): (domain: string)
    requires '@' in email
    ensures '@' !in domain
  {
    SplitAtLeastTwo(email, '@');
    SplitPiecesFree(email, '@');
    Split(email, '@')[1]
  }

  /** The domain is exactly what follows the first `@` up to the next `@`:
      any address written as local part, `@`, domain, and a rest that is
      empty or starts with `@` yields that domain. */
  lemma DomainOfCharacterized(local: string, domain: string, rest: string)
    requires '@' !in local && '@' !in domain
    requires rest == [] || rest[0] == '@'
    ensures DomainOf(local + "@" + domain + rest) == domain
  {
    var email := local + "@" + domain + rest;
    assert email == local + ['@'] + (domain + rest);
    SplitAtFirst(local, domain + rest, '@');
    SplitFreePrefix(domain, rest, '@');
    assert Split(rest, '@')[0] == "";
    assert domain + "" == domain;
  }

  /** `"$urlPrefix?name={$domain}&type=MX"` */
  function QueryUrl(urlPrefix: string, domain: string): (url: string)
    ensures |url| == |urlPrefix| + |domain| + 14
    ensures url[..|urlPrefix|] == urlPrefix
  {
    urlPrefix + "?name=" + domain + "&type=MX"
  }

  /** Reads the queried name back from a query URL built on `urlPrefix`. */
  function QueriedName(urlPrefix: string, url: string): Option<string>
  {
    var head := urlPrefix + "?name=";
    var tail := "&type=MX";
    if |url| >= |head| + |tail| && url[..|head|] == head && url[|url| - |tail|..] == tail
    then Some(url[|head|..|url| - |tail|])
    else None
  }

  /** The query URL asks for MX records of exactly the given domain: the
      domain can be read back from it. */
  lemma QueryUrlRoundTrip(urlPrefix: string, domain: string)
    ensures QueriedName(urlPrefix, QueryUrl(urlPrefix, domain)) == Some(domain)
  {
    var url := QueryUrl(urlPrefix, domain);
    var head := urlPrefix + "?name=";
    assert url == head + domain + "&type=MX";
    assert url[..|head|] == head;
    assert url[|url| - 8..] == "&type=MX";
    assert url[|head|..|url| - 8] == domain;
  }

  /** The query URLs of `servers`, in list order. */
  function QueryUrls(servers: seq<Resolver>, domain: string): (urls: seq<string>)
    ensures |urls| == |servers|
  {
    seq(|servers|, k requires 0 <= k < |servers| => QueryUrl(servers[k].urlPrefix, domain))
  }

  /** The decision steps applied to one reply, in source order: transport
      failure or a status other than 200, then undecodable JSON, then RCODE 5,
      then any other non-zero RCODE, then a missing or sinkholed answer. */
  function Classify(reply: Reply): (a: Attempt)
    ensures a.TransportFailed? <==> reply.body.None? || reply.httpCode != 200
    ensures a.TransportFailed? ==> a.httpCode == reply.httpCode
    ensures a.BadJson? ==> reply.body == Some(Malformed(a.jsonError))
    ensures a.Refused? || a.RcodeError? ==>
              reply.body.Some? && reply.body.value.Decoded? && reply.body.value.json.status != 0
    ensures a.RcodeError? ==> a.status == reply.body.value.json.status && a.status != 5
    ensures reply.httpCode == 200 && reply.body.Some? && reply.body.value.Decoded? ==>
              var j := reply.body.value.json;
              (a.Refused? <==> j.status == 5) &&
              (j.status != 0 && j.status != 5 ==> a == RcodeError(j.status)) &&
              (a.Sinkholed? <==>
                 j.status == 0 && (j.answer.None? || (|j.answer.value| > 0 && j.answer.value[0] == Sinkhole)))
  {
    if reply.body.None? || reply.httpCode != 200 then TransportFailed(reply.httpCode)
    else match reply.body.value
      case Malformed(e) => BadJson(e)
      case Decoded(json) =>
        if json.status == 5 then Refused
        else if json.status != 0 then RcodeError(json.status)
        else if json.answer.None? || (|json.answer.value| > 0 && json.answer.value[0] == Sinkhole) then Sinkholed
        else Answered
  }

  /** Attempts that move on to the next resolver instead of deciding. */
  predicate Skips(a: Attempt) {
    a.TransportFailed? || a.BadJson?
  }

  /** A reply settles the question only once it is a 200 carrying valid JSON;
      it then accepts exactly when the RCODE is 0 and an `Answer` array is
      present whose first record, if any, is not the sinkhole address. */
  lemma ClassifyDecides(reply: Reply)
    ensures !Skips(Classify(reply)) <==>
            reply.body.Some? && reply.httpCode == 200 && reply.body.value.Decoded?
    ensures Classify(reply).Answered? <==>
            reply.body.Some? && reply.httpCode == 200 && reply.body.value.Decoded? &&
            reply.body.value.json.status == 0 && reply.body.value.json.answer.Some? &&
            (reply.body.value.json.answer.value == [] || reply.body.value.json.answer.value[0] != Sinkhole)
  {
  }

  // The messages logged for each kind of attempt. `subject` is what the
  // message names: the domain in the class, the whole address in the
  // free function. `describe` is the binding's own `DNSRCodeToString`:
  // each binding carries a copy of the table and passes it in.

  /** Ends with the HTTP status code's numeral. */
  function TransportFailedMessage(name: string, subject: string, httpCode: int): (m: string)
    ensures var c := IntToString(httpCode); |m| >= |c| && m[|m| - |c|..] == c
  {
    "Failed to query \"" + name + "\" server while validating domain of email: " + subject
      + ". HTTP status code: " + IntToString(httpCode)
  }

  /** Ends with the JSON error text. */
  function BadJsonMessage(name: string, subject: string, jsonError: string): (m: string)
    ensures |m| >= |jsonError| && m[|m| - |jsonError|..] == jsonError
  {
    "Failed to decode JSON while validating domain of email: " + subject + " using " + name
      + " server. JSON error: " + jsonError
  }

  /** The explanation that follows a refusal. */
  const RefusedNote: string :=
    " (RCODE 5). Which could mean it was flagged as a malware domain or other such bad reputation activities."

  /** Ends with the note that names RCODE 5 and what it may mean. */
  function RefusedMessage(name: string, subject: string): (m: string)
    ensures |m| >= |RefusedNote| && m[|m| - |RefusedNote|..] == RefusedNote
  {
    "The DNS server \"" + name + "\" refused to answer while validating domain of email: " + subject + RefusedNote
  }

  /** Ends with the code's description in double quotes. */
  function RcodeErrorMessage(name: string, subject: string, status: int, description: string): (m: string)
    ensures |m| > |description| && m[|m| - |description| - 1..] == description + "\""
  {
    "The DNS server \"" + name + "\" returned an error (RCODE " + IntToString(status)
      + ") while validating domain of email: " + subject + ". DNS query status: \""
      + description + "\""
  }

  const SinkholedLead: string := "Domain of email: "

  /** The explanation of a missing or sinkholed answer. */
  const SinkholedNote: string :=
    " is missing or might be flagged as a malware domain or other such bad reputation activities using \""

  /** Starts by naming the subject. */
  function SinkholedMessage(name: string, subject: string): (m: string)
    ensures |m| >= |SinkholedLead| + |subject| && m[..|SinkholedLead| + |subject|] == SinkholedLead + subject
  {
    SinkholedLead + subject + SinkholedNote + name + "\" server."
  }

  /** Ends by naming the resolver in double quotes. */
  function AnsweredMessage(name: string, subject: string): (m: string)
    ensures |m| >= |name| + 10 && m[|m| - |name| - 10..] == "\"" + name + "\" server."
  {
    "Successfully validated domain of email: " + subject + " using \"" + name + "\" server."
  }

  /** The one entry logged for an attempt on the resolver called `name`. */
  function LogFor(name: string, subject: string, describe: int -> string, a: Attempt): (e: LogEntry)
    ensures e.level == Warning <==> !(a.Sinkholed? || a.Answered?)
  {
    match a
    case TransportFailed(code) => LogEntry(Warning, TransportFailedMessage(name, subject, code))
    case BadJson(e) => LogEntry(Warning, BadJsonMessage(name, subject, e))
    case Refused => LogEntry(Warning, RefusedMessage(name, subject))
    case RcodeError(status) => LogEntry(Warning, RcodeErrorMessage(name, subject, status, describe(status)))
    case Sinkholed => LogEntry(Debug, SinkholedMessage(name, subject))
    case Answered => LogEntry(Debug, AnsweredMessage(name, subject))
  }

  /** Read from the reply: the entry is a warning unless the reply is a 200
      carrying decoded JSON with RCODE 0, and a non-zero RCODE other than 5
      is logged with the binding's description of that code, in quotes. */
  lemma ClassifyLogLevel(name: string, subject: string, describe: int -> string, reply: Reply)
    ensures LogFor(name, subject, describe, Classify(reply)).level == Warning <==>
            !(reply.body.Some? && reply.httpCode == 200 && reply.body.value.Decoded? &&
              reply.body.value.json.status == 0)
    ensures reply.body.Some? && reply.httpCode == 200 && reply.body.value.Decoded? &&
            reply.body.value.json.status != 0 && reply.body.value.json.status != 5 ==>
              var m := LogFor(name, subject, describe, Classify(reply)).message;
              var d := describe(reply.body.value.json.status);
              |m| > |d| && m[|m| - |d| - 1..] == d + "\""
  {
  }

  // Each message names the resolver and the subject.

  lemma TransportFailedMentions(name: string, subject: string, describe: int -> string, code: int)
    ensures Mentions(LogFor(name, subject, describe, TransportFailed(code)).message, subject)
    ensures Mentions(LogFor(name, subject, describe, TransportFailed(code)).message, name)
  {
    var p1 := "Failed to query \"" + name + "\" server while validating domain of email: ";
    MentionsMiddle(p1, subject, ". HTTP status code: ");
    MentionsExtend(p1 + subject + ". HTTP status code: ", subject, IntToString(code));
    MentionsEnd("Failed to query \"", name);
    MentionsExtend("Failed to query \"" + name, name, "\" server while validating domain of email: ");
    MentionsExtend(p1, name, subject);
    MentionsExtend(p1 + subject, name, ". HTTP status code: ");
    MentionsExtend(p1 + subject + ". HTTP status code: ", name, IntToString(code));
  }

  lemma BadJsonMentions(name: string, subject: string, describe: int -> string, e: string)
    ensures Mentions(LogFor(name, subject, describe, BadJson(e)).message, subject)
    ensures Mentions(LogFor(name, subject, describe, BadJson(e)).message, name)
  {
    var p1 := "Failed to decode JSON while validating domain of email: ";
    MentionsMiddle(p1, subject, " using ");
    MentionsExtend(p1 + subject + " using ", subject, name);
    MentionsMiddle(p1 + subject + " using ", name, " server. JSON error: ");
    MentionsExtend(p1 + subject + " using " + name, subject, " server. JSON error: ");
    MentionsExtend(p1 + subject + " using " + name + " server. JSON error: ", subject, e);
    MentionsExtend(p1 + subject + " using " + name + " server. JSON error: ", name, e);
  }

  lemma RefusedMentions(name: string, subject: string, describe: int -> string)
    ensures Mentions(LogFor(name, subject, describe, Refused).message, subject)
    ensures Mentions(LogFor(name, subject, describe, Refused).message, name)
  {
    var p1 := "The DNS server \"" + name + "\" refused to answer while validating domain of email: ";
    var tail := RefusedNote;
    MentionsMiddle(p1, subject, tail);
    MentionsEnd("The DNS server \"", name);
    MentionsExtend("The DNS server \"" + name, name, "\" refused to answer while validating domain of email: ");
    MentionsExtend(p1, name, subject);
    MentionsExtend(p1 + subject, name, tail);
  }

  lemma RcodeErrorMentions(name: string, subject: string, describe: int -> string, status: int)
    ensures Mentions(LogFor(name, subject, describe, RcodeError(status)).message, subject)
    ensures Mentions(LogFor(name, subject, describe, RcodeError(status)).message, name)
  {
    var p0 := "The DNS server \"" + name + "\" returned an error (RCODE ";
    var p1 := p0 + IntToString(status) + ") while validating domain of email: ";
    var q := ". DNS query status: \"";
    var d := describe(status);
    MentionsMiddle(p1, subject, q);
    MentionsExtend(p1 + subject + q, subject, d);
    MentionsExtend(p1 + subject + q + d, subject, "\"");
    MentionsEnd("The DNS server \"", name);
    MentionsExtend("The DNS server \"" + name, name, "\" returned an error (RCODE ");
    MentionsExtend(p0, name, IntToString(status));
    MentionsExtend(p0 + IntToString(status), name, ") while validating domain of email: ");
    MentionsExtend(p1, name, subject);
    MentionsExtend(p1 + subject, name, q);
    MentionsExtend(p1 + subject + q, name, d);
    MentionsExtend(p1 + subject + q + d, name, "\"");
  }

  lemma SinkholedMentions(name: string, subject: string, describe: int -> string)
    ensures Mentions(LogFor(name, subject, describe, Sinkholed).message, subject)
    ensures Mentions(LogFor(name, subject, describe, Sinkholed).message, name)
  {
    var p1 := SinkholedLead;
    var mid := SinkholedNote;
    MentionsMiddle(p1, subject, mid);
    MentionsExtend(p1 + subject + mid, subject, name);
    MentionsExtend(p1 + subject + mid + name, subject, "\" server.");
    MentionsMiddle(p1 + subject + mid, name, "\" server.");
  }

  lemma AnsweredMentions(name: string, subject: string, describe: int -> string)
    ensures Mentions(LogFor(name, subject, describe, Answered).message, subject)
    ensures Mentions(LogFor(name, subject, describe, Answered).message, name)
  {
    var p1 := "Successfully validated domain of email: ";
    MentionsMiddle(p1, subject, " using \"");
    MentionsExtend(p1 + subject + " using \"", subject, name);
    MentionsExtend(p1 + subject + " using \"" + name, subject, "\" server.");
    MentionsMiddle(p1 + subject + " using \"", name, "\" server.");
  }

  /** Every entry names both the resolver and the subject. */
  lemma LogForMentions(name: string, subject: string, describe: int -> string, a: Attempt)
    ensures Mentions(LogFor(name, subject, describe, a).message, subject)
    ensures Mentions(LogFor(name, subject, describe, a).message, name)
  {
    match a
    case TransportFailed(code) => TransportFailedMentions(name, subject, describe, code);
    case BadJson(e) => BadJsonMentions(name, subject, describe, e);
    case Refused => RefusedMentions(name, subject, describe);
    case RcodeError(status) => RcodeErrorMentions(name, subject, describe, status);
    case Sinkholed => SinkholedMentions(name, subject, describe);
    case Answered => AnsweredMentions(name, subject, describe);
  }

  /** The body of the fallback loop, shared by both bindings: query one
      resolver, log the one entry its reply calls for, and say how the
      attempt ended. The loop itself decides whether to go on. */
  method QueryResolver(logger: Logger, server: Resolver, domain: string, subject: string,
                       describe: int -> string, network: string -> Reply)
    returns (a: Attempt, url: string)
    modifies logger
    ensures url == QueryUrl(server.urlPrefix, domain)
    ensures a == Classify(network(url))
    ensures logger.entries == old(logger.entries) + [LogFor(server.name, subject, describe, a)]
  {
    url := QueryUrl(server.urlPrefix, domain);
    var reply := network(url);

    if reply.body.None? || reply.httpCode != 200 {
      logger.Warning(TransportFailedMessage(server.name, subject, reply.httpCode));
      return TransportFailed(reply.httpCode), url;
    }

    var body := reply.body.value;
    if body.Malformed? {
      logger.Warning(BadJsonMessage(server.name, subject, body.jsonError));
      return BadJson(body.jsonError), url;
    }

    var json := body.json;
    if json.status == 5 {
      logger.Warning(RefusedMessage(server.name, subject));
      return Refused, url;
    }

    if json.status != 0 {
      logger.Warning(RcodeErrorMessage(server.name, subject, json.status, describe(json.status)));
      return RcodeError(json.status), url;
    }

    if json.answer.None? || (|json.answer.value| > 0 && json.answer.value[0] == Sinkhole) {
      logger.Debug(SinkholedMessage(server.name, subject));
      return Sinkholed, url;
    }

    logger.Debug(AnsweredMessage(server.name, subject));
    return Answered, url;
  }

  /** The result of walking a resolver list: the verdict (None when every
      attempt was skipped) and the attempts made, one per resolver queried. */
  datatype Walked = Walked(verdict: Option<bool>, attempts: seq<Attempt>)

  /** The attempt made on the `k`-th resolver of the list. */
  function AttemptAt(servers: seq<Resolver>, domain: string, network: string -> Reply, k: nat): Attempt
    requires k < |servers|
  {
    Classify(network(QueryUrl(servers[k].urlPrefix, domain)))
  }

  /** The fallback loop as a specification: query each resolver in order,
      move on past transport and JSON failures, and stop at the first reply
      that decides. At most one attempt per resolver; no verdict only when
      every resolver was attempted; a verdict only after some attempt. */
  function Walk(servers: seq<Resolver>, domain: string, network: string -> Reply): (w: Walked)
    ensures |w.attempts| <= |servers|
    ensures w.verdict.None? ==> |w.attempts| == |servers|
    ensures w.verdict.Some? ==> |w.attempts| >= 1
    decreases |servers|
  {
    if |servers| == 0 then Walked(None, [])
    else
      var a := Classify(network(QueryUrl(servers[0].urlPrefix, domain)));
      if Skips(a) then
        var rest := Walk(servers[1..], domain, network);
        Walked(rest.verdict, [a] + rest.attempts)
      else
        Walked(Some(a.Answered?), [a])
  }

  /** The attempts recorded are those made on a prefix of the list, in list
      order; every one but the last was skipped; and either the last one
      decided the verdict or the whole list was skipped. */
  lemma {:induction false} WalkAttempts(servers: seq<Resolver>, domain: string, network: string -> Reply)
    ensures var w := Walk(servers, domain, network);
            (forall k :: 0 <= k < |w.attempts| ==> w.attempts[k] == AttemptAt(servers, domain, network, k)) &&
            (forall k :: 0 <= k < |w.attempts| - 1 ==> Skips(w.attempts[k])) &&
            (w.verdict.None? ==> forall k :: 0 <= k < |w.attempts| ==> Skips(w.attempts[k])) &&
            (w.verdict.Some? ==> !Skips(w.attempts[|w.attempts| - 1]) &&
                                 w.verdict.value == w.attempts[|w.attempts| - 1].Answered?)
    decreases |servers|
  {
    if |servers| > 0 {
      var a := AttemptAt(servers, domain, network, 0);
      if Skips(a) {
        var tail := servers[1..];
        WalkAttempts(tail, domain, network);
        var r := Walk(tail, domain, network);
        var w := Walk(servers, domain, network);
        assert w.attempts == [a] + r.attempts;
        forall k | 1 <= k < |w.attempts|
          ensures w.attempts[k] == AttemptAt(servers, domain, network, k)
        {
          assert w.attempts[k] == r.attempts[k - 1];
          assert tail[k - 1] == servers[k];
        }
      }
    }
  }

  /** The URLs the walk queried: those of the resolvers it attempted. */
  function Queried(servers: seq<Resolver>, domain: string, w: Walked): seq<string>
    requires |w.attempts| <= |servers|
  {
    QueryUrls(servers[..|w.attempts|], domain)
  }

  /** The entries logged for the attempts, one per attempt, in order. */
  function WalkLog(servers: seq<Resolver>, subject: string, describe: int -> string,
                   attempts: seq<Attempt>): (log: seq<LogEntry>)
    requires |attempts| <= |servers|
    ensures |log| == |attempts|
  {
    seq(|attempts|, k requires 0 <= k < |attempts| => LogFor(servers[k].name, subject, describe, attempts[k]))
  }

  /** Every entry logged during a walk names the subject and the resolver
      it is about. */
  lemma WalkLogMentions(servers: seq<Resolver>, subject: string, describe: int -> string, attempts: seq<Attempt>)
    requires |attempts| <= |servers|
    ensures forall k :: 0 <= k < |attempts| ==>
              Mentions(WalkLog(servers, subject, describe, attempts)[k].message, subject) &&
              Mentions(WalkLog(servers, subject, describe, attempts)[k].message, servers[k].name)
  {
    forall k | 0 <= k < |attempts|
      ensures Mentions(WalkLog(servers, subject, describe, attempts)[k].message, subject)
      ensures Mentions(WalkLog(servers, subject, describe, attempts)[k].message, servers[k].name)
    {
      LogForMentions(servers[k].name, subject, describe, attempts[k]);
    }
  }

  /** The loop's view of the walk: having skipped the resolvers before
      `i`, the walk of the whole list continues as the walk from `i`. One
      more step either skips resolver `i` too or ends the walk with it. */
  lemma WalkResume(servers: seq<Resolver>, domain: string, network: string -> Reply,
                   i: nat, attempts: seq<Attempt>)
    requires i < |servers|
    requires Walk(servers, domain, network).verdict == Walk(servers[i..], domain, network).verdict
    requires Walk(servers, domain, network).attempts == attempts + Walk(servers[i..], domain, network).attempts
    ensures var a := AttemptAt(servers, domain, network, i);
            var w := Walk(servers, domain, network);
            var rest := Walk(servers[i + 1..], domain, network);
            if Skips(a) then w.verdict == rest.verdict && w.attempts == (attempts + [a]) + rest.attempts
            else w == Walked(Some(a.Answered?), attempts + [a])
  {
    WalkStep(servers[i..], domain, network);
    assert servers[i..][1..] == servers[i + 1..];
    var a := AttemptAt(servers, domain, network, i);
    assert AttemptAt(servers[i..], domain, network, 0) == a;
    var rest := Walk(servers[i + 1..], domain, network);
    assert (attempts + [a]) + rest.attempts == attempts + ([a] + rest.attempts);
  }

  /** One more attempt adds one more log entry, for the next resolver, after
      whatever was logged `before` the walk. */
  lemma WalkLogSnoc(servers: seq<Resolver>, subject: string, describe: int -> string, before: seq<LogEntry>,
                    attempts: seq<Attempt>, a: Attempt)
    requires |attempts| < |servers|
    ensures before + WalkLog(servers, subject, describe, attempts + [a])
            == (before + WalkLog(servers, subject, describe, attempts)) + [LogFor(servers[|attempts|].name, subject, describe, a)]
  {
    assert WalkLog(servers, subject, describe, attempts + [a])
           == WalkLog(servers, subject, describe, attempts) + [LogFor(servers[|attempts|].name, subject, describe, a)];
  }

  /** One more resolver adds one more query URL. */
  lemma QueryUrlsSnoc(servers: seq<Resolver>, domain: string, i: nat)
    requires i < |servers|
    ensures QueryUrls(servers[..i + 1], domain)
            == QueryUrls(servers[..i], domain) + [QueryUrl(servers[i].urlPrefix, domain)]
  {
  }

  /** The verdict is that of the first resolver whose attempt is not
      skipped, and no resolver after it is queried. */
  lemma WalkDecidedAt(servers: seq<Resolver>, domain: string, network: string -> Reply, i: nat)
    requires i < |servers|
    requires forall k :: 0 <= k < i ==> Skips(AttemptAt(servers, domain, network, k))
    requires !Skips(AttemptAt(servers, domain, network, i))
    ensures Walk(servers, domain, network).verdict == Some(AttemptAt(servers, domain, network, i).Answered?)
    ensures |Walk(servers, domain, network).attempts| == i + 1
  {
    WalkAttempts(servers, domain, network);
  }

  /** "Unable to verify" happens exactly when every attempt was skipped. */
  lemma WalkUndecidedIff(servers: seq<Resolver>, domain: string, network: string -> Reply)
    ensures Walk(servers, domain, network).verdict.None? <==>
            forall k :: 0 <= k < |servers| ==> Skips(AttemptAt(servers, domain, network, k))
  {
    WalkAttempts(servers, domain, network);
    var w := Walk(servers, domain, network);
    if w.verdict.Some? {
      var last := |w.attempts| - 1;
      assert !Skips(AttemptAt(servers, domain, network, last));
    }
  }

  /** One step of the walk: the first resolver's attempt, then the rest. */
  lemma WalkStep(servers: seq<Resolver>, domain: string, network: string -> Reply)
    requires |servers| > 0
    ensures var a := AttemptAt(servers, domain, network, 0);
            var rest := Walk(servers[1..], domain, network);
            Walk(servers, domain, network)
              == if Skips(a) then Walked(rest.verdict, [a] + rest.attempts) else Walked(Some(a.Answered?), [a])
  {
  }

  /** Resolvers after the deciding one are never queried: walking a list
      followed by more resolvers gives the first list's result when it
      decides, and otherwise continues with the second list. */
  lemma {:induction false} WalkAppend(first: seq<Resolver>, more: seq<Resolver>, domain: string,
                                      network: string -> Reply)
    ensures var w1 := Walk(first, domain, network);
            var w2 := Walk(more, domain, network);
            Walk(first + more, domain, network)
              == if w1.verdict.Some? then w1 else Walked(w2.verdict, w1.attempts + w2.attempts)
    decreases |first|
  {
    var all := first + more;
    if |first| == 0 {
      assert all == more;
    } else {
      assert all[0] == first[0];
      assert all[1..] == first[1..] + more;
      var a := AttemptAt(first, domain, network, 0);
      assert AttemptAt(all, domain, network, 0) == a;
      WalkStep(first, domain, network);
      WalkStep(all, domain, network);
      if Skips(a) {
        WalkAppend(first[1..], more, domain, network);
        var r1 := Walk(first[1..], domain, network);
        var w2 := Walk(more, domain, network);
        if r1.verdict.None? {
          assert [a] + (r1.attempts + w2.attempts) == ([a] + r1.attempts) + w2.attempts;
        }
      }
    }
  }

  /** The state of the fallback loop before resolver `i`: the resolvers
      before it were all skipped, with their attempts, query URLs and log
      entries recorded after whatever was logged `before` the loop. */
  ghost predicate FallbackAt(servers: seq<Resolver>, domain: string, subject: string,
                             describe: int -> string, network: string -> Reply, before: seq<LogEntry>,
                             i: nat, attempts: seq<Attempt>, queried: seq<string>, entries: seq<LogEntry>)
  {
    var w := Walk(servers, domain, network);
    i <= |servers| && |attempts| == i &&
    w.verdict == Walk(servers[i..], domain, network).verdict &&
    w.attempts == attempts + Walk(servers[i..], domain, network).attempts &&
    queried == QueryUrls(servers[..i], domain) &&
    entries == before + WalkLog(servers, subject, describe, attempts)
  }

  /** One turn of the fallback loop: the attempt on resolver `i` either is
      skipped, and the loop state moves on to `i + 1`, or it decides, and the
      loop has then done exactly what the walk specifies. */
  lemma FallbackAdvance(servers: seq<Resolver>, domain: string, subject: string,
                        describe: int -> string, network: string -> Reply, before: seq<LogEntry>,
                        i: nat, attempts: seq<Attempt>, queried: seq<string>, entries: seq<LogEntry>,
                        a: Attempt, url: string, entries': seq<LogEntry>)
    requires i < |servers|
    requires FallbackAt(servers, domain, subject, describe, network, before, i, attempts, queried, entries)
    requires url == QueryUrl(servers[i].urlPrefix, domain) && a == Classify(network(url))
    requires entries' == entries + [LogFor(servers[i].name, subject, describe, a)]
    ensures Skips(a) ==>
              FallbackAt(servers, domain, subject, describe, network, before,
                         i + 1, attempts + [a], queried + [url], entries')
    ensures !Skips(a) ==>
              var w := Walk(servers, domain, network);
              Some(a.Answered?) == w.verdict &&
              queried + [url] == Queried(servers, domain, w) &&
              entries' == before + WalkLog(servers, subject, describe, w.attempts)
  {
    WalkResume(servers, domain, network, i, attempts);
    QueryUrlsSnoc(servers, domain, i);
    WalkLogSnoc(servers, subject, describe, before, attempts, a);
  }

  /** The loop ran past the last resolver: every attempt was skipped. */
  lemma FallbackDone(servers: seq<Resolver>, domain: string, subject: string,
                     describe: int -> string, network: string -> Reply, before: seq<LogEntry>,
                     attempts: seq<Attempt>, queried: seq<string>, entries: seq<LogEntry>)
    requires FallbackAt(servers, domain, subject, describe, network, before, |servers|, attempts, queried, entries)
    ensures var w := Walk(servers, domain, network);
            None == w.verdict &&
            queried == Queried(servers, domain, w) &&
            entries == before + WalkLog(servers, subject, describe, w.attempts)
  {
    assert servers[..|servers|] == servers;
  }

  /** The fallback loop: try the resolvers in order, skip one whose
      transport or JSON failed, and stop at the first that answers. The
      verdict, the URLs requested and the entries logged are exactly those
      of `Walk`; `subject` is what the log messages name and `describe`
      the RCODE table they quote. */
  method Fallback(logger: Logger, servers: seq<Resolver>, domain: string, subject: string,
                  describe: int -> string, network: string -> Reply)
    returns (verdict: Option<bool>, ghost queried: seq<string>)
    modifies logger
    ensures var w := Walk(servers, domain, network);
            verdict == w.verdict &&
            queried == Queried(servers, domain, w) &&
            logger.entries == old(logger.entries) + WalkLog(servers, subject, describe, w.attempts)
  {
    ghost var attempts: seq<Attempt> := [];
    queried := [];
    for i := 0 to |servers|
      invariant FallbackAt(servers, domain, subject, describe, network, old(logger.entries),
                           i, attempts, queried, logger.entries)
    {
      ghost var entries := logger.entries;
      var a, url := QueryResolver(logger, servers[i], domain, subject, describe, network);
      FallbackAdvance(servers, domain, subject, describe, network, old(logger.entries),
                      i, attempts, queried, entries, a, url, logger.entries);
      queried := queried + [url];
      attempts := attempts + [a];

      if a.TransportFailed? || a.BadJson? {
        continue;
      }
      return Some(a.Answered?), queried;
    }
    FallbackDone(servers, domain, subject, describe, network, old(logger.entries),
                 attempts, queried, logger.entries);
    return None, queried;
  }
}
