/** The free-function binding `validateEmailDomainWithDoH`: the same resolver
    walk as the class, with the resolver list passed on each call, log
    messages that name the whole address, and plain exceptions. */
module DohFunction {
  import opened Optional
  import opened Explode
  import opened Logging
  import opened DohQuery
  import Rcode

  /** How the function ends: it returns a boolean, or it throws an
      `Exception` carrying a message. */
  datatype Outcome = Returned(valid: bool) | Thrown(message: string)

  const InvalidFormatPrefix: string := "Invalid email address format: "
  const AllFailedPrefix: string := "The DNS queries to all servers failed" + " while validating domain of email: "
  const AllFailedSuffix: string := ". Not sure what's happening but it's likely a problem on our side."

  /** The exception thrown for an address `filter_var` rejects; the address
      follows the fixed prefix and can be read back. */
  function InvalidFormatMessage(email: string): (m: string)
    ensures |m| == |InvalidFormatPrefix| + |email|
    ensures m[..|InvalidFormatPrefix|] == InvalidFormatPrefix && m[|InvalidFormatPrefix|..] == email
  {
    InvalidFormatPrefix + email
  }

  /** The exception thrown when every resolver was skipped; the address
      sits between the fixed parts and can be read back. */
  function AllFailedMessage(email: string): (m: string)
    ensures |m| == |AllFailedPrefix| + |email| + |AllFailedSuffix|
    ensures m[|AllFailedPrefix|..|m| - |AllFailedSuffix|] == email
  {
    AllFailedPrefix + email + AllFailedSuffix
  }

  /** The all-failed message names the address, each message identifies its
      address, and a format error is never mistaken for an all-failed error. */
  lemma ThrownMessagesDistinguishable(email: string, other: string)
    ensures Mentions(AllFailedMessage(email), email)
    ensures InvalidFormatMessage(email) == InvalidFormatMessage(other) ==> email == other
    ensures AllFailedMessage(email) == AllFailedMessage(other) ==> email == other
    ensures InvalidFormatMessage(email) != AllFailedMessage(other)
  {
    MentionsMiddle(AllFailedPrefix, email, AllFailedSuffix);
    assert InvalidFormatMessage(email)[0] == InvalidFormatPrefix[0] == 'I';
    assert AllFailedMessage(other)[0] == AllFailedPrefix[0] == 'T';
  }

  /** `validateEmailDomainWithDoH($email, $logger, $DoHServers)`.
      `syntaxOk` is the verdict of `filter_var` with `FILTER_VALIDATE_EMAIL`
      on `email`, which only accepts addresses holding an `@`; `network`
      answers each query URL. The ghost `queried` lists the URLs requested,
      in order. The caller's list is not changed: PHP passes arrays by value. */
  method ValidateEmailDomainWithDoH(email: string, syntaxOk: bool, logger: Logger,
                                    doHServers: Option<seq<Resolver>>, network: string -> Reply)
    returns (outcome: Outcome, ghost queried: seq<string>)
    requires syntaxOk ==> '@' in email
    modifies logger
    ensures !syntaxOk ==>
      outcome == Thrown(InvalidFormatMessage(email)) && queried == [] &&
      logger.entries == old(logger.entries)
    ensures syntaxOk ==>
      var domain := DomainOf(email);
      var servers := EffectiveServers(doHServers);
      var w := Walk(servers, domain, network);
      outcome == (if w.verdict.Some? then Returned(w.verdict.value) else Thrown(AllFailedMessage(email))) &&
      queried == Queried(servers, domain, w) &&
      logger.entries == old(logger.entries) + WalkLog(servers, email, Rcode.Describe, w.attempts)
  {
    queried := [];
    if !syntaxOk {
      return Thrown(InvalidFormatMessage(email)), queried;
    }
    var domain := DomainOf(email);

    var servers := if doHServers.None? then DefaultServers else doHServers.value;

    var verdict;
    verdict, queried := Fallback(logger, servers, domain, email, Rcode.Describe, network);
    if verdict.Some? {
      return Returned(verdict.value), queried;
    }
    return Thrown(AllFailedMessage(email)), queried;
  }
}
