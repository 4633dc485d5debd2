/** The class binding: an `EmailValidator` holds a logger and an optional
    resolver list, fills the list in with the defaults on first use, and
    validates an address's domain by walking the list. */
module Validator {
  import opened Optional
  import opened Explode
  import opened Logging
  import opened DohQuery
  import Rcode

  /** How `isValid` ends: it returns a boolean, or it throws one of the two
      exceptions, each given here by the address or domain it is about. */
  datatype Outcome =
    | Returned(valid: bool)
    | InvalidSyntax(email: string)
    | UnableToVerify(domain: string)

  /** The text `InvalidSyntaxException` builds from the argument it is
      given: the argument between guillemets, so it can be read back. */
  function InvalidSyntaxMessage(email: string): (m: string)
    ensures |m| == |email| + |InvalidSyntaxTail| + 1
    ensures m[0] == '«' && m[1..1 + |email|] == email && m[1 + |email|..] == InvalidSyntaxTail
  {
    "«" + email + InvalidSyntaxTail
  }

  const InvalidSyntaxTail: string := "» is not a valid email address."

  const UnableToVerifyPrefix: string :=
    "The DNS queries to all servers failed" + " while validating domain of email: «"
  const UnableToVerifySuffix: string :=
    "». Not sure what's happening," + " but it's likely a problem on our side."

  /** The text `UnableToVerifyException` builds from the domain it is given;
      the domain can be read back from between the fixed parts. */
  function UnableToVerifyMessage(domain: string): (m: string)
    ensures |m| == |UnableToVerifyPrefix| + |domain| + |UnableToVerifySuffix|
    ensures m[|UnableToVerifyPrefix|..|m| - |UnableToVerifySuffix|] == domain
  {
    UnableToVerifyPrefix + domain + UnableToVerifySuffix
  }

  /** Different arguments give different syntax messages. */
  lemma InvalidSyntaxMessageInjective(a: string, b: string)
    requires InvalidSyntaxMessage(a) == InvalidSyntaxMessage(b)
    ensures a == b
  {
    assert a == InvalidSyntaxMessage(a)[1..1 + |a|];
  }

  /** The "unable to verify" message names the domain it was given, and
      different domains give different messages. */
  lemma UnableToVerifyMessageMentionsDomain(domain: string, other: string)
    ensures Mentions(UnableToVerifyMessage(domain), domain)
    ensures UnableToVerifyMessage(domain) == UnableToVerifyMessage(other) ==> domain == other
  {
    MentionsMiddle(UnableToVerifyPrefix, domain, UnableToVerifySuffix);
  }

  /** The sentence `isValid` formats for a rejected address. */
  const InvalidFormatLead: string := "Invalid email address format: "

  /** As written, `isValid` hands the exception constructor an already
      formatted sentence in place of the address, so the thrown text wraps
      one message inside the other. */
  function InvalidSyntaxMessageAsWritten(email: string): (m: string)
    ensures |m| == 1 + |InvalidFormatLead| + |email| + |InvalidSyntaxTail|
    ensures m[1..1 + |InvalidFormatLead|] == InvalidFormatLead
    ensures m[1 + |InvalidFormatLead|..|m| - |InvalidSyntaxTail|] == email
  {
    InvalidSyntaxMessage(InvalidFormatLead + email)
  }

  lemma InvalidSyntaxMessageDoubleWrapped(email: string)
    ensures InvalidSyntaxMessageAsWritten(email) == "«" + InvalidFormatLead + email + InvalidSyntaxTail
    ensures InvalidSyntaxMessageAsWritten(email) != InvalidSyntaxMessage(email)
  {
    assert |InvalidSyntaxMessageAsWritten(email)| != |InvalidSyntaxMessage(email)|;
  }

  class EmailValidator {
    const logger: Logger
    /** The configured resolvers; None until defaulted. */
    var doHServers: Option<seq<Resolver>>

    constructor (logger: Logger, doHServers: Option<seq<Resolver>>)
      ensures this.logger == logger && this.doHServers == doHServers
    {
      this.logger := logger;
      this.doHServers := doHServers;
    }

    /** `isValid($email)`. `syntaxOk` is the verdict of `filter_var` with
        `FILTER_VALIDATE_EMAIL` on `email`, which only accepts addresses
        holding an `@`; `network` answers each query URL. The ghost
        `queried` lists the URLs requested, in order. */
    method IsValid(email: string, syntaxOk: bool, network: string -> Reply)
      returns (outcome: Outcome, ghost queried: seq<string>)
      requires syntaxOk ==> '@' in email
      modifies this`doHServers, logger
      ensures !syntaxOk ==>
        outcome == InvalidSyntax(email) && queried == [] &&
        doHServers == old(doHServers) && logger.entries == old(logger.entries)
      ensures syntaxOk ==>
        var domain := DomainOf(email);
        var servers := EffectiveServers(old(doHServers));
        var w := Walk(servers, domain, network);
        doHServers == Some(servers) &&
        outcome == (if w.verdict.Some? then Returned(w.verdict.value) else UnableToVerify(domain)) &&
        queried == Queried(servers, domain, w) &&
        logger.entries == old(logger.entries) + WalkLog(servers, domain, Rcode.Describe, w.attempts)
    {
      queried := [];
      if !syntaxOk {
        return InvalidSyntax(email), queried;
      }
      var domain := DomainOf(email);

      if doHServers.None? {
        doHServers := Some(DefaultServers);
      }
      var servers := doHServers.value;

      var verdict;
      verdict, queried := Fallback(logger, servers, domain, domain, Rcode.Describe, network);
      if verdict.Some? {
        return Returned(verdict.value), queried;
      }
      return UnableToVerify(domain), queried;
    }
  }
}
