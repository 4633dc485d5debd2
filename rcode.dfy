/** The DNS response-code (RCODE) description table: the registered codes of
    section 4.1.1 of RFC 1035 and of the IANA DNS RCODE registry (section 2.3
    of RFC 6895), each with a fixed explanation, and a generic message that
    carries the code for every other integer. Used only to enrich log text. */
module Rcode {
  import opened Decimal
  import opened Explode
  import opened Optional

  /** The codes the table knows: 0 to 11 and 16 to 23. */
  predicate IsRegistered(rcode: int) {
    0 <= rcode <= 11 || 16 <= rcode <= 23
  }

  // One description per registered code, under the code's registry mnemonic.
  // Each is written as its label and its explanation so that the label can be
  // read off cheaply; the concatenation is the table's text.
  const NoErrorText: string := "No Error"
  const FormErrText: string := "Format Error: " + "The name server was unable to interpret the query."
  const ServFailText: string := "Server Failure: " + "The name server was unable to process this query due to a problem with the name server."
  const NXDomainText: string := "Name Error: " + "Meaningful only for responses from an authoritative name server, this code signifies that the domain name referenced in the query does not exist."
  const NotImpText: string := "Not Implemented: " + "The name server does not support the requested kind of query."
  const RefusedText: string := "Refused: " + "The name server refuses to perform the specified operation for policy reasons.  For example, a name server may not wish to provide the information to the particular requester, or a name server may not wish to perform a particular operation (e.g., zone transfer) for particular data."
  const YXDomainText: string := "YXDomain: " + "Name Exists when it should not."
  const YXRRSetText: string := "YXRRSet: " + "RR Set Exists when it should not (a RR Set is a collection of records with the same record type, for example, a collection of A records for a given host name)."
  const NXRRSetText: string := "NXRRSet: " + "RR Set that should exist does not (a RR Set is a collection of records with the same record type, for example, a collection of A records for a given host name)."
  const NotAuthText: string := "NotAuth: " + "Server Not Authoritative for zone."
  const NotZoneText: string := "NotZone: " + "Name not contained in zone."
  const DSOTypeNIText: string := "DSOTYPENI: " + "DSO-TYPE Not Implemented (a DSO-TYPE is a mechanism for storing and retrieving information other than DNS RR information)."
  const BadVersText: string := "BADVERS: " + "Bad OPT Version (an OPT Version is a way to indicate that a DNS message is EDNS0-enabled, and EDNS0 is a backwards-compatible extension to DNS)."
  const BadKeyText: string := "BADKEY: " + "Key not recognized (where Key is a key for a DNSSEC-related operation)."
  const BadTimeText: string := "BADTIME: " + "Signature out of time window."
  const BadModeText: string := "BADMODE: " + "Bad TKEY Mode (A TKEY is a temporary key used to authenticate messages and to negotiate authenticated keys)."
  const BadNameText: string := "BADNAME: " + "Duplicate key name."
  const BadAlgText: string := "BADALG: " + "Algorithm not supported."
  const BadTruncText: string := "BADTRUNC: " + "Bad Truncation."
  const BadCookieText: string := "BADCOOKIE: " + "Bad/missing Server Cookie."

  /** The fixed table: a description for each registered code, nothing for
      any other integer. */
  function Entry(rcode: int): (e: Option<string>)
    ensures e.Some? <==> IsRegistered(rcode)
  {
    match rcode
    case 0 => Some(NoErrorText)
    case 1 => Some(FormErrText)
    case 2 => Some(ServFailText)
    case 3 => Some(NXDomainText)
    case 4 => Some(NotImpText)
    case 5 => Some(RefusedText)
    case 6 => Some(YXDomainText)
    case 7 => Some(YXRRSetText)
    case 8 => Some(NXRRSetText)
    case 9 => Some(NotAuthText)
    case 10 => Some(NotZoneText)
    case 11 => Some(DSOTypeNIText)
    case 16 => Some(BadVersText)
    case 17 => Some(BadKeyText)
    case 18 => Some(BadTimeText)
    case 19 => Some(BadModeText)
    case 20 => Some(BadNameText)
    case 21 => Some(BadAlgText)
    case 22 => Some(BadTruncText)
    case 23 => Some(BadCookieText)
    case _ => None
  }

  const UnknownPrefix: string := "Unknown or undefined DNS RCODE \""
  const UnknownSuffix: string := "\", refer to IANA DNS Parameters Registry for more information."

  /** `DNSRCodeToString`: the table entry, or the unknown-code message. */
  function Describe(rcode: int): (s: string)
    ensures |s| >= 1
    ensures s[0] == 'U' <==> !IsRegistered(rcode)
  {
    match Entry(rcode)
    case Some(d) => d
    case None => UnknownPrefix + IntToString(rcode) + UnknownSuffix
  }

  /** Code 5 is described as a refusal. */
  lemma RefusedDescription()
    ensures Describe(5)[..8] == "Refused:"
  {
  }

  /** Every unregistered code gets the generic message. */
  lemma UnknownDescription(rcode: int)
    requires !IsRegistered(rcode)
    ensures |Describe(rcode)| > |UnknownPrefix| && Describe(rcode)[..|UnknownPrefix|] == UnknownPrefix
  {
  }

  /** Every unregistered code's message spells out the code. */
  lemma UnknownMentionsCode(rcode: int)
    requires !IsRegistered(rcode)
    ensures Mentions(Describe(rcode), IntToString(rcode))
  {
    MentionsMiddle(UnknownPrefix, IntToString(rcode), UnknownSuffix);
  }

  /** The code can be read back from its unknown-code message. */
  lemma UnknownCodeReadBack(rcode: int)
    requires !IsRegistered(rcode)
    ensures var s := Describe(rcode);
            var digits := s[|UnknownPrefix|..|s| - |UnknownSuffix|];
            |digits| >= 1 &&
            (if digits[0] == '-' then |digits| >= 2 && AllDigits(digits[1..]) else AllDigits(digits)) &&
            StringToInt(digits) == rcode
  {
    var s := Describe(rcode);
    assert s[|UnknownPrefix|..|s| - |UnknownSuffix|] == IntToString(rcode);
    IntRoundTrip(rcode);
  }

  /** Distinct codes are described by distinct strings, so a logged
      description identifies the code. */
  lemma DescribeInjective(a: int, b: int)
    requires Describe(a) == Describe(b)
    ensures a == b
  {
    if !IsRegistered(a) && !IsRegistered(b) {
      UnknownCodeReadBack(a);
      UnknownCodeReadBack(b);
    } else if IsRegistered(a) && IsRegistered(b) {
      if a != b {
        RegisteredDistinct(a, b);
      }
    }
  }

  /** The registered descriptions all have different lengths, so the length
      alone recovers the code. */
  ghost function CodeOfLength(n: nat): int
  {
    match n
    case 8 => 0
    case 25 => 22
    case 28 => 20
    case 32 => 21
    case 36 => 10
    case 37 => 23
    case 38 => 18
    case 41 => 6
    case 43 => 9
    case 64 => 1
    case 78 => 4
    case 79 => 17
    case 103 => 2
    case 117 => 19
    case 133 => 11
    case 153 => 16
    case 157 => 3
    case 168 => 7
    case 169 => 8
    case 291 => 5
    case _ => -1
  }

  /** A registered code is recovered from its description's length. */
  lemma CodeOfLengthReadsBack(rcode: int)
    requires IsRegistered(rcode)
    ensures CodeOfLength(|Entry(rcode).value|) == rcode
  {
  }

  lemma RegisteredDistinct(a: int, b: int)
    requires IsRegistered(a) && IsRegistered(b) && a != b
    ensures Entry(a) != Entry(b)
  {
    CodeOfLengthReadsBack(a);
    CodeOfLengthReadsBack(b);
  }
}
