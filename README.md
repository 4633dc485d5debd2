# DoH e-mail domain validator: a Dafny model

This project models the PHP e-mail domain validator's core. The validator checks an
address's syntax, takes its domain, and asks DNS-over-HTTPS (DoH) resolvers for the
domain's MX records. It tries the resolvers in order. A resolver whose HTTP transport or
JSON decoding fails is skipped, and the next one is tried. The first resolver that returns
decodable JSON decides the verdict:

- RCODE 5 (refused) rejects the domain;
- any other non-zero RCODE rejects it;
- a missing `Answer`, or a first answer of `0.0.0.0` (a sinkhole), rejects it;
- anything else accepts it.

If every resolver is skipped, the validator throws. Each attempt logs exactly one entry,
and the text of that entry names the resolver and the address or domain being checked.

The same procedure appears twice in the source:

- as the class method `EmailValidator::isValid`, which stores the default resolver list in
  the object the first time it is needed, logs messages that name the domain, and throws
  the library's own exceptions;
- as the free function `validateEmailDomainWithDoH`, which takes the list on every call,
  logs messages that name the whole address, and throws plain exceptions.

Each binding carries its own copy of the RCODE description table (`DNSRCodeToString`). The
two copies are the same text. The shared code takes the binding's table as a parameter
(`describe`), and both bindings pass `Rcode.Describe`.

Layout:

- `optional.dfy`: the option type.
- `decimal.dfy`: how PHP interpolates an `int` into a string, and the parser that reads
  the digits back.
- `explode.dfy`: PHP `explode` on one character, the `implode` that undoes it, and
  substring containment (`Mentions`).
- `rcode.dfy`: `DNSRCodeToString`.
- `logging.dfy`: the logger, as an append-only list of entries.
- `doh_query.dfy`: everything the two bindings share:
  - the domain of an address, the query URL and the default resolver list;
  - the classification of one reply and the log entry for each kind of attempt;
  - the specification function `Walk`, which gives the outcome of trying a resolver list
    in order, with its lemmas;
  - the loop body (`QueryResolver`) and the fallback loop (`Fallback`), each proved
    against `Walk`.
- `email_validator.dfy`: the `EmailValidator` class and its exceptions' messages.
- `validate_email_domain_with_doh.dfy`: the free function.

Outside inputs become parameters:

- The network is a function from query URL to reply. A reply holds the body as cURL
  returned it, already decoded by `json_decode` (or the JSON error), and the HTTP status
  code.
- The verdict of `filter_var($email, FILTER_VALIDATE_EMAIL)` is the boolean `syntaxOk`.
  That filter never accepts an address without `@`, so the model requires an `@` whenever
  `syntaxOk` holds.
- Both bindings return a ghost list of the URLs they requested. It shows that no resolver
  after the deciding one is ever queried.

In the source the loop body is written out twice, once per binding. The model defines it
once, as `DohQuery.QueryResolver` inside `DohQuery.Fallback`. The only things that differ
between the bindings are the subject the messages name and the copy of the RCODE table
they use.

Two behaviours of the code that a reader might expect to be otherwise are modelled as written:

- The domain is `explode('@', $email)[1]`, which is the text between the first `@` and the
  second `@` (or the end of the address). It is not "everything after the first `@`".
- An empty resolver list that the caller supplies is not replaced by the defaults. The loop
  then runs zero times and the validator throws. Only a missing list (`null`) is defaulted.

## Model

| member | source | states |
|---|---|---|
| Decimal.IntToString | src/EmailValidator.php:93 | An interpolated `int` is a non-empty numeral. It begins with `-` exactly when the number is negative, and is otherwise all digits. |
| Decimal.NatRoundTrip | src/EmailValidator.php:93 | Reading back the digits printed for a natural number gives that number. |
| Decimal.IntRoundTrip | src/EmailValidator.php:110 | Reading back the numeral printed for an integer, such as the RCODE in a log message, gives that integer. |
| Decimal.IntToStringInjective | src/EmailValidator.php:110 | Different integers are printed differently, so a logged code identifies the code. |
| Explode.Split | src/EmailValidator.php:60 | `explode` always returns at least one piece. |
| Explode.SplitPiecesFree | src/EmailValidator.php:60 | No piece returned by `explode` contains the separator. |
| Explode.JoinSplit | src/EmailValidator.php:60 | Gluing the pieces back together with the separator gives the original address. |
| Explode.SplitAtLeastTwo | src/EmailValidator.php:58-60 | An address holding `@` splits into at least two pieces, so index 1 exists. |
| Explode.SplitFreePrefix | src/EmailValidator.php:60 | A leading run without the separator only lengthens the first piece. |
| Explode.SplitAtFirst | src/EmailValidator.php:60 | `x@y`, with no `@` in `x`, splits into `x` followed by the pieces of `y`. |
| Rcode.Entry | src/EmailValidator.php:133-154 | The table has an entry exactly for the registered codes 0 to 11 and 16 to 23. |
| Rcode.Describe | src/EmailValidator.php:129-159 | The description is non-empty. It starts with `U` (the unknown-code message) exactly when the code is not in the table. The free function's copy (validateEmailDomainWithDoH.php lines 7 to 37) is the same text. |
| Rcode.RefusedDescription | src/EmailValidator.php:139 | Code 5 is described as `Refused:`. |
| Rcode.UnknownDescription | src/EmailValidator.php:155-157 | Every code outside the table gets the generic unknown-code message. |
| Rcode.UnknownMentionsCode | src/EmailValidator.php:156 | The unknown-code message contains the code's numeral. |
| Rcode.UnknownCodeReadBack | src/EmailValidator.php:156 | The code can be parsed back from its unknown-code message. |
| Rcode.DescribeInjective | src/EmailValidator.php:133-158 | Different codes get different descriptions. |
| Rcode.CodeOfLengthReadsBack | src/EmailValidator.php:134-153 | Each registered code's description has a length of its own, from which the code is recovered. |
| Rcode.RegisteredDistinct | src/EmailValidator.php:134-153 | The twenty table entries are pairwise different. |
| Logging.Logger.Warning | src/Psr/Log/Logger.php:29-32 | Logging a warning appends exactly one warning entry with that message. |
| Logging.Logger.Debug | src/Psr/Log/Logger.php:44-47 | Logging a debug message appends exactly one debug entry with that message. |
| DohQuery.EffectiveServers | src/EmailValidator.php:67-77 | A given list is used as it is, even when empty. A missing list becomes the four default resolvers, each an `https://` endpoint. |
| DohQuery.EffectiveServersStable | src/EmailValidator.php:67-77 | Defaulting is idempotent: once the list is stored back it stays the same. |
| DohQuery.DomainOf | src/EmailValidator.php:58-60 | The extracted domain contains no `@`. |
| DohQuery.DomainOfCharacterized | src/EmailValidator.php:58-60 | For `local@domain` followed by nothing or by another `@…`, the extracted domain is exactly `domain`. |
| DohQuery.QueryUrl | src/EmailValidator.php:80 | The query URL starts with the resolver's URL prefix, and is 14 characters longer than the prefix and the domain together. |
| DohQuery.QueryUrlRoundTrip | src/EmailValidator.php:80 | The query URL asks for MX records of exactly the extracted domain, which can be read back from the URL. |
| DohQuery.QueryUrls | src/EmailValidator.php:79-80 | There is one query URL per resolver, in list order. |
| DohQuery.Classify | src/EmailValidator.php:92-117 | A reply counts as a transport failure exactly when cURL returned nothing or the HTTP status is not 200, and that status is kept. A JSON failure keeps the decoder's error text. A refusal or an RCODE error only comes from decoded JSON with a non-zero RCODE. An RCODE error keeps that RCODE, which is never 5. Conversely, for a 200 carrying decoded JSON: the reply is a refusal exactly when the RCODE is 5; any other non-zero RCODE `s` gives the RCODE error for `s`; and it is sinkholed exactly when the RCODE is 0 and the `Answer` is missing or starts with `0.0.0.0`. |
| DohQuery.ClassifyDecides | src/EmailValidator.php:92-120 | A reply decides (does not skip) exactly when it is a 200 with decodable JSON. It accepts exactly when, in addition, the RCODE is 0 and an `Answer` is present whose first record, if any, is not `0.0.0.0`. |
| DohQuery.LogFor | src/EmailValidator.php:92-120 | The entry is a warning exactly for the four failure kinds. A sinkhole and an acceptance log a debug entry. |
| DohQuery.ClassifyLogLevel | src/EmailValidator.php:92-120 | The entry logged for a reply is a warning exactly when the reply is not a 200 carrying decoded JSON with RCODE 0. A non-zero RCODE other than 5 is logged with the binding's description of that code, in double quotes. |
| DohQuery.TransportFailedMessage | src/EmailValidator.php:93 | The transport-failure message ends with the HTTP status code's numeral. |
| DohQuery.BadJsonMessage | src/EmailValidator.php:100 | The JSON-error message ends with the decoder's error text. |
| DohQuery.RefusedMessage | src/EmailValidator.php:105 | The refusal message ends with the note naming RCODE 5 and what it may mean. |
| DohQuery.RcodeErrorMessage | src/EmailValidator.php:110 | The RCODE-error message ends with the code's description in double quotes. |
| DohQuery.SinkholedMessage | src/EmailValidator.php:115 | The sinkhole message starts with `Domain of email: ` followed by the subject. |
| DohQuery.AnsweredMessage | src/EmailValidator.php:119 | The acceptance message ends with the resolver's name in double quotes, followed by ` server.`. |
| DohQuery.TransportFailedMentions | src/EmailValidator.php:93 | The transport-failure message names the resolver and the subject. |
| DohQuery.BadJsonMentions | src/EmailValidator.php:100 | The JSON-error message names the resolver and the subject. |
| DohQuery.RefusedMentions | src/EmailValidator.php:105 | The refusal message names the resolver and the subject. |
| DohQuery.RcodeErrorMentions | src/EmailValidator.php:110 | The RCODE-error message names the resolver and the subject. |
| DohQuery.SinkholedMentions | src/EmailValidator.php:115 | The sinkhole message names the resolver and the subject. |
| DohQuery.AnsweredMentions | src/EmailValidator.php:119 | The acceptance message names the resolver and the subject. |
| DohQuery.LogForMentions | src/EmailValidator.php:92-120 | Every entry names the resolver and the subject. |
| DohQuery.QueryResolver | src/EmailValidator.php:80-120 | One iteration requests the resolver's query URL. It classifies the reply as `Classify` does and appends exactly the one entry that the classification calls for. The free function's loop body (validateEmailDomainWithDoH.php lines 92 to 132) is the same, with the address as the subject. |
| DohQuery.Walk | src/EmailValidator.php:79-124 | Trying the list records at most one attempt per resolver. If no verdict is reached, every resolver was tried. |
| DohQuery.WalkAttempts | src/EmailValidator.php:79-121 | Resolvers are tried in list order. Every attempt before the last was skipped. Either the last attempt decides the verdict (true only for an acceptance), or every attempt was skipped. |
| DohQuery.WalkLog | src/EmailValidator.php:79-121 | One log entry per attempt, in order. |
| DohQuery.WalkLogMentions | src/EmailValidator.php:79-121 | Each logged entry names the resolver attempted at that position and the subject. |
| DohQuery.WalkResume | src/EmailValidator.php:79-121 | After skipping the first `i` resolvers, the rest of the run is the run from resolver `i`. One more step either skips resolver `i` or ends the run there. |
| DohQuery.WalkLogSnoc | src/EmailValidator.php:79-121 | One more attempt appends one entry, for the next resolver. |
| DohQuery.QueryUrlsSnoc | src/EmailValidator.php:79-80 | One more resolver appends one URL. |
| DohQuery.WalkDecidedAt | src/EmailValidator.php:104-120 | If every resolver before `i` is skipped and resolver `i` decides, then resolver `i` fixes the verdict and exactly `i + 1` resolvers are tried. |
| DohQuery.WalkUndecidedIff | src/EmailValidator.php:79-124 | No verdict is reached (so the validator throws) exactly when every resolver in the list is skipped. |
| DohQuery.WalkStep | src/EmailValidator.php:79-121 | The run is the first resolver's attempt followed, when that attempt is skipped, by the run on the remaining resolvers. |
| DohQuery.WalkAppend | src/EmailValidator.php:79-121 | Resolvers after the deciding one never matter. Trying `first + more` gives `first`'s result when `first` decides, and otherwise continues into `more`. |
| DohQuery.FallbackAdvance | src/EmailValidator.php:79-121 | One turn of the loop either skips the resolver and moves the loop's state on to the next one, or decides, and the loop has then done exactly what `Walk` specifies. |
| DohQuery.FallbackDone | src/EmailValidator.php:79-124 | When the loop runs past the last resolver, `Walk` reaches no verdict, and the URLs and entries are all of `Walk`'s. |
| DohQuery.Fallback | src/EmailValidator.php:79-124 | The loop's verdict, the URLs it requests and the entries it logs are exactly those of `Walk`. The free function runs the same loop (validateEmailDomainWithDoH.php lines 91 to 136), with the address as the subject. |
| Validator.InvalidSyntaxMessage | src/InvalidSyntaxException.php:14 | The syntax exception's text is its argument between `«` and `»`, followed by ` is not a valid email address.`, so the argument can be read back from it. |
| Validator.InvalidSyntaxMessageInjective | src/InvalidSyntaxException.php:12-15 | Different arguments give different syntax-exception texts. |
| Validator.UnableToVerifyMessage | src/UnableToVerifyException.php:15 | The domain can be read back from the "unable to verify" text, between its fixed opening and closing sentences. |
| Validator.UnableToVerifyMessageMentionsDomain | src/UnableToVerifyException.php:12-16 | The "unable to verify" text contains the domain, and different domains give different texts. |
| Validator.InvalidSyntaxMessageAsWritten | src/EmailValidator.php:55 | The syntax exception's text, as the code builds it, quotes `Invalid email address format: ` followed by the address, not the address alone (the sentence is formatted by InvalidSyntaxException.php line 14). |
| Validator.InvalidSyntaxMessageDoubleWrapped | src/EmailValidator.php:54-56 | As written, the thrown text wraps the formatted sentence in the exception's own sentence, which differs from quoting the address itself. |
| Validator.EmailValidator.constructor | src/EmailValidator.php:18-22 | The new object holds the given logger and resolver list. |
| Validator.EmailValidator.IsValid | src/EmailValidator.php:52-125 | If the syntax check fails, it throws the syntax exception for the address, and queries, logs and changes nothing. Otherwise the stored list becomes the effective list, with the defaults filled in only when it was missing. It returns `Walk`'s verdict over that list for the extracted domain, or throws "unable to verify" for that domain when there is none. It requests exactly the URLs `Walk` tries, and logs exactly `Walk`'s entries, naming the domain. |
| DohFunction.InvalidFormatMessage | validateEmailDomainWithDoH.php:67 | The format-error message is `Invalid email address format: ` followed by the address, which can be read back from it. |
| DohFunction.AllFailedMessage | validateEmailDomainWithDoH.php:136 | The address can be read back from the all-failed message, between its fixed opening and closing sentences. |
| DohFunction.ThrownMessagesDistinguishable | validateEmailDomainWithDoH.php:66-136 | The all-failed message contains the address. Different addresses give different format-error messages, and different all-failed messages. A format-error message never equals an all-failed message. |
| DohFunction.ValidateEmailDomainWithDoH | validateEmailDomainWithDoH.php:64-137 | If the syntax check fails, it throws the format error and queries and logs nothing. Otherwise it returns `Walk`'s verdict over the given list, or over the defaults when none was given, for the extracted domain. When there is no verdict it throws the all-failed message naming the address. It requests exactly the URLs `Walk` tries, and logs exactly `Walk`'s entries, naming the whole address. |

## Left out

- cURL, the HTTP headers and the HTTP/2 option are not modelled. The network is a function from URL to reply, so the model cannot express a resolver that answers the same URL differently on two calls. Within one validation each resolver's URL is requested at most once, so this matters only when two list entries share a URL prefix.
- `json_decode` is taken as already done. These cases are not modelled:
  - a top-level JSON value that is not an object, such as `null`;
  - a `Status` that is missing or not an integer. PHP's loose `==` and strict `!==` would treat these differently, and `DNSRCodeToString(int)` would raise a type error;
  - an `Answer[0]` without a `data` field.
- `DohQuery.Classify`: `Answer` is a list of the records' `data` strings. A JSON `null` `Answer` counts as absent, as `isset` treats it. An `Answer` that is an object instead of an array is not modelled.
- `filter_var` with `FILTER_VALIDATE_EMAIL` is not reimplemented. Its verdict is the `syntaxOk` parameter, and the model only relies on an accepted address containing `@`.
- The logger's printing is not modelled, since the model only records the entries. The other log levels go unused by the core.
- PHP integers are 64-bit. The model's HTTP codes and RCODEs are unbounded, because the core does no arithmetic on them.
- The resolver list is a PHP array keyed by display name. The model keeps it as an ordered list of (name, URL prefix) pairs, so duplicate names cannot occur in PHP but are not ruled out in the model. PHP's integer-keyed (list-style) arrays, where the "name" is the position, are not modelled.
- The command-line drivers and test runners (`RunTests.php`, `tests/RunTests.php`) are not part of this model.
- `json_last_error_msg()` is not modelled as PHP's fixed set of messages. The error text is part of the reply.

## Findings

| source | as written | input that shows it | evidently intended | confidence | as-written member | corrected member |
|---|---|---|---|---|---|---|
| src/EmailValidator.php:55 | `isValid` passes the already formatted `"Invalid email address format: {$email}"` as the `$email` argument of `InvalidSyntaxException`, which wraps it again. | `"not-an-address"` is thrown as `«Invalid email address format: not-an-address» is not a valid email address.` | The exception receives the address itself: `«not-an-address» is not a valid email address.` | medium, not executed | Validator.InvalidSyntaxMessageDoubleWrapped | Validator.InvalidSyntaxMessage |
