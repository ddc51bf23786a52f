/** The errors a provider call can end with, and `throwProviderException`'s classification. */
module Failures {

  datatype ErrorKind = RateLimited | ClientError | ServerError

  /** A `ProviderException`: its message and the status of the response it carries. */
  datatype ProviderError = ProviderError(kind: ErrorKind, message: string, status: int)

  datatype Failure =
    | Provider(error: ProviderError)
    /** The transport has no further response to give. */
    | TransportExhausted
    /** The body is not the JSON document the call decodes. */
    | Undecodable
    /** `getContent()` on a 304 answered to a request without `If-None-Match`. */
    | Redirection(status: int)
    /** A missing array entry reaching a typed parameter or return value. */
    | TypeError(what: string)

  /** The first value of a response header; a missing header formats as the empty string. */
  function Header(headers: map<string, string>, name: string): string
  {
    if name in headers then headers[name] else ""
  }

  function RateLimitMessage(headers: map<string, string>): string
  {
    "Rate limit exceeded (" + Header(headers, "x-rate-limit-limit") + "). please wait "
      + Header(headers, "x-rate-limit-reset") + " seconds."
  }

  /** `throwProviderException`: 429 is a rate limit, other statuses up to 500 the caller's error, the rest a server error. */
  function Classify(status: int, headers: map<string, string>, message: string): (e: ProviderError)
    ensures e.status == status
    ensures e.kind == RateLimited <==> status == 429
    ensures e.kind == ClientError <==> status != 429 && status <= 500
    ensures e.kind == ServerError <==> status > 500
    ensures e.kind == RateLimited ==> e.message == RateLimitMessage(headers)
    ensures e.kind == ClientError ==> e.message == message
    ensures e.kind == ServerError ==> e.message == "Provider server error."
  {
    if status == 429 then ProviderError(RateLimited, RateLimitMessage(headers), status)
    else if status <= 500 then ProviderError(ClientError, message, status)
    else ProviderError(ServerError, "Provider server error.", status)
  }

  /** The three outcomes of the exception data set. */
  lemma ClassifyExamples(message: string)
    ensures Classify(400, map[], message).message == message
    ensures Classify(429, map["x-rate-limit-limit" := "1000", "x-rate-limit-reset" := "60"], message).message
      == "Rate limit exceeded (1000). please wait 60 seconds."
    ensures Classify(503, map[], message).message == "Provider server error."
    ensures Classify(500, map[], message).kind == ClientError && Classify(501, map[], message).kind == ServerError
  {
  }
}
