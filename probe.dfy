/**
 One health check of one endpoint: what came back from the request, and how
 that is classified as UP or DOWN.
 */
module Probe {

  /** The hostname of an endpoint's URL; a URL without a hostname has none.
      It is the key under which results are aggregated. */
  datatype Domain = Host(name: string) | NoHost

  /** A configured endpoint, reduced to what the per-cycle computation reads.
      The HTTP method, headers and body only shape the request. */
  datatype Endpoint = Endpoint(url: string, domain: Domain)

  /** Why a request raised instead of returning a response. All of these end
      up as DOWN; they are kept apart only to name the cases. */
  datatype FailureKind = Timeout | ConnectionError | OtherError

  /** What a request produced, as far as the health check sees it: a
      response with its status code, or an `Exception` raised before a 2xx
      status was seen (the 0.5 s total timeout is one). A 2xx response
      followed by an exception while the response is being closed counts as
      `Response(code)`: the status has already been set to UP by then. */
  datatype Outcome = Response(code: int) | Raised(kind: FailureKind)

  datatype Status = Up | Down

  /** The pair a health check returns: the endpoint's domain and its status. */
  datatype ProbeResult = ProbeResult(domain: Domain, status: Status)

  /** The class of a status code: `code / 100`, the hundreds class
      (section 15 of RFC 9110). */
  function StatusClass(code: int): int
  {
    code / 100
  }

  /** UP exactly when a response arrived and its code is in the half-open
      range [200, 300); every other code, and an `Exception` raised before a
      2xx status was seen, is DOWN. */
  function Classify(outcome: Outcome): (s: Status)
    ensures s == Up <==> outcome.Response? && 200 <= outcome.code < 300
  {
    match outcome
    case Response(code) => if 200 <= code < 300 then Up else Down
    case Raised(_) => Down
  }

  /** UP is exactly the "Successful" 2xx class of section 15.3 of RFC 9110. */
  lemma {:induction false} ClassifyIsSuccessfulClass(outcome: Outcome)
    ensures Classify(outcome) == Up <==> outcome.Response? && StatusClass(outcome.code) == 2
  {
    if outcome.Response? {
      var c := outcome.code;
      if 200 <= c < 300 {
        assert c == 200 + (c - 200) && 0 <= c - 200 < 100;
      } else if c < 200 {
        assert c / 100 < 2;
      } else {
        assert c / 100 >= 3;
      }
    }
  }

  /** The boundaries of the range: 200 and 299 are UP; 199, 300, 404, 503, a
      timeout and a refused connection are DOWN. */
  lemma ClassifyBoundaries()
    ensures Classify(Response(200)) == Up && Classify(Response(299)) == Up
    ensures Classify(Response(199)) == Down && Classify(Response(300)) == Down
    ensures Classify(Response(404)) == Down && Classify(Response(503)) == Down
    ensures Classify(Raised(Timeout)) == Down && Classify(Raised(ConnectionError)) == Down
  {
  }

  /** One health check: the status starts as DOWN and becomes UP only when a
      response with a 2xx code arrives. An `Exception` raised before that
      is swallowed and leaves it DOWN. */
  method CheckHealth(endpoint: Endpoint, outcome: Outcome) returns (result: ProbeResult)
    ensures result.domain == endpoint.domain
    ensures result.status == Up <==> outcome.Response? && 200 <= outcome.code < 300
    ensures result.status == Classify(outcome)
  {
    var domain := endpoint.domain;
    var status := Down;
    match outcome {
      case Response(code) =>
        if 200 <= code < 300 {
          status := Up;
        }
      case Raised(_) =>
    }
    result := ProbeResult(domain, status);
  }
}
