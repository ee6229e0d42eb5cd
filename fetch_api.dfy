/**
 * The parts of the Fetch API the site relies on: a request (method and URL), a
 * response (status and body) and the outcome of `fetch`, which either resolves
 * with a response of any status or rejects with a network error.
 */
module FetchApi {

  /** A parsed URL: the service worker looks at `url.origin` and `url.pathname`; the cache key is the whole URL. */
  datatype Url = Url(origin: string, pathname: string, search: string)

  datatype Request = Request(httpMethod: string, url: Url)

  datatype Response = Response(status: int, body: string) {
    /** `response.ok`: the status is in the range 200-299. */
    predicate Ok() {
      200 <= status <= 299
    }
  }

  /** `await fetch(...)`: a response of any status, or a rejection with a network error. */
  datatype FetchOutcome = Responded(response: Response) | NetworkError

  /** `new Response('Offline - Resource not available', { status: 503 })`. */
  const Offline: Response := Response(503, "Offline - Resource not available")
}
