/** The endpoint resolver: the API base chosen from the page's host name, and the
    full URL of an endpoint under that base. The host name (`window.location.hostname`
    in the browser) is a parameter. */
module ApiConfig {

  /** Same-origin path that a development proxy forwards to the detection service. */
  const ProxyBase := "/api"
  /** Absolute URL of the detection service on its fixed local port. */
  const DirectBase := "http://localhost:8000"

  const DetectTick := "/detect-tick"
  const Health := "/health"

  predicate IsLocalhost(hostname: string)
    ensures IsLocalhost(hostname) <==> hostname in {"localhost", "127.0.0.1"}
  {
    hostname == "localhost" || hostname == "127.0.0.1"
  }

  /** `API_CONFIG.baseURL`: the proxy path on a local development host, the absolute URL otherwise. */
  function BaseUrl(hostname: string): (r: string)
    ensures r == ProxyBase <==> IsLocalhost(hostname)
    ensures r == DirectBase <==> !IsLocalhost(hostname)
  {
    if IsLocalhost(hostname) then ProxyBase else DirectBase
  }

  /** `getApiUrl(endpoint)`: the base followed by the endpoint, nothing in between. */
  function GetApiUrl(hostname: string, endpoint: string): (r: string)
    ensures |r| == |BaseUrl(hostname)| + |endpoint|
    ensures r[..|BaseUrl(hostname)|] == BaseUrl(hostname)
    ensures r[|BaseUrl(hostname)|..] == endpoint
  {
    BaseUrl(hostname) + endpoint
  }

  /** On one host, distinct endpoints give distinct URLs. */
  lemma GetApiUrlInjective(hostname: string, e1: string, e2: string)
    requires GetApiUrl(hostname, e1) == GetApiUrl(hostname, e2)
    ensures e1 == e2
  {
    var n := |BaseUrl(hostname)|;
    assert e1 == GetApiUrl(hostname, e1)[n..];
  }

  /** A URL resolved on a local host never coincides with one resolved elsewhere:
      the first starts with '/', the second with 'h'. */
  lemma LocalAndRemoteUrlsDiffer(local: string, remote: string, e1: string, e2: string)
    requires IsLocalhost(local) && !IsLocalhost(remote)
    ensures GetApiUrl(local, e1) != GetApiUrl(remote, e2)
  {
    assert GetApiUrl(local, e1)[0] == '/';
    assert GetApiUrl(remote, e2)[0] == 'h';
  }

  /** The URL the detection request is posted to, for both kinds of host. */
  lemma DetectTickUrl(hostname: string)
    ensures IsLocalhost(hostname) ==> GetApiUrl(hostname, DetectTick) == "/api/detect-tick"
    ensures !IsLocalhost(hostname) ==> GetApiUrl(hostname, DetectTick) == "http://localhost:8000/detect-tick"
  {
  }
}
