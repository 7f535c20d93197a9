/** The base-URL policy of src/services/api.ts. The page's location is read
    once at module load; here the host name and port are parameters. */
module ApiConfig {

  /** The API behind the development proxy, or served from the page's own port. */
  const LocalHttpUrl := "http://localhost:8080/api"
  /** The default local HTTPS API. */
  const LocalHttpsUrl := "https://localhost:7238/api"
  /** The production API. */
  const ProductionUrl := "https://gerenciamento-de-cursos.onrender.com/api"

  predicate IsLoopback(hostname: string) {
    hostname == "localhost" || hostname == "127.0.0.1" || hostname == "[::1]"
  }

  /** getApiUrl: ordered rules, the first that matches wins. Each URL is
      characterised below by the inputs that produce it, independently of the
      order of the rules. */
  function GetApiUrl(hostname: string, port: string): (url: string)
    ensures url == LocalHttpUrl <==>
      (hostname == "localhost" && port == "3000") || (IsLoopback(hostname) && port == "8080")
    ensures url == LocalHttpsUrl <==>
      IsLoopback(hostname) && port != "8080" && !(hostname == "localhost" && port == "3000")
    ensures url == ProductionUrl <==> !IsLoopback(hostname)
  {
    if hostname == "localhost" && port == "3000" then
      LocalHttpUrl
    else if IsLoopback(hostname) then
      if port == "8080" then LocalHttpUrl else LocalHttpsUrl
    else
      ProductionUrl
  }

  /** The scheme of a URL is plain HTTP. */
  predicate IsPlainHttp(url: string) {
    |url| >= 7 && url[..7] == "http://"
  }

  /** The resolver is total and only ever yields one of the three URLs. */
  lemma GetApiUrlIsKnown(hostname: string, port: string)
    ensures GetApiUrl(hostname, port) in {LocalHttpUrl, LocalHttpsUrl, ProductionUrl}
  {
  }

  /** A plain-HTTP URL comes out exactly for localhost:3000 and for a loopback
      host on port 8080; every other input gets an HTTPS URL. */
  lemma PlainHttpExactly(hostname: string, port: string)
    ensures IsPlainHttp(GetApiUrl(hostname, port)) <==>
      (hostname == "localhost" && port == "3000") || (IsLoopback(hostname) && port == "8080")
  {
    assert IsPlainHttp(LocalHttpUrl);
    assert LocalHttpsUrl[4] == 's' && ProductionUrl[4] == 's';
  }

  /** Rule 1: the development server on localhost:3000 talks to port 8080. */
  lemma DevServerUsesPort8080()
    ensures GetApiUrl("localhost", "3000") == LocalHttpUrl
  {
  }

  /** Rule 2: a page served from port 8080 on any loopback name talks to port 8080. */
  lemma LoopbackPort8080(hostname: string)
    requires IsLoopback(hostname)
    ensures GetApiUrl(hostname, "8080") == LocalHttpUrl
  {
  }

  /** Rule 1 tests only the name "localhost": 127.0.0.1:3000 and [::1]:3000
      fall through to the local HTTPS API, not to port 8080. */
  lemma OtherLoopbackPort3000()
    ensures GetApiUrl("127.0.0.1", "3000") == LocalHttpsUrl
    ensures GetApiUrl("[::1]", "3000") == LocalHttpsUrl
  {
  }

  /** Rule 3, as the test suite expects it: localhost with no port. */
  lemma LocalhostWithoutPort()
    ensures GetApiUrl("localhost", "") == LocalHttpsUrl
  {
  }

  /** Rule 4: any other host name reaches production, whatever the port. */
  lemma NonLoopbackIsProduction(hostname: string, port: string)
    requires !IsLoopback(hostname)
    ensures GetApiUrl(hostname, port) == ProductionUrl
  {
  }
}
