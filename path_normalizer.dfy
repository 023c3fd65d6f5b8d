/**
 * From the request URI to the resource path: the service URL's deployment
 * path and the binding endpoint are removed, then the API version prefix.
 */
module PathNormalizer {
  import opened Wrappers
  import opened JavaStrings

  /** The binding's endpoint below the service path. */
  const StaBindingEndpoint: string := "/sta"

  /** The only API version the binding serves. */
  const Version10: string := "v1.0"

  /** What `java.net.URL` reports of the configured service URL. */
  datatype UrlParts = UrlParts(protocol: string, authority: string)

  /**
   * The deployment path of the service URL: the text with every `protocol://`
   * removed, then with every occurrence of a non-empty authority removed.
   */
  function ServicePath(serviceUrl: string, url: UrlParts): (r: string)
    ensures |r| <= |serviceUrl|
  {
    var service := RemoveAll(serviceUrl, url.protocol + "://");
    if url.authority != [] then RemoveAll(service, url.authority) else service
  }

  /** The text whose occurrences are cut out of the request URI. */
  function Prefix(serviceUrl: string, url: UrlParts): string {
    ServicePath(serviceUrl, url) + StaBindingEndpoint
  }

  /**
   * `extractDecodablePath`: the request URI with every occurrence of the
   * service path followed by the endpoint removed. `url` is `None` when the
   * configured text is not a URL (MalformedURLException).
   */
  function DecodablePath(serviceUrl: string, url: Option<UrlParts>, requestUri: string): (r: Option<string>)
    ensures r.Some? <==> url.Some?
    ensures r.Some? ==> |r.value| <= |requestUri|
    ensures r.Some? && !Contains(requestUri, Prefix(serviceUrl, url.value)) ==> r.value == requestUri
  {
    match url
    case None => None
    case Some(parts) => Some(RemoveAll(requestUri, Prefix(serviceUrl, parts)))
  }

  /** A request URI made of the prefix and a rest free of it decodes to that rest. */
  lemma DecodablePathStripsPrefix(serviceUrl: string, parts: UrlParts, rest: string)
    requires !Contains(rest, Prefix(serviceUrl, parts))
    ensures DecodablePath(serviceUrl, Some(parts), Prefix(serviceUrl, parts) + rest) == Some(rest)
  {
    RemoveAllLeading(Prefix(serviceUrl, parts), rest);
  }

  /**
   * Every occurrence of the prefix is deleted, wherever it stands: the
   * decodable path is the text between the occurrences, put together.
   */
  lemma DecodablePathIsJoinedPieces(serviceUrl: string, parts: UrlParts, requestUri: string)
    ensures DecodablePath(serviceUrl, Some(parts), requestUri)
              == Some(Join(Pieces(requestUri, Prefix(serviceUrl, parts)), []))
  {
    RemoveAllIsJoinedPieces(requestUri, Prefix(serviceUrl, parts));
  }

  /**
   * A request URI holding the prefix twice loses both: the text between them
   * and the text after the second are what is left.
   */
  lemma DecodablePathRepeatedPrefix(serviceUrl: string, parts: UrlParts, mid: string, rest: string)
    requires Prefix(serviceUrl, parts)[0] !in mid && !Contains(rest, Prefix(serviceUrl, parts))
    ensures var p := Prefix(serviceUrl, parts);
      DecodablePath(serviceUrl, Some(parts), p + mid + p + rest) == Some(mid + rest)
  {
    var p := Prefix(serviceUrl, parts);
    assert p + mid + p + rest == p + (mid + p + rest);
    RemoveAllLeading(p, mid + p + rest);
    RemoveAllAfterFreePrefix(mid, p, rest);
  }

  /**
   * For a URL written `protocol://authority/path`, the deployment path is
   * `/path`, provided neither removal finds a second occurrence.
   */
  lemma ServicePathOfUrl(protocol: string, authority: string, path: string)
    requires authority != []
    requires !Contains(authority + path, protocol + "://")
    requires !Contains(path, authority)
    ensures ServicePath((protocol + "://") + (authority + path), UrlParts(protocol, authority)) == path
  {
    RemoveAllLeading(protocol + "://", authority + path);
    RemoveAllLeading(authority, path);
  }

  /**
   * For a service URL `protocol://authority/path`, a request URI `/path/sta`
   * followed by a rest decodes to that rest.
   */
  lemma DecodablePathOfUrl(serviceUrl: string, requestUri: string, protocol: string, authority: string,
                            path: string, rest: string)
    requires serviceUrl == (protocol + "://") + (authority + path)
    requires requestUri == path + StaBindingEndpoint + rest
    requires authority != []
    requires !Contains(authority + path, protocol + "://")
    requires !Contains(path, authority)
    requires !Contains(rest, path + StaBindingEndpoint)
    ensures DecodablePath(serviceUrl, Some(UrlParts(protocol, authority)), requestUri) == Some(rest)
  {
    ServicePathOfUrl(protocol, authority, path);
    DecodablePathStripsPrefix(serviceUrl, UrlParts(protocol, authority), rest);
  }

  // Proof steps of DecodablePathExample below: facts about its literal texts,
  // each kept in a lemma of its own so that the example's proof stays small.

  lemma NoSecondProtocol()
    ensures !Contains("localhost:8080/52n-sos-webapp/service", "http://")
  {
    AbsentFirstPair("localhost:8080/52n-sos-webapp/service", "http://");
  }

  lemma NoSecondAuthority()
    ensures !Contains("/52n-sos-webapp/service", "localhost:8080")
  {
    AbsentFirstChar("/52n-sos-webapp/service", "localhost:8080");
  }

  lemma NoSecondPrefix()
    ensures !Contains("/v1.0/Datastreams", "/52n-sos-webapp/service/sta")
  {
    AbsentFirstPair("/v1.0/Datastreams", "/52n-sos-webapp/service/sta");
  }

  lemma ExampleHostAndPath()
    ensures "localhost:8080" + "/52n-sos-webapp/service" == "localhost:8080/52n-sos-webapp/service"
    ensures "http" + "://" == "http://"
  {
  }

  lemma ExampleUrlParts()
    ensures "http://localhost:8080/52n-sos-webapp/service" == "http://" + "localhost:8080/52n-sos-webapp/service"
  {
    ExampleSchemeAndHost();
    assert "http://localhost:8080/52n-sos-webapp/service" == "http://localhost:8080" + "/52n-sos-webapp/service";
    ExampleHostAndPath();
    AppendAssoc("http://", "localhost:8080", "/52n-sos-webapp/service");
  }

  lemma ExampleSchemeAndHost()
    ensures "http://localhost:8080" == "http://" + "localhost:8080"
  {
  }

  lemma ExampleUriParts()
    ensures "/52n-sos-webapp/service" + StaBindingEndpoint == "/52n-sos-webapp/service/sta"
    ensures "/52n-sos-webapp/service/sta/v1.0/Datastreams" == "/52n-sos-webapp/service" + StaBindingEndpoint + "/v1.0/Datastreams"
  {
  }

  /** The prefix deleted in the documented deployment. */
  lemma ExamplePrefix()
    ensures Prefix("http://localhost:8080/52n-sos-webapp/service", UrlParts("http", "localhost:8080"))
            == "/52n-sos-webapp/service/sta"
  {
    NoSecondProtocol();
    NoSecondAuthority();
    ExampleHostAndPath();
    ExampleUrlParts();
    ExampleUriParts();
    ServicePathOfUrl("http", "localhost:8080", "/52n-sos-webapp/service");
  }

  /** The example of the method's documentation. */
  lemma DecodablePathExample()
    ensures DecodablePath("http://localhost:8080/52n-sos-webapp/service",
                          Some(UrlParts("http", "localhost:8080")),
                          "/52n-sos-webapp/service/sta/v1.0/Datastreams")
            == Some("/v1.0/Datastreams")
  {
    NoSecondProtocol();
    NoSecondAuthority();
    NoSecondPrefix();
    ExampleHostAndPath();
    ExampleUrlParts();
    ExampleUriParts();
    DecodablePathOfUrl("http://localhost:8080/52n-sos-webapp/service", "/52n-sos-webapp/service/sta/v1.0/Datastreams",
                       "http", "localhost:8080", "/52n-sos-webapp/service", "/v1.0/Datastreams");
  }

  /**
   * The version gate: a decodable path must start with `/v1.0`; the resource
   * path is what is left after every `/v1.0` is removed. `None` is the
   * "Service version not supported" failure.
   */
  function ResourcePathOf(decodable: string): (r: Option<string>)
    ensures r.Some? <==> StartsWith(decodable, "/" + Version10)
    ensures r.Some? ==> r.value == RemoveAll(decodable[5..], "/v1.0")
    ensures r.Some? && !Contains(decodable[5..], "/v1.0") ==> r.value == decodable[5..]
  {
    if StartsWith(decodable, "/" + Version10) then
      assert decodable == "/v1.0" + decodable[5..];
      RemoveAllLeading("/v1.0", decodable[5..]);
      Some(RemoveAll(decodable, "/" + Version10))
    else None
  }
}
