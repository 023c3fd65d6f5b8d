/**
 * The SensorThings binding: one request goes through the stages in a fixed
 * order (decodable path, version gate, resource path, query string,
 * resource classification, dispatch on the HTTP method), and the first
 * stage that fails ends it.
 */
module Binding {
  import opened Wrappers
  import opened JavaStrings
  import opened StaVocabulary
  import opened ResourcePath
  import opened PathNormalizer
  import opened QueryOptions
  import opened Patterns

  /** The binding's one conformance class. */
  const ConformanceClass: string := "http://www.opengis.net/spec/SOS/2.0/conf/json"
  /** `SosConstants.SOS`. */
  const SosService: string := "SOS"
  /** `Sos2Constants.SERVICEVERSION`. */
  const SosVersion: string := "2.0.0"

  /** `getConformanceClasses`: the conformance class for SOS 2.0.0, nothing for any other service or version. */
  function ConformanceClasses(service: string, version: string): (r: set<string>)
    ensures r == {} || r == {ConformanceClass}
    ensures ConformanceClass in r <==> service == SosService && version == SosVersion
  {
    if service == SosService && version == SosVersion then {ConformanceClass} else {}
  }

  /** What the binding reads of an HTTP request. */
  datatype HttpRequest = HttpRequest(verb: string, requestUri: string, queryString: Option<string>)

  datatype Operation = GetObservations | GetObservationsWithId

  /**
   * The key a decoder is looked up by. Its service name
   * (`StaConstants.SERVICE_NAME`) and media type (`application/sta`) are the
   * same for every key and are left implicit.
   */
  datatype DecoderKey = DecoderKey(version: string, operation: Operation)

  /** The outcome of a successful parse. */
  datatype ServiceRequest =
    | /** A GetDatastreams request built in place, carrying the path and the query options. */
      GetDatastreams(version: string, path: seq<PathSegment>, queryOptions: Option<OrderedMap>)
    | /** A request the decoder registered under `key` is asked to build from the resource, the path and the query options. */
      FromDecoder(key: DecoderKey, resource: PathSegment, path: seq<PathSegment>, queryOptions: Option<OrderedMap>)

  /** Why a request was not parsed. */
  datatype RequestError =
    | /** The configured service URL is not a URL (MalformedURLException). */
      MalformedServiceUrl
    | /** The decodable path does not start with `/v1.0`. */
      UnsupportedVersion
    | /** The resource path parser rejected the path. */
      PathRejected(pathError: PathError)
    | /** None of the last three segments is an entity or an entity set. */
      NoDetectableResource
    | /** POST, PATCH and DELETE: "not supported yet". */
      NotSupportedYet(verb: string)
    | /** Any other HTTP method. */
      UnsupportedMethod(verb: string)
    | /** `Option.valueOf` on a `$` segment outside the option vocabulary. */
      UnknownPathOption(token: string)
    | /** The query string decoder threw. */
      QueryRejected(queryError: QueryError)
  {
    /**
     * Whether the binding reports the failure as a NoApplicableCodeException;
     * the other failures are unchecked exceptions that escape it.
     */
    predicate IsReported() {
      !(UnknownPathOption? || QueryRejected?)
    }
  }

  /** The failure the path parser's error becomes. */
  function PathFailure(e: PathError): (r: RequestError)
    ensures r.IsReported() <==> !e.UnknownOption?
  {
    match e
    case UnknownOption(token) => UnknownPathOption(token)
    case _ => PathRejected(e)
  }

  /** The segments of a resource path; the empty path and `/` have none. */
  function Segments(resourcePath: string): Result<seq<PathSegment>, RequestError> {
    if resourcePath == [] || resourcePath == "/" then Success([])
    else
      var d := DecodePath(resourcePath);
      match d.failure
      case Some(e) => Failure(PathFailure(e))
      case None => Success(d.appended)
  }

  /**
   * The query string is trimmed and, when anything is left, decoded; the
   * decoded map is not kept, so only a failure of the decoder matters.
   */
  function QueryFailure(queryString: Option<string>): Option<RequestError> {
    match queryString
    case None => None
    case Some(q) =>
      if Trim(q) == [] then None
      else
        match DecodeQuery(Trim(q))
        case Failure(e) => Some(QueryRejected(e))
        case Success(_) => None
  }

  /**
   * The addressed resource: the last segment if it is an entity or an
   * entity set, else the one before it, else the one before that.
   */
  function SelectResource(path: seq<PathSegment>): (r: Option<PathSegment>)
    ensures r.Some? ==> r.value.component.IsEntityBearing() && r.value in path
  {
    var n := |path|;
    if n > 0 && path[n - 1].component.IsEntityBearing() then Some(path[n - 1])
    else if n > 1 && path[n - 2].component.IsEntityBearing() then Some(path[n - 2])
    else if n > 2 && path[n - 3].component.IsEntityBearing() then Some(path[n - 3])
    else None
  }

  /**
   * The switch on the HTTP method and, for GET, on the resource type. Only
   * Observations (through a decoder) and Datastream give a request; every
   * other resource type leaves it null.
   */
  function Dispatch(verb: string, resource: PathSegment, path: seq<PathSegment>): (r: Result<Option<ServiceRequest>, RequestError>)
    requires resource.component.IsEntityBearing()
    ensures r.Success? <==> verb == "GET"
    ensures r.Success? ==>
      (r.value.Some? <==> resource.component in {EntitySetComponent(Observations), EntityComponent(Datastream)})
    ensures r.Success? && r.value.Some? ==>
      && (r.value.value.FromDecoder? <==> resource.component == EntitySetComponent(Observations))
      && r.value.value.path == path && r.value.value.queryOptions == None
    ensures r.Success? && r.value.Some? && r.value.value.FromDecoder? ==>
      r.value.value.resource == resource && r.value.value.key.version == Version10
  {
    if verb == "GET" then
      match resource.component
      case EntitySetComponent(Observations) =>
        var operation := if resource.id == None || resource.id == Some("") then GetObservations else GetObservationsWithId;
        Success(Some(FromDecoder(DecoderKey(Version10, operation), resource, path, None)))
      case EntityComponent(Datastream) =>
        Success(Some(GetDatastreams(Version10, path, None)))
      case _ => Success(None)
    else if verb == "POST" || verb == "PATCH" || verb == "DELETE" then Failure(NotSupportedYet(verb))
    else Failure(UnsupportedMethod(verb))
  }

  /** `parseRequest`: a service request, null (`None`), or the failure of the first stage that fails. */
  function RequestOutcome(serviceUrl: string, url: Option<UrlParts>, request: HttpRequest): Result<Option<ServiceRequest>, RequestError> {
    match DecodablePath(serviceUrl, url, request.requestUri)
    case None => Failure(MalformedServiceUrl)
    case Some(decodable) =>
      match ResourcePathOf(decodable)
      case None => Failure(UnsupportedVersion)
      case Some(resourcePath) =>
        match Segments(resourcePath)
        case Failure(e) => Failure(e)
        case Success(path) =>
          match QueryFailure(request.queryString)
          case Some(e) => Failure(e)
          case None =>
            match SelectResource(path)
            case None => Failure(NoDetectableResource)
            case Some(resource) => Dispatch(request.verb, resource, path)
  }

  /** The resource path decoded into a fresh list, as `parseRequest` does it. */
  method DecodeSegments(resourcePath: string) returns (r: Result<seq<PathSegment>, RequestError>)
    ensures r == Segments(resourcePath)
  {
    var pathList := new PathList();
    if resourcePath != [] && resourcePath != "/" {
      var failure := DecodeResourcePath(resourcePath, pathList);
      if failure.Some? {
        return Failure(PathFailure(failure.value));
      }
      assert pathList.segments == DecodePath(resourcePath).appended;
    }
    return Success(pathList.segments);
  }

  /** The binding and the service URL it is configured with. */
  class StaBinding {
    var serviceUrl: string

    constructor ()
      ensures serviceUrl == []
    {
      serviceUrl := [];
    }

    /** `setServiceURL`. */
    method SetServiceUrl(url: string)
      modifies this
      ensures serviceUrl == url
    {
      serviceUrl := url;
    }

    /**
     * `parseRequest`, given what `java.net.URL` makes of the configured
     * service URL: the segments go into a fresh list, the query string is
     * decoded and dropped, then the resource is classified and the request
     * dispatched.
     */
    method ParseRequest(url: Option<UrlParts>, request: HttpRequest) returns (r: Result<Option<ServiceRequest>, RequestError>)
      ensures r == RequestOutcome(serviceUrl, url, request)
    {
      var decodable := DecodablePath(serviceUrl, url, request.requestUri);
      if decodable.None? {
        return Failure(MalformedServiceUrl);
      }
      var resourcePath := ResourcePathOf(decodable.value);
      if resourcePath.None? {
        return Failure(UnsupportedVersion);
      }
      var segments := DecodeSegments(resourcePath.value);
      if segments.Failure? {
        return Failure(segments.error);
      }
      var path := segments.value;
      if request.queryString.Some? && Trim(request.queryString.value) != [] {
        var options := DecodeQueryOptions(Trim(request.queryString.value));
        if options.Failure? {
          return Failure(QueryRejected(options.error));
        }
      }
      assert QueryFailure(request.queryString) == None;
      var resource := SelectResource(path);
      if resource.None? {
        return Failure(NoDetectableResource);
      }
      r := Dispatch(request.verb, resource.value, path);
    }
  }

  /** Index of the last entity or entity set of the path, found by a scan over the whole path. */
  function LastEntityBearing(path: seq<PathSegment>): (r: Option<nat>)
    ensures r.Some? ==> r.value < |path| && path[r.value].component.IsEntityBearing()
    ensures r.Some? ==> forall j :: r.value < j < |path| ==> !path[j].component.IsEntityBearing()
    ensures r.None? ==> forall j :: 0 <= j < |path| ==> !path[j].component.IsEntityBearing()
    decreases |path|
  {
    if path == [] then None
    else if path[|path| - 1].component.IsEntityBearing() then Some(|path| - 1)
    else LastEntityBearing(path[..|path| - 1])
  }

  /**
   * The classifier finds the last entity or entity set of the path, but
   * only when it is among the last three segments.
   */
  lemma SelectResourceBoundedScan(path: seq<PathSegment>)
    ensures SelectResource(path) ==
      match LastEntityBearing(path)
      case Some(i) => if i + 3 >= |path| then Some(path[i]) else None
      case None => None
  {
  }

  /** Only GET requests are ever parsed; every other method fails. */
  lemma OnlyGetSucceeds(serviceUrl: string, url: Option<UrlParts>, request: HttpRequest)
    requires RequestOutcome(serviceUrl, url, request).Success?
    ensures request.verb == "GET"
  {
  }

  /**
   * A query string that decodes has no effect: the request is what it would
   * be without one, and no request carries query options.
   */
  lemma QueryOptionsDiscarded(serviceUrl: string, url: Option<UrlParts>, request: HttpRequest)
    requires QueryFailure(request.queryString) == None
    ensures RequestOutcome(serviceUrl, url, request) == RequestOutcome(serviceUrl, url, request.(queryString := None))
    ensures RequestOutcome(serviceUrl, url, request).Success? && RequestOutcome(serviceUrl, url, request).value.Some? ==>
              RequestOutcome(serviceUrl, url, request).value.value.queryOptions == None
  {
  }

  /**
   * A request handed to a decoder is for Observations, and its operation is
   * "with id" exactly when the resource carries an identifier: the parser
   * never yields an empty one.
   */
  lemma ObservationsOperation(serviceUrl: string, url: Option<UrlParts>, request: HttpRequest)
    requires RequestOutcome(serviceUrl, url, request).Success?
    requires RequestOutcome(serviceUrl, url, request).value.Some?
    requires RequestOutcome(serviceUrl, url, request).value.value.FromDecoder?
    ensures var sr := RequestOutcome(serviceUrl, url, request).value.value;
      && sr.resource.component == EntitySetComponent(Observations)
      && (sr.key.operation == GetObservationsWithId <==> sr.resource.id.Some?)
  {
    var decodable := DecodablePath(serviceUrl, url, request.requestUri).value;
    var resourcePath := ResourcePathOf(decodable).value;
    var path := Segments(resourcePath).value;
    assert QueryFailure(request.queryString) == None;
    var resource := SelectResource(path).value;
    assert RequestOutcome(serviceUrl, url, request) == Dispatch(request.verb, resource, path);
    if resourcePath != [] && resourcePath != "/" {
      DecodedIsWellShaped(resourcePath);
    }
    var i :| 0 <= i < |path| && path[i] == resource;
    assert resource.id.Some? ==> resource.id.value != [];
    DispatchToDecoder(request.verb, resource, path);
  }

  lemma DispatchToDecoder(verb: string, resource: PathSegment, path: seq<PathSegment>)
    requires resource.component.IsEntityBearing()
    requires resource.id.Some? ==> resource.id.value != []
    requires var r := Dispatch(verb, resource, path); r.Success? && r.value.Some? && r.value.value.FromDecoder?
    ensures var sr := Dispatch(verb, resource, path).value.value;
      && sr.resource == resource && resource.component == EntitySetComponent(Observations)
      && (sr.key.operation == GetObservationsWithId <==> resource.id.Some?)
  {
  }

  /** An entity set, a property and an option: the classifier looks past the last two. */
  lemma ClassifierExample()
    ensures var path := [Bare(EntitySetComponent(Datastreams)), Bare(ParameterComponent(NameProperty)), Bare(OptionComponent(CountOption))];
      SelectResource(path) == Some(path[0])
  {
  }

  /** Three segments that are not resources after the last resource: the scan does not reach it. */
  lemma ClassifierGivesUp()
    ensures var path := [Bare(EntitySetComponent(Things)), Bare(ParameterComponent(NameProperty)),
                         Bare(ParameterComponent(DescriptionProperty)), Bare(OptionComponent(ValueOption))];
      SelectResource(path) == None && LastEntityBearing(path) == Some(0)
  {
    var path := [Bare(EntitySetComponent(Things)), Bare(ParameterComponent(NameProperty)),
                 Bare(ParameterComponent(DescriptionProperty)), Bare(OptionComponent(ValueOption))];
    assert LastEntityBearing(path[..1]) == Some(0);
    assert path[..2][..1] == path[..1] && LastEntityBearing(path[..2]) == Some(0);
    assert path[..3][..2] == path[..2] && LastEntityBearing(path[..3]) == Some(0);
    assert path[..3] == path[..|path| - 1];
  }

  /** The example pair of `extractDecodablePath`'s documentation is parsed, and yields a null request. */
  lemma DatastreamsExample()
    ensures RequestOutcome("http://localhost:8080/52n-sos-webapp/service", Some(UrlParts("http", "localhost:8080")),
                           HttpRequest("GET", "/52n-sos-webapp/service/sta/v1.0/Datastreams", None))
         == Success(None)
  {
    DecodablePathExample();
    DatastreamsOutcome("http://localhost:8080/52n-sos-webapp/service", Some(UrlParts("http", "localhost:8080")),
                       HttpRequest("GET", "/52n-sos-webapp/service/sta/v1.0/Datastreams", None));
  }

  /**
   * The pair written beside the first lines of `parseRequest` (service URL
   * `…/52n-sos-webapp/service`, request URI `/52n-sos-webapp/sta/v1.0/Datastreams`)
   * is rejected: the URI does not hold `/52n-sos-webapp/service/sta`, so it is
   * its own decodable path, and that does not start with `/v1.0`.
   */
  lemma CommentedRequestRejected()
    ensures RequestOutcome("http://localhost:8080/52n-sos-webapp/service", Some(UrlParts("http", "localhost:8080")),
                           HttpRequest("GET", "/52n-sos-webapp/sta/v1.0/Datastreams", None))
         == Failure(UnsupportedVersion)
  {
    ExamplePrefix();
    CommentedUriLacksPrefix();
    CommentedUriLacksVersion();
  }

  // Proof steps of CommentedRequestRejected: facts about its literal texts,
  // each kept in a lemma of its own so that the proof stays small.

  lemma CommentedUriLacksPrefix()
    ensures !Contains("/52n-sos-webapp/sta/v1.0/Datastreams", "/52n-sos-webapp/service/sta")
  {
    CommentedUriDiverges();
    CommentedUriHead();
    AbsentBeforeShortTail("/52n-sos-webapp/sta/v1.0/Datastreams", "/52n-sos-webapp/service/sta", 10);
  }

  lemma CommentedUriDiverges()
    ensures !StartsWith("/52n-sos-webapp/sta/v1.0/Datastreams", "/52n-sos-webapp/service/sta")
  {
    assert "/52n-sos-webapp/sta/v1.0/Datastreams"[17] != "/52n-sos-webapp/service/sta"[17];
  }

  lemma CommentedUriHead()
    ensures '/' !in "/52n-sos-webapp/sta/v1.0/Datastreams"[1..10]
  {
    var uri := "/52n-sos-webapp/sta/v1.0/Datastreams";
    assert uri[1] != '/' && uri[2] != '/' && uri[3] != '/' && uri[4] != '/' && uri[5] != '/'
        && uri[6] != '/' && uri[7] != '/' && uri[8] != '/' && uri[9] != '/';
    assert forall i :: 1 <= i < 10 ==> uri[i] != '/';
  }

  lemma CommentedUriLacksVersion()
    ensures !StartsWith("/52n-sos-webapp/sta/v1.0/Datastreams", "/" + Version10)
  {
    assert "/52n-sos-webapp/sta/v1.0/Datastreams"[1] != ("/" + Version10)[1];
  }

  /**
   * Whatever the deployment, a GET whose decodable path is `/v1.0/Datastreams`
   * and whose query string, if any, decodes yields a null request.
   */
  lemma DatastreamsOutcome(serviceUrl: string, url: Option<UrlParts>, request: HttpRequest)
    requires DecodablePath(serviceUrl, url, request.requestUri) == Some("/v1.0/Datastreams")
    requires request.verb == "GET" && QueryFailure(request.queryString) == None
    ensures RequestOutcome(serviceUrl, url, request) == Success(None)
  {
    var path := [Bare(EntitySetComponent(Datastreams))];
    VersionGateExample();
    DatastreamsSegments();
    OutcomeOfStages(serviceUrl, url, request, "/v1.0/Datastreams", "/Datastreams", path);
    assert SelectResource(path) == Some(path[0]);
  }

  /** Once the path stages have succeeded and the query string decodes, classification and dispatch decide. */
  lemma OutcomeOfStages(serviceUrl: string, url: Option<UrlParts>, request: HttpRequest,
                        decodable: string, resourcePath: string, path: seq<PathSegment>)
    requires DecodablePath(serviceUrl, url, request.requestUri) == Some(decodable)
    requires ResourcePathOf(decodable) == Some(resourcePath)
    requires Segments(resourcePath) == Success(path)
    requires QueryFailure(request.queryString) == None
    ensures SelectResource(path).None? ==> RequestOutcome(serviceUrl, url, request) == Failure(NoDetectableResource)
    ensures SelectResource(path).Some? ==>
              RequestOutcome(serviceUrl, url, request) == Dispatch(request.verb, SelectResource(path).value, path)
  {
  }

  lemma VersionGateExample()
    ensures ResourcePathOf("/v1.0/Datastreams") == Some("/Datastreams")
  {
    AbsentFirstPair("/Datastreams", "/v1.0");
    VersionPrefix();
  }

  // Proof step of VersionGateExample: a fact about its literal text, kept in a
  // lemma of its own so that the example's proof stays small.

  lemma VersionPrefix()
    ensures StartsWith("/v1.0/Datastreams", "/" + Version10) && "/v1.0/Datastreams"[5..] == "/Datastreams"
  {
  }

  lemma DatastreamsSegments()
    ensures Segments("/Datastreams") == Success([Bare(EntitySetComponent(Datastreams))])
  {
    assert IsName("Datastreams");
    ResolveNameRoundTrip(EntitySetComponent(Datastreams));
    BareNameStep("Datastreams");
    SlashStep("Datastreams");
    assert "/Datastreams" == "/" + "Datastreams";
  }
}
