/** The network client of the currency converter: the error taxonomy and
    its messages, the classification of a completed data task into a
    decoded payload or an error, and the construction of the outgoing
    request (target, query items, headers, body).

    The platform's JSON parser, JSON decoder, URL parser and JSON
    serialiser are not modelled; each enters as a function parameter
    (an oracle) whose answer the model takes as given. */
module HTTPRequests {
  import opened Wrappers
  import Decimal

  /** The HTTP verb of a request; the client only ever uses Get and Post. */
  datatype HTTPMethod = HTTPMethod(rawValue: string)

  const Get := HTTPMethod("GET")
  const Post := HTTPMethod("POST")

  /** The base URL and API key the client is configured with. */
  datatype APIConfig = APIConfig(baseURL: string, apiKey: string)

  /** The configuration when the app bundle names neither value: both
      fall back to the same local address. */
  const FallbackConfig := APIConfig("http://localhost:3000", "http://localhost:3000")

  /** An error raised by the platform (a transport failure, a decoder
      failure), known to the model only by its localized description. */
  datatype Cause = Cause(localizedDescription: string)

  datatype NetworkError =
    | InvalidURL
    | NoData
    | DecodingError(cause: Cause)
    | HttpError(statusCode: int)
    | Disconnected
    | PotentialError(statusCode: int, info: string)

  /** The error a completion handler receives: either one of the client's
      own errors or the transport's error, passed through unchanged. */
  datatype Error = Network(networkError: NetworkError) | Transport(cause: Cause)

  const UnauthorizedMessage := "Unauthorized. Please check your API key."
  const RateLimitMessage := "You have exceeded your monthly request limit."
  const HttpErrorPrefix := "HTTP error with status code "

  /** The message of a client error (`errorDescription`, never nil). */
  function ErrorDescription(e: NetworkError): (d: string)
    ensures e == InvalidURL ==> d == "The URL is invalid."
    ensures e == NoData ==> d == "No data was received from the server."
    ensures e.DecodingError? ==> d == e.cause.localizedDescription
    ensures e == HttpError(401) ==> d == UnauthorizedMessage
    ensures e == HttpError(429) ==> d == RateLimitMessage
    ensures e.HttpError? && e.statusCode != 401 && e.statusCode != 429 ==>
              d == HttpErrorPrefix + Decimal.IntToString(e.statusCode) + "."
    ensures e == Disconnected ==> d == "No internet connection."
    ensures e.PotentialError? ==> d == e.info
  {
    match e
    case InvalidURL => "The URL is invalid."
    case NoData => "No data was received from the server."
    case DecodingError(cause) => cause.localizedDescription
    case HttpError(statusCode) =>
      if statusCode == 401 then UnauthorizedMessage
      else if statusCode == 429 then RateLimitMessage
      else HttpErrorPrefix + Decimal.IntToString(statusCode) + "."
    case Disconnected => "No internet connection."
    case PotentialError(_, info) => info
  }

  /** The generic message names the status code: two status codes that get
      the generic message get the same one only if they are equal. */
  lemma HttpErrorDescriptionNamesStatus(m: int, n: int)
    requires m != 401 && m != 429 && n != 401 && n != 429
    requires ErrorDescription(HttpError(m)) == ErrorDescription(HttpError(n))
    ensures m == n
  {
    var dm, dn := Decimal.IntToString(m), Decimal.IntToString(n);
    var p := |HttpErrorPrefix|;
    assert (HttpErrorPrefix + dm + ".")[p..p + |dm|] == dm;
    assert (HttpErrorPrefix + dn + ".")[p..p + |dn|] == dn;
    assert |dm| == |dn|;
  }

  /** What `localizedDescription` gives for an error a completion receives. */
  function LocalizedDescription(e: Error): (d: string)
    ensures e.Network? ==> d == ErrorDescription(e.networkError)
    ensures e.Transport? ==> d == e.cause.localizedDescription
  {
    match e
    case Network(n) => ErrorDescription(n)
    case Transport(c) => c.localizedDescription
  }

  // ---------------------------------------------------------------------
  // Classifying a completed data task

  /** What a data task reports as its response. */
  datatype URLResponse = HTTPURLResponse(statusCode: int) | OtherResponse

  type Data = seq<bv8>

  /** The `{code, info}` pair of a provider error body, when the body is
      a JSON object whose `code` is an Int and whose `info` is a String. */
  datatype ProviderErrorBody = ProviderErrorBody(code: int, info: string)

  predicate IsSuccessStatus(statusCode: int) {
    200 <= statusCode <= 299
  }

  /** The completion a data task's outcome leads to (`handleError`).
      `parseErrorBody` stands for the JSON inspection of an error body and
      `decode` for the JSON decoder of the expected payload type. */
  function HandleError<T>(response: Option<URLResponse>, data: Option<Data>, error: Option<Cause>,
                          parseErrorBody: Data -> Option<ProviderErrorBody>,
                          decode: Data -> Result<T, Cause>): (r: Result<T, Error>)
    // a transport error wins, whatever the response
    ensures error.Some? ==> r == Failure(Transport(error.value))
    // a response that is not an HTTP response: no data
    ensures error.None? && (response.None? || response.value.OtherResponse?) ==> r == Failure(Network(NoData))
    // 429, whatever the body
    ensures error.None? && response == Some(HTTPURLResponse(429)) ==> r == Failure(Network(HttpError(429)))
    // any other failure status: the provider's error body if it has one, else the status itself
    ensures error.None? && response.Some? && response.value.HTTPURLResponse? ==>
              var status := response.value.statusCode;
              !IsSuccessStatus(status) && status != 429 ==>
                if data.Some? && parseErrorBody(data.value).Some?
                then r == Failure(Network(PotentialError(parseErrorBody(data.value).value.code,
                                                         parseErrorBody(data.value).value.info)))
                else r == Failure(Network(HttpError(status)))
    // a success status: the decoded body, or the reason there is none
    ensures error.None? && response.Some? && response.value.HTTPURLResponse? &&
            IsSuccessStatus(response.value.statusCode) ==>
              if data.None? then r == Failure(Network(NoData))
              else match decode(data.value)
                   case Success(v) => r == Success(v)
                   case Failure(c) => r == Failure(Network(DecodingError(c)))
    // success exactly when nothing went wrong
    ensures r.Success? <==>
              error.None? && response.Some? && response.value.HTTPURLResponse? &&
              IsSuccessStatus(response.value.statusCode) && data.Some? && decode(data.value).Success?
  {
    if error.Some? then Failure(Transport(error.value))
    else if response.None? || !response.value.HTTPURLResponse? then Failure(Network(NoData))
    else
      var status := response.value.statusCode;
      if !IsSuccessStatus(status) then
        if status == 429 then Failure(Network(HttpError(status)))
        else if data.Some? && parseErrorBody(data.value).Some? then
          var body := parseErrorBody(data.value).value;
          Failure(Network(PotentialError(body.code, body.info)))
        else Failure(Network(HttpError(status)))
      else if data.None? then Failure(Network(NoData))
      else match decode(data.value)
           case Success(v) => Success(v)
           case Failure(c) => Failure(Network(DecodingError(c)))
  }

  /** With a 429 response the body is never looked at: any two bodies and
      body parsers lead to the same rate-limit error. */
  lemma RateLimitIgnoresBody<T>(d1: Option<Data>, d2: Option<Data>,
                                p1: Data -> Option<ProviderErrorBody>, p2: Data -> Option<ProviderErrorBody>,
                                decode: Data -> Result<T, Cause>)
    ensures HandleError(Some(HTTPURLResponse(429)), d1, None, p1, decode)
         == HandleError(Some(HTTPURLResponse(429)), d2, None, p2, decode)
         == Failure(Network(HttpError(429)))
  {
  }

  /** The code of a provider error is the body's `code`, never the HTTP
      status: any two failing statuses other than 429 with the same
      parsed body report the same provider error. */
  lemma ProviderCodeComesFromBody<T>(s1: int, s2: int, data: Data, parse: Data -> Option<ProviderErrorBody>,
                                     body: ProviderErrorBody, decode: Data -> Result<T, Cause>)
    requires !IsSuccessStatus(s1) && s1 != 429 && !IsSuccessStatus(s2) && s2 != 429
    requires parse(data) == Some(body)
    ensures HandleError(Some(HTTPURLResponse(s1)), Some(data), None, parse, decode)
         == HandleError(Some(HTTPURLResponse(s2)), Some(data), None, parse, decode)
         == Failure(Network(PotentialError(body.code, body.info)))
  {
  }

  /** A 401 response without a provider error body is reported with the
      unauthorized message, through the generic HTTP error case. */
  lemma UnauthorizedMessageFor401<T>(data: Option<Data>, parse: Data -> Option<ProviderErrorBody>,
                                     decode: Data -> Result<T, Cause>)
    requires data.None? || parse(data.value).None?
    ensures var r := HandleError(Some(HTTPURLResponse(401)), data, None, parse, decode);
            r == Failure(Network(HttpError(401))) && LocalizedDescription(r.error) == UnauthorizedMessage
  {
  }

  // ---------------------------------------------------------------------
  // Building the request

  datatype URLQueryItem = URLQueryItem(name: string, value: string)

  datatype Header = Header(field: string, value: string)

  /** The URL a request is sent to, before percent-encoding: the target
      string it was parsed from and its query items. */
  datatype URL = URL(target: string, queryItems: seq<URLQueryItem>)

  datatype URLRequest = URLRequest(url: URL, httpMethod: string, headers: seq<Header>, httpBody: Option<Data>)

  /** `order` is an iteration order of the dictionary `params`: every key
      exactly once. */
  predicate IsIterationOrder(order: seq<string>, params: map<string, string>) {
    (forall i, j :: 0 <= i < j < |order| ==> order[i] != order[j]) &&
    (forall i :: 0 <= i < |order| ==> order[i] in params) &&
    (forall key :: key in params ==> key in order)
  }

  /** The caller's parameters as query items, in the dictionary's iteration order. */
  function ParameterItems(params: map<string, string>, order: seq<string>): (items: seq<URLQueryItem>)
    requires IsIterationOrder(order, params)
    ensures |items| == |order|
    ensures forall i :: 0 <= i < |items| ==> items[i].name == order[i]
    ensures forall i :: 0 <= i < |items| ==> items[i].name in params && params[items[i].name] == items[i].value
    ensures forall i, j :: 0 <= i < j < |items| ==> items[i].name != items[j].name
    ensures forall key :: key in params ==> exists i :: 0 <= i < |items| && items[i] == URLQueryItem(key, params[key])
  {
    var items := seq(|order|, i requires 0 <= i < |order| => URLQueryItem(order[i], params[order[i]]));
    assert forall key | key in params :: exists i :: 0 <= i < |items| && items[i] == URLQueryItem(key, params[key]) by {
      forall key | key in params
        ensures exists i :: 0 <= i < |items| && items[i] == URLQueryItem(key, params[key])
      {
        var i :| 0 <= i < |order| && order[i] == key;
        assert items[i] == URLQueryItem(key, params[key]);
      }
    }
    items
  }

  /** The full query list: the access key first, then the caller's parameters. */
  function QueryItems(config: APIConfig, queryParams: Option<map<string, string>>, order: seq<string>): (items: seq<URLQueryItem>)
    requires queryParams.Some? ==> IsIterationOrder(order, queryParams.value)
    ensures |items| >= 1 && items[0] == URLQueryItem("access_key", config.apiKey)
    ensures queryParams.None? ==> |items| == 1
    ensures queryParams.Some? ==> items[1..] == ParameterItems(queryParams.value, order)
  {
    [URLQueryItem("access_key", config.apiKey)] +
    (if queryParams.Some? then ParameterItems(queryParams.value, order) else [])
  }

  /** The value of the first header with the given field, if any. */
  function HeaderValue(headers: seq<Header>, field: string): (v: Option<string>)
    ensures v.None? <==> forall i :: 0 <= i < |headers| ==> headers[i].field != field
    ensures v.Some? ==> exists i :: 0 <= i < |headers| && headers[i] == Header(field, v.value)
  {
    if headers == [] then None
    else if headers[0].field == field then Some(headers[0].value)
    else
      var v := HeaderValue(headers[1..], field);
      assert v.Some? ==> headers[1..][0..] == headers[1..];
      v
  }

  /** The pure part of `request`: the request it sends, or InvalidURL when
      the target string or the target with its query does not form a URL.
      `parsesAsURLComponents` and `formsURL` stand for the platform's URL
      parser; `serialize` for JSON serialisation of the body, which may
      fail. `order` is the iteration order of `queryParams`. */
  method BuildRequest<B>(config: APIConfig, endpoint: string, httpMethod: HTTPMethod,
                         queryParams: Option<map<string, string>>, order: seq<string>, body: Option<B>,
                         parsesAsURLComponents: string -> bool,
                         formsURL: (string, seq<URLQueryItem>) -> bool,
                         serialize: B -> Option<Data>)
    returns (r: Result<URLRequest, NetworkError>)
    requires queryParams.Some? ==> IsIterationOrder(order, queryParams.value)
    ensures r.Failure? ==> r.error == InvalidURL
    ensures r.Success? <==>
              parsesAsURLComponents("https://" + config.baseURL + endpoint) &&
              formsURL("https://" + config.baseURL + endpoint, QueryItems(config, queryParams, order))
    ensures r.Success? ==>
              var req := r.value;
              req.url.target == "https://" + config.baseURL + endpoint &&
              req.url.queryItems == QueryItems(config, queryParams, order) &&
              req.httpMethod == httpMethod.rawValue &&
              HeaderValue(req.headers, "Authorization") == Some("Bearer " + config.apiKey) &&
              HeaderValue(req.headers, "Content-Type") == (if body.Some? then Some("application/json") else None) &&
              |req.headers| == (if body.Some? then 2 else 1) &&
              req.httpBody == (if body.Some? then serialize(body.value) else None)
  {
    var target := "https://" + config.baseURL + endpoint;
    if !parsesAsURLComponents(target) {
      return Failure(InvalidURL);
    }
    var queryItems := [URLQueryItem("access_key", config.apiKey)];
    if queryParams.Some? {
      queryItems := queryItems + ParameterItems(queryParams.value, order);
    }
    assert queryItems == QueryItems(config, queryParams, order);
    var url := URL(target, queryItems);
    if !formsURL(url.target, url.queryItems) {
      return Failure(InvalidURL);
    }
    var request := URLRequest(url, httpMethod.rawValue, [], None);
    request := request.(headers := request.headers + [Header("Authorization", "Bearer " + config.apiKey)]);
    if body.Some? {
      request := request.(httpBody := serialize(body.value));
      request := request.(headers := request.headers + [Header("Content-Type", "application/json")]);
    }
    return Success(request);
  }

  /** `get`: a GET request with the caller's query and never a body, so
      its only header is Authorization. */
  method GetRequest(config: APIConfig, endpoint: string, queryParams: Option<map<string, string>>, order: seq<string>,
                    parsesAsURLComponents: string -> bool,
                    formsURL: (string, seq<URLQueryItem>) -> bool)
    returns (r: Result<URLRequest, NetworkError>)
    requires queryParams.Some? ==> IsIterationOrder(order, queryParams.value)
    ensures r.Failure? ==> r.error == InvalidURL
    ensures r.Success? <==>
              parsesAsURLComponents("https://" + config.baseURL + endpoint) &&
              formsURL("https://" + config.baseURL + endpoint, QueryItems(config, queryParams, order))
    ensures r.Success? ==>
              r.value.url == URL("https://" + config.baseURL + endpoint, QueryItems(config, queryParams, order)) &&
              r.value.httpMethod == "GET" &&
              r.value.headers == [Header("Authorization", "Bearer " + config.apiKey)] &&
              r.value.httpBody == None
  {
    var noBody: Option<Data> := None;
    r := BuildRequest(config, endpoint, Get, queryParams, order, noBody,
                      parsesAsURLComponents, formsURL, (d: Data) => Some(d));
  }

  /** `post`: a POST request with the caller's query and optional body. */
  method PostRequest<B>(config: APIConfig, endpoint: string, queryParams: Option<map<string, string>>, order: seq<string>,
                        body: Option<B>,
                        parsesAsURLComponents: string -> bool,
                        formsURL: (string, seq<URLQueryItem>) -> bool,
                        serialize: B -> Option<Data>)
    returns (r: Result<URLRequest, NetworkError>)
    requires queryParams.Some? ==> IsIterationOrder(order, queryParams.value)
    ensures r.Failure? ==> r.error == InvalidURL
    ensures r.Success? <==>
              parsesAsURLComponents("https://" + config.baseURL + endpoint) &&
              formsURL("https://" + config.baseURL + endpoint, QueryItems(config, queryParams, order))
    ensures r.Success? ==>
              r.value.url == URL("https://" + config.baseURL + endpoint, QueryItems(config, queryParams, order)) &&
              r.value.httpMethod == "POST" &&
              HeaderValue(r.value.headers, "Authorization") == Some("Bearer " + config.apiKey) &&
              HeaderValue(r.value.headers, "Content-Type") == (if body.Some? then Some("application/json") else None) &&
              |r.value.headers| == (if body.Some? then 2 else 1) &&
              r.value.httpBody == (if body.Some? then serialize(body.value) else None)
  {
    r := BuildRequest(config, endpoint, Post, queryParams, order, body,
                      parsesAsURLComponents, formsURL, serialize);
  }
}
