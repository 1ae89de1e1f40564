/** The declarative description of one call and the way it is turned into a
    request (Utilities/APICall.swift). */
module ApiCall {
  import opened Types
  import opened Urls

  /** `HTTPMethod`. */
  datatype HTTPMethod = Connect | Delete | Get | Head | Options | Patch | Post | Put | Trace {
    /** `method`: the upper-case name sent on the wire. */
    function Method(): string {
      match this
      case Connect => "CONNECT"
      case Delete => "DELETE"
      case Get => "GET"
      case Head => "HEAD"
      case Options => "OPTIONS"
      case Patch => "PATCH"
      case Post => "POST"
      case Put => "PUT"
      case Trace => "TRACE"
    }
  }

  /** The wire name is a non-empty word of upper-case ASCII letters, and no two
      methods share a name. */
  lemma MethodNamesUpperCaseAndInjective(m: HTTPMethod, n: HTTPMethod)
    ensures |m.Method()| > 0
    ensures forall i :: 0 <= i < |m.Method()| ==> 'A' <= m.Method()[i] <= 'Z'
    ensures m.Method() == n.Method() ==> m == n
  {
  }

  /** The error a JSON encoder throws; its content is the encoder's business. */
  datatype EncodingError = EncodingError(description: string)

  /** `DataTask`: how the body of a request is obtained. `V` is the encodable
      value, `P` the parameter dictionary. */
  datatype DataTask<V, P> =
    | Encodable(value: V)
    | Parameters(params: P)
    | UploadFile(fileUrl: Url, name: string)
    | DownloadFile(fileUrl: Url)
  {
    /** `body(encoder:)`. `encode` stands for the JSON encoder, `archive` for
        `Dictionary.toData()` (a keyed archive, nil on failure). */
    function Body(encode: V -> Result<Bytes, EncodingError>, archive: P -> Option<Bytes>)
      : (r: Result<Option<Bytes>, EncodingError>)
      ensures (UploadFile? || DownloadFile?) ==> r == Success(None)
      ensures Encodable? ==> (r.Failure? <==> encode(value).Failure?)
      ensures Encodable? && r.Success? ==> r.value == Some(encode(value).value)
      ensures Encodable? && r.Failure? ==> r.error == encode(value).error
      ensures Parameters? ==> r == Success(archive(params))
    {
      match this
      case Encodable(v) =>
        (match encode(v)
         case Success(data) => Success(Some(data))
         case Failure(e) => Failure(e))
      case Parameters(p) => Success(archive(p))
      case _ => Success(None)
    }
  }

  /** A type conforming to `APICall`. */
  datatype Endpoint<V, P> = Endpoint(path: string, httpMethod: HTTPMethod,
                                     headers: Option<map<string, string>>,
                                     dataTask: Option<DataTask<V, P>>)

  /** Foundation's `URLRequest`, reduced to the four properties the core sets and reads. */
  datatype URLRequest = URLRequest(url: Option<Url>, httpMethod: Option<string>,
                                   allHTTPHeaderFields: Option<map<string, string>>,
                                   httpBody: Option<Bytes>)

  /** What `urlRequest(baseURL:encoder:headers:)` builds: the path appended
      to the base URL, the endpoint's method, the encoded body, and the
      default headers with the endpoint's own headers merged over them. */
  predicate Built<V, P>(endpoint: Endpoint<V, P>, baseURL: Url,
                        encode: V -> Result<Bytes, EncodingError>, archive: P -> Option<Bytes>,
                        headers: map<string, string>, q: URLRequest)
  {
    && q.url == Some(baseURL.AppendingPathComponent(endpoint.path))
    && q.httpMethod == Some(endpoint.httpMethod.Method())
    && (endpoint.dataTask.None? ==> q.httpBody.None?)
    && (endpoint.dataTask.Some? ==>
          endpoint.dataTask.value.Body(encode, archive).Success?
          && q.httpBody == endpoint.dataTask.value.Body(encode, archive).value)
    && q.allHTTPHeaderFields.Some?
    && (endpoint.headers.None? ==> q.allHTTPHeaderFields.value == headers)
    && (endpoint.headers.Some? ==>
          var merged, api := q.allHTTPHeaderFields.value, endpoint.headers.value;
          && merged.Keys == headers.Keys + api.Keys
          && (forall k | k in api :: merged[k] == api[k])
          && (forall k | k in headers && k !in api :: merged[k] == headers[k]))
  }

  /** `Built` pins the request down completely: whatever order the header
      dictionary is merged in, the same request comes out. */
  lemma BuiltIsDeterministic<V, P>(endpoint: Endpoint<V, P>, baseURL: Url,
                                   encode: V -> Result<Bytes, EncodingError>, archive: P -> Option<Bytes>,
                                   headers: map<string, string>, q1: URLRequest, q2: URLRequest)
    requires Built(endpoint, baseURL, encode, archive, headers, q1)
    requires Built(endpoint, baseURL, encode, archive, headers, q2)
    ensures q1 == q2
  {
    var m1, m2 := q1.allHTTPHeaderFields.value, q2.allHTTPHeaderFields.value;
    assert m1.Keys == m2.Keys;
    assert forall k | k in m1 :: m1[k] == m2[k];
    assert m1 == m2;
  }

  /** `urlRequest(baseURL:encoder:headers:)`. The path is appended to the base
      URL, the endpoint's headers overwrite the defaults one key at a time (in
      the dictionary's unspecified order), and the body comes from the data
      task; a throwing encoder makes the whole call throw. */
  method UrlRequest<V, P>(endpoint: Endpoint<V, P>, baseURL: Url,
                          encode: V -> Result<Bytes, EncodingError>, archive: P -> Option<Bytes>,
                          headers: map<string, string>)
    returns (r: Result<URLRequest, EncodingError>)
    ensures r.Failure? <==> endpoint.dataTask.Some? && endpoint.dataTask.value.Body(encode, archive).Failure?
    ensures r.Failure? ==> r.error == endpoint.dataTask.value.Body(encode, archive).error
    ensures r.Success? ==> Built(endpoint, baseURL, encode, archive, headers, r.value)
  {
    var url := baseURL.AppendingPathComponent(endpoint.path);
    var baseHeaders := headers;
    if endpoint.headers.Some? {
      var api := endpoint.headers.value;
      var pending := api.Keys;
      while pending != {}
        invariant pending <= api.Keys
        invariant baseHeaders.Keys == headers.Keys + (api.Keys - pending)
        invariant forall k | k in api && k !in pending :: baseHeaders[k] == api[k]
        invariant forall k | k in headers && k !in api :: baseHeaders[k] == headers[k]
        invariant forall k | k in headers && k in pending :: baseHeaders[k] == headers[k]
        decreases pending
      {
        var k :| k in pending;
        baseHeaders := baseHeaders[k := api[k]];
        pending := pending - {k};
      }
    }
    var body: Option<Bytes> := None;
    if endpoint.dataTask.Some? {
      var b := endpoint.dataTask.value.Body(encode, archive);
      if b.Failure? {
        return Failure(b.error);
      }
      body := b.value;
    }
    r := Success(URLRequest(Some(url), Some(endpoint.httpMethod.Method()), Some(baseHeaders), body));
  }

  /** `Range<Int>`, a half-open interval of status codes. */
  datatype HTTPCodes = HTTPCodes(lowerBound: int, upperBound: int) {
    predicate Contains(code: int) {
      lowerBound <= code < upperBound
    }
  }

  /** `HTTPCodes.success`, `200 ..< 300`. */
  const SuccessCodes: HTTPCodes := HTTPCodes(200, 300)

  /** The success range holds exactly the codes 200 through 299. */
  lemma SuccessCodesAreTwoHundreds(code: int)
    ensures SuccessCodes.Contains(code) <==> 200 <= code <= 299
  {
  }
}
