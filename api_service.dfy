/** The request pipeline (APIServices/APIService.swift): classifying a decoded
    envelope, the list of in-flight session tasks, and the cURL rendering of a
    request used for debug logging. */
module ApiService {
  import opened Types
  import opened Urls
  import opened ApiErrors
  import opened Responses
  import opened ApiCall

  /** `APIService.APIConfig`: options for building the base URL. */
  datatype APIConfig = HasSSL | Path(path: string)

  // ---------------------------------------------------------------- classification

  /** The `tryMap` step of `requestJSON`: no code is the default error, a code
      other than 200 is an error built from the envelope, and 200 passes the
      envelope through untouched, whether or not it carries data. */
  function Classify<T>(response: Response<T>): (r: Result<Response<T>, APIError>)
    ensures response.code.None? ==> r == Failure(DefaultError())
    ensures response.code.Some? && response.code.value != 200 ==>
              r == Failure(APIError(response.code, response.message))
    ensures response.code == Some(200) ==> r == Success(response)
  {
    match response.code
    case None => Failure(DefaultError())
    case Some(errorCode) =>
      if errorCode != 200 then Failure(response.Error().GetOr(DefaultError()))
      else Success(response)
  }

  /** The `?? APIError.defaultError()` fallback is never taken. */
  lemma ErrorFallbackIsDead<T>(response: Response<T>)
    ensures response.Error().GetOr(DefaultError()) == response.Error().value
  {
  }

  /** Success depends on the envelope's own code alone; every failure carries
      the envelope's code and, when there is one, its message. */
  lemma ClassifySucceedsExactlyOnSuccessCode<T>(response: Response<T>)
    ensures Classify(response).Success? <==> response.code == Some(SuccessCode.RawValue())
    ensures Classify(response).Failure? ==> Classify(response).error.code == response.code
    ensures Classify(response).Failure? && response.code.Some? ==>
              Classify(response).error.messageResponse == response.message
    ensures Classify(response).Success? ==> Classify(response).value.data == response.data
  {
  }

  /** What the caller of `call` can receive: an error from building the request,
      from the transport or the decoder upstream, or from classification. */
  datatype CallError<E> = Encoding(encodingError: EncodingError) | Upstream(upstream: E) | Api(apiError: APIError)

  /** `requestJSON` after the bytes have been decoded: an upstream failure
      short-circuits, otherwise the envelope is classified. */
  function RequestJSON<T, E>(decoded: Result<Response<T>, E>): (r: Result<Response<T>, CallError<E>>)
    ensures decoded.Failure? ==> r == Failure(Upstream(decoded.error))
    ensures decoded.Success? && Classify(decoded.value).Failure? ==>
              r == Failure(Api(Classify(decoded.value).error))
    ensures decoded.Success? && Classify(decoded.value).Success? ==> r == Success(decoded.value)
  {
    match decoded
    case Failure(e) => Failure(Upstream(e))
    case Success(response) =>
      match Classify(response)
      case Failure(apiError) => Failure(Api(apiError))
      case Success(ok) => Success(ok)
  }

  /** `call(endpoint:)`. The request is built (a throwing encoder ends the call),
      then `execute` stands for the session's data task followed by decoding. */
  method Call<T, V, P, E>(endpoint: Endpoint<V, P>, baseURL: Url,
                          encode: V -> Result<Bytes, EncodingError>, archive: P -> Option<Bytes>,
                          headers: map<string, string>,
                          execute: URLRequest -> Result<Response<T>, E>)
    returns (request: Option<URLRequest>, r: Result<Response<T>, CallError<E>>)
    ensures request.None? <==> endpoint.dataTask.Some? && endpoint.dataTask.value.Body(encode, archive).Failure?
    ensures request.None? ==> r == Failure(Encoding(endpoint.dataTask.value.Body(encode, archive).error))
    ensures request.Some? ==> r == RequestJSON(execute(request.value))
    ensures request.Some? ==> Built(endpoint, baseURL, encode, archive, headers, request.value)
  {
    var built := UrlRequest(endpoint, baseURL, encode, archive, headers);
    match built
    case Failure(e) =>
      request, r := None, Failure(Encoding(e));
    case Success(q) =>
      request, r := Some(q), RequestJSON(execute(q));
  }

  // ---------------------------------------------------------------- session tasks

  /** A `URLSessionTask`: `object` tells distinct task objects apart, and
      `taskIdentifier` is the number the session gave it. */
  datatype URLSessionTask = URLSessionTask(object: nat, taskIdentifier: int)

  /** `tasks.enumerated().first(where: { $0.element.taskIdentifier == id })?.offset`. */
  function FirstIndexOf(tasks: seq<URLSessionTask>, id: int): (i: Option<nat>)
    ensures i.None? <==> forall j | 0 <= j < |tasks| :: tasks[j].taskIdentifier != id
    ensures i.Some? ==> i.value < |tasks| && tasks[i.value].taskIdentifier == id
    ensures i.Some? ==> forall j | 0 <= j < i.value :: tasks[j].taskIdentifier != id
  {
    if tasks == [] then None
    else if tasks[0].taskIdentifier == id then Some(0)
    else match FirstIndexOf(tasks[1..], id)
      case None => None
      case Some(k) => Some(k + 1)
  }

  /** An independent statement of "remove the first task with this identifier". */
  function RemoveFirst(tasks: seq<URLSessionTask>, id: int): seq<URLSessionTask> {
    if tasks == [] then []
    else if tasks[0].taskIdentifier == id then tasks[1..]
    else [tasks[0]] + RemoveFirst(tasks[1..], id)
  }

  /** Deleting at the index `first(where:)` finds is `RemoveFirst`; nothing
      matching means nothing changes, and exactly one task goes otherwise. */
  lemma RemoveAtFirstIndexIsRemoveFirst(tasks: seq<URLSessionTask>, id: int)
    ensures FirstIndexOf(tasks, id).None? ==> RemoveFirst(tasks, id) == tasks
    ensures FirstIndexOf(tasks, id).Some? ==>
              var i := FirstIndexOf(tasks, id).value;
              RemoveFirst(tasks, id) == tasks[..i] + tasks[i + 1..]
    ensures FirstIndexOf(tasks, id).Some? ==> |RemoveFirst(tasks, id)| == |tasks| - 1
  {
    match FirstIndexOf(tasks, id)
    case None => RemoveFirstAbsent(tasks, id);
    case Some(i) => RemoveFirstAt(tasks, id, i);
  }

  lemma {:induction false} RemoveFirstAbsent(tasks: seq<URLSessionTask>, id: int)
    requires forall j | 0 <= j < |tasks| :: tasks[j].taskIdentifier != id
    ensures RemoveFirst(tasks, id) == tasks
  {
    if tasks != [] {
      assert tasks[0].taskIdentifier != id;
      RemoveFirstAbsent(tasks[1..], id);
      assert [tasks[0]] + tasks[1..] == tasks;
    }
  }

  lemma {:induction false} RemoveFirstAt(tasks: seq<URLSessionTask>, id: int, i: nat)
    requires i < |tasks| && tasks[i].taskIdentifier == id
    requires forall j | 0 <= j < i :: tasks[j].taskIdentifier != id
    ensures RemoveFirst(tasks, id) == tasks[..i] + tasks[i + 1..]
  {
    if i == 0 {
      assert tasks[..0] + tasks[1..] == tasks[1..];
    } else {
      assert tasks[0].taskIdentifier != id;
      var rest := tasks[1..];
      assert rest[i - 1] == tasks[i];
      RemoveFirstAt(rest, id, i - 1);
      assert tasks[..i] + tasks[i + 1..] == [tasks[0]] + (rest[..i - 1] + rest[i..]);
    }
  }

  /** `SessionTask`: the in-flight tasks, in the order they were added. */
  class SessionTask {
    var tasks: seq<URLSessionTask>

    constructor ()
      ensures tasks == []
    {
      tasks := [];
    }

    /** `add(task:)` appends, whether or not the identifier is already present. */
    method Add(task: URLSessionTask)
      modifies this
      ensures tasks == old(tasks) + [task]
    {
      tasks := tasks + [task];
    }

    /** `remove(task:)` deletes the first task whose identifier matches, if any. */
    method Remove(task: URLSessionTask)
      modifies this
      ensures FirstIndexOf(old(tasks), task.taskIdentifier).None? ==> tasks == old(tasks)
      ensures FirstIndexOf(old(tasks), task.taskIdentifier).Some? ==>
                var i := FirstIndexOf(old(tasks), task.taskIdentifier).value;
                tasks == old(tasks)[..i] + old(tasks)[i + 1..]
      ensures tasks == RemoveFirst(old(tasks), task.taskIdentifier)
    {
      RemoveAtFirstIndexIsRemoveFirst(tasks, task.taskIdentifier);
      match FirstIndexOf(tasks, task.taskIdentifier)
      case None =>
        return;
      case Some(index) =>
        tasks := tasks[..index] + tasks[index + 1..];
    }
  }

  // ---------------------------------------------------------------- cURL

  function NewLine(pretty: bool): string {
    if pretty then "\\\n" else ""
  }

  function MethodPart(request: URLRequest, pretty: bool): string {
    (if pretty then "--request " else "-X ") + request.httpMethod.GetOr("GET") + " " + NewLine(pretty)
  }

  function UrlPart(request: URLRequest, pretty: bool): string {
    var text := match request.url case Some(u) => u.AbsoluteString() case None => "";
    (if pretty then "--url " else "") + "'" + text + "' " + NewLine(pretty)
  }

  function HeaderSegment(pretty: bool, key: string, value: string): string {
    (if pretty then "--header " else "-H ") + "'" + key + ": " + value + "' " + NewLine(pretty)
  }

  /** `order` lists the keys of `fields` once each: the order in which the
      dictionary happens to yield them. */
  predicate IsEnumeration(order: seq<string>, fields: map<string, string>) {
    && (forall i, j | 0 <= i < j < |order| :: order[i] != order[j])
    && (forall i | 0 <= i < |order| :: order[i] in fields)
    && (forall k | k in fields :: k in order)
  }

  /** The header segments, one per key in iteration order. */
  function HeaderSegments(pretty: bool, fields: map<string, string>, order: seq<string>): (segs: seq<string>)
    requires forall i | 0 <= i < |order| :: order[i] in fields
    ensures |segs| == |order|
    ensures forall i | 0 <= i < |order| :: segs[i] == HeaderSegment(pretty, order[i], fields[order[i]])
  {
    seq(|order|, i requires 0 <= i < |order| => HeaderSegment(pretty, order[i], fields[order[i]]))
  }

  function Concat(parts: seq<string>): string {
    if parts == [] then "" else Concat(parts[..|parts| - 1]) + parts[|parts| - 1]
  }

  lemma ConcatSnoc(parts: seq<string>, i: nat)
    requires i < |parts|
    ensures Concat(parts[..i + 1]) == Concat(parts[..i]) + parts[i]
  {
    assert parts[..i + 1][..i] == parts[..i];
  }

  /** The headers the loop renders: nothing when there are no header fields. */
  function HeaderPart(request: URLRequest, pretty: bool, order: seq<string>): string
    requires request.allHTTPHeaderFields.Some? ==> IsEnumeration(order, request.allHTTPHeaderFields.value)
  {
    if request.allHTTPHeaderFields.Some? && |request.allHTTPHeaderFields.value.Keys| > 0
    then Concat(HeaderSegments(pretty, request.allHTTPHeaderFields.value, order))
    else ""
  }

  /** The `--data` segment, present only for a body that decodes as non-empty UTF-8. */
  function DataPart(request: URLRequest, utf8: Bytes -> Option<string>): (d: string)
    ensures d != [] <==> request.httpBody.Some? && utf8(request.httpBody.value).Some?
                         && utf8(request.httpBody.value).value != []
  {
    match request.httpBody
    case None => ""
    case Some(body) =>
      match utf8(body)
      case Some(text) => if text != [] then "--data '" + text + "'" else ""
      case None => ""
  }

  /** A duplicate-free list holds as many elements as the set of its elements;
      so the enumeration is as long as the dictionary. */
  lemma {:induction false} EnumerationLength(order: seq<string>, keys: set<string>)
    requires forall i, j | 0 <= i < j < |order| :: order[i] != order[j]
    requires forall i | 0 <= i < |order| :: order[i] in keys
    requires forall k | k in keys :: k in order
    ensures |order| == |keys|
  {
    if order != [] {
      var last := order[|order| - 1];
      var init := order[..|order| - 1];
      forall k | k in keys - {last} ensures k in init {
        var i :| 0 <= i < |order| && order[i] == k;
        assert i < |order| - 1;
        assert init[i] == k;
      }
      forall i | 0 <= i < |init| ensures init[i] in keys - {last} {
        assert init[i] == order[i];
      }
      EnumerationLength(init, keys - {last});
    }
  }

  /** Exactly one header segment per header field, each in the form 'key: value'. */
  lemma OneHeaderSegmentPerField(pretty: bool, fields: map<string, string>, order: seq<string>)
    requires IsEnumeration(order, fields)
    ensures |HeaderSegments(pretty, fields, order)| == |fields|
    ensures forall k | k in fields ::
              exists i :: 0 <= i < |order| && order[i] == k
                          && HeaderSegments(pretty, fields, order)[i] == HeaderSegment(pretty, k, fields[k])
  {
    EnumerationLength(order, fields.Keys);
    assert |fields.Keys| == |fields|;
    forall k | k in fields
      ensures exists i :: 0 <= i < |order| && order[i] == k
                          && HeaderSegments(pretty, fields, order)[i] == HeaderSegment(pretty, k, fields[k])
    {
      var i :| 0 <= i < |order| && order[i] == k;
      assert HeaderSegments(pretty, fields, order)[i] == HeaderSegment(pretty, k, fields[k]);
    }
  }

  /** `URLRequest.cURL(pretty:)`. `order` is the order in which the header
      dictionary yields its entries; `utf8` is `String(data:encoding: .utf8)`. */
  method CURL(request: URLRequest, pretty: bool, order: seq<string>, utf8: Bytes -> Option<string>)
    returns (cURL: string)
    requires request.allHTTPHeaderFields.Some? ==> IsEnumeration(order, request.allHTTPHeaderFields.value)
    ensures cURL == "curl " + MethodPart(request, pretty) + UrlPart(request, pretty)
                    + HeaderPart(request, pretty, order) + DataPart(request, utf8)
  {
    var methodText := MethodPart(request, pretty);
    var url := UrlPart(request, pretty);

    cURL := "curl ";
    var header := "";
    var data := "";

    if request.allHTTPHeaderFields.Some? && |request.allHTTPHeaderFields.value.Keys| > 0 {
      var httpHeaders := request.allHTTPHeaderFields.value;
      ghost var segs := HeaderSegments(pretty, httpHeaders, order);
      for i := 0 to |order|
        invariant header == Concat(segs[..i])
      {
        ConcatSnoc(segs, i);
        header := header + HeaderSegment(pretty, order[i], httpHeaders[order[i]]);
      }
      assert segs[..|order|] == segs;
    }

    if request.httpBody.Some? {
      var bodyString := utf8(request.httpBody.value);
      if bodyString.Some? && bodyString.value != [] {
        data := "--data '" + bodyString.value + "'";
      }
    }

    cURL := cURL + methodText + url + header + data;
  }

  /** The rendering always starts with "curl " and then the method flag, and
      the method's name follows the flag. */
  lemma CURLStartsWithMethod(request: URLRequest, pretty: bool, rest: string)
    ensures var text := "curl " + MethodPart(request, pretty) + rest;
            && text[..5] == "curl "
            && (pretty ==> text[5..15] == "--request ")
            && (!pretty ==> text[5..8] == "-X ")
            && (pretty ==> text[15..15 + |request.httpMethod.GetOr("GET")|] == request.httpMethod.GetOr("GET"))
            && (!pretty ==> text[8..8 + |request.httpMethod.GetOr("GET")|] == request.httpMethod.GetOr("GET"))
  {
  }

  /** A request with no method is rendered as a GET. */
  lemma CURLMethodDefaultsToGet(request: URLRequest, pretty: bool)
    requires request.httpMethod.None?
    ensures MethodPart(request, pretty) == (if pretty then "--request " else "-X ") + "GET " + NewLine(pretty)
  {
  }
}
