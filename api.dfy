/**
 * The HTTP edge of the proxy (src/api.rs): which handler a `/v2/...` request
 * reaches, how each handler turns the outcome of its proxy call into a
 * response, the relay of upstream blob headers, the query checks of the debug
 * endpoint and the health status.
 *
 * The handlers call proxy operations that report a `ProxyError` (src/error.rs);
 * they are modelled as functions of that outcome.
 */
module Api {
  import opened Wrappers
  import opened Text
  import Router
  import Proxy

  /** `ProxyError`; the payloads that only feed error messages are kept as text. */
  datatype ProxyError =
    | Network(message: string)
    | ManifestNotFound(status: nat)
    | BlobNotFound(status: nat)
    | ResponseReadError(message: string)
    | BlobUploadNotSupported
    | InvalidRegistryUrl(message: string)
    | AuthenticationFailed(message: string)
    | InternalError(message: string)

  /** A response body: literal text, an error's message after a prefix, a relayed stream, JSON, or nothing. */
  datatype Body =
    | Text(text: string)
    | ErrorText(prefix: string, error: ProxyError)
    | Stream
    | DebugJson(info: DebugInfo)
    | Empty

  /** A response; its `HeaderMap` is filled with `insert`, so one value per name. */
  datatype HttpResponse = HttpResponse(status: nat, headers: map<string, string>, body: Body)

  const NOT_FOUND: HttpResponse := HttpResponse(404, map[], Text("Not Found"))

  // Dispatch

  /** The handler a request reaches. */
  datatype Handler =
    | GetManifest(name: string, reference: string)
    | GetBlob(name: string, digest: string)
    | HeadManifest(name: string, reference: string)
    | HeadBlob(name: string, digest: string)
    | InitiateUpload(name: string)
    | CompleteUpload
    | NoHandler

  /** `v2_get`, `v2_head`, `v2_post` and `v2_put`: the method picks the endpoints it serves. */
  function Dispatch(verb: Proxy.Method, rest: string): (h: Handler)
    ensures h != NoHandler <==>
      match Router.ParseV2Path(rest)
      case Manifest(_, _) => verb == Proxy.GET || verb == Proxy.HEAD
      case Blob(_, _) => verb == Proxy.GET || verb == Proxy.HEAD
      case BlobUploadInit(_) => verb == Proxy.POST
      case BlobUploadComplete(_, _) => verb == Proxy.PUT
      case Unknown => false
  {
    match (verb, Router.ParseV2Path(rest))
    case (GET, Manifest(name, reference)) => GetManifest(name, reference)
    case (GET, Blob(name, digest)) => GetBlob(name, digest)
    case (HEAD, Manifest(name, reference)) => HeadManifest(name, reference)
    case (HEAD, Blob(name, digest)) => HeadBlob(name, digest)
    case (POST, BlobUploadInit(name)) => InitiateUpload(name)
    case (PUT, BlobUploadComplete(_, _)) => CompleteUpload
    case _ => NoHandler
  }

  /** The handler is given the name and reference or digest the router found. */
  lemma DispatchPassesEndpoint(verb: Proxy.Method, rest: string)
    ensures var e := Router.ParseV2Path(rest);
      (e.Manifest? && verb == Proxy.GET ==> Dispatch(verb, rest) == GetManifest(e.name, e.reference)) &&
      (e.Manifest? && verb == Proxy.HEAD ==> Dispatch(verb, rest) == HeadManifest(e.name, e.reference)) &&
      (e.Blob? && verb == Proxy.GET ==> Dispatch(verb, rest) == GetBlob(e.name, e.digest)) &&
      (e.Blob? && verb == Proxy.HEAD ==> Dispatch(verb, rest) == HeadBlob(e.name, e.digest)) &&
      (e.BlobUploadInit? && verb == Proxy.POST ==> Dispatch(verb, rest) == InitiateUpload(e.name))
  {
  }

  /** A manifest path reaches the manifest handlers with the name and reference it was built from. */
  lemma ManifestPathDispatch(n: string, r: string)
    requires "manifests" !in Split(n, '/') && '/' !in r
    ensures Dispatch(Proxy.GET, n + "/manifests/" + r) == GetManifest(n, r)
    ensures Dispatch(Proxy.HEAD, n + "/manifests/" + r) == HeadManifest(n, r)
    ensures Dispatch(Proxy.POST, n + "/manifests/" + r) == NoHandler
    ensures Dispatch(Proxy.PUT, n + "/manifests/" + r) == NoHandler
  {
    Router.ManifestRoundTrip(n, r);
  }

  /** `complete_blob_upload`: nothing is stored; the upload is acknowledged. */
  const UPLOAD_COMPLETE: HttpResponse := HttpResponse(201, map[], Text("Upload complete"))

  /**
   * The replies that need no upstream call: `Not Found` when no handler serves
   * the request, and `Upload complete` for an upload completion.
   */
  function FixedReply(h: Handler): (r: Option<HttpResponse>)
    ensures r.Some? <==> h.NoHandler? || h.CompleteUpload?
    ensures r.Some? ==> r.value.headers == map[]
    ensures r.Some? ==> (r.value.status == 404 <==> h.NoHandler?) && (r.value.status == 201 <==> h.CompleteUpload?)
  {
    match h
    case NoHandler => Some(NOT_FOUND)
    case CompleteUpload => Some(UPLOAD_COMPLETE)
    case _ => None
  }

  /** A path the router does not know gets `Not Found` under every method. */
  lemma UnknownPathNotFound(verb: Proxy.Method, rest: string)
    requires Router.ParseV2Path(rest).Unknown?
    ensures FixedReply(Dispatch(verb, rest)) == Some(NOT_FOUND)
  {
  }

  /** An upload completion is acknowledged with 201 under PUT and is `Not Found` under any other method. */
  lemma UploadCompletion(verb: Proxy.Method, rest: string)
    requires Router.ParseV2Path(rest).BlobUploadComplete?
    ensures verb == Proxy.PUT ==> FixedReply(Dispatch(verb, rest)) == Some(UPLOAD_COMPLETE)
    ensures verb != Proxy.PUT ==> FixedReply(Dispatch(verb, rest)) == Some(NOT_FOUND)
  {
  }

  // Manifests

  /** Status of a failed manifest GET or HEAD. */
  function ManifestErrorStatus(e: ProxyError): (status: nat)
    ensures status == 404 <==> e.ManifestNotFound?
    ensures status == 401 <==> e.AuthenticationFailed?
    ensures status == 404 || status == 401 || status == 500
  {
    match e
    case ManifestNotFound(_) => 404
    case AuthenticationFailed(_) => 401
    case _ => 500
  }

  /** The content type sent back: the upstream one when it is a valid header value. */
  function ResponseContentType(contentType: string): (r: string)
    ensures ValidHeaderValue(r)
    ensures ValidHeaderValue(contentType) ==> r == contentType
  {
    if ValidHeaderValue(contentType) then contentType else "application/json"
  }

  /** `get_manifest`. */
  function ManifestResponse(outcome: Result<(string, string), ProxyError>): (r: HttpResponse)
    ensures outcome.Ok? ==> (r.status == 200 && r.body == Text(outcome.value.1) &&
      r.headers == map["content-type" := ResponseContentType(outcome.value.0)])
    ensures outcome.Err? ==> r.status == ManifestErrorStatus(outcome.error) && r.body == ErrorText("Error: ", outcome.error)
  {
    match outcome
    case Ok((contentType, body)) => HttpResponse(200, map["content-type" := ResponseContentType(contentType)], Text(body))
    case Err(e) => HttpResponse(ManifestErrorStatus(e), map[], ErrorText("Error: ", e))
  }

  /** `head_manifest`: the length goes out as a decimal Content-Length. */
  function HeadManifestResponse(outcome: Result<(string, nat), ProxyError>): (r: HttpResponse)
    requires outcome.Ok? ==> outcome.value.1 <= U64_MAX
    ensures outcome.Ok? ==> (r.status == 200 && r.body == Empty && "content-length" in r.headers &&
      ParseU64(r.headers["content-length"]) == Some(outcome.value.1) &&
      "content-type" in r.headers && r.headers["content-type"] == ResponseContentType(outcome.value.0))
    ensures outcome.Err? ==> r.status == ManifestErrorStatus(outcome.error) && r.body == ErrorText("Error: ", outcome.error)
  {
    match outcome
    case Ok((contentType, length)) =>
      ParseDecimal(length);
      HttpResponse(200, map["content-type" := ResponseContentType(contentType), "content-length" := Decimal(length)], Empty)
    case Err(e) => HttpResponse(ManifestErrorStatus(e), map[], ErrorText("Error: ", e))
  }

  // Blobs

  /** Status of a failed blob HEAD. */
  function HeadBlobErrorStatus(e: ProxyError): (status: nat)
    ensures status == 404 <==> e.BlobNotFound?
    ensures status == 401 <==> e.AuthenticationFailed?
    ensures status == 404 || status == 401 || status == 500
  {
    match e
    case BlobNotFound(_) => 404
    case AuthenticationFailed(_) => 401
    case _ => 500
  }

  /** `head_blob`. */
  function HeadBlobResponse(outcome: Result<nat, ProxyError>): (r: HttpResponse)
    requires outcome.Ok? ==> outcome.value <= U64_MAX
    ensures outcome.Ok? ==> (r.status == 200 && r.body == Empty &&
      "content-length" in r.headers && ParseU64(r.headers["content-length"]) == Some(outcome.value) &&
      "content-type" in r.headers && r.headers["content-type"] == "application/octet-stream")
    ensures outcome.Err? ==> r.status == HeadBlobErrorStatus(outcome.error) && r.body == ErrorText("Error: ", outcome.error)
  {
    match outcome
    case Ok(length) =>
      ParseDecimal(length);
      HttpResponse(200, map["content-type" := "application/octet-stream", "content-length" := Decimal(length)], Empty)
    case Err(e) => HttpResponse(HeadBlobErrorStatus(e), map[], ErrorText("Error: ", e))
  }

  /** The hop-by-hop headers that are not relayed (section 7.6.1 of RFC 9110). */
  function HopByHop(name: string): (b: bool)
    ensures b <==> ToLower(name) in {"connection", "transfer-encoding", "upgrade"}
  {
    LowerCaseNames();
    EqualsIgnoreCase(name, "connection") || EqualsIgnoreCase(name, "transfer-encoding") ||
    EqualsIgnoreCase(name, "upgrade")
  }

  lemma LowerCaseNames()
    ensures ToLower("connection") == "connection"
    ensures ToLower("transfer-encoding") == "transfer-encoding"
    ensures ToLower("upgrade") == "upgrade"
  {
  }

  /** The relayed header map after the given upstream headers, in order. */
  function Relayed(headers: seq<Proxy.Header>): (r: map<string, string>)
    ensures forall k :: k in r ==> !HopByHop(k) && ValidHeaderValue(r[k]) && (k, r[k]) in headers
  {
    if |headers| == 0 then map[]
    else
      var init := headers[..|headers| - 1];
      assert headers == init + [headers[|headers| - 1]];
      RelayOne(Relayed(init), headers[|headers| - 1])
  }

  /** One upstream header: skipped when hop-by-hop or not a valid value, inserted otherwise. */
  function RelayOne(out: map<string, string>, header: Proxy.Header): (r: map<string, string>)
    ensures HopByHop(header.0) || !ValidHeaderValue(header.1) ==> r == out
    ensures !HopByHop(header.0) && ValidHeaderValue(header.1) ==>
      r.Keys == out.Keys + {header.0} && r[header.0] == header.1
    ensures forall k :: k in out && k != header.0 ==> r[k] == out[k]
  {
    if HopByHop(header.0) || !ValidHeaderValue(header.1) then out else out[header.0 := header.1]
  }

  /** The header loop of `get_blob`. */
  method RelayHeaders(headers: seq<Proxy.Header>) returns (out: map<string, string>)
    ensures out == Relayed(headers)
  {
    out := map[];
    var i := 0;
    while i < |headers|
      invariant 0 <= i <= |headers|
      invariant out == Relayed(headers[..i])
    {
      assert headers[..i + 1][..i] == headers[..i];
      var (name, value) := headers[i];
      if HopByHop(name) {
        i := i + 1;
        continue;
      }
      if ValidHeaderValue(value) {
        out := out[name := value];
      }
      i := i + 1;
    }
    assert headers[..|headers|] == headers;
  }

  /** A name is relayed exactly when some upstream header carries it with a valid value and it is not hop-by-hop. */
  lemma {:induction false} RelayedNames(headers: seq<Proxy.Header>, name: string)
    ensures name in Relayed(headers) <==>
      !HopByHop(name) && exists i :: 0 <= i < |headers| && headers[i].0 == name && ValidHeaderValue(headers[i].1)
  {
    if |headers| > 0 {
      var init := headers[..|headers| - 1];
      RelayedNames(init, name);
      if exists i :: 0 <= i < |init| && init[i].0 == name && ValidHeaderValue(init[i].1) {
        var i :| 0 <= i < |init| && init[i].0 == name && ValidHeaderValue(init[i].1);
        assert headers[i] == init[i];
      }
      if exists i :: 0 <= i < |headers| && headers[i].0 == name && ValidHeaderValue(headers[i].1) {
        var i :| 0 <= i < |headers| && headers[i].0 == name && ValidHeaderValue(headers[i].1);
        if i < |init| {
          assert init[i] == headers[i];
        }
      }
    }
  }

  /** Hop-by-hop headers never reach the client, whatever their case. */
  lemma HopByHopDropped(headers: seq<Proxy.Header>, name: string)
    requires EqualsIgnoreCase(name, "connection") || EqualsIgnoreCase(name, "transfer-encoding") ||
      EqualsIgnoreCase(name, "upgrade")
    ensures name !in Relayed(headers)
  {
    RelayedNames(headers, name);
  }

  /** For a repeated header, the last valid value upstream is the one relayed. */
  lemma {:induction false} RelayedLastWins(front: seq<Proxy.Header>, name: string, value: string, back: seq<Proxy.Header>)
    requires !HopByHop(name) && ValidHeaderValue(value)
    requires forall i :: 0 <= i < |back| ==> back[i].0 != name
    ensures var all := front + [(name, value)] + back;
      name in Relayed(all) && Relayed(all)[name] == value
    decreases |back|
  {
    var all := front + [(name, value)] + back;
    if |back| == 0 {
      assert all[..|all| - 1] == front;
    } else {
      var shorter := back[..|back| - 1];
      assert all[..|all| - 1] == front + [(name, value)] + shorter;
      RelayedLastWins(front, name, value, shorter);
      assert all[|all| - 1] == back[|back| - 1];
    }
  }

  /** `StatusCode::from_u16(..).unwrap_or(OK)`: codes outside 100..999 become 200. */
  function RelayedStatus(status: nat): (r: nat)
    ensures 100 <= r <= 999
    ensures 100 <= status <= 999 ==> r == status
  {
    if 100 <= status <= 999 then status else 200
  }

  /** `get_blob`: the upstream status and headers, minus hop-by-hop ones, with the body streamed. */
  function BlobResponse(outcome: Result<Proxy.Response, ProxyError>): (r: HttpResponse)
    ensures outcome.Ok? ==> (r.status == RelayedStatus(outcome.value.status) && r.body == Stream &&
      r.headers == Relayed(outcome.value.headers))
    ensures outcome.Err? ==> r.status == 502 && r.body == ErrorText("Upstream blob error: ", outcome.error)
  {
    match outcome
    case Ok(resp) => HttpResponse(RelayedStatus(resp.status), Relayed(resp.headers), Stream)
    case Err(e) => HttpResponse(502, map[], ErrorText("Upstream blob error: ", e))
  }

  // Uploads

  /** The Location of an upload: a `/v2/` path ending in the upload id. */
  function UploadLocation(name: string, uploadId: string): (l: string)
    ensures StartsWith(l, "/v2/") && EndsWith(l, "/blobs/uploads/" + uploadId)
  {
    "/v2/" + name + "/blobs/uploads/" + uploadId
  }

  /** `initiate_blob_upload`: 202 with the Location of the upload, which is left out when not a valid header value. */
  function InitiateUploadResponse(name: string, outcome: Result<string, ProxyError>): (r: HttpResponse)
    ensures outcome.Ok? ==> (r.status == 202 && r.body == Empty &&
      ("location" in r.headers <==> ValidHeaderValue(UploadLocation(name, outcome.value))) &&
      ("location" in r.headers ==> r.headers["location"] == UploadLocation(name, outcome.value)))
    ensures outcome.Err? ==> (r.status == 405 <==> outcome.error.BlobUploadNotSupported?)
    ensures outcome.Err? ==> r.status == 405 || r.status == 500
  {
    match outcome
    case Ok(id) =>
      var location := UploadLocation(name, id);
      if ValidHeaderValue(location) then HttpResponse(202, map["location" := location], Empty)
      else HttpResponse(202, map[], Empty)
    case Err(e) =>
      HttpResponse(if e.BlobUploadNotSupported? then 405 else 500, map[], ErrorText("Error: ", e))
  }

  /** The Location of a new upload routes back to the upload-complete handler for that name and id. */
  lemma LocationRoutesToComplete(name: string, uploadId: string)
    requires Router.PlainName(name) && '/' !in uploadId
    ensures UploadLocation(name, uploadId) == "/v2/" + (name + "/blobs/uploads/" + uploadId)
    ensures Router.ParseV2Path(name + "/blobs/uploads/" + uploadId) == Router.BlobUploadComplete(name, uploadId)
    ensures Dispatch(Proxy.PUT, name + "/blobs/uploads/" + uploadId) == CompleteUpload
  {
    Router.UploadCompleteRoundTrip(name, uploadId);
  }

  // Health

  /** `healthz`: the status word and HTTP status follow the registry's health. */
  function Healthz(registryHealthy: bool): (r: (nat, string))
    ensures r.0 == 200 <==> registryHealthy
    ensures r.1 == "healthy" <==> registryHealthy
    ensures !registryHealthy ==> r == (503, "degraded")
  {
    if registryHealthy then (200, "healthy") else (503, "degraded")
  }

  /** `handle_v2_check`: 200 with the API version header, which is a valid value, so the header is always set. */
  function V2Check(): (r: HttpResponse)
    ensures r.status == 200 && r.body == Empty
    ensures "docker-distribution-api-version" in r.headers && r.headers["docker-distribution-api-version"] == "registry/2.0"
  {
    var version := "registry/2.0";
    HttpResponse(200, if ValidHeaderValue(version) then map["docker-distribution-api-version" := version] else map[], Empty)
  }

  // The debug endpoint

  /** The JSON the debug endpoint answers with. */
  datatype DebugInfo = DebugInfo(
    name: string,
    reference: string,
    digest: string,
    manifestSize: nat,
    actualSize: nat,
    sizeDiff: int)

  /** The checked query of `debug_blob_info`: name, digest and reference. */
  datatype DebugQuery = DebugQuery(name: string, digest: string, reference: string)

  /** The query checks: `name` before `digest`, both present and non-empty; `reference` defaults when absent. */
  function DebugParams(query: map<string, string>): (r: Result<DebugQuery, HttpResponse>)
    ensures r.Ok? <==> "name" in query && query["name"] != "" && "digest" in query && query["digest"] != ""
    ensures r.Ok? ==> r.value.name == query["name"] && r.value.digest == query["digest"]
    ensures r.Ok? ==> r.value.reference == (if "reference" in query then query["reference"] else "latest")
    ensures r.Err? ==> r.error.status == 400
    ensures r.Err? && ("name" !in query || query["name"] == "") ==>
      r.error.body == Text("missing 'name' query parameter")
    ensures r.Err? && "name" in query && query["name"] != "" ==>
      r.error.body == Text("missing 'digest' query parameter")
  {
    if "name" !in query || query["name"] == "" then
      Err(HttpResponse(400, map[], Text("missing 'name' query parameter")))
    else if "digest" !in query || query["digest"] == "" then
      Err(HttpResponse(400, map[], Text("missing 'digest' query parameter")))
    else
      Ok(DebugQuery(query["name"], query["digest"], if "reference" in query then query["reference"] else "latest"))
  }

  /** An empty `reference` is kept as given, not replaced by `latest`. */
  lemma EmptyReferenceKept(query: map<string, string>)
    requires DebugParams(query).Ok? && "reference" in query && query["reference"] == ""
    ensures DebugParams(query).value.reference == ""
  {
  }

  const I64_MIN: int := -0x8000_0000_0000_0000
  const I64_MAX: int := 0x7FFF_FFFF_FFFF_FFFF

  /** `x as i64` for a `u64`: values from 2^63 on become negative. */
  function AsI64(x: nat): (r: int)
    requires x <= U64_MAX
    ensures I64_MIN <= r <= I64_MAX
    ensures x <= I64_MAX ==> r == x
  {
    if x <= I64_MAX then x else x - U64_MODULUS
  }

  /** `i64` subtraction in a release build: wraps into the `i64` range. */
  function WrapI64(x: int): (r: int)
    ensures I64_MIN <= r <= I64_MAX
    ensures I64_MIN <= x <= I64_MAX ==> r == x
  {
    (x - I64_MIN) % U64_MODULUS + I64_MIN
  }

  /** `actual_size as i64 - manifest_size as i64`. */
  function SizeDiff(manifestSize: nat, actualSize: nat): (d: int)
    requires manifestSize <= U64_MAX && actualSize <= U64_MAX
    ensures I64_MIN <= d <= I64_MAX
    ensures manifestSize <= I64_MAX && actualSize <= I64_MAX ==> d == actualSize - manifestSize
  {
    WrapI64(AsI64(actualSize) - AsI64(manifestSize))
  }

  /** A size from 2^63 on is read as negative: an empty manifest entry against a 2^63-byte blob reports the most negative difference. */
  lemma SizeDiffOverflow()
    ensures SizeDiff(0, 0x8000_0000_0000_0000) == I64_MIN
  {
  }

  /** Status of a failed debug lookup: not-found of either kind is 404, authentication 401, the rest 502. */
  function DebugErrorStatus(e: ProxyError): (status: nat)
    ensures status == 404 <==> e.ManifestNotFound? || e.BlobNotFound?
    ensures status == 401 <==> e.AuthenticationFailed?
    ensures status == 404 || status == 401 || status == 502
  {
    match e
    case ManifestNotFound(_) => 404
    case BlobNotFound(_) => 404
    case AuthenticationFailed(_) => 401
    case _ => 502
  }

  /** `debug_blob_info`, given the checked query and the outcome of the lookup. */
  function DebugResponse(q: DebugQuery, outcome: Result<(nat, nat), ProxyError>): (r: HttpResponse)
    requires outcome.Ok? ==> outcome.value.0 <= U64_MAX && outcome.value.1 <= U64_MAX
    ensures outcome.Ok? ==> (r.status == 200 && r.headers == map["content-type" := "application/json"] &&
      r.body == DebugJson(DebugInfo(q.name, q.reference, q.digest, outcome.value.0, outcome.value.1,
        SizeDiff(outcome.value.0, outcome.value.1))))
    ensures outcome.Err? ==> r.status == DebugErrorStatus(outcome.error) && r.body == ErrorText("debug error: ", outcome.error)
  {
    match outcome
    case Ok((manifestSize, actualSize)) =>
      var info := DebugInfo(q.name, q.reference, q.digest, manifestSize, actualSize, SizeDiff(manifestSize, actualSize));
      HttpResponse(200, map["content-type" := "application/json"], DebugJson(info))
    case Err(e) => HttpResponse(DebugErrorStatus(e), map[], ErrorText("debug error: ", e))
  }

  /** The same missing blob is a 404 for the debug endpoint and for a blob HEAD, but a 500 for a manifest request and a 502 for a blob GET. */
  lemma BlobNotFoundStatuses(status: nat)
    ensures DebugErrorStatus(BlobNotFound(status)) == 404
    ensures HeadBlobErrorStatus(BlobNotFound(status)) == 404
    ensures ManifestErrorStatus(BlobNotFound(status)) == 500
    ensures BlobResponse(Err(BlobNotFound(status))).status == 502
  {
  }
}
