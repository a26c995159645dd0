# docker-proxy in Dafny

A model of the request-handling core of docker-proxy. docker-proxy is a pull-through proxy for the Docker Registry HTTP API V2. The model covers:

- **Router**: how the tail of a `/v2/...` path is classified into manifest, blob, upload-init and upload-complete endpoints.
- **Ranges**: how a `Range: bytes=...` header is parsed against a file size, and how the `206 Partial Content` headers are built from the result.
- **Proxy**: how an image name is split into an upstream registry and a repository, and how the `WWW-Authenticate` challenge is parsed. It also covers how the token URL is assembled and the two-attempt Bearer authentication flow. The flow is modelled over a scripted upstream: the `Upstream` class holds the replies still to come and a log of the requests sent.
- **Api**: which handler each method and endpoint pair reaches, and how each handler turns its proxy call's outcome into a status, headers and body. It also covers the hop-by-hop filter of the blob header relay, the query checks of the debug endpoint, and the health status.
- **StaticFiles**: the content-type table, the path checks that run before the file system is touched, the extension whitelist, the streaming threshold, and the choice between a partial and a whole reply.
- **Config** and **Log**: the configuration validators, the socket address, the display string and the log-level normalisation.

`Wrappers` holds `Option` and `Result`. `Text` holds the string operations the Rust code borrows from its standard library:

- `split` and `join`;
- `position` and `rfind`;
- ASCII `trim` and `to_lowercase`;
- `trim_start_matches`;
- `u64` parsing and printing;
- the `HeaderValue` validity rule and `to_str`.

Integers are unbounded. Rust's `u64` and `i64` arithmetic follows the release profile, where it wraps. The wrap-around is written out (`Ranges.WrapAdd`, `Ranges.WrapSub`, `Api.WrapI64`) and proved about. A debug build panics at those points instead (src/range.rs:43, src/range.rs:78, src/api.rs:108), which is not modelled.

Three design choices:

- **Proxy errors are kept as data.** The Rust proxy returns errors as formatted strings, while the API layer matches on an error enum. So the proxy model returns an `AuthError` or `Failure` value, and the API model takes a `ProxyError` outcome as a parameter.
- **The `parse_www_authenticate` loop and the relay loop are methods.** They are written as methods with loops and proved equal to the functions `AuthParams` and `Relayed`. The lemmas about those functions carry the properties.
- **`fetch_with_auth` is a method on `DockerProxy`.** It sends through an `Upstream`. Its postcondition ties the result, the sent requests and the consumed replies to the pure function `AuthFlow`. The steps after the first send are the methods `HandleAnswer`, `AnswerChallenge` and `RetryWithToken`, each tied the same way to `AnswerFlow`, `ChallengeFlow` and `TokenFlow`.

## Model

| member | source | states |
|---|---|---|
| Text.JoinSplit | src/router.rs:24 | Joining the `/`-split pieces with `/` gives back the original path. |
| Text.SplitJoin | src/router.rs:29 | Splitting a `/`-join of separator-free segments gives back those segments. |
| Text.SplitAround | src/router.rs:24 | Splitting `a + sep + b` is the split of `a` followed by the split of `b`. |
| Text.TwoPieces | src/range.rs:16-20 | A text with exactly one separator splits into exactly the two pieces around it. |
| Text.IndexOf | src/router.rs:27 | `position` gives the first index holding the element, or none when the element is absent. |
| Text.LastIndexOf | src/config.rs:25-27 | The result is the last index of the character, and is none iff the character is absent. |
| Text.ParseU64 | src/range.rs:25 | A parsed `u64` is at most 2^64-1 and starts with a digit or `+`. |
| Text.ParseDecimal | src/range.rs:161-166 | Printing a `u64` in decimal and parsing it back gives the same number. |
| Text.DecimalValue | src/range.rs:161-166 | The decimal digits printed for `n` have value `n`. |
| Text.ToLowerIdempotent | src/log.rs:92 | Lower-casing twice is lower-casing once. |
| Text.TrimUnchanged | src/range.rs:8 | A text without whitespace at either end is unchanged by `trim`. |
| Text.TrimIsTrimmed | src/proxy.rs:279 | `trim` leaves no whitespace at either end. |
| Text.TrimAround | src/proxy.rs:279-280 | `trim` removes exactly the whitespace runs around a text that does not start or end with whitespace. |
| Text.Split | src/router.rs:24 | There is always at least one piece, and no piece contains the separator. |
| Router.Classify | src/router.rs:27-56 | A Manifest comes from a non-final `manifests` segment, a Blob from a non-final `blobs` segment, and an upload completion from `blobs` followed by `uploads` and one more segment. In each case the name is the `/`-join of the segments before the keyword, and the reference, digest or uuid is the segment after it. BlobUploadInit comes only from a final `blobs`, `uploads` pair. |
| Router.ParseV2Path | src/router.rs:23-57 | The reference, digest or uuid extracted from a path never contains `/`. |
| Router.ManifestTakesPrecedence | src/router.rs:27-33 | A `manifests` segment that is not last makes the result a Manifest, whatever `blobs` segments appear. |
| Router.ManifestSplitsAtFirst | src/router.rs:27-31 | At the first `manifests`: the name is the `/`-join of the earlier segments and the reference is the next segment; later segments are ignored. |
| Router.UnknownExactly | src/router.rs:23-57 | The result is Unknown iff no `manifests` and no `blobs` segment is followed by another segment. |
| Router.ManifestAfterName | src/router.rs:27-31 | A name without `manifests` followed by `manifests` and a reference classifies as that Manifest. |
| Router.BlobsAfterName | src/router.rs:36-54 | After a keyword-free name, a `blobs` tail gives BlobUploadComplete, BlobUploadInit, Blob or Unknown by the stated cases. |
| Router.ManifestRoundTrip | src/router.rs:27-31 | Parsing `n + "/manifests/" + r` gives `Manifest(n, r)` when no segment of `n` is `manifests` and `r` has no `/`. |
| Router.BlobRoundTrip | src/router.rs:49-52 | Parsing `n + "/blobs/" + d` gives `Blob(n, d)` for a keyword-free `n` and a one-segment `d` other than `uploads`. |
| Router.UploadInitRoundTrip | src/router.rs:44-47 | Parsing `n + "/blobs/uploads"` gives `BlobUploadInit(n)`. |
| Router.UploadCompleteRoundTrip | src/router.rs:38-42 | Parsing `n + "/blobs/uploads/" + u` gives `BlobUploadComplete(n, u)`. |
| Router.TrailingSlashIsUploadComplete | src/router.rs:38-42 | `n + "/blobs/uploads/"` (the form the doc comment calls upload-init) parses as BlobUploadComplete with an empty uuid. |
| Router.DanglingKeywordIsUnknown | src/router.rs:27-56 | A final `manifests` or `blobs` with nothing after it gives Unknown. |
| Router.PlainPathIsUnknown | src/router.rs:56 | A path without either keyword gives Unknown. |
| Router.TrailingManifestsFallsThroughToBlob | src/router.rs:27-52 | When `manifests` is the last segment, the blobs branch still applies: `n/blobs/d/manifests` is `Blob(n, d)`. |
| Router.IndexOfAfter | src/router.rs:27 | The first position in `xs + ys` of an element absent from `xs` is its first position in `ys`, shifted by the length of `xs`. |
| Router.KeywordPathSegments | src/router.rs:24 | A path built as name, keyword, tail splits into the name's segments, the keyword and the tail's segments. |
| Router.ManifestPathSegments | src/router.rs:24 | `n/manifests/r` splits into the segments of `n`, `manifests` and `r`. |
| Router.BlobPathSegments | src/router.rs:24 | `n/blobs/t` splits into the segments of `n`, `blobs` and the segments of `t`. |
| Router.UploadsSegments | src/router.rs:24 | `uploads/u` splits into `uploads` and the segments of `u`. |
| Router.FinalSegment | src/router.rs:24 | `n/kw` splits into the segments of `n` and `kw`. |
| Router.DanglingAfterName | src/router.rs:27-56 | A keyword-free name followed by one more segment is Unknown. |
| Router.DigestThenManifestsSegments | src/router.rs:24 | `n/blobs/d/manifests` splits into the segments of `n`, `blobs`, `d` and `manifests`. |
| Ranges.Min | src/range.rs:43 | `min` is at most both arguments and is one of them. |
| Ranges.WrapAdd | src/range.rs:43 | `u64` addition: in range, it equals the sum when the sum fits, and 2^64 wraps to 0. |
| Ranges.WrapSub | src/range.rs:70-78 | `u64` subtraction: in range, it equals the difference when no underflow occurs. |
| Ranges.ParseRangeHeader | src/range.rs:7-52 | Every parsed range lies within the file; an empty range is only `[0, 0)` on an empty file. |
| Ranges.ParseBounds | src/range.rs:23-51 | The same bounds for the start/end half of the parser. |
| Ranges.BytesHeader | src/range.rs:8-15 | A `bytes=` header without trailing whitespace is kept by `trim` and its spec is the text after `bytes=`. |
| Ranges.DashPieces | src/range.rs:16 | A spec with one dash splits into its two halves. |
| Ranges.HeaderBounds | src/range.rs:8-20 | A `bytes=a-b` header is decided by its two halves alone. |
| Ranges.OtherUnitIsNone | src/range.rs:8-13 | A header that does not start with `bytes=` after trimming gives none. |
| Ranges.SeveralDashesIsNone | src/range.rs:16-20 | A spec with two or more dashes (for example several ranges) gives none. |
| Ranges.ExplicitRange | src/range.rs:33-51 | `bytes=S-E` gives `[S, min(E+1, size))` when `S < size`, `S <= E` and `E+1` does not overflow; otherwise none. |
| Ranges.ExplicitBounds | src/range.rs:33-51 | The same result for any halves that parse to `S` and `E`. |
| Ranges.OpenEndedRange | src/range.rs:36-51 | `bytes=S-` gives `[S, size)` when `S < size`, otherwise none. |
| Ranges.SuffixRange | src/range.rs:23-31 | `bytes=-N` gives the last `N` bytes when `0 < N < size`. It gives the whole file when `N` is 0 or at least the size; section 14.1.2 of RFC 9110 instead treats a zero suffix as unsatisfiable. |
| Ranges.BareDashIsNone | src/range.rs:23-31 | `bytes=-` gives none. |
| Ranges.NonNumericStartIsNone | src/range.rs:33 | A start that is not a number gives none. |
| Ranges.NonNumericEndIsNone | src/range.rs:42 | An end that is not a number gives none. |
| Ranges.CreateRangeHeaders | src/range.rs:55-91 | The headers are built iff the content type is a valid header value; when built, the status is 206, the content type is kept and Accept-Ranges is `bytes`. |
| Ranges.DecimalIsHeaderValue | src/range.rs:71 | A printed number is always a valid header value, so the Content-Length branch never fails. |
| Ranges.ContentRangeIsHeaderValue | src/range.rs:78-79 | The Content-Range text is always a valid header value. |
| Ranges.ParseContentRange | src/range.rs:168-173 | The reader of a `bytes a-b/c` text yields three `u64` values. This is the reader the Content-Range round trip uses, matching the header text that the test compares. |
| Ranges.ParseSpan | src/range.rs:168-173 | The `a-b` and `c` halves of that reader each yield `u64` values. |
| Ranges.ContentRangeHalves | src/range.rs:78 | `bytes X/Y` is read from its two halves. |
| Ranges.SpanParses | src/range.rs:78 | Printed `a-b` and `c` read back as `(a, b, c)`. |
| Ranges.ContentRangeParses | src/range.rs:78 | A printed `bytes a-b/c` reads back as `(a, b, c)`. |
| Ranges.ContentLengthIsRangeLength | src/range.rs:70-72 | Content-Length reads back as the length of the range, not the file size. |
| Ranges.ContentRangeField | src/range.rs:78 | Content-Range is `bytes {start}-{end-1}/{size}`. |
| Ranges.ContentRangeRoundTrip | src/range.rs:78 | Content-Range reads back as the inclusive span `(start, end-1, size)`. |
| Ranges.EmptyRangeEndWraps | src/range.rs:26-78 | For the empty range `[0, 0)` that the suffix branch returns on an empty file, `end - 1` wraps and Content-Range reads `bytes 0-18446744073709551615/0`. |
| Ranges.RangeResponds | src/range.rs:55-91 | For a non-empty range inside the file, the headers are built, and Content-Length and Content-Range read back as its length and inclusive span. |
| Ranges.ParsedRangeResponds | src/range.rs:7-91 | Every range parsed against a non-empty file yields headers whose Content-Length and Content-Range read back correctly. |
| Proxy.NormalizeImageName | src/proxy.rs:289-295 | The result always has a `/`: the name is kept iff it has one, otherwise `library/` is prefixed. |
| Proxy.NormalizeIdempotent | src/proxy.rs:289-295 | Normalising twice is normalising once. |
| Proxy.SplitRegistryAndName | src/proxy.rs:252-263 | The registry is the configured one or an `https://` URL. |
| Proxy.LooksLikeHost | src/proxy.rs:256 | A first segment names a host iff some character of it is `.` or `:`; such a segment is never empty. |
| Proxy.HostIsSplitOff | src/proxy.rs:253-260 | A first segment holding `.` or `:` becomes `https://` + host, and the repository is the text after the first `/`. |
| Proxy.OtherNamesStayOnRegistry | src/proxy.rs:262 | Without a host-like first segment, the configured registry and the normalised name are used (so `localhost/repo` stays unchanged). |
| Proxy.RepositoryHasSlashOnDefaultRegistry | src/proxy.rs:252-263 | A name whose first segment is not host-like stays on the default registry, and its repository has a `/`. |
| Proxy.HostPrefixSkipsNormalizing | src/proxy.rs:252-263 | Counterexamples to a `/` always being present: `registry-1.docker.io/ubuntu` asks the default registry for `ubuntu`, not `library/ubuntu`, and `ghcr.io/` asks `https://ghcr.io` for the empty repository. |
| Proxy.IndexOfAt | src/proxy.rs:253 | `find` gives the first occurrence. |
| Proxy.Unquote | src/proxy.rs:281-283 | The value is kept or is the text inside one enclosing pair of quotes. |
| Proxy.ParamOf | src/proxy.rs:275-280 | A piece yields a parameter iff it contains `=`, and the key has no whitespace at either end. |
| Proxy.ParamsOf | src/proxy.rs:274-285 | No pieces give the empty map. |
| Proxy.AddParam | src/proxy.rs:284 | Inserting a parameter sets its key to its value and keeps every other key. A piece without a parameter changes nothing. |
| Proxy.AuthParams | src/proxy.rs:269-272 | A header without a space gives the empty map. |
| Proxy.ParseWwwAuthenticate | src/proxy.rs:266-287 | The loop that inserts each parameter builds exactly `AuthParams(header)`. |
| Proxy.ParamsKeys | src/proxy.rs:274-285 | A key is in the map iff some piece yields a parameter with that key. |
| Proxy.ParamsKeyWitness | src/proxy.rs:274-285 | A key in the map comes from some piece. |
| Proxy.ParamsKeyFrom | src/proxy.rs:274-285 | A key that some piece yields is in the map. |
| Proxy.ParamsLastWins | src/proxy.rs:284 | With a repeated key, the value of the last piece for that key survives. |
| Proxy.QuotedParam | src/proxy.rs:275-283 | `key="value"` yields `(key, value)` with the quotes stripped. |
| Proxy.SpacedQuotedParam | src/proxy.rs:275-283 | Whitespace before the key, around the `=` and after the quoted value is dropped: `key = "value"` yields `(key, value)`. |
| Proxy.AfterScheme | src/proxy.rs:269-274 | Only the text after the first space is split into parameters. |
| Proxy.ThreeParams | src/proxy.rs:274-285 | Three pieces are inserted in order. |
| Proxy.TwoParams | src/proxy.rs:274-285 | Two pieces are inserted in order. |
| Proxy.QuotedHasNoComma | src/proxy.rs:274 | A quoted parameter without commas contributes one piece. |
| Proxy.ChallengeParams | src/proxy.rs:265-287 | A comma-free `Bearer realm=..,service=..,scope=..` challenge parses to exactly those three parameters. |
| Proxy.ChallengePieces | src/proxy.rs:269-274 | Such a challenge splits into its three quoted pieces. |
| Proxy.SpacedChallengeParams | src/proxy.rs:265-287 | The same challenge with a space after each comma parses to the same three parameters. |
| Proxy.SpacedChallengePieces | src/proxy.rs:269-274 | That challenge splits into its three pieces, the last two with a leading space. |
| Proxy.SpacedKeys | src/proxy.rs:275-283 | A space before `service=` or `scope=` does not reach the key. |
| Proxy.CommaInsideQuotes | src/proxy.rs:274-283 | A comma inside quotes is not protected: `key="a,b"` yields the value `"a` with its leading quote kept. |
| Proxy.OpenQuotedParam | src/proxy.rs:281-283 | A value with an opening quote but no closing one keeps its quote. |
| Proxy.WithQuery | src/proxy.rs:201-208 | An absent parameter leaves the URL unchanged; a present one extends it and adds a `?`. |
| Proxy.Separator | src/proxy.rs:202 | The next parameter is introduced by `&` iff the URL built so far already holds a `?`, and by `?` otherwise. |
| Proxy.TokenUrl | src/proxy.rs:200-208 | The token URL starts with the realm. |
| Proxy.BuildTokenUrl | src/proxy.rs:200-208 | The `push_str` steps build exactly `TokenUrl(params)`. |
| Proxy.TokenUrlSeparators | src/proxy.rs:200-208 | Realm, then `service=`, then `scope=`; the first separator is `?` unless the realm has one, and the next is `&`. Values are not encoded. |
| Proxy.ChallengeTokenUrl | src/proxy.rs:194-208 | From a standard challenge, the token URL is `realm?service=S&scope=T`. |
| Proxy.ThreeParamTokenUrl | src/proxy.rs:200-208 | With all three parameters and a realm without `?`, the URL is `realm?service=S&scope=T`. |
| Proxy.GetHeader | src/proxy.rs:188-191 | A header found is the FIRST one with that name, and its value is returned. None is found only when no header has that name. |
| Proxy.IsSuccess | src/proxy.rs:219 | A status is a success iff it is in the 2xx class; in particular the 401 challenge never is. |
| Proxy.HeaderText | src/proxy.rs:188-192 | The challenge text is the first header value with that name, and only when it is visible ASCII. |
| Proxy.ContentLengthOf | src/proxy.rs:102-107 | The content length is a `u64`. |
| Proxy.ContentLengthMissing | src/proxy.rs:102-107 | A missing Content-Length gives 0. |
| Proxy.ContentLengthDecimal | src/proxy.rs:102-107 | A decimal Content-Length gives its value. |
| Proxy.ContentLengthNotNumber | src/proxy.rs:102-107 | A Content-Length that is not a number gives 0. |
| Proxy.ContentTypeDefault | src/proxy.rs:95-100 | A missing Content-Type gives `application/json`. |
| Proxy.ContentTypeKept | src/proxy.rs:95-100 | A visible-ASCII Content-Type is kept. |
| Proxy.ContentTypeOf | src/proxy.rs:95-100 | The content type is `application/json` when the header is missing. Otherwise it is either `application/json` or the first Content-Type value, which is then visible ASCII. |
| Proxy.Upstream.Send | src/proxy.rs:179-182 | A send logs the request and consumes the next scripted reply. |
| Proxy.TokenOf | src/proxy.rs:228-232 | The token is the string field `token`, else `access_token`, and is none iff neither is a string. |
| Proxy.Lowered | src/proxy.rs:173-177 | Extra headers keep their order and values; names are lower-cased as `HeaderName` stores them. |
| Proxy.AddHeaders | src/proxy.rs:173-177 | The loop over the extra headers appends them in order. |
| Proxy.Authorization | src/proxy.rs:235 | The retry header is `authorization`, and its value is `Bearer ` followed by exactly the token; it is a valid header value when the token is. |
| Proxy.AuthFlow | src/proxy.rs:172-247 | One to three requests are sent, and the first is the original request with its extra headers. |
| Proxy.TokenFlow | src/proxy.rs:212-247 | After a challenge, one or two requests are sent, and the first is a GET of the token URL without headers. |
| Proxy.AuthFlowAfterChallenge | src/proxy.rs:183-247 | After a 401 with a realm, the flow is the original request followed by the token flow. |
| Proxy.AnswerFlow | src/proxy.rs:183-247 | No answer, or an answer other than 401, ends the flow with no further request, and such an answer is the result. A 401 leads to at most two more requests. |
| Proxy.ChallengeFlow | src/proxy.rs:188-247 | At most two more requests are sent, and none exactly when the challenge is missing or names no realm. |
| Proxy.AuthFlowComposes | src/proxy.rs:171-247 | Sending the first request and then following its answer on the remaining replies gives the result, the requests and the remaining replies of the whole flow. |
| Proxy.ReachedTokenFlow | src/proxy.rs:183-212 | A flow with more than one request went through a challenge naming a realm, and from there it is the token flow. |
| Proxy.TokenRetryRepeats | src/proxy.rs:235-240 | In the token flow, the retry repeats the method and URL with an Authorization header before the extra headers. |
| Proxy.TokenRetryAnswer | src/proxy.rs:242-247 | In the token flow, the retry's answer is the result, and a failed retry send is an error. |
| Proxy.DropNth | src/proxy.rs:179-245 | Consuming replies in two steps equals consuming them at once. |
| Proxy.PassThrough | src/proxy.rs:183-185 | A first answer other than 401 is returned untouched after one request. |
| Proxy.ChallengeWithoutRealm | src/proxy.rs:188-197 | A 401 without a readable challenge or without a realm fails after one request. |
| Proxy.TokenRequestFollowsChallenge | src/proxy.rs:188-217 | A second request happens only after a 401, and it is a GET of the token URL built from the challenge. |
| Proxy.RetryRepeatsRequest | src/proxy.rs:235-240 | The third request repeats the method and URL with an Authorization header before the extra headers. |
| Proxy.RetryAnswerReturned | src/proxy.rs:242-247 | The retry's answer is returned whatever its status, and a failed send is an error. |
| Proxy.OkIsLastAnswer | src/proxy.rs:172-247 | A successful result is the answer to the last request, and there are never exactly two requests on success, so the original URL is sent at most twice. |
| Proxy.TokenOkIsLastAnswer | src/proxy.rs:212-247 | A successful token flow sent two requests and returns the second answer. |
| Proxy.TokenFailures | src/proxy.rs:212-232 | A failed token send, a non-2xx token status, a non-JSON token body and a missing token each give their own error. |
| Proxy.ManifestUrl | src/proxy.rs:28 | The manifest URL starts with the registry and `/v2/`, and ends with `/manifests/` and the reference. |
| Proxy.BlobUrl | src/proxy.rs:114 | The blob URL starts with the registry and `/v2/`, and ends with `/blobs/` and the digest. |
| Proxy.UpstreamManifestPath | src/proxy.rs:28 | The upstream manifest URL is the registry, `/v2/`, and a path that the router parses back as the same manifest. |
| Proxy.UpstreamBlobPath | src/proxy.rs:114 | Same for blob URLs. |
| Proxy.ManifestOutcome | src/proxy.rs:46-66 | Ok iff the fetch succeeded with a 2xx status and the body was read; the value is then the content type and the body. A failed fetch keeps its cause, and a status error is never 2xx and carries the upstream status. |
| Proxy.HeadManifestOutcome | src/proxy.rs:87-109 | Ok iff the fetch succeeded with a 2xx status; the value is then the content type and the content length. A failed fetch keeps its cause, and there is never a read failure. |
| Proxy.BlobOutcome | src/proxy.rs:119-132 | Ok iff the fetch succeeded with a 2xx status and the body was read; the value is then the body. A failed fetch keeps its cause, and a status error is never 2xx and carries the upstream status. |
| Proxy.HeadBlobOutcome | src/proxy.rs:142-157 | Ok iff the fetch succeeded with a 2xx status; the value is then the content length, a `u64`. A failed fetch keeps its cause, and there is never a read failure. |
| Proxy.DockerProxy.constructor | src/proxy.rs:14-19 | The proxy starts on `https://registry-1.docker.io`. |
| Proxy.DockerProxy.FetchWithAuth | src/proxy.rs:165-248 | The result, the requests sent and the replies consumed are those of `AuthFlow`. |
| Proxy.DockerProxy.HandleAnswer | src/proxy.rs:183-247 | The result, the requests sent and the replies consumed are those of `AnswerFlow` for the first answer. |
| Proxy.DockerProxy.AnswerChallenge | src/proxy.rs:188-247 | The result, the requests sent and the replies consumed are those of `ChallengeFlow` for the 401 answer. |
| Proxy.DockerProxy.RetryWithToken | src/proxy.rs:212-247 | The result, the requests sent and the replies consumed are those of `TokenFlow`. |
| Proxy.DockerProxy.GetManifest | src/proxy.rs:21-67 | The manifest is fetched from the split registry and repository with both Accept types. The result is `ManifestOutcome` of the flow; the requests sent are the flow's, and exactly as many scripted replies are consumed. |
| Proxy.DockerProxy.HeadManifest | src/proxy.rs:69-110 | A HEAD of the manifest URL with one Accept type. The result is `HeadManifestOutcome` of the flow; the requests sent are the flow's, and exactly as many scripted replies are consumed. |
| Proxy.DockerProxy.GetBlob | src/proxy.rs:112-133 | A GET of the blob URL. The result is `BlobOutcome` of the flow; the requests sent are the flow's, and exactly as many scripted replies are consumed. |
| Proxy.DockerProxy.HeadBlob | src/proxy.rs:135-158 | A HEAD of the blob URL. The result is `HeadBlobOutcome` of the flow; the requests sent are the flow's, and exactly as many scripted replies are consumed. |
| Proxy.HeadBlobLength | src/proxy.rs:146-157 | On a direct answer, a 2xx gives the content length and anything else a status error. |
| Proxy.HeadManifestDefaults | src/proxy.rs:91-109 | A 2xx without Content-Type and Content-Length gives `("application/json", 0)`. |
| Api.Dispatch | src/api.rs:300-336 | A handler is reached iff GET or HEAD meets a Manifest or Blob, POST meets BlobUploadInit, or PUT meets BlobUploadComplete. |
| Api.FixedReply | src/api.rs:295-334 | The handlers that need no upstream call: no handler gives 404 `Not Found`, an upload completion 201 `Upload complete`, both with no headers. |
| Api.UnknownPathNotFound | src/api.rs:300-334 | A path the router does not know is `Not Found` under every method. |
| Api.UploadCompletion | src/api.rs:331-334 | An upload completion is acknowledged with 201 under PUT and is `Not Found` otherwise. |
| Api.DispatchPassesEndpoint | src/api.rs:300-329 | Each handler receives the name and the reference or digest the router found. |
| Api.ManifestPathDispatch | src/api.rs:300-336 | A manifest path reaches the manifest handlers under GET and HEAD and no handler under POST and PUT. |
| Api.ManifestErrorStatus | src/api.rs:152-156 | ManifestNotFound gives 404 and AuthenticationFailed gives 401, each exactly; anything else gives 500. |
| Api.ResponseContentType | src/api.rs:140-146 | The header is always valid: the upstream type when valid, else `application/json`. |
| Api.ManifestResponse | src/api.rs:133-160 | Success gives 200 with the body and content type; an error gives the manifest error status and `Error: ` with the error. |
| Api.HeadManifestResponse | src/api.rs:163-196 | Success gives 200, no body, the content type and a Content-Length that reads back as the length. An error gives its status and the `Error: ` body. |
| Api.HeadBlobErrorStatus | src/api.rs:257-261 | BlobNotFound gives 404 and AuthenticationFailed gives 401, each exactly; anything else gives 500. |
| Api.HeadBlobResponse | src/api.rs:242-265 | Success gives 200, `application/octet-stream` and a Content-Length that reads back as the length. An error gives its status and the `Error: ` body. |
| Api.HopByHop | src/api.rs:211-213 | A name is hop-by-hop iff its lower case is `connection`, `transfer-encoding` or `upgrade`. |
| Api.Relayed | src/api.rs:207-222 | Every relayed name is not hop-by-hop, and its value is a valid header value that some upstream header carried under that name. |
| Api.RelayOne | src/api.rs:210-222 | A hop-by-hop header or an invalid value leaves the map unchanged. Otherwise its name is added with its value, replacing any earlier value. Every other name keeps its value. |
| Api.RelayHeaders | src/api.rs:207-223 | The loop over the upstream headers builds exactly `Relayed(headers)`. |
| Api.RelayedNames | src/api.rs:209-222 | A name is relayed iff it is not hop-by-hop and some upstream header with that name has a valid value. |
| Api.HopByHopDropped | src/api.rs:211-216 | `connection`, `transfer-encoding` and `upgrade`, in any case, are never relayed. |
| Api.RelayedLastWins | src/api.rs:221 | For a repeated name, the last value survives. |
| Api.RelayedStatus | src/api.rs:205-206 | An upstream status from 100 to 999 is kept; any other status becomes 200. |
| Api.BlobResponse | src/api.rs:199-239 | Success relays the status, the filtered headers and the stream; any error gives 502 and `Upstream blob error: `. |
| Api.UploadLocation | src/api.rs:275 | The Location is a `/v2/` path ending in `/blobs/uploads/` and the upload id. |
| Api.InitiateUploadResponse | src/api.rs:268-292 | Success gives 202, with Location `/v2/{name}/blobs/uploads/{id}` iff that is a valid header value; an error gives 405 iff BlobUploadNotSupported, otherwise 500. |
| Api.LocationRoutesToComplete | src/api.rs:275 | The Location of a new upload routes back, under PUT, to the upload-complete handler. |
| Api.Healthz | src/api.rs:36-45 | `healthy` and 200 iff the registry is healthy, otherwise `degraded` and 503. |
| Api.V2Check | src/api.rs:17-25 | 200 with `Docker-Distribution-Api-Version: registry/2.0`, which is always set. |
| Api.DebugParams | src/api.rs:81-98 | Accepted iff `name` and `digest` are present and non-empty; `name` is reported first with `missing 'name' query parameter`, then `missing 'digest' query parameter`; `reference` defaults to `latest` only when absent; refusals are 400. |
| Api.EmptyReferenceKept | src/api.rs:95-98 | An empty `reference` is kept, not defaulted. |
| Api.AsI64 | src/api.rs:108 | `as i64` keeps values up to 2^63-1 and lands in the `i64` range. |
| Api.WrapI64 | src/api.rs:108 | `i64` wrap-around keeps in-range values. |
| Api.SizeDiff | src/api.rs:108 | `actual - manifest` as `i64`; it is the true difference when both fit in `i64`. |
| Api.SizeDiffOverflow | src/api.rs:108 | A blob size of 2^63 with a manifest size of 0 gives `i64::MIN`. |
| Api.DebugErrorStatus | src/api.rs:119-126 | Either NotFound kind gives 404 and AuthenticationFailed gives 401, each exactly; anything else gives 502. |
| Api.DebugResponse | src/api.rs:100-128 | Success gives 200 JSON with the query, both sizes and their difference; an error gives the debug status and `debug error: `. |
| Api.BlobNotFoundStatuses | src/api.rs:121-261 | BlobNotFound is 404 for HEAD blob and debug, 500 for manifests and 502 for GET blob. |
| StaticFiles.GetContentType | src/static_files.rs:20-52 | The result is always one of the 15 fixed types. |
| StaticFiles.TypeOfExtension | src/static_files.rs:20-62 | The table by extension; a type other than octet-stream is given iff the extension is in the whitelist. |
| StaticFiles.DotSuffix | src/static_files.rs:21-47 | `stem.ext` ends with `.other` iff `other` is `ext`, for dot-free `ext` and `other`. |
| StaticFiles.DottedSuffix | src/static_files.rs:21-47 | The same for a suffix given with its dot. |
| StaticFiles.FirstSuffixes | src/static_files.rs:21-33 | Each of the first eight suffix tests holds iff the extension is that suffix. |
| StaticFiles.LastSuffixes | src/static_files.rs:33-47 | Each of the last eight suffix tests holds iff the extension is that suffix. |
| StaticFiles.ContentTypeByExtension | src/static_files.rs:20-52 | The if-chain gives the table type of the last extension. |
| StaticFiles.Woff2IsNotWoff | src/static_files.rs:41-44 | `.woff2` maps to `font/woff2`, not `font/woff`. |
| StaticFiles.UpperCaseIsOctetStream | src/static_files.rs:21-51 | Suffix tests are case-sensitive: `.HTML` maps to octet-stream. |
| StaticFiles.CheckPath | src/static_files.rs:68-85 | A refusal is 404 or 403. A served path is non-empty, has no leading `/` and no trailing `/`, contains no `..`, and is not under `web`. |
| StaticFiles.IndexPage | src/static_files.rs:77-79 | `index.html` has no leading or trailing `/` and is not under `web`. |
| StaticFiles.NoLeadingSlash | src/static_files.rs:68 | After stripping, no leading `/` remains. |
| StaticFiles.Slashes | src/static_files.rs:68 | A run of `n` slashes. |
| StaticFiles.StripSlashes | src/static_files.rs:68 | Every leading `/` is stripped, and nothing more. |
| StaticFiles.OrdinaryPathServed | src/static_files.rs:68-85 | Any other path, with any number of leading slashes, is served as written once the slashes are stripped: not under `web`, not ending in `/`, and without `..`. |
| StaticFiles.WebPrefixed | src/static_files.rs:71 | A path is hidden iff it starts with `web` and either ends there or continues with `/`. |
| StaticFiles.WebIsHidden | src/static_files.rs:68-74 | `web`, and anything under `web/`, with any leading slashes, gives 404. |
| StaticFiles.DirectoryServesIndex | src/static_files.rs:77-79 | A `/`-terminated path is replaced wholesale by `index.html`. |
| StaticFiles.SlashedNotWeb | src/static_files.rs:71 | Adding a trailing `/` does not put a path under `web`. |
| StaticFiles.RootServesIndex | src/static_files.rs:77-79 | An empty or all-slash path serves `index.html`. |
| StaticFiles.IndexHasNoDoubleDot | src/static_files.rs:78-85 | The substituted index passes the `..` check. |
| StaticFiles.SingleDot | src/static_files.rs:82 | Two dot-free texts joined by one dot contain no `..`. |
| StaticFiles.NoDoubleDot | src/static_files.rs:82 | Without adjacent dots there is no `..`. |
| StaticFiles.DoubleDotAt | src/static_files.rs:82 | Adjacent dots are a `..`. |
| StaticFiles.TraversalForbidden | src/static_files.rs:82-85 | A path with `..` that is neither under `web` nor `/`-terminated gives 403. |
| StaticFiles.FileName | src/static_files.rs:108 | The file name is the tail after the last `/`, or the whole path when it has none: it has no `/`, and the character before it is `/`. |
| StaticFiles.FileNameAfterDir | src/static_files.rs:108 | Under any directory (empty or ending in `/`), a slash-free name is the file name. |
| StaticFiles.Extension | src/static_files.rs:108 | An extension is dot-free and follows the last dot, which is not the first character. |
| StaticFiles.ExtensionOf | src/static_files.rs:108 | `stem.ext` with a non-empty stem has the extension `ext`. |
| StaticFiles.ExtensionAllowed | src/static_files.rs:107-124 | A path is admitted iff its file name has an extension whose lower case is whitelisted. Such an extension has 2 to 5 characters and ends the path after a dot. |
| StaticFiles.AllowedFileAdmitted | src/static_files.rs:107-124 | For `dir/stem.ext` with any directory, the file is admitted iff the lower case of `ext` is whitelisted. |
| StaticFiles.FileTypedByExtension | src/static_files.rs:108-138 | With an extension, the content type is the table type of that extension. |
| StaticFiles.PathTypedByExtension | src/static_files.rs:138 | A path `stem.ext` is typed by `ext`. |
| StaticFiles.LowerCaseAdmittedTyped | src/static_files.rs:107-138 | An admitted lower-case extension gets a type other than octet-stream. |
| StaticFiles.NoSlashFileName | src/static_files.rs:108 | A slash-free path is its own file name. |
| StaticFiles.ExtensionOfPath | src/static_files.rs:108 | The extension of the file name ends the path, after a dot. |
| StaticFiles.UpperCaseAdmittedUntyped | src/static_files.rs:110-138 | `x.HTML` passes the lower-casing whitelist but is typed octet-stream. |
| StaticFiles.UpperCaseAdmitted | src/static_files.rs:110 | `x.HTML` passes the whitelist. |
| StaticFiles.LowerHtml | src/static_files.rs:110 | `HTML` lower-cases to `html`. |
| StaticFiles.NoExtensionRefused | src/static_files.rs:117-124 | A path without a dot is refused. |
| StaticFiles.DeliveryFor | src/static_files.rs:182 | A file is buffered iff it is smaller than 1 MiB, otherwise it is streamed. |
| StaticFiles.StreamingMonotone | src/static_files.rs:302-312 | A larger file than a streamed one is streamed; 100 KiB is buffered and 2 MiB is streamed. |
| StaticFiles.RangeRequest | src/static_files.rs:141-144 | A range is used only from a visible-ASCII Range header. Such a header is parsed against the file size by the range parser, and the range lies within the file. |
| StaticFiles.ServeFile | src/static_files.rs:137-149 | The reply is typed by the path. It is partial iff a range was parsed, and then it carries exactly that range. Otherwise the whole file is sent with the threshold delivery. |
| StaticFiles.ServeStatic | src/static_files.rs:55-149 | The request is refused iff a path check refuses or the extension is not whitelisted. A path-check refusal keeps its status, and a rejected extension gives 403. Otherwise the checked path is served. |
| Config.ValidateServer | src/config.rs:14-22 | Ok iff the host is non-empty and the port is not 0; the host is checked first, and each failure has its own message. |
| Config.SocketAddr | src/config.rs:25-27 | The address is the host, `:`, then digits. |
| Config.SocketAddrRoundTrip | src/config.rs:25-27 | Splitting the address at its last `:` gives back the host and the port. |
| Config.ValidateLog | src/config.rs:40-52 | Ok iff the level is known in any case and the path is non-empty; an unknown level is reported first, with the listed levels. |
| Config.NormalizedLevel | src/config.rs:55-57 | The level equals the configured one ignoring case, and is one of the five when validated. |
| Config.ValidateProxy | src/config.rs:68-73 | Ok iff the default registry is non-empty. |
| Config.Validate | src/config.rs:122-127 | Ok iff all three sections are Ok; the first failure is reported in the order server, log, proxy. |
| Config.ValidateIgnoresAuth | src/config.rs:122-127 | The auth section never affects validation. |
| Config.HasGhcrToken | src/config.rs:86-88 | A token is configured iff it is non-empty; the configuration delegates to its auth section (src/config.rs:162-164). |
| Config.ToDisplayString | src/config.rs:167-175 | The display starts with `Server: ` and the socket address. |
| Config.DisplayHidesToken | src/config.rs:162-175 | The token does not affect the display string, and a token is configured iff it is non-empty. |
| Log.ParseLogLevel | src/log.rs:91-100 | The result is always one of the five levels: the lower-cased level when known, else `info`. |
| Log.CaseInsensitive | src/log.rs:92 | Parsing a level equals parsing its lower case. |
| Log.Idempotent | src/log.rs:91-100 | Parsing a parsed level changes nothing. |
| Log.AgreesWithValidatedConfig | src/log.rs:91-100 | For a validated configuration, the parsed level is the normalised level, so the `info` fallback is never taken. |

## Left out

- Network I/O: requests, body reads and token-response JSON decoding. The upstream is a script of replies, where a missing reply is a failed send and a token body is a map of JSON fields. Timeouts, redirects and TLS are not modelled.
- The health probe of the registry. Its result is the parameter of `Api.Healthz`. The JSON body's version, registry URL and timestamp are left out because they come from the build, the configuration and the clock.
- Random upload ids. The id is a parameter of `Api.InitiateUploadResponse`.
- The file system in the static-file server: `canonicalize`, metadata, reads, symbolic links, the base-directory check after canonicalisation, and `serve_range`/`serve_root`. `StaticFiles.ServeStatic` treats the canonical path as the requested path and takes the file size as a parameter.
- Response bodies and error messages. Error texts are kept as a prefix plus the error value (`Api.Body.ErrorText`) rather than the rendered `Display` string. The debug JSON is a record rather than serialised text.
- Cross-file mismatches. The API handlers call proxy operations that report a `ProxyError`, and `check_registry_health`, `get_registry_url` and `debug_blob_info` are not part of the proxy source. So the handlers are functions of a `Result<_, ProxyError>` outcome and are not wired to `Proxy.DockerProxy`. `DockerProxy.GetBlob` returns the body as `proxy.rs` does, while `Api.BlobResponse` relays a streamed upstream response as `api.rs` does.
- src/main.rs (routes, start-up, request-logging middleware) and logger set-up. src/main.rs is not part of this model; logger set-up is global state and file creation.
- TOML loading of the configuration: the model starts from the parsed record.
- Concurrency and `async`: each operation is modelled as one sequential step.
- Integer overflow in a debug build. Arithmetic follows the release profile, where `u64` and `i64` wrap; the overflow panics of a debug build (src/range.rs:43, src/range.rs:78, src/api.rs:108) are not modelled.
- Logging: the `tracing` warnings, errors and info messages the handlers emit (for example on a blocked path or an unparsable Location) have no effect on the reply and are dropped.
- Unicode: `trim`, `to_lowercase` and `eq_ignore_ascii_case` are modelled on ASCII only. Header names are taken as already lower-case, as `HeaderName` stores them.
- Proxy.DockerProxy.GetManifest, Proxy.DockerProxy.HeadManifest, Proxy.DockerProxy.GetBlob, Proxy.DockerProxy.HeadBlob: the outcome keeps the failure kind and status, not the formatted error text.
- Config.ServerConfig: the port is a `nat`; `Config.SocketAddrRoundTrip` requires it to fit the Rust `u16`.
