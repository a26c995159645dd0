/**
 * The Docker Registry V2 path router (src/router.rs): the wildcard tail of a
 * `/v2/...` request is split on `/` and classified positionally, the first
 * `manifests` segment taking precedence over the first `blobs` segment.
 */
module Router {
  import opened Wrappers
  import opened Text

  datatype V2Endpoint =
    | Manifest(name: string, reference: string)
    | Blob(name: string, digest: string)
    | BlobUploadInit(name: string)
    | BlobUploadComplete(name: string, uuid: string)
    | Unknown

  /**
   * Classification of the segments of a path tail: every endpoint names the
   * keyword segment it was found at, takes its name from the segments before it
   * and its reference, digest or uuid from the segment after.
   */
  function Classify(parts: seq<string>): (r: V2Endpoint)
    ensures r.Manifest? ==>
      exists i :: 0 <= i < |parts| - 1 && parts[i] == "manifests" &&
        r.name == Join(parts[..i], "/") && r.reference == parts[i + 1]
    ensures r.Blob? ==>
      exists i :: 0 <= i < |parts| - 1 && parts[i] == "blobs" &&
        r.name == Join(parts[..i], "/") && r.digest == parts[i + 1]
    ensures r.BlobUploadComplete? ==>
      exists i :: 0 <= i < |parts| - 2 && parts[i] == "blobs" && parts[i + 1] == "uploads" &&
        r.name == Join(parts[..i], "/") && r.uuid == parts[i + 2]
    ensures r.BlobUploadInit? ==>
      |parts| >= 2 && parts[|parts| - 2] == "blobs" && parts[|parts| - 1] == "uploads" &&
      r.name == Join(parts[..|parts| - 2], "/")
  {
    var m := IndexOf(parts, "manifests");
    if m.Some? && m.value + 1 < |parts| then
      Manifest(Join(parts[..m.value], "/"), parts[m.value + 1])
    else
      match IndexOf(parts, "blobs")
      case None => Unknown
      case Some(i) =>
        if i + 2 < |parts| && parts[i + 1] == "uploads" then
          BlobUploadComplete(Join(parts[..i], "/"), parts[i + 2])
        else if i + 1 < |parts| && parts[i + 1] == "uploads" && i + 2 == |parts| then
          BlobUploadInit(Join(parts[..i], "/"))
        else if i + 1 < |parts| then
          Blob(Join(parts[..i], "/"), parts[i + 1])
        else
          Unknown
  }

  /** `parse_v2_path`: total, every input yields exactly one endpoint. */
  function ParseV2Path(rest: string): (r: V2Endpoint)
    ensures r.Manifest? ==> '/' !in r.reference
    ensures r.Blob? ==> '/' !in r.digest
    ensures r.BlobUploadComplete? ==> '/' !in r.uuid
  {
    Classify(Split(rest, '/'))
  }

  /** No segment of `name` is one of the two keywords the router looks for. */
  predicate PlainName(name: string) {
    "manifests" !in Split(name, '/') && "blobs" !in Split(name, '/')
  }

  /** A `manifests` segment anywhere but last makes the result a Manifest, whatever else the path holds. */
  lemma ManifestTakesPrecedence(parts: seq<string>, i: nat)
    requires i + 1 < |parts| && parts[i] == "manifests"
    ensures Classify(parts).Manifest?
  {
  }

  /**
   * The split happens at the FIRST `manifests`: the name is the `/`-join of the
   * segments before it, the reference is the one segment after it, and later
   * segments are ignored.
   */
  lemma ManifestSplitsAtFirst(parts: seq<string>, i: nat)
    requires i + 1 < |parts| && parts[i] == "manifests" && "manifests" !in parts[..i]
    ensures Classify(parts) == Manifest(Join(parts[..i], "/"), parts[i + 1])
  {
  }

  /**
   * Unknown exactly when no `manifests` is followed by a segment and the first
   * `blobs` (if any) is the last segment.
   */
  lemma UnknownExactly(parts: seq<string>)
    ensures Classify(parts) == Unknown <==>
      (forall i :: 0 <= i < |parts| - 1 ==> parts[i] != "manifests") &&
      (forall i :: 0 <= i < |parts| - 1 ==> parts[i] != "blobs")
  {
    var m := IndexOf(parts, "manifests");
    var b := IndexOf(parts, "blobs");
    if Classify(parts) == Unknown {
      assert m.None? || m.value + 1 >= |parts|;
      assert b.None? || b.value + 1 >= |parts|;
    }
  }

  // The same statements about segments that follow a plain name

  lemma {:induction false} IndexOfAfter<T>(xs: seq<T>, ys: seq<T>, x: T)
    requires x !in xs
    ensures IndexOf(xs + ys, x) == if x in ys then Some(|xs| + IndexOf(ys, x).value) else None
    decreases |xs|
  {
    if |xs| == 0 {
      assert xs + ys == ys;
    } else {
      IndexOfAfter(xs[1..], ys, x);
      assert (xs + ys)[1..] == xs[1..] + ys;
    }
  }

  lemma ManifestAfterName(np: seq<string>, r: string)
    requires "manifests" !in np
    ensures Classify(np + ["manifests", r]) == Manifest(Join(np, "/"), r)
  {
    IndexOfAfter(np, ["manifests", r], "manifests");
    assert (np + ["manifests", r])[..|np|] == np;
  }

  lemma BlobsAfterName(np: seq<string>, tail: seq<string>)
    requires "manifests" !in np && "blobs" !in np
    requires |tail| >= 1 && tail[0] == "blobs" && "manifests" !in tail[..|tail| - 1]
    ensures var parts := np + tail;
      Classify(parts) == (
        if |tail| >= 3 && tail[1] == "uploads" then BlobUploadComplete(Join(np, "/"), tail[2])
        else if |tail| == 2 && tail[1] == "uploads" then BlobUploadInit(Join(np, "/"))
        else if |tail| >= 2 then Blob(Join(np, "/"), tail[1])
        else Unknown)
  {
    var parts := np + tail;
    IndexOfAfter(np, tail, "manifests");
    IndexOfAfter(np, tail, "blobs");
    assert parts[..|np|] == np;
    assert IndexOf(tail, "blobs") == Some(0);
  }

  // The string-level statements

  /** The segments of `n/kw/tail` when the keyword has no `/`. */
  lemma KeywordPathSegments(n: string, kw: string, tail: string)
    requires '/' !in kw
    ensures Split(n + "/" + kw + "/" + tail, '/') == Split(n, '/') + [kw] + Split(tail, '/')
  {
    var rest := kw + ['/'] + tail;
    assert n + "/" + kw + "/" + tail == n + ['/'] + rest;
    SplitAround(kw, '/', tail);
    SplitWithoutSeparator(kw, '/');
    assert Split(rest, '/') == [kw] + Split(tail, '/');
    SplitAround(n, '/', rest);
    assert Split(n, '/') + ([kw] + Split(tail, '/')) == Split(n, '/') + [kw] + Split(tail, '/');
  }

  /**
   * Round trip for manifests: for any name without a `manifests` segment (so with
   * any number of slashes) and a reference without `/`, the router recovers
   * exactly that name and reference.
   */
  lemma ManifestRoundTrip(n: string, r: string)
    requires "manifests" !in Split(n, '/')
    requires '/' !in r
    ensures ParseV2Path(n + "/manifests/" + r) == Manifest(n, r)
  {
    ManifestPathSegments(n, r);
    ManifestAfterName(Split(n, '/'), r);
    JoinSplit(n, '/');
  }

  lemma ManifestPathSegments(n: string, r: string)
    requires '/' !in r
    ensures Split(n + "/manifests/" + r, '/') == Split(n, '/') + ["manifests", r]
  {
    assert n + "/manifests/" + r == n + "/" + "manifests" + "/" + r;
    KeywordPathSegments(n, "manifests", r);
    SplitWithoutSeparator(r, '/');
  }

  /** The segments of `{name}/blobs/{tail}`. */
  lemma BlobPathSegments(n: string, tail: string)
    ensures Split(n + "/blobs/" + tail, '/') == Split(n, '/') + ["blobs"] + Split(tail, '/')
  {
    assert n + "/blobs/" + tail == n + "/" + "blobs" + "/" + tail;
    KeywordPathSegments(n, "blobs", tail);
  }

  /**
   * Round trip for blobs: for a name with neither keyword as a segment and a
   * digest that has no `/` and is not `uploads`, the router recovers both.
   */
  lemma BlobRoundTrip(n: string, d: string)
    requires PlainName(n)
    requires '/' !in d && d != "uploads"
    ensures ParseV2Path(n + "/blobs/" + d) == Blob(n, d)
  {
    BlobPathSegments(n, d);
    SplitWithoutSeparator(d, '/');
    assert Split(n, '/') + ["blobs"] + [d] == Split(n, '/') + ["blobs", d];
    BlobsAfterName(Split(n, '/'), ["blobs", d]);
    JoinSplit(n, '/');
  }

  /** `{name}/blobs/uploads` is the upload-init path. */
  lemma UploadInitRoundTrip(n: string)
    requires PlainName(n)
    ensures ParseV2Path(n + "/blobs/uploads") == BlobUploadInit(n)
  {
    var np := Split(n, '/');
    var parts := np + ["blobs", "uploads"];
    assert Split(n + "/blobs/uploads", '/') == parts by {
      assert n + "/blobs/uploads" == n + "/blobs" + "/" + "uploads";
      FinalSegment(n + "/blobs", "uploads");
      assert n + "/blobs" == n + "/" + "blobs";
      FinalSegment(n, "blobs");
      assert np + ["blobs"] + ["uploads"] == parts;
    }
    assert Classify(parts) == BlobUploadInit(n) by {
      BlobsAfterName(np, ["blobs", "uploads"]);
      JoinSplit(n, '/');
    }
  }

  /** The segments of `uploads/{u}`. */
  lemma UploadsSegments(u: string)
    ensures Split("uploads/" + u, '/') == ["uploads"] + Split(u, '/')
  {
    assert "uploads/" + u == "uploads" + ['/'] + u;
    SplitAround("uploads", '/', u);
    SplitWithoutSeparator("uploads", '/');
  }

  /**
   * `{name}/blobs/uploads/{uuid}` is the upload-complete path for a uuid
   * without `/`.
   */
  lemma UploadCompleteRoundTrip(n: string, u: string)
    requires PlainName(n)
    requires '/' !in u
    ensures ParseV2Path(n + "/blobs/uploads/" + u) == BlobUploadComplete(n, u)
  {
    var np := Split(n, '/');
    var parts := np + ["blobs", "uploads", u];
    assert Split(n + "/blobs/uploads/" + u, '/') == parts by {
      assert n + "/blobs/uploads/" + u == n + "/blobs/" + ("uploads/" + u);
      BlobPathSegments(n, "uploads/" + u);
      UploadsSegments(u);
      SplitWithoutSeparator(u, '/');
      assert np + ["blobs"] + (["uploads"] + [u]) == parts;
    }
    assert Classify(parts) == BlobUploadComplete(n, u) by {
      BlobsAfterName(np, ["blobs", "uploads", u]);
      JoinSplit(n, '/');
    }
  }

  /**
   * With a trailing slash, `{name}/blobs/uploads/` is the upload-COMPLETE path
   * with an empty uuid, not the upload-init path.
   */
  lemma TrailingSlashIsUploadComplete(n: string)
    requires PlainName(n)
    ensures ParseV2Path(n + "/blobs/uploads/") == BlobUploadComplete(n, "")
  {
    UploadCompleteRoundTrip(n, "");
    assert n + "/blobs/uploads/" + "" == n + "/blobs/uploads/";
  }

  /** A keyword with nothing after it gives Unknown. */
  lemma DanglingKeywordIsUnknown(n: string, kw: string)
    requires PlainName(n)
    requires kw == "manifests" || kw == "blobs"
    ensures ParseV2Path(n + "/" + kw) == Unknown
  {
    FinalSegment(n, kw);
    DanglingAfterName(Split(n, '/'), kw);
  }

  lemma FinalSegment(n: string, kw: string)
    requires '/' !in kw
    ensures Split(n + "/" + kw, '/') == Split(n, '/') + [kw]
  {
    assert n + "/" + kw == n + ['/'] + kw;
    SplitAround(n, '/', kw);
    SplitWithoutSeparator(kw, '/');
  }

  lemma DanglingAfterName(np: seq<string>, kw: string)
    requires "manifests" !in np && "blobs" !in np
    ensures Classify(np + [kw]) == Unknown
  {
    IndexOfAfter(np, [kw], "manifests");
    IndexOfAfter(np, [kw], "blobs");
  }

  /** A path without either keyword, the empty path included, gives Unknown. */
  lemma PlainPathIsUnknown(n: string)
    requires PlainName(n)
    ensures ParseV2Path(n) == Unknown
  {
  }

  /**
   * When `manifests` is the last segment the blobs branch is still tried:
   * `{name}/blobs/{digest}/manifests` is a Blob.
   */
  lemma TrailingManifestsFallsThroughToBlob(n: string, d: string)
    requires PlainName(n)
    requires '/' !in d && d != "uploads" && d != "manifests"
    ensures ParseV2Path(n + "/blobs/" + d + "/manifests") == Blob(n, d)
  {
    DigestThenManifestsSegments(n, d);
    var tail := ["blobs", d, "manifests"];
    assert tail[..|tail| - 1] == ["blobs", d];
    BlobsAfterName(Split(n, '/'), tail);
    JoinSplit(n, '/');
  }

  lemma DigestThenManifestsSegments(n: string, d: string)
    requires '/' !in d
    ensures Split(n + "/blobs/" + d + "/manifests", '/') == Split(n, '/') + ["blobs", d, "manifests"]
  {
    var head := n + "/blobs/" + d;
    assert n + "/blobs/" + d + "/manifests" == head + "/" + "manifests";
    FinalSegment(head, "manifests");
    BlobPathSegments(n, d);
    SplitWithoutSeparator(d, '/');
  }
}
