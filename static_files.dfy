/**
 * The web UI's static files (src/static_files.rs): the content type chosen
 * from a path's suffix, the checks a requested path passes before the
 * filesystem is touched, the extension whitelist and the choice between
 * buffering a file and streaming it.
 */
module StaticFiles {
  import opened Wrappers
  import opened Text
  import Ranges

  /** Files below this size are read into memory; larger ones are streamed. */
  const STREAM_THRESHOLD: nat := 1024 * 1024

  const OCTET_STREAM: string := "application/octet-stream"

  /** Every content type `GetContentType` can answer with. */
  const CONTENT_TYPES: set<string> := {
    "text/html; charset=utf-8", "application/javascript; charset=utf-8", "text/css; charset=utf-8",
    "application/json; charset=utf-8", "image/svg+xml", "image/png", "image/jpeg", "image/gif",
    "image/webp", "image/x-icon", "font/woff", "font/woff2", "font/ttf",
    "application/vnd.ms-fontobject", OCTET_STREAM
  }

  /** The extensions that may be served, compared in lower case. */
  const ALLOWED_EXTENSIONS: set<string> := {
    "html", "htm", "css", "js", "json", "svg", "png", "jpg", "jpeg", "gif", "webp", "ico",
    "woff", "woff2", "ttf", "eot"
  }

  // Content type

  /** `get_content_type`: the first matching suffix, case-sensitively. */
  function GetContentType(path: string): (ct: string)
    ensures ct in CONTENT_TYPES
  {
    if EndsWith(path, ".html") || EndsWith(path, ".htm") then "text/html; charset=utf-8"
    else if EndsWith(path, ".js") then "application/javascript; charset=utf-8"
    else if EndsWith(path, ".css") then "text/css; charset=utf-8"
    else if EndsWith(path, ".json") then "application/json; charset=utf-8"
    else if EndsWith(path, ".svg") then "image/svg+xml"
    else if EndsWith(path, ".png") then "image/png"
    else if EndsWith(path, ".jpg") || EndsWith(path, ".jpeg") then "image/jpeg"
    else if EndsWith(path, ".gif") then "image/gif"
    else if EndsWith(path, ".webp") then "image/webp"
    else if EndsWith(path, ".ico") then "image/x-icon"
    else if EndsWith(path, ".woff") then "font/woff"
    else if EndsWith(path, ".woff2") then "font/woff2"
    else if EndsWith(path, ".ttf") then "font/ttf"
    else if EndsWith(path, ".eot") then "application/vnd.ms-fontobject"
    else OCTET_STREAM
  }

  /** The same mapping stated per extension, as a table. */
  function TypeOfExtension(ext: string): (ct: string)
    ensures ct in CONTENT_TYPES
    ensures ct != OCTET_STREAM <==> ext in ALLOWED_EXTENSIONS
  {
    if ext == "html" || ext == "htm" then "text/html; charset=utf-8"
    else if ext == "js" then "application/javascript; charset=utf-8"
    else if ext == "css" then "text/css; charset=utf-8"
    else if ext == "json" then "application/json; charset=utf-8"
    else if ext == "svg" then "image/svg+xml"
    else if ext == "png" then "image/png"
    else if ext == "jpg" || ext == "jpeg" then "image/jpeg"
    else if ext == "gif" then "image/gif"
    else if ext == "webp" then "image/webp"
    else if ext == "ico" then "image/x-icon"
    else if ext == "woff" then "font/woff"
    else if ext == "woff2" then "font/woff2"
    else if ext == "ttf" then "font/ttf"
    else if ext == "eot" then "application/vnd.ms-fontobject"
    else OCTET_STREAM
  }

  /** With dot-free extensions, a name ending in `.ext` ends in `.other` only when the two are equal. */
  lemma DotSuffix(stem: string, ext: string, other: string)
    requires '.' !in ext && '.' !in other
    ensures EndsWith(stem + "." + ext, "." + other) <==> other == ext
  {
    var s := stem + "." + ext;
    var suffix := "." + other;
    if |other| < |ext| {
      assert s[|s| - |suffix|] == ext[|ext| - |other| - 1];
    } else if |other| > |ext| {
      assert s[|stem|] == '.';
      assert |suffix| <= |s| ==> s[|s| - |suffix|..][|other| - |ext|] == s[|stem|];
    } else {
      assert EndsWith(s, suffix) ==> other == suffix[1..] == s[|s| - |other|..] == ext;
    }
  }

  /** `DotSuffix` for a literal suffix such as `.html`. */
  lemma DottedSuffix(stem: string, ext: string, dotted: string)
    requires '.' !in ext && |dotted| > 0 && dotted[0] == '.' && '.' !in dotted[1..]
    ensures EndsWith(stem + "." + ext, dotted) <==> ext == dotted[1..]
  {
    assert dotted == "." + dotted[1..];
    DotSuffix(stem, ext, dotted[1..]);
  }

  /** The first half of the suffix chain, decided by the extension alone. */
  lemma FirstSuffixes(stem: string, ext: string)
    requires '.' !in ext
    ensures var s := stem + "." + ext;
      (EndsWith(s, ".html") <==> ext == "html") && (EndsWith(s, ".htm") <==> ext == "htm") &&
      (EndsWith(s, ".js") <==> ext == "js") && (EndsWith(s, ".css") <==> ext == "css") &&
      (EndsWith(s, ".json") <==> ext == "json") && (EndsWith(s, ".svg") <==> ext == "svg") &&
      (EndsWith(s, ".png") <==> ext == "png") && (EndsWith(s, ".jpg") <==> ext == "jpg")
  {
    DottedSuffix(stem, ext, ".html");
    DottedSuffix(stem, ext, ".htm");
    DottedSuffix(stem, ext, ".js");
    DottedSuffix(stem, ext, ".css");
    DottedSuffix(stem, ext, ".json");
    DottedSuffix(stem, ext, ".svg");
    DottedSuffix(stem, ext, ".png");
    DottedSuffix(stem, ext, ".jpg");
  }

  /** The second half of the suffix chain. */
  lemma LastSuffixes(stem: string, ext: string)
    requires '.' !in ext
    ensures var s := stem + "." + ext;
      (EndsWith(s, ".jpeg") <==> ext == "jpeg") && (EndsWith(s, ".gif") <==> ext == "gif") &&
      (EndsWith(s, ".webp") <==> ext == "webp") && (EndsWith(s, ".ico") <==> ext == "ico") &&
      (EndsWith(s, ".woff") <==> ext == "woff") && (EndsWith(s, ".woff2") <==> ext == "woff2") &&
      (EndsWith(s, ".ttf") <==> ext == "ttf") && (EndsWith(s, ".eot") <==> ext == "eot")
  {
    DottedSuffix(stem, ext, ".jpeg");
    DottedSuffix(stem, ext, ".gif");
    DottedSuffix(stem, ext, ".webp");
    DottedSuffix(stem, ext, ".ico");
    DottedSuffix(stem, ext, ".woff");
    DottedSuffix(stem, ext, ".woff2");
    DottedSuffix(stem, ext, ".ttf");
    DottedSuffix(stem, ext, ".eot");
  }

  /** The suffix chain agrees with the per-extension table for every name with a final extension. */
  lemma ContentTypeByExtension(stem: string, ext: string)
    requires '.' !in ext
    ensures GetContentType(stem + "." + ext) == TypeOfExtension(ext)
  {
    FirstSuffixes(stem, ext);
    LastSuffixes(stem, ext);
  }

  /** `.woff2` is a woff2 font, though it is tested after `.woff`. */
  lemma Woff2IsNotWoff(stem: string)
    ensures GetContentType(stem + ".woff2") == "font/woff2"
  {
    ContentTypeByExtension(stem, "woff2");
    assert stem + "." + "woff2" == stem + ".woff2";
  }

  /** Matching is case-sensitive: an upper-case extension falls back to octet-stream. */
  lemma UpperCaseIsOctetStream(stem: string)
    ensures GetContentType(stem + ".HTML") == OCTET_STREAM
  {
    PathTypedByExtension(stem + ".HTML", stem, "HTML");
    UpperHtmlUntyped();
  }

  lemma UpperHtmlUntyped()
    ensures TypeOfExtension("HTML") == OCTET_STREAM
  {
    assert "HTML"[0] == 'H';
  }

  // Path checks

  /** What the path checks decide before the filesystem is consulted. */
  datatype Access = Serve(path: string) | Refuse(status: nat)

  /** The request names `web` itself or something under it. */
  function WebPrefixed(p: string): (b: bool)
    ensures b <==> |p| >= 3 && p[..3] == "web" && (|p| == 3 || p[3] == '/')
  {
    assert |p| >= 4 ==> p[..3] == p[..4][..3];
    p == "web" || StartsWith(p, "web/")
  }

  /** Leading slashes are stripped; `web` and `web/...` give 404, a directory is the index page, and `..` gives 403. */
  function CheckPath(file: string): (a: Access)
    ensures a.Refuse? ==> a.status == 404 || a.status == 403
    ensures a.Serve? ==> (|a.path| > 0 && a.path[0] != '/' && !EndsWith(a.path, "/") &&
      !Contains(a.path, "..") && !WebPrefixed(a.path))
  {
    var p := TrimStartChar(file, '/');
    if WebPrefixed(p) then Refuse(404)
    else
      var p' := if p == "" || EndsWith(p, "/") then "index.html" else p;
      if Contains(p', "..") then Refuse(403)
      else
        NoLeadingSlash(file);
        IndexPage();
        Serve(p')
  }

  lemma IndexPage()
    ensures var p := "index.html"; p[0] != '/' && !EndsWith(p, "/") && !WebPrefixed(p)
  {
    assert "index.html"[..4][0] == 'i' && "web/"[0] == 'w';
  }

  lemma {:induction false} NoLeadingSlash(s: string)
    ensures var t := TrimStartChar(s, '/'); |t| > 0 ==> t[0] != '/'
    decreases |s|
  {
    if |s| > 0 && s[0] == '/' {
      NoLeadingSlash(s[1..]);
    }
  }

  function Slashes(n: nat): (s: string)
    ensures |s| == n && forall i :: 0 <= i < n ==> s[i] == '/'
  {
    if n == 0 then "" else "/" + Slashes(n - 1)
  }

  lemma {:induction false} StripSlashes(n: nat, p: string)
    requires |p| == 0 || p[0] != '/'
    ensures TrimStartChar(Slashes(n) + p, '/') == p
  {
    if n > 0 {
      assert Slashes(n) + p == "/" + (Slashes(n - 1) + p);
      StripSlashes(n - 1, p);
    }
  }

  /**
   * Every other request without `..` and not naming a directory is served as it is,
   * leading slashes removed.
   */
  lemma OrdinaryPathServed(n: nat, p: string)
    requires |p| > 0 && p[0] != '/' && !WebPrefixed(p) && !EndsWith(p, "/") && !Contains(p, "..")
    ensures CheckPath(Slashes(n) + p) == Serve(p)
  {
    StripSlashes(n, p);
  }

  /** `web` and everything under it are hidden, however many slashes lead the request, before any other check. */
  lemma WebIsHidden(n: nat, rest: string)
    ensures CheckPath(Slashes(n) + "web") == Refuse(404)
    ensures CheckPath(Slashes(n) + "web/" + rest) == Refuse(404)
  {
    StripSlashes(n, "web");
    assert Slashes(n) + "web/" + rest == Slashes(n) + ("web/" + rest);
    StripSlashes(n, "web/" + rest);
    assert ("web/" + rest)[..4] == "web/";
  }

  /** A directory is replaced wholesale by the index page: `docs/` serves `index.html`, not `docs/index.html`. */
  lemma DirectoryServesIndex(dir: string)
    requires |dir| > 0 && dir[0] != '/' && !WebPrefixed(dir)
    ensures CheckPath(dir + "/") == Serve("index.html")
  {
    StripSlashes(0, dir + "/");
    assert Slashes(0) + (dir + "/") == dir + "/";
    SlashedNotWeb(dir);
    IndexHasNoDoubleDot();
  }

  lemma SlashedNotWeb(dir: string)
    requires !WebPrefixed(dir)
    ensures !WebPrefixed(dir + "/")
  {
    var d := dir + "/";
    assert d[|d| - 1] == '/';
    assert "web/"[..3] == "web";
    assert |d| >= 4 ==> d[..3] == d[..4][..3] && d[..3] == dir[..3];
    assert |dir| >= 4 ==> d[..4] == dir[..4];
  }

  /** The empty request and the bare root serve the index page. */
  lemma RootServesIndex(n: nat)
    ensures CheckPath(Slashes(n)) == Serve("index.html")
  {
    StripSlashes(n, "");
    assert Slashes(n) + "" == Slashes(n);
    IndexHasNoDoubleDot();
  }

  lemma IndexHasNoDoubleDot()
    ensures !Contains("index.html", "..")
  {
    assert "index.html" == "index" + "." + "html";
    SingleDot("index", "html");
  }

  /** A name with a single dot has no `..`. */
  lemma SingleDot(a: string, b: string)
    requires '.' !in a && '.' !in b
    ensures !Contains(a + "." + b, "..")
  {
    var s := a + "." + b;
    forall i | 0 <= i < |s| - 1
      ensures !(s[i] == '.' && s[i + 1] == '.')
    {
      if i < |a| {
        assert s[i] == a[i];
      } else if i == |a| {
        assert s[i + 1] == b[0];
      } else {
        assert s[i] == b[i - |a| - 1];
      }
    }
    NoDoubleDot(s);
  }

  lemma {:induction false} NoDoubleDot(s: string)
    requires forall i :: 0 <= i < |s| - 1 ==> !(s[i] == '.' && s[i + 1] == '.')
    ensures !Contains(s, "..")
    decreases |s|
  {
    if |s| > 0 {
      assert forall i :: 0 <= i < |s[1..]| - 1 ==> s[1..][i] == s[i + 1];
      NoDoubleDot(s[1..]);
      if |s| >= 2 {
        assert s[..2][0] == s[0] && s[..2][1] == s[1];
      }
    }
  }

  lemma {:induction false} DoubleDotAt(s: string, i: nat)
    requires i + 1 < |s| && s[i] == '.' && s[i + 1] == '.'
    ensures Contains(s, "..")
    decreases i
  {
    if i > 0 {
      DoubleDotAt(s[1..], i - 1);
    } else {
      assert s[..2] == "..";
    }
  }

  /** A request with `..` anywhere after its leading slashes is forbidden, unless it is hidden or a directory. */
  lemma TraversalForbidden(file: string, i: nat)
    requires var p := TrimStartChar(file, '/');
      i + 1 < |p| && p[i] == '.' && p[i + 1] == '.' && !WebPrefixed(p) && !EndsWith(p, "/")
    ensures CheckPath(file) == Refuse(403)
  {
    DoubleDotAt(TrimStartChar(file, '/'), i);
  }

  // Extension whitelist

  /** The last component of a path: what follows its last slash. */
  function FileName(path: string): (name: string)
    ensures '/' !in name && |name| <= |path|
    ensures path == path[..|path| - |name|] + name
    ensures |name| < |path| ==> path[|path| - |name| - 1] == '/'
  {
    match LastIndexOf(path, '/')
    case None => path
    case Some(j) =>
      assert path == path[..j + 1] + path[j + 1..];
      path[j + 1..]
  }

  /** Whatever directory a slash-free name is under, the name is the file name. */
  lemma FileNameAfterDir(dir: string, name: string)
    requires |dir| == 0 || dir[|dir| - 1] == '/'
    requires '/' !in name
    ensures FileName(dir + name) == name
  {
    var path := dir + name;
    var found := FileName(path);
    assert found == path[|dir|..] == name;
  }

  /** `Path::extension` of a file name: the text after the last dot, unless there is no dot, the only dot leads the name, or the name is `..`. */
  function Extension(name: string): (r: Option<string>)
    ensures r.Some? ==> '.' !in r.value
    ensures r.Some? ==> (|r.value| + 1 < |name| &&
      name == name[..|name| - |r.value| - 1] + "." + r.value)
  {
    if name == ".." then None
    else match LastIndexOf(name, '.')
      case None => None
      case Some(j) =>
        if j == 0 then None
        else
          assert name == name[..j] + "." + name[j + 1..];
          Some(name[j + 1..])
  }

  /** A name with a non-empty stem and a dot-free extension has that extension. */
  lemma ExtensionOf(stem: string, ext: string)
    requires |stem| > 0 && '.' !in ext && stem + "." + ext != ".."
    ensures Extension(stem + "." + ext) == Some(ext)
  {
    var name := stem + "." + ext;
    assert name[|stem|] == '.';
    assert name[|stem| + 1..] == ext;
  }

  /** A file is admitted when it has an extension whose lower-case form is whitelisted. */
  function ExtensionAllowed(path: string): (b: bool)
    ensures var e := Extension(FileName(path));
      b <==> e.Some? && ToLower(e.value) in ALLOWED_EXTENSIONS
    ensures b ==> var e := Extension(FileName(path));
      e.Some? && 2 <= |e.value| <= 5 && EndsWith(path, "." + e.value)
  {
    match Extension(FileName(path))
    case None => false
    case Some(ext) =>
      ExtensionIsSuffix(path, ext);
      AllowedLength(ToLower(ext));
      ToLower(ext) in ALLOWED_EXTENSIONS
  }

  lemma ExtensionIsSuffix(path: string, ext: string)
    requires Extension(FileName(path)) == Some(ext)
    ensures EndsWith(path, "." + ext)
  {
    DotExtensionSuffix(path, FileName(path), ext);
  }

  lemma DotExtensionSuffix(path: string, name: string, ext: string)
    requires |name| <= |path| && path == path[..|path| - |name|] + name
    requires |ext| + 1 < |name| && name == name[..|name| - |ext| - 1] + "." + ext
    ensures EndsWith(path, "." + ext)
  {
    ExtensionOfPath(path, name, ext);
    var stem := path[..|path| - |ext| - 1];
    assert path == stem + ("." + ext);
    SplitSuffix(path, stem, "." + ext);
  }

  lemma SplitSuffix(s: string, front: string, back: string)
    requires s == front + back
    ensures EndsWith(s, back)
  {
    assert s[|front|..] == back;
  }

  lemma AllowedLength(ext: string)
    ensures ext in ALLOWED_EXTENSIONS ==> 2 <= |ext| <= 5
  {
  }

  /** A file with an extension is typed by that extension alone. */
  lemma FileTypedByExtension(path: string)
    requires Extension(FileName(path)).Some?
    ensures GetContentType(path) == TypeOfExtension(Extension(FileName(path)).value)
  {
    var ext := Extension(FileName(path)).value;
    ExtensionIsSuffix(path, ext);
    TypedBySuffix(path, ext);
  }

  lemma TypedBySuffix(path: string, ext: string)
    requires '.' !in ext && EndsWith(path, "." + ext)
    ensures GetContentType(path) == TypeOfExtension(ext)
  {
    var stem := path[..|path| - |ext| - 1];
    assert path == stem + "." + ext;
    PathTypedByExtension(path, stem, ext);
  }

  lemma PathTypedByExtension(path: string, stem: string, ext: string)
    requires '.' !in ext && path == stem + "." + ext
    ensures GetContentType(path) == TypeOfExtension(ext)
  {
    ContentTypeByExtension(stem, ext);
  }

  /** An admitted file whose extension is already lower-case never falls back to octet-stream. */
  lemma LowerCaseAdmittedTyped(path: string)
    requires ExtensionAllowed(path)
    requires var ext := Extension(FileName(path)).value; ToLower(ext) == ext
    ensures GetContentType(path) != OCTET_STREAM
  {
    FileTypedByExtension(path);
    var ext := Extension(FileName(path)).value;
    assert ext in ALLOWED_EXTENSIONS;
  }

  lemma NoSlashFileName(path: string)
    requires '/' !in path
    ensures FileName(path) == path
  {
  }

  lemma ExtensionOfPath(path: string, name: string, ext: string)
    requires |name| <= |path| && path == path[..|path| - |name|] + name
    requires |ext| + 1 < |name| && name == name[..|name| - |ext| - 1] + "." + ext
    ensures path == path[..|path| - |ext| - 1] + "." + ext
  {
    var dir := path[..|path| - |name|];
    var stem := name[..|name| - |ext| - 1];
    assert path == (dir + stem) + "." + ext;
    assert path[..|path| - |ext| - 1] == dir + stem;
  }

  /** An upper-case extension passes the whitelist but is served as octet-stream. */
  lemma UpperCaseAdmittedUntyped(stem: string)
    requires |stem| > 0 && '/' !in stem
    ensures ExtensionAllowed(stem + ".HTML") && GetContentType(stem + ".HTML") == OCTET_STREAM
  {
    UpperCaseAdmitted(stem);
    UpperCaseIsOctetStream(stem);
  }

  /**
   * For a file `stem.ext` in any directory, the whitelist decides exactly: the
   * file is admitted iff the lower case of its extension is whitelisted.
   */
  lemma AllowedFileAdmitted(dir: string, stem: string, ext: string)
    requires |dir| == 0 || dir[|dir| - 1] == '/'
    requires |stem| > 0 && '/' !in stem
    requires |ext| > 0 && '/' !in ext && '.' !in ext
    ensures ExtensionAllowed(dir + stem + "." + ext) <==> ToLower(ext) in ALLOWED_EXTENSIONS
  {
    var name := stem + "." + ext;
    assert dir + stem + "." + ext == dir + name;
    assert '/' !in name by {
      assert forall k :: 0 <= k < |name| ==> name[k] != '/' by {
        forall k | 0 <= k < |name| ensures name[k] != '/' {
          if k < |stem| { assert name[k] == stem[k]; }
          else if k > |stem| { assert name[k] == ext[k - |stem| - 1]; }
        }
      }
    }
    FileNameAfterDir(dir, name);
    ExtensionOf(stem, ext);
  }

  lemma UpperCaseAdmitted(stem: string)
    requires |stem| > 0 && '/' !in stem
    ensures ExtensionAllowed(stem + ".HTML")
  {
    var name := stem + ".HTML";
    assert name == stem + "." + "HTML";
    NoSlashFileName(name);
    ExtensionOf(stem, "HTML");
    LowerHtml();
  }

  lemma LowerHtml()
    ensures ToLower("HTML") == "html"
  {
  }

  /** A file name without a dot is refused. */
  lemma NoExtensionRefused(path: string)
    requires '.' !in path
    ensures !ExtensionAllowed(path)
  {
    var name := FileName(path);
    assert forall i :: 0 <= i < |name| ==> name[i] == path[|path| - |name| + i];
  }

  // Delivery

  datatype Delivery = Buffered | Streamed

  function DeliveryFor(size: nat): (d: Delivery)
    ensures d == Buffered <==> size < STREAM_THRESHOLD
  {
    if size < STREAM_THRESHOLD then Buffered else Streamed
  }

  /** Streaming is monotone in the size: 100 KiB is buffered, 2 MiB is streamed. */
  lemma StreamingMonotone(small: nat, large: nat)
    requires small <= large && DeliveryFor(small) == Streamed
    ensures DeliveryFor(large) == Streamed
    ensures DeliveryFor(100 * 1024) == Buffered && DeliveryFor(2 * 1024 * 1024) == Streamed
  {
  }

  // The whole decision

  /** What `serve_static` answers for a file found under the web root. */
  datatype StaticReply =
    | Refused(status: nat)
    | Partial(range: Ranges.ByteRange, contentType: string)
    | Whole(contentType: string, delivery: Delivery)

  /** The Range header, when present and visible ASCII, parsed against the file size. */
  function RangeRequest(rangeHeader: Option<string>, size: nat): (r: Option<Ranges.ByteRange>)
    requires size <= U64_MAX
    ensures r.Some? ==> r.value.start <= r.value.end <= size
    ensures r.Some? ==> rangeHeader.Some? && VisibleAscii(rangeHeader.value)
    ensures rangeHeader.Some? && VisibleAscii(rangeHeader.value) ==> r == Ranges.ParseRangeHeader(rangeHeader.value, size)
  {
    match rangeHeader
    case None => None
    case Some(h) => if VisibleAscii(h) then Ranges.ParseRangeHeader(h, size) else None
  }

  /** A file that passed the checks: a range reply when the Range header parses, else the whole file. */
  function ServeFile(path: string, size: nat, rangeHeader: Option<string>): (r: StaticReply)
    requires size <= U64_MAX
    ensures !r.Refused? && r.contentType == GetContentType(path)
    ensures r.Partial? <==> RangeRequest(rangeHeader, size).Some?
    ensures r.Partial? ==> r.range == RangeRequest(rangeHeader, size).value && r.range.start <= r.range.end <= size
    ensures r.Whole? ==> r.delivery == DeliveryFor(size)
  {
    match RangeRequest(rangeHeader, size)
    case Some(rg) => Partial(rg, GetContentType(path))
    case None => Whole(GetContentType(path), DeliveryFor(size))
  }

  /** `serve_static` for a file that exists under the web root with the given size: the path checks and the whitelist, then `ServeFile`. */
  function ServeStatic(file: string, size: nat, rangeHeader: Option<string>): (r: StaticReply)
    requires size <= U64_MAX
    ensures r.Refused? <==> CheckPath(file).Refuse? || !ExtensionAllowed(CheckPath(file).path)
    ensures r.Refused? ==> r.status == 404 || r.status == 403
    ensures CheckPath(file).Refuse? ==> r == Refused(CheckPath(file).status)
    ensures CheckPath(file).Serve? && !ExtensionAllowed(CheckPath(file).path) ==> r == Refused(403)
    ensures !r.Refused? ==> r == ServeFile(CheckPath(file).path, size, rangeHeader)
  {
    match CheckPath(file)
    case Refuse(status) => Refused(status)
    case Serve(path) => if ExtensionAllowed(path) then ServeFile(path, size, rangeHeader) else Refused(403)
  }
}
