/**
 * The upstream side of the proxy (src/proxy.rs): where an image name is fetched
 * from, the Bearer-token challenge of a registry (the `WWW-Authenticate` header
 * of RFC 6750 section 3), and the request sequence of `fetch_with_auth`, run
 * against a scripted upstream instead of the network.
 */
module Proxy {
  import opened Wrappers
  import opened Text
  import Router

  const DEFAULT_REGISTRY: string := "https://registry-1.docker.io"

  // Registry and repository names

  /** `normalize_image_name`: a bare name is an official image under `library/`. */
  function NormalizeImageName(name: string): (r: string)
    ensures '/' in r
    ensures '/' in name ==> r == name
    ensures '/' !in name ==> r == "library/" + name
  {
    if '/' in name then name
    else
      var r := "library/" + name;
      assert r[7] == '/';
      r
  }

  lemma NormalizeIdempotent(name: string)
    ensures NormalizeImageName(NormalizeImageName(name)) == NormalizeImageName(name)
  {
  }

  /** The first segment of a name names a registry host when it has a dot or a colon. */
  predicate LooksLikeHost(segment: string): (b: bool)
    ensures b <==> exists i :: 0 <= i < |segment| && (segment[i] == '.' || segment[i] == ':')
    ensures b ==> |segment| > 0
  {
    '.' in segment || ':' in segment
  }

  /** `split_registry_and_name`: the registry base URL and the repository within it. */
  function SplitRegistryAndName(registryUrl: string, name: string): (r: (string, string))
    ensures r.0 == registryUrl || StartsWith(r.0, "https://")
  {
    match IndexOf(name, '/')
    case Some(pos) =>
      if LooksLikeHost(name[..pos]) then ("https://" + name[..pos], name[pos + 1..])
      else (registryUrl, NormalizeImageName(name))
    case None => (registryUrl, NormalizeImageName(name))
  }

  lemma IndexOfAt<T>(xs: seq<T>, i: nat, x: T)
    requires i < |xs| && xs[i] == x && x !in xs[..i]
    ensures IndexOf(xs, x) == Some(i)
  {
  }

  /** A host-like first segment is split off as the registry, and the rest is kept verbatim. */
  lemma HostIsSplitOff(registryUrl: string, host: string, rest: string)
    requires '/' !in host && LooksLikeHost(host)
    ensures SplitRegistryAndName(registryUrl, host + "/" + rest) == ("https://" + host, rest)
  {
    var name := host + "/" + rest;
    assert name[..|host|] == host && name[|host| + 1..] == rest;
    IndexOfAt(name, |host|, '/');
  }

  /**
   * Any other name stays on the configured registry, normalised: `localhost/repo`
   * stays `localhost/repo`, and `ubuntu` becomes `library/ubuntu`.
   */
  lemma OtherNamesStayOnRegistry(registryUrl: string, name: string)
    requires forall pos :: 0 <= pos < |name| && name[pos] == '/' && '/' !in name[..pos] ==> !LooksLikeHost(name[..pos])
    ensures SplitRegistryAndName(registryUrl, name) == (registryUrl, NormalizeImageName(name))
  {
  }

  /**
   * A name whose first segment is not host-like stays on the default registry,
   * and the repository sent there has a `/` (`ubuntu` becomes `library/ubuntu`).
   */
  lemma RepositoryHasSlashOnDefaultRegistry(name: string)
    requires forall pos :: 0 <= pos < |name| && name[pos] == '/' && '/' !in name[..pos] ==> !LooksLikeHost(name[..pos])
    ensures SplitRegistryAndName(DEFAULT_REGISTRY, name).0 == DEFAULT_REGISTRY
    ensures '/' in SplitRegistryAndName(DEFAULT_REGISTRY, name).1
  {
    OtherNamesStayOnRegistry(DEFAULT_REGISTRY, name);
  }

  /**
   * A name that spells out the default registry's own host is split like any other
   * host: the repository loses its `library/` prefix (`registry-1.docker.io/ubuntu`
   * asks for `ubuntu`, not `library/ubuntu`), and `ghcr.io/` asks for the empty name.
   */
  lemma HostPrefixSkipsNormalizing()
    ensures SplitRegistryAndName(DEFAULT_REGISTRY, "registry-1.docker.io/ubuntu") == (DEFAULT_REGISTRY, "ubuntu")
    ensures SplitRegistryAndName(DEFAULT_REGISTRY, "ghcr.io/") == ("https://ghcr.io", "")
  {
    DefaultHostSplitOff();
    GhcrHostSplitOff();
  }

  lemma DefaultHostSplitOff()
    ensures SplitRegistryAndName(DEFAULT_REGISTRY, "registry-1.docker.io/ubuntu") == (DEFAULT_REGISTRY, "ubuntu")
  {
    var host := "registry-1.docker.io";
    assert host[10] == '.';
    assert "https://" + host == DEFAULT_REGISTRY;
    assert host + "/" + "ubuntu" == "registry-1.docker.io/ubuntu";
    HostIsSplitOff(DEFAULT_REGISTRY, host, "ubuntu");
  }

  lemma GhcrHostSplitOff()
    ensures SplitRegistryAndName(DEFAULT_REGISTRY, "ghcr.io/") == ("https://ghcr.io", "")
  {
    var host := "ghcr.io";
    assert host[4] == '.';
    assert host + "/" + "" == "ghcr.io/";
    assert "https://" + host == "https://ghcr.io";
    HostIsSplitOff(DEFAULT_REGISTRY, host, "");
  }

  // The Bearer challenge

  /** Strips one enclosing pair of double quotes. */
  function Unquote(v: string): (r: string)
    ensures r == v || v == "\"" + r + "\""
  {
    if StartsWith(v, "\"") && EndsWith(v, "\"") && |v| >= 2 then v[1..|v| - 1] else v
  }

  /** One comma-separated piece of the challenge: `key=value`, or nothing without an `=`. */
  function ParamOf(piece: string): (r: Option<(string, string)>)
    ensures r.Some? <==> '=' in piece
    ensures r.Some? ==> Trimmed(r.value.0)
  {
    match IndexOf(piece, '=')
    case None => None
    case Some(j) =>
      TrimIsTrimmed(TrimChar(Trim(piece[..j]), ','));
      Some((Trim(TrimChar(Trim(piece[..j]), ',')), Unquote(Trim(piece[j + 1..]))))
  }

  /** The map built from the pieces in order: a later key overwrites an earlier one. */
  function ParamsOf(pieces: seq<string>): (m: map<string, string>)
    ensures |pieces| == 0 ==> m == map[]
  {
    if |pieces| == 0 then map[]
    else AddParam(ParamsOf(pieces[..|pieces| - 1]), ParamOf(pieces[|pieces| - 1]))
  }

  /** Adds one parameter; a repeated key keeps the later value. */
  function AddParam(m: map<string, string>, kv: Option<(string, string)>): (r: map<string, string>)
    ensures kv.None? ==> r == m
    ensures kv.Some? ==> r.Keys == m.Keys + {kv.value.0} && r[kv.value.0] == kv.value.1
    ensures forall k :: k in m && (kv.None? || k != kv.value.0) ==> r[k] == m[k]
  {
    match kv
    case None => m
    case Some(kv) => m[kv.0 := kv.1]
  }

  /** The parameters of a challenge: everything after the first space, split on commas. */
  function AuthParams(header: string): (m: map<string, string>)
    ensures ' ' !in header ==> m == map[]
  {
    match IndexOf(header, ' ')
    case None => map[]
    case Some(i) => ParamsOf(Split(header[i + 1..], ','))
  }

  /** `parse_www_authenticate`. */
  method ParseWwwAuthenticate(header: string) returns (out: map<string, string>)
    ensures out == AuthParams(header)
  {
    out := map[];
    var space := IndexOf(header, ' ');
    if space.None? {
      return;
    }
    var pieces := Split(header[space.value + 1..], ',');
    var i := 0;
    while i < |pieces|
      invariant 0 <= i <= |pieces|
      invariant out == ParamsOf(pieces[..i])
    {
      assert pieces[..i + 1][..i] == pieces[..i];
      var kv := ParamOf(pieces[i]);
      if kv.Some? {
        out := out[kv.value.0 := kv.value.1];
      }
      i := i + 1;
    }
    assert pieces[..|pieces|] == pieces;
  }

  /** A key appears in the map exactly when some piece names it. */
  lemma ParamsKeys(pieces: seq<string>, key: string)
    ensures key in ParamsOf(pieces) <==>
      exists i :: 0 <= i < |pieces| && ParamOf(pieces[i]).Some? && ParamOf(pieces[i]).value.0 == key
  {
    if key in ParamsOf(pieces) {
      var i := ParamsKeyWitness(pieces, key);
    }
    if exists i :: 0 <= i < |pieces| && ParamOf(pieces[i]).Some? && ParamOf(pieces[i]).value.0 == key {
      var i :| 0 <= i < |pieces| && ParamOf(pieces[i]).Some? && ParamOf(pieces[i]).value.0 == key;
      ParamsKeyFrom(pieces, key, i);
    }
  }

  /** A key in the map comes from some piece. */
  lemma {:induction false} ParamsKeyWitness(pieces: seq<string>, key: string) returns (i: nat)
    requires key in ParamsOf(pieces)
    ensures i < |pieces| && ParamOf(pieces[i]).Some? && ParamOf(pieces[i]).value.0 == key
  {
    var init := pieces[..|pieces| - 1];
    var last := ParamOf(pieces[|pieces| - 1]);
    if last.Some? && last.value.0 == key {
      i := |pieces| - 1;
    } else {
      i := ParamsKeyWitness(init, key);
      assert pieces[i] == init[i];
    }
  }

  /** A piece that names a key puts it in the map. */
  lemma {:induction false} ParamsKeyFrom(pieces: seq<string>, key: string, i: nat)
    requires i < |pieces| && ParamOf(pieces[i]).Some? && ParamOf(pieces[i]).value.0 == key
    ensures key in ParamsOf(pieces)
  {
    var init := pieces[..|pieces| - 1];
    if i < |pieces| - 1 {
      assert init[i] == pieces[i];
      ParamsKeyFrom(init, key, i);
    }
  }

  /** The value kept for a key is the one of the last piece that names it. */
  lemma {:induction false} ParamsLastWins(front: seq<string>, piece: string, back: seq<string>, key: string, value: string)
    requires ParamOf(piece) == Some((key, value))
    requires forall i :: 0 <= i < |back| ==> ParamOf(back[i]).None? || ParamOf(back[i]).value.0 != key
    ensures key in ParamsOf(front + [piece] + back) && ParamsOf(front + [piece] + back)[key] == value
    decreases |back|
  {
    var all := front + [piece] + back;
    if |back| == 0 {
      assert all[..|all| - 1] == front;
    } else {
      var shorter := back[..|back| - 1];
      assert all[..|all| - 1] == front + [piece] + shorter;
      ParamsLastWins(front, piece, shorter, key, value);
      assert all[|all| - 1] == back[|back| - 1];
    }
  }

  /** `key="value"`. */
  function Quoted(key: string, value: string): string {
    key + "=\"" + value + "\""
  }

  /**
   * Whitespace around the key, the `=` and the quoted value is dropped, as the
   * optional whitespace of an auth-param list allows (`realm = "R"`).
   */
  lemma SpacedQuotedParam(w1: string, key: string, w2: string, w3: string, value: string, w4: string)
    requires AllWhitespace(w1) && AllWhitespace(w2) && AllWhitespace(w3) && AllWhitespace(w4)
    requires |key| > 0 && '=' !in key && ',' !in key
    requires !IsWhitespace(key[0]) && !IsWhitespace(key[|key| - 1])
    ensures ParamOf(w1 + key + w2 + "=" + w3 + "\"" + value + "\"" + w4) == Some((key, value))
  {
    var left := w1 + key + w2;
    var quoted := "\"" + value + "\"";
    var piece := w1 + key + w2 + "=" + w3 + "\"" + value + "\"" + w4;
    assert piece == left + "=" + (w3 + quoted + w4);
    assert '=' !in left by {
      forall k | 0 <= k < |left| ensures left[k] != '=' {
        if k < |w1| {
          assert left[k] == w1[k];
        } else if k < |w1| + |key| {
          assert left[k] == key[k - |w1|];
        } else {
          assert left[k] == w2[k - |w1| - |key|];
        }
      }
    }
    assert piece[|left|] == '=' && piece[..|left|] == left;
    IndexOfAt(piece, |left|, '=');
    assert piece[|left| + 1..] == w3 + quoted + w4;
    TrimAround(w1, key, w2);
    assert TrimChar(key, ',') == key;
    TrimUnchanged(key);
    TrimAround(w3, quoted, w4);
    assert quoted[1..|quoted| - 1] == value;
  }

  /** A piece `key="value"` is read as that key and that value. */
  lemma QuotedParam(key: string, value: string)
    requires |key| > 0 && '=' !in key && ',' !in key
    requires !IsWhitespace(key[0]) && !IsWhitespace(key[|key| - 1])
    ensures ParamOf(Quoted(key, value)) == Some((key, value))
  {
    var piece := Quoted(key, value);
    IndexOfAt(piece, |key|, '=');
    assert piece[..|key|] == key;
    TrimUnchanged(key);
    assert TrimChar(key, ',') == key;
    var quoted := "\"" + value + "\"";
    assert piece[|key| + 1..] == quoted;
    TrimUnchanged(quoted);
    assert quoted[1..|quoted| - 1] == value;
  }

  /** Only what follows the first space is read, split on commas. */
  lemma AfterScheme(scheme: string, rest: string)
    requires ' ' !in scheme
    ensures AuthParams(scheme + " " + rest) == ParamsOf(Split(rest, ','))
  {
    var header := scheme + " " + rest;
    assert header[..|scheme|] == scheme && header[|scheme|] == ' ';
    IndexOfAt(header, |scheme|, ' ');
    assert header[|scheme| + 1..] == rest;
  }

  lemma ThreeParams(p1: string, p2: string, p3: string)
    ensures ParamsOf([p1, p2, p3]) == AddParam(AddParam(AddParam(map[], ParamOf(p1)), ParamOf(p2)), ParamOf(p3))
  {
    var pieces := [p1, p2, p3];
    assert pieces[..2] == [p1, p2];
    TwoParams(p1, p2);
  }

  /** The challenge a registry sends, `{scheme} realm="…",service="…",scope="…"`. */
  function Challenge(scheme: string, realm: string, service: string, scope: string): string {
    scheme + " " + Join([Quoted("realm", realm), Quoted("service", service), Quoted("scope", scope)], ",")
  }

  lemma QuotedHasNoComma(key: string, value: string)
    requires ',' !in key && ',' !in value
    ensures ',' !in Quoted(key, value)
  {
  }

  /** The three parameters of a challenge come back unquoted when no value holds a comma. */
  lemma ChallengeParams(scheme: string, realm: string, service: string, scope: string)
    requires ' ' !in scheme
    requires ',' !in realm && ',' !in service && ',' !in scope
    ensures AuthParams(Challenge(scheme, realm, service, scope)) ==
      map["realm" := realm, "service" := service, "scope" := scope]
  {
    ChallengePieces(scheme, realm, service, scope);
    ThreeParams(Quoted("realm", realm), Quoted("service", service), Quoted("scope", scope));
    ChallengeKeys(realm, service, scope);
  }

  lemma ChallengeKeys(realm: string, service: string, scope: string)
    ensures ParamOf(Quoted("realm", realm)) == Some(("realm", realm))
    ensures ParamOf(Quoted("service", service)) == Some(("service", service))
    ensures ParamOf(Quoted("scope", scope)) == Some(("scope", scope))
  {
    QuotedParam("realm", realm);
    QuotedParam("service", service);
    QuotedParam("scope", scope);
  }

  lemma ChallengePieces(scheme: string, realm: string, service: string, scope: string)
    requires ' ' !in scheme
    requires ',' !in realm && ',' !in service && ',' !in scope
    ensures AuthParams(Challenge(scheme, realm, service, scope)) ==
      ParamsOf([Quoted("realm", realm), Quoted("service", service), Quoted("scope", scope)])
  {
    var pieces := [Quoted("realm", realm), Quoted("service", service), Quoted("scope", scope)];
    AfterScheme(scheme, Join(pieces, ","));
    QuotedHasNoComma("realm", realm);
    QuotedHasNoComma("service", service);
    QuotedHasNoComma("scope", scope);
    SplitJoin(pieces, ',');
  }

  /** The same challenge with a space after each comma, as registries commonly send it. */
  function SpacedChallenge(scheme: string, realm: string, service: string, scope: string): string {
    scheme + " " + Join([Quoted("realm", realm), " " + Quoted("service", service), " " + Quoted("scope", scope)], ",")
  }

  /** The spaces after the commas do not reach the keys: the same three parameters come back. */
  lemma SpacedChallengeParams(scheme: string, realm: string, service: string, scope: string)
    requires ' ' !in scheme
    requires ',' !in realm && ',' !in service && ',' !in scope
    ensures AuthParams(SpacedChallenge(scheme, realm, service, scope)) ==
      map["realm" := realm, "service" := service, "scope" := scope]
  {
    var p1, p2, p3 := Quoted("realm", realm), " " + Quoted("service", service), " " + Quoted("scope", scope);
    SpacedChallengePieces(scheme, realm, service, scope);
    ThreeParams(p1, p2, p3);
    QuotedParam("realm", realm);
    SpacedKeys(service, scope);
  }

  lemma SpacedKeys(service: string, scope: string)
    ensures ParamOf(" " + Quoted("service", service)) == Some(("service", service))
    ensures ParamOf(" " + Quoted("scope", scope)) == Some(("scope", scope))
  {
    assert AllWhitespace(" ") && AllWhitespace("");
    assert " " + Quoted("service", service) == " " + "service" + "" + "=" + "" + "\"" + service + "\"" + "";
    SpacedQuotedParam(" ", "service", "", "", service, "");
    assert " " + Quoted("scope", scope) == " " + "scope" + "" + "=" + "" + "\"" + scope + "\"" + "";
    SpacedQuotedParam(" ", "scope", "", "", scope, "");
  }

  lemma SpacedChallengePieces(scheme: string, realm: string, service: string, scope: string)
    requires ' ' !in scheme
    requires ',' !in realm && ',' !in service && ',' !in scope
    ensures AuthParams(SpacedChallenge(scheme, realm, service, scope)) ==
      ParamsOf([Quoted("realm", realm), " " + Quoted("service", service), " " + Quoted("scope", scope)])
  {
    var pieces := [Quoted("realm", realm), " " + Quoted("service", service), " " + Quoted("scope", scope)];
    AfterScheme(scheme, Join(pieces, ","));
    QuotedHasNoComma("realm", realm);
    QuotedHasNoComma("service", service);
    QuotedHasNoComma("scope", scope);
    SplitJoin(pieces, ',');
  }

  /**
   * Commas are split before quotes are looked at, so a quoted value with a comma
   * is cut there and keeps its opening quote; the rest of it, having no `=`, is
   * dropped: `scope="repository:x:pull,push"` gives `"repository:x:pull`.
   */
  lemma CommaInsideQuotes(scheme: string, key: string, a: string, b: string)
    requires ' ' !in scheme
    requires |key| > 0 && '=' !in key && ',' !in key
    requires !IsWhitespace(key[0]) && !IsWhitespace(key[|key| - 1])
    requires |a| > 0 && ',' !in a && a[|a| - 1] != '"' && !IsWhitespace(a[|a| - 1])
    requires ',' !in b && '=' !in b
    ensures AuthParams(scheme + " " + Quoted(key, a + "," + b)) == map[key := "\"" + a]
  {
    var p1, p2 := key + "=\"" + a, b + "\"";
    assert Quoted(key, a + "," + b) == p1 + [','] + p2;
    AfterScheme(scheme, p1 + [','] + p2);
    TwoPieces(p1, ',', p2);
    TwoParams(p1, p2);
    OpenQuotedParam(key, a);
    assert '=' !in p2;
  }

  lemma TwoParams(p1: string, p2: string)
    ensures ParamsOf([p1, p2]) == AddParam(AddParam(map[], ParamOf(p1)), ParamOf(p2))
  {
    assert [p1, p2][..1] == [p1];
    assert [p1][..0] == [];
  }

  /** `key="a` with no closing quote keeps its opening quote. */
  lemma OpenQuotedParam(key: string, a: string)
    requires |key| > 0 && '=' !in key && ',' !in key
    requires !IsWhitespace(key[0]) && !IsWhitespace(key[|key| - 1])
    requires |a| > 0 && a[|a| - 1] != '"' && !IsWhitespace(a[|a| - 1])
    ensures ParamOf(key + "=\"" + a) == Some((key, "\"" + a))
  {
    var piece := key + "=\"" + a;
    IndexOfAt(piece, |key|, '=');
    assert piece[..|key|] == key;
    TrimUnchanged(key);
    assert TrimChar(key, ',') == key;
    assert piece[|key| + 1..] == "\"" + a;
    TrimUnchanged("\"" + a);
  }

  // The token URL

  /** The character that introduces the next query parameter: `&` once the URL has a query, `?` before. */
  function Separator(url: string): (r: string)
    ensures r == "?" || r == "&"
    ensures r == "&" <==> '?' in url
  {
    if '?' in url then "&" else "?"
  }

  /** `url` with `name=value` appended when the value is present. */
  function WithQuery(url: string, name: string, value: Option<string>): (r: string)
    ensures value.None? ==> r == url
    ensures value.Some? ==> '?' in r && StartsWith(r, url)
  {
    match value
    case None => url
    case Some(v) =>
      var r := url + Separator(url) + name + "=" + v;
      assert r[|url|] == Separator(url)[0];
      assert r[..|url|] == url;
      assert '?' in url ==> '?' in r by {
        if '?' in url {
          var k :| 0 <= k < |url| && url[k] == '?';
          assert r[k] == '?';
        }
      }
      r
  }

  function Lookup(m: map<string, string>, key: string): Option<string> {
    if key in m then Some(m[key]) else None
  }

  /** The token endpoint: the realm, then `service`, then `scope`, values unencoded. */
  function TokenUrl(params: map<string, string>): (url: string)
    requires "realm" in params
    ensures StartsWith(url, params["realm"])
  {
    WithQuery(WithQuery(params["realm"], "service", Lookup(params, "service")), "scope", Lookup(params, "scope"))
  }

  /** The token-URL building of `fetch_with_auth`, growing the URL in place. */
  method BuildTokenUrl(params: map<string, string>) returns (url: string)
    requires "realm" in params
    ensures url == TokenUrl(params)
  {
    url := params["realm"];
    if "service" in params {
      url := url + (if '?' in url then "&" else "?");
      url := url + "service=" + params["service"];
    }
    assert url == WithQuery(params["realm"], "service", Lookup(params, "service"));
    ghost var withService := url;
    if "scope" in params {
      url := url + (if '?' in url then "&" else "?");
      url := url + "scope=" + params["scope"];
    }
    assert url == WithQuery(withService, "scope", Lookup(params, "scope"));
  }

  /**
   * The first parameter is joined with `?` unless the realm already has a query,
   * and the second always with `&`; with neither, the URL is the realm.
   */
  lemma TokenUrlSeparators(params: map<string, string>)
    requires "realm" in params
    ensures var realm := params["realm"];
      ("service" in params && "scope" in params ==>
        TokenUrl(params) == realm + Separator(realm) + "service=" + params["service"] + "&scope=" + params["scope"]) &&
      ("service" !in params && "scope" in params ==>
        TokenUrl(params) == realm + Separator(realm) + "scope=" + params["scope"]) &&
      ("service" in params && "scope" !in params ==>
        TokenUrl(params) == realm + Separator(realm) + "service=" + params["service"]) &&
      ("service" !in params && "scope" !in params ==> TokenUrl(params) == params["realm"])
  {
  }

  /** For a registry's usual challenge the token is fetched from `realm?service=…&scope=…`. */
  lemma ChallengeTokenUrl(scheme: string, realm: string, service: string, scope: string)
    requires ' ' !in scheme && '?' !in realm
    requires ',' !in realm && ',' !in service && ',' !in scope
    ensures var params := AuthParams(Challenge(scheme, realm, service, scope));
      "realm" in params && TokenUrl(params) == realm + "?service=" + service + "&scope=" + scope
  {
    ChallengeParams(scheme, realm, service, scope);
    ThreeParamTokenUrl(realm, service, scope);
  }

  lemma ThreeParamTokenUrl(realm: string, service: string, scope: string)
    requires '?' !in realm
    ensures TokenUrl(map["realm" := realm, "service" := service, "scope" := scope]) ==
      realm + "?service=" + service + "&scope=" + scope
  {
    var m := map["realm" := realm, "service" := service, "scope" := scope];
    TokenUrlSeparators(m);
    assert m["realm"] == realm && m["service"] == service && m["scope"] == scope;
    assert Separator(realm) == "?";
    assert realm + "?" + "service=" == realm + "?service=";
  }

  // Requests and responses

  datatype Method = GET | HEAD | POST | PUT

  /** A header as a `HeaderMap` holds it: lower-case name, then value. */
  type Header = (string, string)

  datatype Request = Request(verb: Method, url: string, headers: seq<Header>)

  /** A JSON value, as far as the token response is read: a string or anything else. */
  datatype Json = JString(text: string) | JOther

  /**
   * An upstream response. `body` is the body read as text or bytes, None when
   * reading it fails; `json` is the body decoded as JSON, None when it is not JSON
   * (any JSON that is not an object has no fields).
   */
  datatype Response = Response(
    status: nat,
    headers: seq<Header>,
    body: Option<string>,
    json: Option<map<string, Json>>)

  /** `StatusCode::is_success`: the 2xx class. */
  predicate IsSuccess(status: nat): (b: bool)
    ensures b <==> status / 100 == 2
    ensures b ==> status != 401
  {
    200 <= status <= 299
  }

  /** No header before position `i` has the name. */
  predicate NotBefore(headers: seq<Header>, i: nat, name: string)
    requires i <= |headers|
  {
    forall j :: 0 <= j < i ==> headers[j].0 != name
  }

  /** `HeaderMap::get`: the first value stored under a (lower-case) name. */
  function GetHeader(headers: seq<Header>, name: string): (r: Option<string>)
    ensures r.Some? ==> exists i :: 0 <= i < |headers| && headers[i] == (name, r.value) && NotBefore(headers, i, name)
    ensures r.None? ==> forall i :: 0 <= i < |headers| ==> headers[i].0 != name
  {
    if |headers| == 0 then None
    else if headers[0].0 == name then Some(headers[0].1)
    else
      var r := GetHeader(headers[1..], name);
      assert r.Some? ==> exists i :: 0 <= i < |headers| && headers[i] == (name, r.value) && NotBefore(headers, i, name) by {
        if r.Some? {
          var i :| 0 <= i < |headers| - 1 && headers[1..][i] == (name, r.value) && NotBefore(headers[1..], i, name);
          assert headers[i + 1] == (name, r.value);
          forall j | 0 <= j < i + 1
            ensures headers[j].0 != name
          {
            if j > 0 {
              assert headers[j] == headers[1..][j - 1];
            }
          }
        }
      }
      r
  }

  /** `headers.get(name).and_then(|h| h.to_str().ok())`: the first value with that name, when it is visible ASCII. */
  function HeaderText(headers: seq<Header>, name: string): (r: Option<string>)
    ensures r.Some? <==> GetHeader(headers, name).Some? && VisibleAscii(GetHeader(headers, name).value)
    ensures r.Some? ==> r == GetHeader(headers, name)
  {
    match GetHeader(headers, name)
    case Some(v) => if VisibleAscii(v) then Some(v) else None
    case None => None
  }

  /** The content length a HEAD reports: 0 when missing, not text, or not a `u64`. */
  function ContentLengthOf(headers: seq<Header>): (n: nat)
    ensures n <= U64_MAX
  {
    match HeaderText(headers, "content-length")
    case Some(v) => (match ParseU64(v) case Some(n) => n case None => 0)
    case None => 0
  }

  /** The content type of a manifest: `application/json` when missing or not text. */
  function ContentTypeOf(headers: seq<Header>): (r: string)
    ensures GetHeader(headers, "content-type").None? ==> r == "application/json"
    ensures r == "application/json" || (GetHeader(headers, "content-type") == Some(r) && VisibleAscii(r))
  {
    match HeaderText(headers, "content-type")
    case Some(v) => v
    case None => "application/json"
  }

  lemma ContentLengthMissing(headers: seq<Header>)
    requires forall i :: 0 <= i < |headers| ==> headers[i].0 != "content-length"
    ensures ContentLengthOf(headers) == 0
  {
  }

  /** A decimal Content-Length is read back as its value. */
  lemma ContentLengthDecimal(n: nat, rest: seq<Header>)
    requires n <= U64_MAX
    ensures ContentLengthOf([("content-length", Decimal(n))] + rest) == n
  {
    var headers := [("content-length", Decimal(n))] + rest;
    assert GetHeader(headers, "content-length") == Some(Decimal(n));
    ParseDecimal(n);
  }

  /** A Content-Length that is not a number counts as 0 instead of failing. */
  lemma ContentLengthNotNumber(v: string, rest: seq<Header>)
    requires |v| == 0 || (!IsDigit(v[0]) && v[0] != '+')
    ensures ContentLengthOf([("content-length", v)] + rest) == 0
  {
    var headers := [("content-length", v)] + rest;
    assert GetHeader(headers, "content-length") == Some(v);
  }

  lemma ContentTypeDefault(headers: seq<Header>)
    requires forall i :: 0 <= i < |headers| ==> headers[i].0 != "content-type"
    ensures ContentTypeOf(headers) == "application/json"
  {
  }

  lemma ContentTypeKept(v: string, rest: seq<Header>)
    requires VisibleAscii(v)
    ensures ContentTypeOf([("content-type", v)] + rest) == v
  {
    assert GetHeader([("content-type", v)] + rest, "content-type") == Some(v);
  }

  // The upstream, as a script of replies

  /** Reply `k` of a script; a script that has run out fails like the network. */
  function Nth(replies: seq<Option<Response>>, k: nat): Option<Response> {
    if k < |replies| then replies[k] else None
  }

  function Drop(replies: seq<Option<Response>>, k: nat): seq<Option<Response>> {
    if k <= |replies| then replies[k..] else []
  }

  /**
   * The HTTP client: every request sent is recorded, and answered by the next
   * reply of the script (None standing for a transport error).
   */
  class Upstream {
    var replies: seq<Option<Response>>
    var sent: seq<Request>

    constructor(script: seq<Option<Response>>)
      ensures replies == script && sent == []
    {
      replies := script;
      sent := [];
    }

    method Send(request: Request) returns (reply: Option<Response>)
      modifies this
      ensures reply == Nth(old(replies), 0)
      ensures replies == Drop(old(replies), 1)
      ensures sent == old(sent) + [request]
    {
      sent := sent + [request];
      if |replies| == 0 {
        reply := None;
      } else {
        reply := replies[0];
        replies := replies[1..];
      }
    }
  }

  // fetch_with_auth

  /** Why `fetch_with_auth` gave up. */
  datatype AuthError =
    | RequestError
    | MissingChallenge
    | MissingRealm
    | TokenRequestError
    | TokenStatus(status: nat)
    | TokenNotJson
    | TokenMissing
    | RetryError

  /** The `token` string field, else the `access_token` one. */
  function TokenOf(fields: map<string, Json>): (r: Option<string>)
    ensures "token" in fields && fields["token"].JString? ==> r == Some(fields["token"].text)
    ensures (("token" !in fields || !fields["token"].JString?) && "access_token" in fields &&
             fields["access_token"].JString?) ==> r == Some(fields["access_token"].text)
    ensures r.None? <==>
      (("token" !in fields || !fields["token"].JString?) &&
       ("access_token" !in fields || !fields["access_token"].JString?))
  {
    if "token" in fields && fields["token"].JString? then Some(fields["token"].text)
    else if "access_token" in fields && fields["access_token"].JString? then Some(fields["access_token"].text)
    else None
  }

  /** The request headers: lower-case names, in the order given. */
  function Lowered(headers: seq<Header>): (r: seq<Header>)
    ensures |r| == |headers|
    ensures forall i :: 0 <= i < |r| ==> r[i] == (ToLower(headers[i].0), headers[i].1)
  {
    seq(|headers|, i requires 0 <= i < |headers| => (ToLower(headers[i].0), headers[i].1))
  }

  /** `req = req.header(k, v)` for each extra header: appended, never replaced. */
  method AddHeaders(request: Request, extra: seq<Header>) returns (r: Request)
    ensures r == request.(headers := request.headers + Lowered(extra))
  {
    r := request;
    var i := 0;
    while i < |extra|
      invariant 0 <= i <= |extra|
      invariant r == request.(headers := request.headers + Lowered(extra[..i]))
    {
      assert Lowered(extra[..i + 1]) == Lowered(extra[..i]) + [(ToLower(extra[i].0), extra[i].1)];
      r := r.(headers := r.headers + [(ToLower(extra[i].0), extra[i].1)]);
      i := i + 1;
    }
    assert extra[..|extra|] == extra;
  }

  /** The header of the retry: the token follows the `Bearer ` scheme word. */
  function Authorization(token: string): (h: Header)
    ensures h.0 == "authorization" && StartsWith(h.1, "Bearer ") && h.1[|"Bearer "|..] == token
    ensures ValidHeaderValue(token) ==> ValidHeaderValue(h.1)
  {
    ("authorization", "Bearer " + token)
  }

  /** The outcome of `fetch_with_auth` and the requests it sends, in order. */
  datatype Flow = Flow(result: Result<Response, AuthError>, requests: seq<Request>)

  /**
   * `fetch_with_auth` against a script of replies: one request; on a 401 carrying
   * a challenge with a realm, one token request and one retry with the token.
   */
  function AuthFlow(verb: Method, url: string, extra: seq<Header>, replies: seq<Option<Response>>): (f: Flow)
    ensures 1 <= |f.requests| <= 3
    ensures f.requests[0] == Request(verb, url, Lowered(extra))
  {
    var rest := AnswerFlow(verb, url, extra, Nth(replies, 0), Drop(replies, 1));
    Flow(rest.result, [Request(verb, url, Lowered(extra))] + rest.requests)
  }

  /**
   * What follows the first answer: no answer is a request error, an answer other
   * than 401 is the result, and a 401 hands the rest to the challenge.
   */
  function AnswerFlow(verb: Method, url: string, extra: seq<Header>, reply: Option<Response>,
                      replies: seq<Option<Response>>): (f: Flow)
    ensures |f.requests| <= 2
    ensures reply.None? || reply.value.status != 401 ==> f.requests == []
    ensures reply.Some? && reply.value.status != 401 ==> f.result == Ok(reply.value)
  {
    match reply
    case None => Flow(Err(RequestError), [])
    case Some(resp) =>
      if resp.status != 401 then Flow(Ok(resp), [])
      else ChallengeFlow(verb, url, extra, resp, replies)
  }

  /**
   * Sending the first request and then following its answer is following the
   * whole flow: the results agree, and so do the requests sent and the replies left.
   */
  lemma AuthFlowComposes(verb: Method, url: string, extra: seq<Header>, replies: seq<Option<Response>>,
                         r: Result<Response, AuthError>, sent: seq<Request>, sent': seq<Request>,
                         replies': seq<Option<Response>>)
    requires var rest := AnswerFlow(verb, url, extra, Nth(replies, 0), Drop(replies, 1));
      r == rest.result && sent' == (sent + [Request(verb, url, Lowered(extra))]) + rest.requests &&
      replies' == Drop(Drop(replies, 1), |rest.requests|)
    ensures var f := AuthFlow(verb, url, extra, replies);
      r == f.result && sent' == sent + f.requests && replies' == Drop(replies, |f.requests|)
  {
    var rest := AnswerFlow(verb, url, extra, Nth(replies, 0), Drop(replies, 1));
    var first := Request(verb, url, Lowered(extra));
    assert AuthFlow(verb, url, extra, replies) == Flow(rest.result, [first] + rest.requests);
    FirstThenRest(rest, first, replies, sent, sent', replies');
  }

  /** A flow that starts with one request and goes on with `rest` on the replies after the first. */
  lemma FirstThenRest(rest: Flow, first: Request, replies: seq<Option<Response>>,
                      sent: seq<Request>, sent': seq<Request>, replies': seq<Option<Response>>)
    requires sent' == (sent + [first]) + rest.requests
    requires replies' == Drop(Drop(replies, 1), |rest.requests|)
    ensures sent' == sent + ([first] + rest.requests)
    ensures replies' == Drop(replies, |[first] + rest.requests|)
  {
    DropNth(replies, 1, |rest.requests|);
  }

  /** After a challenge with a realm, the flow is the first request followed by the token flow. */
  lemma AuthFlowAfterChallenge(verb: Method, url: string, extra: seq<Header>, replies: seq<Option<Response>>, www: string)
    requires Nth(replies, 0).Some? && Nth(replies, 0).value.status == 401
    requires HeaderText(Nth(replies, 0).value.headers, "www-authenticate") == Some(www)
    requires "realm" in AuthParams(www)
    ensures var rest := TokenFlow(verb, url, extra, AuthParams(www), Drop(replies, 1));
      AuthFlow(verb, url, extra, replies) == Flow(rest.result, [Request(verb, url, Lowered(extra))] + rest.requests)
  {
  }

  /**
   * What follows a 401: the challenge must be readable and name a realm, and the
   * token flow runs on the replies still to come.
   */
  function ChallengeFlow(verb: Method, url: string, extra: seq<Header>, resp: Response,
                         replies: seq<Option<Response>>): (f: Flow)
    ensures |f.requests| <= 2
    ensures f.result.Err? && (f.result.error == MissingChallenge || f.result.error == MissingRealm) <==> |f.requests| == 0
  {
    match HeaderText(resp.headers, "www-authenticate")
    case None => Flow(Err(MissingChallenge), [])
    case Some(www) =>
      var params := AuthParams(www);
      if "realm" !in params then Flow(Err(MissingRealm), [])
      else TokenFlow(verb, url, extra, params, replies)
  }

  /** The second half of the flow, after a challenge with a realm: the token request, then the retry. */
  function TokenFlow(verb: Method, url: string, extra: seq<Header>, params: map<string, string>,
                     replies: seq<Option<Response>>): (f: Flow)
    requires "realm" in params
    ensures 1 <= |f.requests| <= 2
    ensures f.requests[0] == Request(GET, TokenUrl(params), [])
  {
    var tokenRequest := Request(GET, TokenUrl(params), []);
    match Nth(replies, 0)
    case None => Flow(Err(TokenRequestError), [tokenRequest])
    case Some(tokenResp) =>
      if !IsSuccess(tokenResp.status) then Flow(Err(TokenStatus(tokenResp.status)), [tokenRequest])
      else
        match tokenResp.json
        case None => Flow(Err(TokenNotJson), [tokenRequest])
        case Some(fields) =>
          match TokenOf(fields)
          case None => Flow(Err(TokenMissing), [tokenRequest])
          case Some(token) =>
            if !ValidHeaderValue(Authorization(token).1) then Flow(Err(RetryError), [tokenRequest])
            else
              var retry := Request(verb, url, [Authorization(token)] + Lowered(extra));
              match Nth(replies, 1)
              case None => Flow(Err(RetryError), [tokenRequest, retry])
              case Some(resp2) => Flow(Ok(resp2), [tokenRequest, retry])
  }

  lemma DropNth(replies: seq<Option<Response>>, k: nat, j: nat)
    ensures Nth(Drop(replies, k), j) == Nth(replies, k + j)
    ensures Drop(Drop(replies, k), j) == Drop(replies, k + j)
  {
    if k + j <= |replies| {
      assert replies[k..][j..] == replies[k + j..];
    }
  }

  /** A first answer other than 401 is returned as it is, and nothing else is sent. */
  lemma PassThrough(verb: Method, url: string, extra: seq<Header>, replies: seq<Option<Response>>)
    requires Nth(replies, 0).Some? && Nth(replies, 0).value.status != 401
    ensures AuthFlow(verb, url, extra, replies) == Flow(Ok(Nth(replies, 0).value), [Request(verb, url, Lowered(extra))])
  {
  }

  /** A 401 without a readable challenge, or whose challenge has no realm, is an error after one request. */
  lemma ChallengeWithoutRealm(verb: Method, url: string, extra: seq<Header>, replies: seq<Option<Response>>)
    requires Nth(replies, 0).Some? && Nth(replies, 0).value.status == 401
    requires var www := HeaderText(Nth(replies, 0).value.headers, "www-authenticate");
      www.None? || "realm" !in AuthParams(www.value)
    ensures var f := AuthFlow(verb, url, extra, replies);
      f.result.Err? && (f.result.error == MissingChallenge || f.result.error == MissingRealm) && |f.requests| == 1
  {
  }

  /**
   * Whenever more than the first request goes out, the first was answered 401
   * with a challenge naming a realm, and the second is a plain GET of the token
   * URL built from that challenge.
   */
  lemma TokenRequestFollowsChallenge(verb: Method, url: string, extra: seq<Header>, replies: seq<Option<Response>>)
    ensures var f := AuthFlow(verb, url, extra, replies);
      |f.requests| >= 2 ==>
        Nth(replies, 0).Some? && Nth(replies, 0).value.status == 401 &&
        f.requests[1].verb == GET && f.requests[1].headers == [] &&
        (exists www :: HeaderText(Nth(replies, 0).value.headers, "www-authenticate") == Some(www) &&
          "realm" in AuthParams(www) && f.requests[1].url == TokenUrl(AuthParams(www)))
  {
    var f := AuthFlow(verb, url, extra, replies);
    if |f.requests| >= 2 {
      var www := HeaderText(Nth(replies, 0).value.headers, "www-authenticate").value;
      assert "realm" in AuthParams(www) && f.requests[1].url == TokenUrl(AuthParams(www));
    }
  }

  /**
   * A third request is the original one again, with the bearer token in front of
   * the original headers; the original URL is never requested a third time.
   */
  lemma RetryRepeatsRequest(verb: Method, url: string, extra: seq<Header>, replies: seq<Option<Response>>)
    ensures var f := AuthFlow(verb, url, extra, replies);
      |f.requests| == 3 ==>
        f.requests[2].verb == verb && f.requests[2].url == url &&
        |f.requests[2].headers| == 1 + |extra| && f.requests[2].headers[0].0 == "authorization" &&
        f.requests[2].headers[1..] == Lowered(extra)
  {
    if |AuthFlow(verb, url, extra, replies).requests| == 3 {
      var params := ReachedTokenFlow(verb, url, extra, replies);
      TokenRetryRepeats(verb, url, extra, params, Drop(replies, 1));
    }
  }

  lemma TokenRetryRepeats(verb: Method, url: string, extra: seq<Header>, params: map<string, string>,
                          replies: seq<Option<Response>>)
    requires "realm" in params
    ensures var f := TokenFlow(verb, url, extra, params, replies);
      |f.requests| == 2 ==>
        f.requests[1].verb == verb && f.requests[1].url == url &&
        |f.requests[1].headers| == 1 + |extra| && f.requests[1].headers[0].0 == "authorization" &&
        f.requests[1].headers[1..] == Lowered(extra)
  {
    var f := TokenFlow(verb, url, extra, params, replies);
    if |f.requests| == 2 {
      assert f.requests[1].headers[1..] == Lowered(extra);
    }
  }

  /** The retry's answer is the result, whatever its status. */
  lemma RetryAnswerReturned(verb: Method, url: string, extra: seq<Header>, replies: seq<Option<Response>>)
    ensures var f := AuthFlow(verb, url, extra, replies);
      |f.requests| == 3 ==>
        (Nth(replies, 2).Some? ==> f.result == Ok(Nth(replies, 2).value)) &&
        (Nth(replies, 2).None? ==> f.result == Err(RetryError))
  {
    if |AuthFlow(verb, url, extra, replies).requests| == 3 {
      var params := ReachedTokenFlow(verb, url, extra, replies);
      TokenRetryAnswer(verb, url, extra, params, Drop(replies, 1));
      DropNth(replies, 1, 1);
    }
  }

  lemma TokenRetryAnswer(verb: Method, url: string, extra: seq<Header>, params: map<string, string>,
                         replies: seq<Option<Response>>)
    requires "realm" in params
    ensures var f := TokenFlow(verb, url, extra, params, replies);
      |f.requests| == 2 ==>
        (Nth(replies, 1).Some? ==> f.result == Ok(Nth(replies, 1).value)) &&
        (Nth(replies, 1).None? ==> f.result == Err(RetryError))
  {
  }

  /** A result that is Ok is the answer to the last request sent. */
  lemma OkIsLastAnswer(verb: Method, url: string, extra: seq<Header>, replies: seq<Option<Response>>)
    ensures var f := AuthFlow(verb, url, extra, replies);
      f.result.Ok? ==> Nth(replies, |f.requests| - 1) == Some(f.result.value) && |f.requests| != 2
  {
    if |AuthFlow(verb, url, extra, replies).requests| >= 2 {
      var params := ReachedTokenFlow(verb, url, extra, replies);
      TokenOkIsLastAnswer(verb, url, extra, params, Drop(replies, 1));
      DropNth(replies, 1, 1);
    }
  }

  /** A flow that sends more than one request went through a challenge naming a realm to the token flow. */
  lemma ReachedTokenFlow(verb: Method, url: string, extra: seq<Header>, replies: seq<Option<Response>>)
    returns (params: map<string, string>)
    requires |AuthFlow(verb, url, extra, replies).requests| >= 2
    ensures "realm" in params
    ensures var rest := TokenFlow(verb, url, extra, params, Drop(replies, 1));
      AuthFlow(verb, url, extra, replies) == Flow(rest.result, [Request(verb, url, Lowered(extra))] + rest.requests)
  {
    var www := HeaderText(Nth(replies, 0).value.headers, "www-authenticate").value;
    params := AuthParams(www);
  }

  lemma TokenOkIsLastAnswer(verb: Method, url: string, extra: seq<Header>, params: map<string, string>,
                            replies: seq<Option<Response>>)
    requires "realm" in params
    ensures var f := TokenFlow(verb, url, extra, params, replies);
      f.result.Ok? ==> |f.requests| == 2 && Nth(replies, 1) == Some(f.result.value)
  {
  }

  /**
   * The token request fails the flow when it fails, answers with a non-2xx
   * status, is not JSON, or has neither token field.
   */
  lemma TokenFailures(verb: Method, url: string, extra: seq<Header>, replies: seq<Option<Response>>)
    ensures var f := AuthFlow(verb, url, extra, replies);
      |f.requests| >= 2 ==>
        (Nth(replies, 1).None? ==> f.result == Err(TokenRequestError)) &&
        (Nth(replies, 1).Some? && !IsSuccess(Nth(replies, 1).value.status) ==>
          f.result == Err(TokenStatus(Nth(replies, 1).value.status))) &&
        (Nth(replies, 1).Some? && IsSuccess(Nth(replies, 1).value.status) && Nth(replies, 1).value.json.None? ==>
          f.result == Err(TokenNotJson)) &&
        ((Nth(replies, 1).Some? && IsSuccess(Nth(replies, 1).value.status) && Nth(replies, 1).value.json.Some? &&
          TokenOf(Nth(replies, 1).value.json.value).None?) ==> f.result == Err(TokenMissing))
  {
  }

  /** Why an operation of the proxy failed. */
  datatype Failure = FetchFailed(cause: AuthError) | BadStatus(status: nat) | ReadFailed

  const MANIFEST_V2: string := "application/vnd.docker.distribution.manifest.v2+json"
  const MANIFEST_LIST_V2: string := "application/vnd.docker.distribution.manifest.list.v2+json"

  function ManifestUrl(registry: string, image: string, reference: string): (url: string)
    ensures StartsWith(url, registry + "/v2/") && EndsWith(url, "/manifests/" + reference)
  {
    registry + "/v2/" + image + "/manifests/" + reference
  }

  function BlobUrl(registry: string, image: string, digest: string): (url: string)
    ensures StartsWith(url, registry + "/v2/") && EndsWith(url, "/blobs/" + digest)
  {
    registry + "/v2/" + image + "/blobs/" + digest
  }

  /** The upstream path of a manifest is classified by the router as that same manifest. */
  lemma UpstreamManifestPath(registry: string, image: string, reference: string)
    requires "manifests" !in Split(image, '/') && '/' !in reference
    ensures ManifestUrl(registry, image, reference) == registry + "/v2/" + (image + "/manifests/" + reference)
    ensures Router.ParseV2Path(image + "/manifests/" + reference) == Router.Manifest(image, reference)
  {
    Router.ManifestRoundTrip(image, reference);
  }

  /** The upstream path of a blob is classified by the router as that same blob. */
  lemma UpstreamBlobPath(registry: string, image: string, digest: string)
    requires Router.PlainName(image) && '/' !in digest && digest != "uploads"
    ensures BlobUrl(registry, image, digest) == registry + "/v2/" + (image + "/blobs/" + digest)
    ensures Router.ParseV2Path(image + "/blobs/" + digest) == Router.Blob(image, digest)
  {
    Router.BlobRoundTrip(image, digest);
  }

  /** `get_manifest` after the fetch: the content type and the body text. */
  function ManifestOutcome(fetched: Result<Response, AuthError>): (r: Result<(string, string), Failure>)
    ensures r.Ok? <==> fetched.Ok? && IsSuccess(fetched.value.status) && fetched.value.body.Some?
    ensures r.Ok? ==> r.value == (ContentTypeOf(fetched.value.headers), fetched.value.body.value)
    ensures fetched.Err? ==> r == Err(FetchFailed(fetched.error))
    ensures r.Err? && r.error.BadStatus? ==> fetched.Ok? && r.error.status == fetched.value.status && !IsSuccess(r.error.status)
  {
    match fetched
    case Err(e) => Err(FetchFailed(e))
    case Ok(resp) =>
      if !IsSuccess(resp.status) then Err(BadStatus(resp.status))
      else if resp.body.None? then Err(ReadFailed)
      else Ok((ContentTypeOf(resp.headers), resp.body.value))
  }

  /** `head_manifest` after the fetch: the content type and the content length. */
  function HeadManifestOutcome(fetched: Result<Response, AuthError>): (r: Result<(string, nat), Failure>)
    ensures r.Ok? <==> fetched.Ok? && IsSuccess(fetched.value.status)
    ensures r.Ok? ==> r.value == (ContentTypeOf(fetched.value.headers), ContentLengthOf(fetched.value.headers))
    ensures fetched.Err? ==> r == Err(FetchFailed(fetched.error))
    ensures r.Err? ==> !r.error.ReadFailed?
  {
    match fetched
    case Err(e) => Err(FetchFailed(e))
    case Ok(resp) =>
      if !IsSuccess(resp.status) then Err(BadStatus(resp.status))
      else Ok((ContentTypeOf(resp.headers), ContentLengthOf(resp.headers)))
  }

  /** `get_blob` after the fetch: the body bytes. */
  function BlobOutcome(fetched: Result<Response, AuthError>): (r: Result<string, Failure>)
    ensures r.Ok? <==> fetched.Ok? && IsSuccess(fetched.value.status) && fetched.value.body.Some?
    ensures r.Ok? ==> r.value == fetched.value.body.value
    ensures fetched.Err? ==> r == Err(FetchFailed(fetched.error))
    ensures r.Err? && r.error.BadStatus? ==> fetched.Ok? && r.error.status == fetched.value.status && !IsSuccess(r.error.status)
  {
    match fetched
    case Err(e) => Err(FetchFailed(e))
    case Ok(resp) =>
      if !IsSuccess(resp.status) then Err(BadStatus(resp.status))
      else if resp.body.None? then Err(ReadFailed)
      else Ok(resp.body.value)
  }

  /** `head_blob` after the fetch: the content length. */
  function HeadBlobOutcome(fetched: Result<Response, AuthError>): (r: Result<nat, Failure>)
    ensures r.Ok? <==> fetched.Ok? && IsSuccess(fetched.value.status)
    ensures r.Ok? ==> r.value == ContentLengthOf(fetched.value.headers) && r.value <= U64_MAX
    ensures fetched.Err? ==> r == Err(FetchFailed(fetched.error))
    ensures r.Err? ==> !r.error.ReadFailed?
  {
    match fetched
    case Err(e) => Err(FetchFailed(e))
    case Ok(resp) =>
      if !IsSuccess(resp.status) then Err(BadStatus(resp.status))
      else Ok(ContentLengthOf(resp.headers))
  }

  /** The proxy: the registry it defaults to and the client it sends through. */
  class DockerProxy {
    const registryUrl: string
    const client: Upstream

    constructor(client: Upstream)
      ensures registryUrl == DEFAULT_REGISTRY && this.client == client
    {
      registryUrl := DEFAULT_REGISTRY;
      this.client := client;
    }

    /** `fetch_with_auth`: it sends exactly the requests of AuthFlow and returns its result. */
    method FetchWithAuth(verb: Method, url: string, extra: seq<Header>) returns (r: Result<Response, AuthError>)
      modifies client
      ensures var f := AuthFlow(verb, url, extra, old(client.replies));
        r == f.result && client.sent == old(client.sent) + f.requests &&
        client.replies == Drop(old(client.replies), |f.requests|)
    {
      ghost var script := client.replies;
      var request := AddHeaders(Request(verb, url, []), extra);
      assert [] + Lowered(extra) == Lowered(extra);
      var reply := client.Send(request);
      r := HandleAnswer(verb, url, extra, reply);
      AuthFlowComposes(verb, url, extra, script, r, old(client.sent), client.sent, client.replies);
    }

    /** The first answer: returned as it is unless it is a 401, whose challenge is then answered. */
    method HandleAnswer(verb: Method, url: string, extra: seq<Header>, reply: Option<Response>)
      returns (r: Result<Response, AuthError>)
      modifies client
      ensures var f := AnswerFlow(verb, url, extra, reply, old(client.replies));
        r == f.result && client.sent == old(client.sent) + f.requests &&
        client.replies == Drop(old(client.replies), |f.requests|)
    {
      if reply.None? {
        assert old(client.replies) == Drop(old(client.replies), 0);
        return Err(RequestError);
      }
      var resp := reply.value;
      if resp.status != 401 {
        assert old(client.replies) == Drop(old(client.replies), 0);
        return Ok(resp);
      }
      r := AnswerChallenge(verb, url, extra, resp);
    }

    /** The challenge of a 401 answer: read, parsed and, when it names a realm, followed. */
    method AnswerChallenge(verb: Method, url: string, extra: seq<Header>, resp: Response)
      returns (r: Result<Response, AuthError>)
      modifies client
      ensures var f := ChallengeFlow(verb, url, extra, resp, old(client.replies));
        r == f.result && client.sent == old(client.sent) + f.requests &&
        client.replies == Drop(old(client.replies), |f.requests|)
    {
      var www := HeaderText(resp.headers, "www-authenticate");
      if www.None? {
        assert old(client.replies) == Drop(old(client.replies), 0);
        return Err(MissingChallenge);
      }
      var params := ParseWwwAuthenticate(www.value);
      if "realm" !in params {
        assert old(client.replies) == Drop(old(client.replies), 0);
        return Err(MissingRealm);
      }
      r := RetryWithToken(verb, url, extra, params);
    }

    /** The token request and the retry, after a challenge with a realm. */
    method RetryWithToken(verb: Method, url: string, extra: seq<Header>, params: map<string, string>)
      returns (r: Result<Response, AuthError>)
      requires "realm" in params
      modifies client
      ensures var f := TokenFlow(verb, url, extra, params, old(client.replies));
        r == f.result && client.sent == old(client.sent) + f.requests &&
        client.replies == Drop(old(client.replies), |f.requests|)
    {
      ghost var script := client.replies;
      var tokenUrl := BuildTokenUrl(params);
      var tokenReply := client.Send(Request(GET, tokenUrl, []));
      assert Drop(script, 1) == client.replies && tokenReply == Nth(script, 0) by {
        DropNth(script, 0, 1);
        assert Drop(script, 0) == script;
      }
      if tokenReply.None? {
        return Err(TokenRequestError);
      }
      var tokenResp := tokenReply.value;
      if !IsSuccess(tokenResp.status) {
        return Err(TokenStatus(tokenResp.status));
      }
      if tokenResp.json.None? {
        return Err(TokenNotJson);
      }
      var token := TokenOf(tokenResp.json.value);
      if token.None? {
        return Err(TokenMissing);
      }
      var auth := Authorization(token.value);
      if !ValidHeaderValue(auth.1) {
        // the request builder holds the header error, and sending it fails at once
        return Err(RetryError);
      }
      var retry := AddHeaders(Request(verb, url, [auth]), extra);
      var retryReply := client.Send(retry);
      assert Drop(script, 2) == client.replies && retryReply == Nth(script, 1) by {
        DropNth(script, 1, 0);
        DropNth(script, 1, 1);
      }
      if retryReply.None? {
        return Err(RetryError);
      }
      return Ok(retryReply.value);
    }

    method GetManifest(name: string, reference: string) returns (r: Result<(string, string), Failure>)
      modifies client
      ensures var target := SplitRegistryAndName(registryUrl, name);
        var f := AuthFlow(GET, ManifestUrl(target.0, target.1, reference),
          [("Accept", MANIFEST_V2), ("Accept", MANIFEST_LIST_V2)], old(client.replies));
        r == ManifestOutcome(f.result) && client.sent == old(client.sent) + f.requests
          && client.replies == Drop(old(client.replies), |f.requests|)
    {
      var target := SplitRegistryAndName(registryUrl, name);
      var fetched := FetchWithAuth(GET, ManifestUrl(target.0, target.1, reference),
        [("Accept", MANIFEST_V2), ("Accept", MANIFEST_LIST_V2)]);
      r := ManifestOutcome(fetched);
    }

    method HeadManifest(name: string, reference: string) returns (r: Result<(string, nat), Failure>)
      modifies client
      ensures var target := SplitRegistryAndName(registryUrl, name);
        var f := AuthFlow(HEAD, ManifestUrl(target.0, target.1, reference), [("Accept", MANIFEST_V2)], old(client.replies));
        r == HeadManifestOutcome(f.result) && client.sent == old(client.sent) + f.requests
          && client.replies == Drop(old(client.replies), |f.requests|)
    {
      var target := SplitRegistryAndName(registryUrl, name);
      var fetched := FetchWithAuth(HEAD, ManifestUrl(target.0, target.1, reference), [("Accept", MANIFEST_V2)]);
      r := HeadManifestOutcome(fetched);
    }

    method GetBlob(name: string, digest: string) returns (r: Result<string, Failure>)
      modifies client
      ensures var target := SplitRegistryAndName(registryUrl, name);
        var f := AuthFlow(GET, BlobUrl(target.0, target.1, digest), [], old(client.replies));
        r == BlobOutcome(f.result) && client.sent == old(client.sent) + f.requests
          && client.replies == Drop(old(client.replies), |f.requests|)
    {
      var target := SplitRegistryAndName(registryUrl, name);
      var fetched := FetchWithAuth(GET, BlobUrl(target.0, target.1, digest), []);
      r := BlobOutcome(fetched);
    }

    method HeadBlob(name: string, digest: string) returns (r: Result<nat, Failure>)
      modifies client
      ensures var target := SplitRegistryAndName(registryUrl, name);
        var f := AuthFlow(HEAD, BlobUrl(target.0, target.1, digest), [], old(client.replies));
        r == HeadBlobOutcome(f.result) && client.sent == old(client.sent) + f.requests
          && client.replies == Drop(old(client.replies), |f.requests|)
    {
      var target := SplitRegistryAndName(registryUrl, name);
      var fetched := FetchWithAuth(HEAD, BlobUrl(target.0, target.1, digest), []);
      r := HeadBlobOutcome(fetched);
    }
  }

  /**
   * A HEAD answered 2xx directly reports its Content-Length, 0 when the header is
   * missing, and a non-2xx answer is an error carrying the status.
   */
  lemma HeadBlobLength(url: string, resp: Response, rest: seq<Option<Response>>)
    requires resp.status != 401
    ensures var r := HeadBlobOutcome(AuthFlow(HEAD, url, [], [Some(resp)] + rest).result);
      (IsSuccess(resp.status) ==> r == Ok(ContentLengthOf(resp.headers))) &&
      (!IsSuccess(resp.status) ==> r == Err(BadStatus(resp.status)))
  {
    PassThrough(HEAD, url, [], [Some(resp)] + rest);
  }

  /** A manifest HEAD answered 2xx without either header reports `application/json` and 0. */
  lemma HeadManifestDefaults(url: string, resp: Response, rest: seq<Option<Response>>)
    requires IsSuccess(resp.status)
    requires forall i :: 0 <= i < |resp.headers| ==> resp.headers[i].0 != "content-type" && resp.headers[i].0 != "content-length"
    ensures HeadManifestOutcome(AuthFlow(HEAD, url, [("Accept", MANIFEST_V2)], [Some(resp)] + rest).result) ==
      Ok(("application/json", 0))
  {
    PassThrough(HEAD, url, [("Accept", MANIFEST_V2)], [Some(resp)] + rest);
    ContentTypeDefault(resp.headers);
    ContentLengthMissing(resp.headers);
  }
}
