/**
 * The proxy's configuration (src/config.rs): the four sections read from the
 * TOML file, their validation and the strings derived from them.
 */
module Config {
  import opened Wrappers
  import opened Text

  const U16_MAX: nat := 0xFFFF

  /** The log levels a configuration may name, in the order the error message lists them. */
  const LEVELS: seq<string> := ["debug", "info", "warn", "error", "trace"]

  datatype ServerConfig = ServerConfig(host: string, port: nat)
  datatype LogConfig = LogConfig(logFilePath: string, level: string)
  datatype ProxyConfig = ProxyConfig(default: string)
  datatype AuthConfig = AuthConfig(ghcrToken: string)
  datatype Config = Config(server: ServerConfig, log: LogConfig, proxy: ProxyConfig, auth: AuthConfig)

  /** `ServerConfig::validate`: a host, then a non-zero port. */
  function ValidateServer(s: ServerConfig): (r: Result<(), string>)
    ensures r.Ok? <==> s.host != "" && s.port != 0
    ensures s.host == "" ==> r == Err("Server host cannot be empty")
    ensures s.host != "" && s.port == 0 ==> r == Err("Server port must be greater than 0")
  {
    if s.host == "" then Err("Server host cannot be empty")
    else if s.port == 0 then Err("Server port must be greater than 0")
    else Ok(())
  }

  /** `ServerConfig::socket_addr`: host, colon, decimal port. */
  function SocketAddr(s: ServerConfig): (a: string)
    ensures |a| > |s.host| + 1 && a[..|s.host|] == s.host && a[|s.host|] == ':'
  {
    s.host + ":" + Decimal(s.port)
  }

  /** The address splits back at its last colon into the host and the port, whatever colons the host holds. */
  lemma SocketAddrRoundTrip(s: ServerConfig)
    requires s.port <= U16_MAX
    ensures var a := SocketAddr(s);
      LastIndexOf(a, ':') == Some(|s.host|) && a[..|s.host|] == s.host &&
      ParseU64(a[|s.host| + 1..]) == Some(s.port)
  {
    var a := SocketAddr(s);
    var digits := Decimal(s.port);
    assert a[|s.host| + 1..] == digits;
    DecimalHasNo(s.port, ':');
    ParseDecimal(s.port);
  }

  /** `LogConfig::validate`: a known level in any case, then a non-empty path. */
  function ValidateLog(l: LogConfig): (r: Result<(), string>)
    ensures r.Ok? <==> ToLower(l.level) in LEVELS && l.logFilePath != ""
    ensures ToLower(l.level) !in LEVELS ==>
      r == Err("Invalid log level '" + l.level + "'. Must be one of: [\"debug\", \"info\", \"warn\", \"error\", \"trace\"]")
  {
    if ToLower(l.level) !in LEVELS then
      Err("Invalid log level '" + l.level + "'. Must be one of: [\"debug\", \"info\", \"warn\", \"error\", \"trace\"]")
    else if l.logFilePath == "" then Err("Log file path cannot be empty")
    else Ok(())
  }

  /** `LogConfig::normalized_level`. */
  function NormalizedLevel(l: LogConfig): (level: string)
    ensures ValidateLog(l).Ok? ==> level in LEVELS
    ensures EqualsIgnoreCase(level, l.level)
  {
    ToLowerIdempotent(l.level);
    ToLower(l.level)
  }

  /** `ProxyConfig::validate`. */
  function ValidateProxy(p: ProxyConfig): (r: Result<(), string>)
    ensures r.Ok? <==> p.default != ""
  {
    if p.default == "" then Err("Default proxy registry cannot be empty") else Ok(())
  }

  /** `Config::validate`: server, log and proxy sections in that order; the auth section is not checked. */
  function Validate(c: Config): (r: Result<(), string>)
    ensures r.Ok? <==> ValidateServer(c.server).Ok? && ValidateLog(c.log).Ok? && ValidateProxy(c.proxy).Ok?
    ensures ValidateServer(c.server).Err? ==> r == ValidateServer(c.server)
    ensures ValidateServer(c.server).Ok? && ValidateLog(c.log).Err? ==> r == ValidateLog(c.log)
    ensures ValidateServer(c.server).Ok? && ValidateLog(c.log).Ok? ==> r == ValidateProxy(c.proxy)
  {
    match ValidateServer(c.server)
    case Err(e) => Err(e)
    case Ok(_) =>
      match ValidateLog(c.log)
      case Err(e) => Err(e)
      case Ok(_) => ValidateProxy(c.proxy)
  }

  /** The token never affects validation. */
  lemma ValidateIgnoresAuth(c: Config, token: string)
    ensures Validate(c.(auth := AuthConfig(token))) == Validate(c)
  {
  }

  /** `has_ghcr_token`, which the configuration delegates to its auth section: any non-empty token counts. */
  function HasGhcrToken(c: Config): (b: bool)
    ensures b <==> |c.auth.ghcrToken| > 0
  {
    c.auth.ghcrToken != ""
  }

  /** `to_display_string`: the address, the level as written, the log path and the default registry. */
  function ToDisplayString(c: Config): (s: string)
    ensures StartsWith(s, "Server: " + SocketAddr(c.server))
  {
    "Server: " + SocketAddr(c.server) + " | Log Level: " + c.log.level + " | Log Path: " + c.log.logFilePath +
    " | Default Registry: " + c.proxy.default
  }

  /** The display string masks the token by never reading it: configurations that differ only in the token print alike. */
  lemma DisplayHidesToken(c: Config, token: string)
    ensures ToDisplayString(c.(auth := AuthConfig(token))) == ToDisplayString(c)
    ensures HasGhcrToken(c.(auth := AuthConfig(token))) <==> token != ""
  {
  }
}
