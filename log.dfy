/**
 * The level name handed to the logger (src/log.rs). Setting the logger up is
 * global state and file creation, and is not part of this model.
 */
module Log {
  import opened Text
  import Config

  /** `parse_log_level`: the lower-cased level when known, `info` otherwise. */
  function ParseLogLevel(level: string): (r: string)
    ensures r in Config.LEVELS
    ensures ToLower(level) in Config.LEVELS ==> r == ToLower(level)
    ensures ToLower(level) !in Config.LEVELS ==> r == "info"
  {
    match ToLower(level)
    case "debug" => "debug"
    case "info" => "info"
    case "warn" => "warn"
    case "error" => "error"
    case "trace" => "trace"
    case _ => "info"
  }

  /** Case does not matter. */
  lemma CaseInsensitive(level: string)
    ensures ParseLogLevel(level) == ParseLogLevel(ToLower(level))
  {
    ToLowerIdempotent(level);
  }

  /** Parsing an already parsed level changes nothing. */
  lemma Idempotent(level: string)
    ensures ParseLogLevel(ParseLogLevel(level)) == ParseLogLevel(level)
  {
    var r := ParseLogLevel(level);
    assert ToLower(r) == r by {
      assert r in Config.LEVELS;
      assert ToLower("debug") == "debug" && ToLower("info") == "info" && ToLower("warn") == "warn";
      assert ToLower("error") == "error" && ToLower("trace") == "trace";
    }
  }

  /** A validated configuration's level is used as normalised: the `info` fallback is never taken for it. */
  lemma AgreesWithValidatedConfig(l: Config.LogConfig)
    requires Config.ValidateLog(l).Ok?
    ensures ParseLogLevel(l.level) == Config.NormalizedLevel(l)
  {
  }
}
