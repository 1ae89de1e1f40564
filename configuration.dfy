/** Build settings read from Info.plist (Configurations/Configuration.swift).
    The Info.plist is a parameter: a map from keys to the string values
    stored under them. */
module Configuration {
  import opened Types
  import opened Urls
  import opened ApiService

  datatype BuildEnvironment = DebugDev | DebugStag | DebugPro | ReleaseStag | ReleasePro | ReleaseDev {
    /** `isDebug`. */
    predicate IsDebug() {
      this == DebugDev || this == DebugStag || this == DebugPro
    }
  }

  /** `BuildEnvironment(value:)`: five exact names, everything else is debugDev. */
  function EnvironmentFromValue(value: string): BuildEnvironment {
    match value
    case "debug_stag" => DebugStag
    case "debug_pro" => DebugPro
    case "release_stag" => ReleaseStag
    case "release_pro" => ReleasePro
    case "release_dev" => ReleaseDev
    case _ => DebugDev
  }

  lemma EnvironmentFromValueTable(value: string)
    ensures EnvironmentFromValue("debug_stag") == DebugStag
    ensures EnvironmentFromValue("debug_pro") == DebugPro
    ensures EnvironmentFromValue("release_stag") == ReleaseStag
    ensures EnvironmentFromValue("release_pro") == ReleasePro
    ensures EnvironmentFromValue("release_dev") == ReleaseDev
    ensures value !in {"debug_stag", "debug_pro", "release_stag", "release_pro", "release_dev"} ==>
              EnvironmentFromValue(value) == DebugDev
    ensures EnvironmentFromValue("debug_dev") == DebugDev
  {
  }

  /** A value names a debug build exactly when it does not name a release one:
      unknown values, misspellings included, give a debug build. */
  lemma IsDebugUnlessRelease(value: string)
    ensures EnvironmentFromValue(value).IsDebug() <==>
              value !in {"release_stag", "release_pro", "release_dev"}
  {
  }

  /** `isDebug` separates the three debug cases from the three release ones. */
  lemma IsDebugCases(e: BuildEnvironment)
    ensures e.IsDebug() <==> e in {DebugDev, DebugStag, DebugPro}
    ensures !e.IsDebug() <==> e in {ReleaseStag, ReleasePro, ReleaseDev}
  {
  }

  datatype ConfigurationError = MissingKey | InvalidValue

  /** `BuildConfiguration.value(for:)`: the string stored under the key, or a
      thrown `invalidValue` when there is none. */
  function ValueFor(info: map<string, string>, key: string): (r: Result<string, ConfigurationError>)
    ensures r.Success? <==> key in info
    ensures r.Success? ==> r.value == info[key]
    ensures r.Failure? ==> r.error == InvalidValue
  {
    if key in info then Success(info[key]) else Failure(InvalidValue)
  }

  datatype BuildConfiguration = BuildConfiguration(apiKey: string) {

    /** `environment`: parsed from "ENVIRONMENT", debugDev when the key is missing. */
    function Environment(info: map<string, string>): (e: BuildEnvironment)
      ensures "ENVIRONMENT" !in info ==> e == DebugDev
      ensures "ENVIRONMENT" in info ==> e == EnvironmentFromValue(info["ENVIRONMENT"])
    {
      match ValueFor(info, "ENVIRONMENT")
      case Success(v) => EnvironmentFromValue(v)
      case Failure(_) => DebugDev
    }

    /** `baseAPIURL(apiConfigs:)`: the scheme, the host stored under `apiKey`,
        and the first path option if any. `None` is the crash of
        `URL(string: "")!` after the assertion failure for a missing key. */
    function BaseAPIURL(apiConfigs: seq<APIConfig>, info: map<string, string>): (u: Option<Url>)
      ensures u.Some? <==> apiKey in info
      ensures u.Some? ==> u.value.root == Scheme(apiConfigs) + "://" + info[apiKey]
      ensures u.Some? ==> u.value.components == PathComponents(apiConfigs)
    {
      match ValueFor(info, apiKey)
      case Failure(_) => None
      case Success(path) =>
        var base := Url(Scheme(apiConfigs) + "://" + path, []);
        match FirstPath(apiConfigs)
        case Some(pathComponent) => Some(base.AppendingPathComponent(pathComponent))
        case None => Some(base)
    }

    /** `fileAPIURL`: "http://" and the host under "FILE_API_URL"; both the
        debug and the release branch use plain http. */
    function FileAPIURL(info: map<string, string>): (u: Option<Url>)
      ensures u.Some? <==> "FILE_API_URL" in info
      ensures u.Some? ==> u.value == Url("http://" + info["FILE_API_URL"], [])
    {
      match ValueFor(info, "FILE_API_URL")
      case Failure(_) => None
      case Success(path) =>
        if Environment(info).IsDebug() then Some(Url("http://" + path, []))
        else Some(Url("http://" + path, []))
    }
  }

  /** The `first(where:)` over the configs: is there a `hasSSL`? */
  function Scheme(apiConfigs: seq<APIConfig>): (s: string)
    ensures s == "https" <==> exists i | 0 <= i < |apiConfigs| :: apiConfigs[i].HasSSL?
    ensures s == "http" <==> forall i | 0 <= i < |apiConfigs| :: !apiConfigs[i].HasSSL?
  {
    if HasSSL in apiConfigs then "https" else "http"
  }

  /** `compactMap { path }.first`, written as a scan from the front. */
  function FirstPath(apiConfigs: seq<APIConfig>): (p: Option<string>)
    ensures p.None? <==> forall i | 0 <= i < |apiConfigs| :: !apiConfigs[i].Path?
    ensures p.Some? ==> exists i | 0 <= i < |apiConfigs| ::
                          && apiConfigs[i] == Path(p.value)
                          && forall j | 0 <= j < i :: !apiConfigs[j].Path?
  {
    if apiConfigs == [] then None
    else if apiConfigs[0].Path? then Some(apiConfigs[0].path)
    else
      var rest := FirstPath(apiConfigs[1..]);
      assert forall i | 1 <= i < |apiConfigs| :: apiConfigs[i] == apiConfigs[1..][i - 1];
      rest
  }

  /** The components `baseAPIURL` appends: the first path option, or none. */
  function PathComponents(apiConfigs: seq<APIConfig>): (cs: seq<string>)
    ensures |cs| <= 1
  {
    match FirstPath(apiConfigs)
    case Some(p) => [p]
    case None => []
  }

  /** Only the first path option counts: more after it change nothing,
      and the order of `hasSSL` among them does not matter. */
  lemma {:induction false} OnlyFirstPathCounts(before: seq<APIConfig>, p: string, after: seq<APIConfig>)
    requires forall i | 0 <= i < |before| :: !before[i].Path?
    ensures FirstPath(before + [Path(p)] + after) == Some(p)
  {
    if before != [] {
      var rest := before[1..] + [Path(p)] + after;
      assert (before + [Path(p)] + after)[1..] == rest;
      OnlyFirstPathCounts(before[1..], p, after);
    }
  }
}
