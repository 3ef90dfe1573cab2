/** The configuration store: a parsed YAML document, read by dot-separated
    keys with a default, and patched by environment overrides that create the
    intermediate mappings they need. */
module Config {
  import opened Basics

  /** A YAML value as `yaml.safe_load` produces it (string keys only). */
  datatype Value =
    | Null
    | Boolean(b: bool)
    | Integer(i: int)
    | Number(r: real)
    | Text(s: string)
    | List(items: seq<Value>)
    | Dict(entries: map<string, Value>)

  // ------------------------------------------------------ dotted keys

  /** The index of the first '.' in `s`. */
  function FirstDot(s: string): (i: nat)
    requires '.' in s
    ensures i < |s| && s[i] == '.'
    ensures '.' !in s[..i]
  {
    if s[0] == '.' then 0 else 1 + FirstDot(s[1..])
  }

  lemma {:induction false} FirstDotIs(s: string, i: nat)
    requires i < |s| && s[i] == '.' && '.' !in s[..i]
    ensures '.' in s && FirstDot(s) == i
    decreases i
  {
    assert s[i] in s;
    if i > 0 {
      assert s[0] in s[..i];
      assert s[1..][i - 1] == '.';
      assert s[1..][..i - 1] == s[..i][1..];
      FirstDotIs(s[1..], i - 1);
    }
  }

  /** `str.split(".")`: every piece between dots, empty pieces included. */
  function Split(s: string): (parts: seq<string>)
    ensures |parts| >= 1
    ensures forall i :: 0 <= i < |parts| ==> '.' !in parts[i]
    decreases |s|
  {
    if '.' !in s then [s]
    else
      var i := FirstDot(s);
      [s[..i]] + Split(s[i + 1..])
  }

  /** `".".join(parts)`. */
  function Join(parts: seq<string>): string
    requires |parts| >= 1
  {
    if |parts| == 1 then parts[0] else parts[0] + "." + Join(parts[1..])
  }

  /** Joining the pieces of a split gives the key back. */
  lemma {:induction false} JoinSplit(s: string)
    ensures Join(Split(s)) == s
    decreases |s|
  {
    if '.' in s {
      var i := FirstDot(s);
      JoinSplit(s[i + 1..]);
      assert Split(s)[1..] == Split(s[i + 1..]);
      assert s == s[..i] + "." + s[i + 1..];
    }
  }

  /** Splitting a join of dot-free pieces gives the pieces back. */
  lemma {:induction false} SplitJoin(parts: seq<string>)
    requires |parts| >= 1
    requires forall i :: 0 <= i < |parts| ==> '.' !in parts[i]
    ensures Split(Join(parts)) == parts
    decreases |parts|
  {
    if |parts| > 1 {
      var s := Join(parts);
      var p := parts[0];
      var rest := Join(parts[1..]);
      assert s == p + "." + rest;
      assert s[..|p|] == p;
      FirstDotIs(s, |p|);
      assert s[|p| + 1..] == rest;
      SplitJoin(parts[1..]);
    }
  }

  // ------------------------------------------------------------ lookup

  /** The value stored under `path`, descending through mappings only: None
      when a segment is missing or the walk meets a value that is not a
      mapping. */
  function At(v: Value, path: seq<string>): (r: Option<Value>)
    ensures |path| == 0 ==> r == Some(v)
    ensures |path| > 0 && r.Some? ==> v.Dict? && path[0] in v.entries
    ensures |path| > 0 && r.Some? ==> r == At(v.entries[path[0]], path[1..])
    decreases |path|
  {
    if |path| == 0 then Some(v)
    else if v.Dict? && path[0] in v.entries then At(v.entries[path[0]], path[1..])
    else None
  }

  /** The loop of `Config.get`: each segment must find a mapping holding a
      non-None value, else the default comes back. */
  function Lookup(v: Value, path: seq<string>, default: Value): (r: Value)
    requires |path| >= 1
    ensures At(v, path).Some? && At(v, path).value != Null ==> r == At(v, path).value
    ensures At(v, path).None? || At(v, path) == Some(Null) ==> r == default
    decreases |path|
  {
    if !v.Dict? || path[0] !in v.entries then default
    else if v.entries[path[0]] == Null then
      assert At(v, path) == At(Null, path[1..]);
      default
    else if |path| == 1 then
      assert At(v, path) == At(v.entries[path[0]], []);
      v.entries[path[0]]
    else
      assert At(v, path) == At(v.entries[path[0]], path[1..]);
      Lookup(v.entries[path[0]], path[1..], default)
  }

  /** `Config.get(key, default)`. */
  function Get(config: Value, key: string, default: Value): (r: Value)
    ensures var found := At(config, Split(key));
            && (found.Some? && found.value != Null ==> r == found.value)
            && (found.None? || found == Some(Null) ==> r == default)
  {
    Lookup(config, Split(key), default)
  }

  /** A stored 0, False or "" is returned as it is, not replaced by the
      default. */
  lemma FalsyValuesKept(config: Value, key: string, default: Value, x: Value)
    requires x == Boolean(false) || x == Integer(0) || x == Number(0.0) || x == Text("")
    requires At(config, Split(key)) == Some(x)
    ensures Get(config, key, default) == x
  {
  }

  /** Looking up a longer path is looking up the rest of it from where the
      first part leads. */
  lemma {:induction false} AtConcat(v: Value, p: seq<string>, q: seq<string>)
    ensures At(v, p + q) == if At(v, p).Some? then At(At(v, p).value, q) else None
    decreases |p|
  {
    if |p| > 0 {
      assert (p + q)[0] == p[0];
      assert (p + q)[1..] == p[1..] + q;
      if v.Dict? && p[0] in v.entries {
        AtConcat(v.entries[p[0]], p[1..], q);
      }
    } else {
      assert p + q == q;
    }
  }

  // ---------------------------------------------------------- settings

  /** A typed property: its dotted key and the default it falls back to. */
  datatype Setting = Setting(key: string, default: Value)

  const CheckInterval := Setting("monitoring.check_interval_seconds", Integer(300))
  const VvvSources := Setting("monitoring.vvv_sources", List([Text("coinmarketcap")]))
  const DiemSources := Setting("monitoring.diem_sources", List([Text("aerodrome")]))
  const MinProfitPercent := Setting("monitoring.diem_arbitrage.min_profit_percent", Number(5.0))
  const IntrinsicValueDiscount := Setting("monitoring.diem_arbitrage.intrinsic_value_discount_percent", Number(10.0))
  const DcfDiscountRate := Setting("monitoring.diem_arbitrage.dcf_discount_rate", Number(0.25))
  const CaelumEnabled := Setting("notifications.caelum.enabled", Boolean(false))
  const CaelumHost := Setting("notifications.caelum.host", Text("10.32.3.27"))
  const CaelumPort := Setting("notifications.caelum.port", Integer(8090))

  /** A property reads its key, without any conversion to the declared type. */
  function Property(config: Value, s: Setting): (v: Value)
    ensures At(config, Split(s.key)).None? ==> v == s.default
    ensures At(config, Split(s.key)) == Some(Null) ==> v == s.default
    ensures var found := At(config, Split(s.key));
            found.Some? && found.value != Null ==> v == found.value
  {
    Get(config, s.key, s.default)
  }

  /** An empty document (or one that is not a mapping) yields every default. */
  lemma DefaultsWhenAbsent(config: Value, s: Setting)
    requires config == Dict(map[]) || !config.Dict?
    ensures Property(config, s) == s.default
  {
  }

  // --------------------------------------------------------- overrides

  /** The exceptions an override can raise: descending into or assigning
      through a value that is not a mapping, or an unparsable port. */
  datatype ConfigError = NotAMapping | InvalidPort

  /** `d.setdefault(p0, {}).setdefault(p1, {})...[last] = leaf`: missing
      segments become empty mappings, existing ones are used as they are. */
  function SetIn(v: Value, path: seq<string>, leaf: Value): (r: Result<Value, ConfigError>)
    requires |path| >= 1
    ensures r.Ok? ==> r.value.Dict? && At(r.value, path) == Some(leaf)
    ensures r.Err? ==> r.error == NotAMapping
    decreases |path|
  {
    if !v.Dict? then Err(NotAMapping)
    else if |path| == 1 then Ok(Dict(v.entries[path[0] := leaf]))
    else
      var child := if path[0] in v.entries then v.entries[path[0]] else Dict(map[]);
      match SetIn(child, path[1..], leaf)
      case Err(e) => Err(e)
      case Ok(c) => Ok(Dict(v.entries[path[0] := c]))
  }

  /** An override leaves every path that branches off its own untouched. */
  lemma {:induction false} SetInKeepsSiblings(v: Value, path: seq<string>, leaf: Value, q: seq<string>, i: nat)
    requires |path| >= 1 && SetIn(v, path, leaf).Ok?
    requires i < |path| && i < |q| && path[..i] == q[..i] && path[i] != q[i]
    ensures At(SetIn(v, path, leaf).value, q) == At(v, q)
    decreases |path|
  {
    var r := SetIn(v, path, leaf).value;
    if i > 0 {
      assert q[0] == path[..i][0];
      var child := if path[0] in v.entries then v.entries[path[0]] else Dict(map[]);
      assert path[1..][..i - 1] == path[..i][1..] && q[1..][..i - 1] == q[..i][1..];
      SetInKeepsSiblings(child, path[1..], leaf, q[1..], i - 1);
    }
  }

  /** An override fails exactly where `setdefault` or the final assignment
      meets a value that is not a mapping: if some proper prefix of the path
      already leads to one, the override raises. */
  lemma {:induction false} BlockedPrefixFails(v: Value, path: seq<string>, leaf: Value, j: nat)
    requires |path| >= 1 && j < |path|
    requires At(v, path[..j]).Some? && !At(v, path[..j]).value.Dict?
    ensures SetIn(v, path, leaf).Err?
    decreases |path|
  {
    if j > 0 {
      assert path[..j][0] == path[0];
      assert path[..j][1..] == path[1..][..j - 1];
      SetInChild(v, path, leaf);
      BlockedPrefixFails(v.entries[path[0]], path[1..], leaf, j - 1);
    }
  }

  lemma SetInChild(v: Value, path: seq<string>, leaf: Value)
    requires |path| >= 2 && v.Dict? && path[0] in v.entries
    ensures SetIn(v, path, leaf).Err? <==> SetIn(v.entries[path[0]], path[1..], leaf).Err?
  {
  }

  /** Conversely, a failed override names the prefix that blocked it. */
  lemma {:induction false} FailureHasBlockedPrefix(v: Value, path: seq<string>, leaf: Value) returns (j: nat)
    requires |path| >= 1 && SetIn(v, path, leaf).Err?
    ensures j < |path|
    ensures At(v, path[..j]).Some? && !At(v, path[..j]).value.Dict?
    decreases |path|
  {
    if !v.Dict? {
      j := 0;
    } else {
      assert |path| >= 2;
      if path[0] in v.entries {
        var k := FailureHasBlockedPrefix(v.entries[path[0]], path[1..], leaf);
        j := k + 1;
        assert path[..j][0] == path[0];
        assert path[..j][1..] == path[1..][..k];
      } else {
        FreshAccepts(path[1..], leaf);
        assert false;
      }
    }
  }

  /** Below a missing segment every mapping is created fresh, so the
      override cannot fail there. */
  lemma {:induction false} FreshAccepts(path: seq<string>, leaf: Value)
    requires |path| >= 1
    ensures SetIn(Dict(map[]), path, leaf).Ok?
    decreases |path|
  {
    if |path| > 1 {
      FreshAccepts(path[1..], leaf);
    }
  }

  /** The value of CAELUM_PORT: unset or empty, a number, or a string
      `int()` rejects. */
  datatype PortVariable = PortUnset | PortNumber(n: int) | PortGarbage

  /** The environment variables the overrides read; None stands for unset
      or empty. */
  datatype Environment = Environment(
    coinmarketcapKey: Option<string>,
    coingeckoKey: Option<string>,
    caelumHost: Option<string>,
    caelumPort: PortVariable,
    baseRpcUrl: Option<string>)

  const ApiKeysCoinMarketCap: seq<string> := ["api_keys", "coinmarketcap"]
  const ApiKeysCoinGecko: seq<string> := ["api_keys", "coingecko"]
  const CaelumHostPath: seq<string> := ["notifications", "caelum", "host"]
  const CaelumPortPath: seq<string> := ["notifications", "caelum", "port"]
  const BaseRpcUrlPath: seq<string> := ["web3", "base_rpc_url"]

  /** One `if value := os.getenv(...)` block. */
  function OverrideIf(r: Result<Value, ConfigError>, variable: Option<string>, path: seq<string>): (after: Result<Value, ConfigError>)
    requires |path| >= 1
    ensures r.Err? || !TruthyString(variable) ==> after == r
    ensures r.Ok? && TruthyString(variable) && after.Ok? ==> At(after.value, path) == Some(Text(variable.value))
    ensures after.Err? && r.Ok? ==> after.error == NotAMapping
  {
    if r.Err? || !TruthyString(variable) then r else SetIn(r.value, path, Text(variable.value))
  }

  /** The CAELUM_PORT block: `int(port)` raises on garbage, before anything
      is created. */
  function PortOverride(r: Result<Value, ConfigError>, port: PortVariable): (after: Result<Value, ConfigError>)
    ensures r.Err? || port == PortUnset ==> after == r
    ensures r.Ok? && port == PortGarbage ==> after == Err(InvalidPort)
    ensures r.Ok? && port.PortNumber? && after.Ok? ==> At(after.value, CaelumPortPath) == Some(Integer(port.n))
    ensures r.Ok? && port.PortNumber? && after.Err? ==> after.error == NotAMapping
  {
    if r.Err? then r
    else match port
      case PortUnset => r
      case PortGarbage => Err(InvalidPort)
      case PortNumber(n) => SetIn(r.value, CaelumPortPath, Integer(n))
  }

  /** The two API-key blocks. */
  function ApiKeyOverrides(config: Value, env: Environment): Result<Value, ConfigError> {
    OverrideIf(OverrideIf(Ok(config), env.coinmarketcapKey, ApiKeysCoinMarketCap), env.coingeckoKey, ApiKeysCoinGecko)
  }

  /** The two Caelum blocks. */
  function CaelumOverrides(r: Result<Value, ConfigError>, env: Environment): Result<Value, ConfigError> {
    PortOverride(OverrideIf(r, env.caelumHost, CaelumHostPath), env.caelumPort)
  }

  /** `_apply_env_overrides`: the five overrides in order, the first failure
      ending the sequence. */
  function ApplyEnvOverrides(config: Value, env: Environment): (r: Result<Value, ConfigError>)
    ensures (&& !TruthyString(env.coinmarketcapKey) && !TruthyString(env.coingeckoKey)
             && !TruthyString(env.caelumHost) && env.caelumPort == PortUnset
             && !TruthyString(env.baseRpcUrl)) ==> r == Ok(config)
    ensures env.caelumPort == PortGarbage ==> r.Err?
    ensures r.Ok? && TruthyString(env.baseRpcUrl) ==> At(r.value, BaseRpcUrlPath) == Some(Text(env.baseRpcUrl.value))
  {
    OverrideIf(CaelumOverrides(ApiKeyOverrides(config, env), env), env.baseRpcUrl, BaseRpcUrlPath)
  }

  /** An override whose path meets no value other than a mapping succeeds. */
  lemma UnblockedSucceeds(v: Value, path: seq<string>, leaf: Value)
    requires |path| >= 1
    requires forall j :: 0 <= j < |path| ==> At(v, path[..j]).None? || At(v, path[..j]).value.Dict?
    ensures SetIn(v, path, leaf).Ok?
  {
    if SetIn(v, path, leaf).Err? {
      var j := FailureHasBlockedPrefix(v, path, leaf);
    }
  }

  /** After an override every proper prefix of its path leads to a mapping. */
  lemma {:induction false} PrefixesBecomeMappings(v: Value, path: seq<string>, leaf: Value, j: nat)
    requires |path| >= 1 && SetIn(v, path, leaf).Ok? && j < |path|
    ensures At(SetIn(v, path, leaf).value, path[..j]).Some?
    ensures At(SetIn(v, path, leaf).value, path[..j]).value.Dict?
    decreases |path|
  {
    if j > 0 {
      var child := if path[0] in v.entries then v.entries[path[0]] else Dict(map[]);
      assert path[..j][0] == path[0];
      assert path[..j][1..] == path[1..][..j - 1];
      PrefixesBecomeMappings(child, path[1..], leaf, j - 1);
    }
  }

  /** The dotted keys the Caelum properties read split into the paths the
      overrides write. */
  lemma CaelumKeysSplit()
    ensures Split("notifications.caelum.host") == CaelumHostPath
    ensures Split("notifications.caelum.port") == CaelumPortPath
  {
    CaelumHostKeySplits();
    CaelumPortKeySplits();
  }

  lemma CaelumHostKeySplits()
    ensures Split("notifications.caelum.host") == CaelumHostPath
  {
    assert Join(CaelumHostPath) == "notifications.caelum.host";
    SplitJoin(CaelumHostPath);
  }

  lemma CaelumPortKeySplits()
    ensures Split("notifications.caelum.port") == CaelumPortPath
  {
    assert Join(CaelumPortPath) == "notifications.caelum.port";
    SplitJoin(CaelumPortPath);
  }

  /** On a mapping without `api_keys`, `notifications` and `web3` sections
      every override succeeds (short of an unparsable port) and the Caelum host
      and port read back as set. */
  lemma OverridesOnFreshSections(config: Value, env: Environment)
    requires config.Dict?
    requires At(config, ["api_keys"]).None? && At(config, ["notifications"]).None? && At(config, ["web3"]).None?
    requires env.caelumPort != PortGarbage
    ensures ApplyEnvOverrides(config, env).Ok?
    ensures var c := ApplyEnvOverrides(config, env).value;
            && (TruthyString(env.caelumHost) ==> Get(c, "notifications.caelum.host", Null) == Text(env.caelumHost.value))
            && (env.caelumPort.PortNumber? ==> Get(c, "notifications.caelum.port", Integer(8090)) == Integer(env.caelumPort.n))
  {
    ApiKeysStage(config, env);
    var keys := ApiKeyOverrides(config, env);
    CaelumStage(keys.value, env);
    RpcStage(CaelumOverrides(keys, env), env.baseRpcUrl);
    CaelumKeysSplit();
  }

  /** The BASE_RPC_URL block on a mapping without a `web3` section succeeds
      and keeps the Caelum settings. */
  lemma RpcStage(r: Result<Value, ConfigError>, url: Option<string>)
    requires r.Ok? && r.value.Dict? && At(r.value, ["web3"]).None?
    ensures var after := OverrideIf(r, url, BaseRpcUrlPath);
            && after.Ok?
            && At(after.value, CaelumHostPath) == At(r.value, CaelumHostPath)
            && At(after.value, CaelumPortPath) == At(r.value, CaelumPortPath)
  {
    assert BaseRpcUrlPath[..0] == [] && BaseRpcUrlPath[..1] == ["web3"];
    if TruthyString(url) {
      UnblockedSucceeds(r.value, BaseRpcUrlPath, Text(url.value));
    }
    OverrideKeeps(r, url, BaseRpcUrlPath, CaelumHostPath, 0);
    OverrideKeeps(r, url, BaseRpcUrlPath, CaelumPortPath, 0);
  }

  lemma ApiKeysStage(config: Value, env: Environment)
    requires config.Dict? && At(config, ["api_keys"]).None?
    ensures var r := ApiKeyOverrides(config, env);
            && r.Ok? && r.value.Dict?
            && At(r.value, ["notifications"]) == At(config, ["notifications"])
            && At(r.value, ["web3"]) == At(config, ["web3"])
  {
    var r1 := OverrideIf(Ok(config), env.coinmarketcapKey, ApiKeysCoinMarketCap);
    assert ApiKeysCoinMarketCap[..0] == [] && ApiKeysCoinMarketCap[..1] == ["api_keys"];
    if TruthyString(env.coinmarketcapKey) {
      UnblockedSucceeds(config, ApiKeysCoinMarketCap, Text(env.coinmarketcapKey.value));
    }
    OverrideKeeps(Ok(config), env.coinmarketcapKey, ApiKeysCoinMarketCap, ["notifications"], 0);
    OverrideKeeps(Ok(config), env.coinmarketcapKey, ApiKeysCoinMarketCap, ["web3"], 0);
    OverrideMakesMappings(Ok(config), env.coinmarketcapKey, ApiKeysCoinMarketCap, ["api_keys"]);
    OverrideMakesMappings(Ok(config), env.coinmarketcapKey, ApiKeysCoinMarketCap, []);
    assert ApiKeysCoinGecko[..0] == [] && ApiKeysCoinGecko[..1] == ["api_keys"];
    if TruthyString(env.coingeckoKey) {
      UnblockedSucceeds(r1.value, ApiKeysCoinGecko, Text(env.coingeckoKey.value));
    }
    OverrideKeeps(r1, env.coingeckoKey, ApiKeysCoinGecko, ["notifications"], 0);
    OverrideKeeps(r1, env.coingeckoKey, ApiKeysCoinGecko, ["web3"], 0);
  }

  lemma CaelumStage(v: Value, env: Environment)
    requires v.Dict? && At(v, ["notifications"]).None? && env.caelumPort != PortGarbage
    ensures var r := CaelumOverrides(Ok(v), env);
            && r.Ok? && r.value.Dict?
            && (TruthyString(env.caelumHost) ==> At(r.value, CaelumHostPath) == Some(Text(env.caelumHost.value)))
            && (env.caelumPort.PortNumber? ==> At(r.value, CaelumPortPath) == Some(Integer(env.caelumPort.n)))
            && At(r.value, ["web3"]) == At(v, ["web3"])
  {
    CaelumHostStage(v, env);
    var r3 := OverrideIf(Ok(v), env.caelumHost, CaelumHostPath);
    if env.caelumPort.PortNumber? {
      CaelumPortStage(r3.value, env.caelumHost, env.caelumPort.n);
    }
  }

  /** The CAELUM_HOST block on a mapping without a `notifications` section:
      it succeeds, leaves `web3` alone, and leaves every prefix of the port's
      path unset or a mapping. */
  lemma CaelumHostStage(v: Value, env: Environment)
    requires v.Dict? && At(v, ["notifications"]).None?
    ensures var r := OverrideIf(Ok(v), env.caelumHost, CaelumHostPath);
            && r.Ok? && r.value.Dict?
            && (TruthyString(env.caelumHost) ==> At(r.value, CaelumHostPath) == Some(Text(env.caelumHost.value)))
            && At(r.value, ["web3"]) == At(v, ["web3"])
            && (forall j :: 0 <= j < |CaelumPortPath| ==>
                  At(r.value, CaelumPortPath[..j]).None? || At(r.value, CaelumPortPath[..j]).value.Dict?)
  {
    var r3 := OverrideIf(Ok(v), env.caelumHost, CaelumHostPath);
    AtConcat(v, ["notifications"], ["caelum"]);
    assert ["notifications"] + ["caelum"] == ["notifications", "caelum"];
    assert CaelumHostPath[..0] == [] && CaelumHostPath[..1] == ["notifications"];
    assert CaelumHostPath[..2] == ["notifications", "caelum"];
    if TruthyString(env.caelumHost) {
      UnblockedSucceeds(v, CaelumHostPath, Text(env.caelumHost.value));
    }
    OverrideKeeps(Ok(v), env.caelumHost, CaelumHostPath, ["web3"], 0);
    OverrideMakesMappings(Ok(v), env.caelumHost, CaelumHostPath, []);
    OverrideMakesMappings(Ok(v), env.caelumHost, CaelumHostPath, ["notifications"]);
    OverrideMakesMappings(Ok(v), env.caelumHost, CaelumHostPath, ["notifications", "caelum"]);
    assert CaelumPortPath[..0] == [] && CaelumPortPath[..1] == ["notifications"];
    assert CaelumPortPath[..2] == ["notifications", "caelum"];
  }

  /** The CAELUM_PORT block after the host block: it succeeds, sets the port
      and keeps the host and `web3`. */
  lemma CaelumPortStage(v: Value, host: Option<string>, n: int)
    requires v.Dict?
    requires forall j :: 0 <= j < |CaelumPortPath| ==> At(v, CaelumPortPath[..j]).None? || At(v, CaelumPortPath[..j]).value.Dict?
    ensures var r := SetIn(v, CaelumPortPath, Integer(n));
            && r.Ok? && r.value.Dict?
            && At(r.value, CaelumPortPath) == Some(Integer(n))
            && At(r.value, CaelumHostPath) == At(v, CaelumHostPath)
            && At(r.value, ["web3"]) == At(v, ["web3"])
  {
    var leaf := Integer(n);
    UnblockedSucceeds(v, CaelumPortPath, leaf);
    SetInKeepsSiblings(v, CaelumPortPath, leaf, CaelumHostPath, 2);
    SetInKeepsSiblings(v, CaelumPortPath, leaf, ["web3"], 0);
  }

  /** One conditional override keeps every path that branches off its own. */
  lemma OverrideKeeps(r: Result<Value, ConfigError>, variable: Option<string>, path: seq<string>, q: seq<string>, i: nat)
    requires |path| >= 1 && r.Ok? && OverrideIf(r, variable, path).Ok?
    requires i < |path| && i < |q| && path[..i] == q[..i] && path[i] != q[i]
    ensures At(OverrideIf(r, variable, path).value, q) == At(r.value, q)
  {
    if TruthyString(variable) {
      SetInKeepsSiblings(r.value, path, Text(variable.value), q, i);
    }
  }

  /** After one conditional override a proper prefix of its path leads to a
      mapping if it was set, and to what it led to before if not. */
  lemma OverrideMakesMappings(r: Result<Value, ConfigError>, variable: Option<string>, path: seq<string>, prefix: seq<string>)
    requires |path| >= 1 && r.Ok? && OverrideIf(r, variable, path).Ok?
    requires |prefix| < |path| && path[..|prefix|] == prefix
    ensures var after := At(OverrideIf(r, variable, path).value, prefix);
            if TruthyString(variable) then after.Some? && after.value.Dict? else after == At(r.value, prefix)
  {
    if TruthyString(variable) {
      PrefixesBecomeMappings(r.value, path, Text(variable.value), |prefix|);
    }
  }
}
