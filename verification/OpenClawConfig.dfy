// The edit of the OpenClaw configuration: a tree of JSON values in which a few places are managed.
module OpenClawConfig {
  import opened Wrappers
  import opened GoStrings

  datatype Json = Null | Bool(b: bool) | Num(n: real) | Str(s: string) | Arr(items: seq<Json>) | Obj(fields: Fields)
  type Fields = map<string, Json>
  type Path = seq<string>

  const RUNS := "or3-runs"
  const LOOPBACK := "loopback"

  // A field; null counts as absent.
  predicate Has(f: Fields, key: string) {
    key in f && !f[key].Null?
  }

  // ensureMap.
  predicate MapAt(f: Fields, key: string) {
    Has(f, key) ==> f[key].Obj?
  }

  function Child(f: Fields, key: string): Fields {
    if Has(f, key) && f[key].Obj? then f[key].fields else map[]
  }

  // ensureStringSlice.
  predicate StringsAt(f: Fields, key: string) {
    Has(f, key) ==> f[key].Arr? && forall i :: 0 <= i < |f[key].items| ==> f[key].items[i].Str?
  }

  function Items(f: Fields, key: string): seq<Json> {
    if Has(f, key) && f[key].Arr? then f[key].items else []
  }

  // containsAnyString.
  predicate Matches(item: Json, target: string) {
    item.Str? && EqualFold(Trim(item.s), target)
  }

  predicate Contains(items: seq<Json>, target: string) {
    exists i :: 0 <= i < |items| && Matches(items[i], target)
  }

  predicate Loopback(bind: string) {
    var s := Trim(bind);
    EqualFold(s, LOOPBACK) || EqualFold(s, "localhost") || s == "127.0.0.1" || s == "::1"
  }

  // ----- the edit, place by place -----

  predicate BindAt(gateway: Fields) {
    Has(gateway, "bind") ==> gateway["bind"].Str? && Loopback(gateway["bind"].s)
  }

  function EditedGateway(gateway: Fields): Fields {
    if Has(gateway, "bind") then gateway else gateway["bind" := Str(LOOPBACK)]
  }

  function WithString(f: Fields, key: string, text: string): Fields {
    if Contains(Items(f, key), text) then f else f[key := Arr(Items(f, key) + [Str(text)])]
  }

  function GatewayToken(gateway: Fields): Option<string> {
    var auth := Child(gateway, "auth");
    if "token" in auth && auth["token"].Str? && Trim(auth["token"].s) != "" then Some(auth["token"].s) else None
  }

  function EditedConfig(config: Fields, origin: string, token: string, gateway: Fields): Fields {
    var origins := Items(config, "allowedOrigins");
    var allowed := config["allowedOrigins" := Arr(if Contains(origins, origin) then origins else origins + [Str(origin)])];
    var keyed := if token == "" then allowed else allowed["token" := Str(token)];
    match GatewayToken(gateway)
    case Some(t) => keyed["gatewayToken" := Str(t)]
    case None => keyed
  }

  function ConfigOf(plugins: Fields): Fields {
    Child(Child(Child(plugins, "entries"), RUNS), "config")
  }

  function WithConfig(plugins: Fields, config: Fields): Fields {
    var entries := Child(plugins, "entries");
    plugins["entries" := Obj(entries[RUNS := Obj(Child(entries, RUNS)["config" := Obj(config)])])]
  }

  function EditedPlugins(plugins: Fields, origin: string, token: string, gateway: Fields): Fields {
    WithConfig(WithString(plugins, "allow", RUNS), EditedConfig(ConfigOf(plugins), origin, token, gateway))
  }

  // What updateOpenClawConfig makes of a tree it accepts.
  function Edited(root: Fields, origin: string, token: string): Fields {
    var gateway := EditedGateway(Child(root, "gateway"));
    root["gateway" := Obj(gateway)]["plugins" := Obj(EditedPlugins(Child(root, "plugins"), origin, token, gateway))]
  }

  predicate PluginsEditable(plugins: Fields) {
    && StringsAt(plugins, "allow") && MapAt(plugins, "entries")
    && MapAt(Child(plugins, "entries"), RUNS) && MapAt(Child(Child(plugins, "entries"), RUNS), "config")
    && StringsAt(ConfigOf(plugins), "allowedOrigins") && !Contains(Items(ConfigOf(plugins), "allowedOrigins"), "*")
  }

  // The trees it accepts: every place on the way is absent, null or of its type, the gateway is bound to a
  // loopback address if at all, and no origin is a wildcard.
  predicate Editable(root: Fields) {
    && MapAt(root, "gateway") && BindAt(Child(root, "gateway"))
    && MapAt(root, "plugins") && PluginsEditable(Child(root, "plugins"))
  }

  // ----- the file -----

  datatype Body = Missing | Unreadable | Parsed(value: Json)

  class ConfigFile {
    var body: Body

    constructor (body: Body)
      ensures this.body == body
    {
      this.body := body;
    }

    // The maps of the plugin part, rewritten in place from the outside in; the file is not touched here.
    static method EditPlugins(plugins: Fields, origin: string, token: string, gateway: Fields) returns (r: Option<Fields>)
      ensures r.Some? <==> PluginsEditable(plugins)
      ensures r.Some? ==> r.value == EditedPlugins(plugins, origin, token, gateway)
    {
      if !StringsAt(plugins, "allow") { return None; }
      var allow, edited := Items(plugins, "allow"), plugins;
      if !Contains(allow, RUNS) { edited := edited["allow" := Arr(allow + [Str(RUNS)])]; }
      if !MapAt(edited, "entries") { return None; }
      var entries := Child(edited, "entries");
      if !MapAt(entries, RUNS) { return None; }
      var entry := Child(entries, RUNS);
      if !MapAt(entry, "config") { return None; }
      var config := EditConfig(Child(entry, "config"), origin, token, gateway);
      if config.None? { return None; }
      r := Some(edited["entries" := Obj(entries[RUNS := Obj(entry["config" := Obj(config.value)])])]);
    }

    static method EditConfig(before: Fields, origin: string, token: string, gateway: Fields) returns (r: Option<Fields>)
      ensures r.Some? <==> StringsAt(before, "allowedOrigins") && !Contains(Items(before, "allowedOrigins"), "*")
      ensures r.Some? ==> r.value == EditedConfig(before, origin, token, gateway)
    {
      if !StringsAt(before, "allowedOrigins") { return None; }
      var config, origins := before, Items(before, "allowedOrigins");
      if Contains(origins, "*") { return None; }
      if !Contains(origins, origin) { origins := origins + [Str(origin)]; }
      config := config["allowedOrigins" := Arr(origins)];
      if token != "" { config := config["token" := Str(token)]; }
      var gatewayToken := GatewayToken(gateway);
      if gatewayToken.Some? { config := config["gatewayToken" := Str(gatewayToken.value)]; }
      r := Some(config);
    }

    // updateOpenClawConfig: the file changes only if everything was accepted and the write succeeds.
    method Update(origin: string, token: string, writes: bool) returns (ok: bool)
      modifies this
      ensures var before := old(body);
              ok <==> writes && (before.Missing? || (before.Parsed? && before.value.Obj? && Editable(before.value.fields)))
      ensures !ok ==> body == old(body)
      ensures ok ==> body == Parsed(Obj(Edited(if old(body).Missing? then map[] else old(body).value.fields, origin, token)))
    {
      var root: Fields := map[];
      match body {
        case Missing =>
        case Unreadable => return false;
        case Parsed(value) =>
          if !value.Obj? { return false; }
          root := value.fields;
      }
      if !MapAt(root, "gateway") { return false; }
      var gateway := Child(root, "gateway");
      if !Has(gateway, "bind") {
        gateway := gateway["bind" := Str(LOOPBACK)];
      } else if !BindAt(gateway) {
        return false;
      }
      root := root["gateway" := Obj(gateway)];
      if !MapAt(root, "plugins") { return false; }
      var plugins := EditPlugins(Child(root, "plugins"), origin, token, gateway);
      if plugins.None? || !writes { return false; }
      root := root["plugins" := Obj(plugins.value)];
      body := Parsed(Obj(root));
      ok := true;
    }
  }

  // ----- what an edit leaves alone -----

  function Get(j: Json, path: Path): Option<Json>
    decreases |path|
  {
    if path == [] then Some(j)
    else if j.Obj? && path[0] in j.fields then Get(j.fields[path[0]], path[1..])
    else None
  }

  const CONFIG: Path := ["plugins", "entries", RUNS, "config"]
  const MANAGED: seq<Path> := [["gateway", "bind"], ["plugins", "allow"], CONFIG + ["allowedOrigins"], CONFIG + ["token"], CONFIG + ["gatewayToken"]]

  predicate Apart(p: Path, q: Path) {
    !(p <= q) && !(q <= p)
  }

  // Neither at, above nor below a managed place.
  predicate Elsewhere(path: Path) {
    forall m :: m in MANAGED ==> Apart(path, m)
  }

  lemma SameField(f: Fields, g: Fields, path: Path)
    requires path != [] && (path[0] in f <==> path[0] in g) && (path[0] in f ==> f[path[0]] == g[path[0]])
    ensures Get(Obj(f), path) == Get(Obj(g), path)
  {
  }

  // One step down, whether or not there is an object to step into.
  lemma StepDown(f: Fields, key: string, path: Path)
    requires MapAt(f, key) && |path| > 1 && path[0] == key
    ensures Get(Obj(f), path) == Get(Obj(Child(f, key)), path[1..])
  {
  }

  lemma GatewayElsewhere(gateway: Fields, path: Path)
    requires BindAt(gateway) && path != [] && path[0] != "bind"
    ensures Get(Obj(EditedGateway(gateway)), path) == Get(Obj(gateway), path)
  {
    SameField(EditedGateway(gateway), gateway, path);
  }

  // Not at, above or below the fields of the plugin's own configuration.
  predicate ConfigElsewhere(path: Path) {
    path != [] && path[0] != "allowedOrigins" && path[0] != "token" && path[0] != "gatewayToken"
  }

  predicate PluginsElsewhere(path: Path) {
    && path != [] && path[0] != "allow"
    && (path[0] == "entries" ==>
          && |path| > 1
          && (path[1] == RUNS ==> |path| > 2 && (path[2] == "config" ==> ConfigElsewhere(path[3..]))))
  }

  lemma ConfigKept(config: Fields, origin: string, token: string, gateway: Fields, path: Path)
    requires ConfigElsewhere(path)
    ensures Get(Obj(EditedConfig(config, origin, token, gateway)), path) == Get(Obj(config), path)
  {
    SameField(EditedConfig(config, origin, token, gateway), config, path);
  }

  // Replacing the plugin's configuration by one that agrees on a path below it.
  lemma WithConfigKept(plugins: Fields, config: Fields, path: Path)
    requires MapAt(plugins, "entries") && MapAt(Child(plugins, "entries"), RUNS) && MapAt(Child(Child(plugins, "entries"), RUNS), "config")
    requires PluginsElsewhere(path)
    requires path[0] == "entries" && path[1] == RUNS && path[2] == "config" ==>
               Get(Obj(config), path[3..]) == Get(Obj(ConfigOf(plugins)), path[3..])
    ensures Get(Obj(WithConfig(plugins, config)), path) == Get(Obj(plugins), path)
  {
    var after := WithConfig(plugins, config);
    var entries, entries' := Child(plugins, "entries"), Child(after, "entries");
    var entry, entry' := Child(entries, RUNS), Child(entries', RUNS);
    if path[0] != "entries" {
      SameField(after, plugins, path);
    } else {
      StepDown(plugins, "entries", path);
      StepDown(after, "entries", path);
      if path[1] != RUNS {
        SameField(entries', entries, path[1..]);
      } else {
        StepDown(entries, RUNS, path[1..]);
        StepDown(entries', RUNS, path[1..]);
        assert path[1..][1..] == path[2..] && path[2..][1..] == path[3..];
        if path[2] != "config" {
          SameField(entry', entry, path[2..]);
        } else {
          StepDown(entry, "config", path[2..]);
          StepDown(entry', "config", path[2..]);
        }
      }
    }
  }

  lemma PluginsKept(plugins: Fields, origin: string, token: string, gateway: Fields, path: Path)
    requires PluginsEditable(plugins) && PluginsElsewhere(path)
    ensures Get(Obj(EditedPlugins(plugins, origin, token, gateway)), path) == Get(Obj(plugins), path)
  {
    var allowed := WithString(plugins, "allow", RUNS);
    assert Child(allowed, "entries") == Child(plugins, "entries");
    if path[0] == "entries" && path[1] == RUNS && path[2] == "config" {
      ConfigKept(ConfigOf(plugins), origin, token, gateway, path[3..]);
    }
    WithConfigKept(allowed, EditedConfig(ConfigOf(plugins), origin, token, gateway), path);
    SameField(allowed, plugins, path);
  }

  lemma ElsewhereInPlugins(path: Path)
    requires Elsewhere(path) && |path| > 0 && path[0] == "plugins"
    ensures PluginsElsewhere(path[1..])
  {
    var allow, origins, token, gatewayToken := MANAGED[1], MANAGED[2], MANAGED[3], MANAGED[4];
    assert Apart(path, allow) && Apart(path, origins) && Apart(path, token) && Apart(path, gatewayToken);
    assert |path| == 1 ==> path <= allow;
    assert |path| > 1 && path[1] == "allow" ==> allow <= path;
    assert |path| == 2 && path[1] == "entries" ==> path <= origins;
    var inside := |path| > 2 && path[1] == "entries" && path[2] == RUNS;
    assert inside && |path| == 3 ==> path <= origins;
    assert inside && |path| > 3 && path[3] == "config" ==>
             && (|path| == 4 ==> path <= origins)
             && (|path| > 4 && path[4] == "allowedOrigins" ==> origins <= path)
             && (|path| > 4 && path[4] == "token" ==> token <= path)
             && (|path| > 4 && path[4] == "gatewayToken" ==> gatewayToken <= path);
    assert |path| > 4 ==> path[1..][3..][0] == path[4];
  }

  // Every other place of the tree holds what it held.
  lemma ElsewhereNothingChanges(root: Fields, origin: string, token: string, path: Path)
    requires Editable(root) && Elsewhere(path)
    ensures Get(Obj(Edited(root, origin, token)), path) == Get(Obj(root), path)
  {
    var after := Edited(root, origin, token);
    var bind: Path := ["gateway", "bind"];
    assert Apart(path, MANAGED[0]) && MANAGED[0] == bind;
    if path[0] == "gateway" {
      assert |path| > 1 && path[1] != "bind" by {
        assert |path| == 1 ==> path <= bind;
        assert |path| > 1 && path[1] == "bind" ==> bind <= path;
      }
      StepDown(root, "gateway", path);
      StepDown(after, "gateway", path);
      GatewayElsewhere(Child(root, "gateway"), path[1..]);
    } else if path[0] == "plugins" {
      ElsewhereInPlugins(path);
      StepDown(root, "plugins", path);
      StepDown(after, "plugins", path);
      PluginsKept(Child(root, "plugins"), origin, token, EditedGateway(Child(root, "gateway")), path[1..]);
    } else {
      SameField(after, root, path);
    }
  }

  // ----- what an edit sets -----

  lemma FoldsToItself(s: string)
    ensures EqualFold(s, s)
  {
  }

  lemma ContainsAppended(items: seq<Json>, text: string, target: string)
    ensures Contains(items + [Str(text)], target) <==> Contains(items, target) || Matches(Str(text), target)
  {
    var all := items + [Str(text)];
    assert all[|items|] == Str(text);
    assert forall i :: 0 <= i < |items| ==> all[i] == items[i];
  }

  // What matches is trimmed.
  lemma MatchedIsTrimmed(item: Json, target: string)
    requires Matches(item, target)
    ensures Trim(target) == target
  {
    var s := Trim(item.s);
    var i, j := TrimIsSlice(item.s);
    if target != [] {
      assert Lower(s[0]) == Lower(target[0]);
      assert Lower(s[|s| - 1]) == Lower(target[|target| - 1]);
    }
    TrimmedIsFixed(target);
  }

  lemma AllowSets(plugins: Fields)
    ensures var after := Items(WithString(plugins, "allow", RUNS), "allow");
            Contains(after, RUNS) && Items(plugins, "allow") <= after
  {
    FoldsToItself(RUNS);
    TrimmedIsFixed(RUNS);
    ContainsAppended(Items(plugins, "allow"), RUNS, RUNS);
  }

  // Earlier origins stay allowed, the new one is allowed, and both credentials are set if there are any.
  lemma ConfigSets(config: Fields, origin: string, token: string, gateway: Fields)
    ensures var after := EditedConfig(config, origin, token, gateway);
            && Items(config, "allowedOrigins") <= Items(after, "allowedOrigins")
            && (Trim(origin) == origin ==> Contains(Items(after, "allowedOrigins"), origin))
            && (token != "" ==> Has(after, "token") && after["token"] == Str(token))
            && (GatewayToken(gateway).Some? ==> Has(after, "gatewayToken") && after["gatewayToken"] == Str(GatewayToken(gateway).value))
  {
    FoldsToItself(origin);
    ContainsAppended(Items(config, "allowedOrigins"), origin, origin);
  }

  lemma WithConfigSets(plugins: Fields, config: Fields)
    ensures var after := WithConfig(plugins, config);
            && MapAt(after, "entries") && MapAt(Child(after, "entries"), RUNS) && MapAt(Child(Child(after, "entries"), RUNS), "config")
            && ConfigOf(after) == config && Items(after, "allow") == Items(plugins, "allow")
            && (StringsAt(after, "allow") <==> StringsAt(plugins, "allow"))
  {
  }

  lemma PluginsSet(plugins: Fields, origin: string, token: string, gateway: Fields)
    ensures var after := EditedPlugins(plugins, origin, token, gateway);
            && Contains(Items(after, "allow"), RUNS) && Items(plugins, "allow") <= Items(after, "allow")
            && ConfigOf(after) == EditedConfig(ConfigOf(plugins), origin, token, gateway)
  {
    AllowSets(plugins);
    WithConfigSets(WithString(plugins, "allow", RUNS), EditedConfig(ConfigOf(plugins), origin, token, gateway));
  }

  lemma GatewaySets(gateway: Fields)
    requires BindAt(gateway)
    ensures Has(EditedGateway(gateway), "bind") && BindAt(EditedGateway(gateway))
    ensures EditedGateway(EditedGateway(gateway)) == EditedGateway(gateway)
  {
    FoldsToItself(LOOPBACK);
    TrimmedIsFixed(LOOPBACK);
  }

  lemma RootSets(root: Fields, origin: string, token: string)
    ensures var after := Edited(root, origin, token);
            var gateway := EditedGateway(Child(root, "gateway"));
            && MapAt(after, "gateway") && MapAt(after, "plugins") && Child(after, "gateway") == gateway
            && Child(after, "plugins") == EditedPlugins(Child(root, "plugins"), origin, token, gateway)
  {
  }

  // The tree after an edit: the gateway is bound to a loopback address, the plugin is allowed, and its
  // configuration is the edited one.
  lemma EditSets(root: Fields, origin: string, token: string)
    requires Editable(root)
    ensures var after := Edited(root, origin, token);
            var gateway, plugins := Child(after, "gateway"), Child(after, "plugins");
            && gateway == EditedGateway(Child(root, "gateway")) && Has(gateway, "bind") && BindAt(gateway)
            && Contains(Items(plugins, "allow"), RUNS) && Items(Child(root, "plugins"), "allow") <= Items(plugins, "allow")
            && ConfigOf(plugins) == EditedConfig(ConfigOf(Child(root, "plugins")), origin, token, gateway)
  {
    RootSets(root, origin, token);
    GatewaySets(Child(root, "gateway"));
    PluginsSet(Child(root, "plugins"), origin, token, EditedGateway(Child(root, "gateway")));
  }

  // ----- one edit after another -----

  predicate Settles(origin: string) {
    Trim(origin) == origin && origin != "*"
  }

  lemma StarIsExact(s: string)
    ensures EqualFold(s, "*") <==> s == "*"
  {
  }

  lemma ConfigAgain(config: Fields, origin: string, first: string, second: string, gateway: Fields)
    requires Settles(origin) && StringsAt(config, "allowedOrigins") && !Contains(Items(config, "allowedOrigins"), "*")
    ensures var once := EditedConfig(config, origin, first, gateway);
            && StringsAt(once, "allowedOrigins") && !Contains(Items(once, "allowedOrigins"), "*")
            && EditedConfig(once, origin, second, gateway) == EditedConfig(config, origin, if second == "" then first else second, gateway)
  {
    var once := EditedConfig(config, origin, first, gateway);
    ConfigSets(config, origin, first, gateway);
    ContainsAppended(Items(config, "allowedOrigins"), origin, "*");
    StarIsExact(origin);
    assert Contains(Items(once, "allowedOrigins"), origin);
  }

  lemma AllowedStrings(plugins: Fields)
    requires StringsAt(plugins, "allow")
    ensures StringsAt(WithString(plugins, "allow", RUNS), "allow")
  {
  }

  lemma PluginsAgain(plugins: Fields, origin: string, first: string, second: string, gateway: Fields)
    requires Settles(origin) && PluginsEditable(plugins)
    ensures var once := EditedPlugins(plugins, origin, first, gateway);
            && PluginsEditable(once)
            && EditedPlugins(once, origin, second, gateway) == EditedPlugins(plugins, origin, if second == "" then first else second, gateway)
  {
    var allowed := WithString(plugins, "allow", RUNS);
    var config := EditedConfig(ConfigOf(plugins), origin, first, gateway);
    var once := WithConfig(allowed, config);
    AllowedStrings(plugins);
    WithConfigSets(allowed, config);
    ConfigAgain(ConfigOf(plugins), origin, first, second, gateway);
    assert PluginsEditable(once);
    PluginsSet(plugins, origin, first, gateway);
    assert WithString(once, "allow", RUNS) == once;
    WithConfigAgain(allowed, config, EditedConfig(config, origin, second, gateway));
  }

  lemma WithConfigAgain(plugins: Fields, first: Fields, second: Fields)
    ensures WithConfig(WithConfig(plugins, first), second) == WithConfig(plugins, second)
  {
    var entries := Child(plugins, "entries");
    var once := entries[RUNS := Obj(Child(entries, RUNS)["config" := Obj(first)])];
    assert Child(WithConfig(plugins, first), "entries") == once;
    assert Child(once, RUNS)["config" := Obj(second)] == Child(entries, RUNS)["config" := Obj(second)];
    assert once[RUNS := Obj(Child(entries, RUNS)["config" := Obj(second)])] == entries[RUNS := Obj(Child(entries, RUNS)["config" := Obj(second)])];
  }

  // The tree from its two parts.
  lemma RootAgain(root: Fields, once: Fields, origin: string, first: string, second: string, token: string)
    requires once == Edited(root, origin, first) && Child(once, "gateway") == Child(Edited(once, origin, second), "gateway")
    requires Child(Edited(once, origin, second), "gateway") == Child(Edited(root, origin, token), "gateway")
    requires Child(Edited(once, origin, second), "plugins") == Child(Edited(root, origin, token), "plugins")
    ensures Edited(once, origin, second) == Edited(root, origin, token)
  {
  }

  // A second edit is accepted and shows only its own token, if it has one.
  lemma LaterEditWins(root: Fields, origin: string, first: string, second: string)
    requires Settles(origin) && Editable(root)
    ensures var once := Edited(root, origin, first);
            && Editable(once)
            && Edited(once, origin, second) == Edited(root, origin, if second == "" then first else second)
  {
    var once := Edited(root, origin, first);
    var token := if second == "" then first else second;
    GatewaySets(Child(root, "gateway"));
    RootSets(root, origin, first);
    RootSets(once, origin, second);
    RootSets(root, origin, token);
    PluginsAgain(Child(root, "plugins"), origin, first, second, EditedGateway(Child(root, "gateway")));
    RootAgain(root, once, origin, first, second, token);
  }

  // Editing is idempotent exactly for an origin with no space around it that is no wildcard.
  lemma SettlesExactly(root: Fields, origin: string, token: string)
    requires Editable(root)
    ensures var once := Edited(root, origin, token);
            Editable(once) && Edited(once, origin, token) == once <==> Settles(origin)
  {
    var once := Edited(root, origin, token);
    if Settles(origin) {
      LaterEditWins(root, origin, token, token);
    } else {
      Unsettled(root, origin, token);
    }
  }

  function Origins(root: Fields): seq<Json> {
    Items(ConfigOf(Child(root, "plugins")), "allowedOrigins")
  }

  lemma OriginsAfter(root: Fields, origin: string, token: string)
    requires Editable(root)
    ensures Origins(Edited(root, origin, token)) == if Contains(Origins(root), origin) then Origins(root) else Origins(root) + [Str(origin)]
  {
    var plugins := Child(Edited(root, origin, token), "plugins");
    assert ConfigOf(plugins) == EditedConfig(ConfigOf(Child(root, "plugins")), origin, token, EditedGateway(Child(root, "gateway"))) by {
      EditSets(root, origin, token);
    }
    OriginsSet(ConfigOf(Child(root, "plugins")), origin, token, EditedGateway(Child(root, "gateway")));
  }

  lemma OriginsSet(config: Fields, origin: string, token: string, gateway: Fields)
    ensures var items := Items(config, "allowedOrigins");
            Items(EditedConfig(config, origin, token, gateway), "allowedOrigins")
            == if Contains(items, origin) then items else items + [Str(origin)]
  {
  }

  lemma Unsettled(root: Fields, origin: string, token: string)
    requires Editable(root) && !Settles(origin)
    ensures var once := Edited(root, origin, token); !(Editable(once) && Edited(once, origin, token) == once)
  {
    var once := Edited(root, origin, token);
    var items := Origins(root);
    if Contains(items, origin) {
      var i :| 0 <= i < |items| && Matches(items[i], origin);
      MatchedIsTrimmed(items[i], origin);
    }
    OriginsAfter(root, origin, token);
    if Editable(once) {
      UnmatchedAppends(items, origin);
      OriginsAfter(once, origin, token);
    }
  }

  lemma UnmatchedAppends(items: seq<Json>, origin: string)
    requires !Settles(origin) && !Contains(items, origin) && !Contains(items + [Str(origin)], "*")
    ensures !Contains(items + [Str(origin)], origin)
  {
    ContainsAppended(items, origin, "*");
    ContainsAppended(items, origin, origin);
    StarIsExact(Trim(origin));
    if Matches(Str(origin), origin) {
      MatchedIsTrimmed(Str(origin), origin);
    }
  }
}
