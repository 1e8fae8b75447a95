/**
 * nb_plugin_load and nb_plugin_unload: find a storage driver's shared
 * object from its name, resolve its factory and accept the driver table
 * only when it reports the requested name.
 *
 * dlopen and dlsym are a map: the paths dlopen can open, and for each
 * such module the factory symbols it exports together with the table the
 * factory returns. Whether malloc succeeds is a boolean.
 */
module Plugin {
  import opened Optional
  import opened Resources
  import opened Registry

  /** PATH_MAX of Linux. */
  const PathMax: nat := 4096

  /** snprintf into a PATH_MAX buffer with a size limit of PATH_MAX - 1:
      at most PATH_MAX - 2 characters are kept. */
  function Bounded(s: string): (r: string)
    ensures |r| <= PathMax - 2 && r <= s
    ensures |s| <= PathMax - 2 ==> r == s
    ensures |s| > PathMax - 2 ==> |r| == PathMax - 2
  {
    if |s| <= PathMax - 2 then s else s[..PathMax - 2]
  }

  /** The shared object of a driver: plugins/NAME/libnb_db_NAME.so. */
  function ModulePath(name: string): string {
    Bounded("plugins/" + name + "/libnb_db_" + name + ".so")
  }

  /** The factory a driver's shared object exports: nb_db_NAME_plugin. */
  function FactorySymbol(name: string): string {
    Bounded("nb_db_" + name + "_plugin")
  }

  /** A name short enough that neither derived string is truncated. */
  predicate Short(name: string) {
    2 * |name| + 21 <= PathMax - 2
  }

  /** The name a factory symbol was derived from: strip the prefix and the
      suffix. */
  function NameOfSymbol(sym: string): Option<string> {
    if |sym| >= 13 && sym[..6] == "nb_db_" && sym[|sym| - 7..] == "_plugin"
    then Some(sym[6..|sym| - 7])
    else None
  }

  /** The name a module path was derived from, when it has that shape. */
  function NameOfPath(path: string): Option<string> {
    if |path| >= 21 && (|path| - 21) % 2 == 0 then
      var n := (|path| - 21) / 2;
      var name := path[8..8 + n];
      if path == "plugins/" + name + "/libnb_db_" + name + ".so" then Some(name) else None
    else None
  }

  /** For names that fit, the derived symbol and path give back the name,
      so distinct drivers never share a module or a factory. */
  lemma Derivation(name: string)
    requires Short(name)
    ensures NameOfSymbol(FactorySymbol(name)) == Some(name)
    ensures NameOfPath(ModulePath(name)) == Some(name)
  {
    SymbolName(name);
    PathName(name);
  }

  lemma SymbolName(name: string)
    requires Short(name)
    ensures NameOfSymbol(FactorySymbol(name)) == Some(name)
  {
    var sym := "nb_db_" + name + "_plugin";
    assert FactorySymbol(name) == sym;
    assert |sym| == |name| + 13;
    assert sym[..6] == "nb_db_";
    assert sym[|sym| - 7..] == "_plugin";
    assert sym[6..|sym| - 7] == name;
  }

  lemma PathName(name: string)
    requires Short(name)
    ensures NameOfPath(ModulePath(name)) == Some(name)
  {
    var path := "plugins/" + name + "/libnb_db_" + name + ".so";
    assert ModulePath(name) == path;
    assert |path| == 2 * |name| + 21;
    assert path[8..8 + |name|] == name;
  }

  /** What dlopen and dlsym see, and whether malloc succeeds. */
  datatype Loader = Loader(mallocs: bool, modules: map<string, map<string, DbIf>>)

  /** struct nb_plugin: the handle (the path it was opened from) and the
      driver table. */
  datatype PluginRec = PluginRec(handle: string, pif: DbIf)

  datatype Loaded = Loaded(plugin: Option<PluginRec>, events: seq<Event>)

  /** The module opens and exports the factory for this name. */
  predicate Installed(env: Loader, name: string) {
    ModulePath(name) in env.modules && FactorySymbol(name) in env.modules[ModulePath(name)]
  }

  /** nb_plugin_load. */
  function Load(name: string, env: Loader): (r: Loaded)
    ensures Proper(r.events)
    ensures r.plugin.Some? <==>
      env.mallocs && Installed(env, name)
      && env.modules[ModulePath(name)][FactorySymbol(name)].name == name
    ensures r.plugin.Some? ==>
      r.plugin.value == PluginRec(ModulePath(name), env.modules[ModulePath(name)][FactorySymbol(name)])
      && r.plugin.value.pif.name == name
      && r.events == AcquireAll([PluginRecord, ModuleHandle])
      && Held(r.events) == {PluginRecord, ModuleHandle}
    ensures r.plugin.None? ==> Held(r.events) == {}
    ensures r.plugin.None? ==>
      (Release(ModuleHandle) in r.events <==> env.mallocs && ModulePath(name) in env.modules)
  {
    var path := ModulePath(name);
    var symbol := FactorySymbol(name);
    if !env.mallocs then Loaded(None, [])
    else if path !in env.modules then
      Loaded(None, [Acquire(PluginRecord), Release(PluginRecord)])
    else
      var exported := env.modules[path];
      var fail := [Acquire(PluginRecord), Acquire(ModuleHandle),
                   Release(ModuleHandle), Release(PluginRecord)];
      if symbol !in exported then Loaded(None, fail)
      else if exported[symbol].name != name then Loaded(None, fail)
      else Loaded(Some(PluginRec(path, exported[symbol])), [Acquire(PluginRecord), Acquire(ModuleHandle)])
  }

  /** nb_plugin_unload: close the handle, free the record. */
  function Unload(): (events: seq<Event>)
    ensures events == Unwind([PluginRecord, ModuleHandle])
  {
    [Release(ModuleHandle), Release(PluginRecord)]
  }

  /** A loaded plugin that is unloaded again leaves nothing held. */
  lemma LoadUnload(name: string, env: Loader)
    requires Load(name, env).plugin.Some?
    ensures Proper(Load(name, env).events + Unload())
    ensures Held(Load(name, env).events + Unload()) == {}
  {
    var rs := [PluginRecord, ModuleHandle];
    AcquireAllHeld({}, rs);
    UnwindHeld({}, rs);
    assert {} + Elems(rs) == Elems(rs);
    HeldFromAppend({}, AcquireAll(rs), Unwind(rs));
  }

  /** The LevelDB plugin as built: its shared object exports
      nb_db_leveldb_plugin, whose table is named "leveldb", and the loader
      derives exactly that path and symbol and accepts it. */
  lemma LevelDbLoads()
    ensures var env := Loader(true, map["plugins/leveldb/libnb_db_leveldb.so" :=
                                        map["nb_db_leveldb_plugin" := DbIf("leveldb")]]);
      Load("leveldb", env).plugin
        == Some(PluginRec("plugins/leveldb/libnb_db_leveldb.so", DbIf("leveldb")))
  {
    assert ModulePath("leveldb") == "plugins/leveldb/libnb_db_leveldb.so";
    assert FactorySymbol("leveldb") == "nb_db_leveldb_plugin";
  }
}
