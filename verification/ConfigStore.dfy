/**
 The stored configuration across program starts: `LoadConfigFromPath`, and what `main` does with
 its result. JSON coding is a parameter; the file system and the network are inputs of each start.
 */
module ConfigStore {
  import opened Wrappers

  datatype CPUSettings = CPUSettings(
    cacheDurationSeconds: int, backgroundSamplingMillis: int, backgroundFrequencySeconds: int,
        directSamplingMillis: int)

  datatype CacheSettings = CacheSettings(cacheDurationSeconds: int, updateFrequencySeconds: int)

  datatype CollectorSettings = CollectorSettings(
    cpu: CPUSettings, system: CacheSettings, memory: CacheSettings, disk: CacheSettings,
    network: CacheSettings, docker: CacheSettings, process: CacheSettings, service: CacheSettings)

  datatype Config = Config(
    collectionInterval: int,
    sendingInterval: int,
    serverUrl: string,
    localKey: string,
    userKey: string,
    externalIP: string,
    collectors: CollectorSettings)

  const DEFAULT_CACHE: CacheSettings := CacheSettings(3, 2)

  const DEFAULT_CONFIG: Config := Config(
    2, 2, "1.209.148.143:8087", "", "", "",
    CollectorSettings(CPUSettings(3, 500, 2, 750), DEFAULT_CACHE, DEFAULT_CACHE, DEFAULT_CACHE,
                      DEFAULT_CACHE, DEFAULT_CACHE, DEFAULT_CACHE, DEFAULT_CACHE))

  datatype Codec = Codec(render: Config -> string, parse: string -> Option<Config>)
  {
    ghost predicate RoundTrips() {
      forall c :: parse(render(c)) == Some(c)
    }
  }

  // ---- What one start meets ----

  /** os.WriteFile: done, refused before the file was touched, or interrupted. */
  datatype WriteResult = Written | Refused | Torn(left: string)

  datatype LoadEnv = LoadEnv(
    newKey: Option<string>,  // generateSystemKey
    mkdirOk: bool,
    readOk: bool,
    write: WriteResult)

  datatype SaveEnv = SaveEnv(mkdirOk: bool, write: WriteResult)

  datatype StartEnv = StartEnv(
    load: LoadEnv,
    lookup: Option<string>,  // GetExternalIP
    saveIp: SaveEnv,
    obscuraKey: string,      // the -k flag
    pathOk: bool,            // getConfigPath before saving the -k key
    saveKey: SaveEnv)
  {
    /** Generated keys are 128 hex digits, in any case not empty. */
    predicate Sane() {
      load.newKey.Some? ==> load.newKey.value != ""
    }

    predicate Atomic() {
      !load.write.Torn? && !saveIp.write.Torn? && !saveKey.write.Torn?
    }
  }

  type File = Option<string>

  // ---- Specifications ----

  function AfterWrite(file: File, data: string, w: WriteResult): File {
    match w
    case Written => Some(data)
    case Refused => file
    case Torn(left) => Some(left)
  }

  /** Give `config` a new key and store it; an error unless the write is complete. */
  function StoreNewKey(codec: Codec, file: File, config: Config, env: LoadEnv, mkdirOk: bool): (File, Option<Config>) {
    if env.newKey.None? || !mkdirOk then (file, None)
    else
      var keyed := config.(localKey := env.newKey.value);
      (AfterWrite(file, codec.render(keyed), env.write), if env.write.Written? then Some(keyed) else None)
  }

  /** LoadConfigFromPath: the file afterwards, and the configuration unless it returns an error. */
  function Load(codec: Codec, file: File, env: LoadEnv): (File, Option<Config>) {
    match file
    case None => StoreNewKey(codec, file, DEFAULT_CONFIG, env, env.mkdirOk)
    case Some(data) =>
      if !env.readOk then (file, None)
      else
        match codec.parse(data)
        case None => (file, Some(DEFAULT_CONFIG))
        case Some(config) =>
          if config.localKey == "" then StoreNewKey(codec, file, config, env, true) else (file, Some(config))
  }

  function Save(codec: Codec, file: File, config: Config, env: SaveEnv): File {
    if env.mkdirOk then AfterWrite(file, codec.render(config), env.write) else file
  }

  /** The part of `main` that touches the configuration; `None` when the program gives up. */
  function Start(codec: Codec, file: File, env: StartEnv): (File, Option<Config>) {
    var (file1, loaded) := Load(codec, file, env.load);
    if loaded.None? then (file1, None)
    else
      var lookedUp := loaded.value.externalIP == "" && env.lookup.Some?;
      var config1 := if lookedUp then loaded.value.(externalIP := env.lookup.value) else loaded.value;
      var file2 := if lookedUp then Save(codec, file1, config1, env.saveIp) else file1;
      if env.obscuraKey != "" then
        var config2 := config1.(userKey := env.obscuraKey);
        (if env.pathOk then Save(codec, file2, config2, env.saveKey) else file2, Some(config2))
      else (file2, if config1.userKey == "" then None else Some(config1))
  }

  function AfterStarts(codec: Codec, file: File, starts: seq<StartEnv>): File {
    if starts == [] then file
    else Start(codec, AfterStarts(codec, file, starts[..|starts| - 1]), starts[|starts| - 1]).0
  }

  /** The stored configuration parses and holds this key. */
  predicate HoldsKey(codec: Codec, file: File, key: string) {
    file.Some? && codec.parse(file.value).Some? && codec.parse(file.value).value.localKey == key
  }

  // ---- The program ----

  class ConfigFile {
    var file: File

    constructor (file: File)
      ensures this.file == file
    {
      this.file := file;
    }

    method WriteFile(data: string, w: WriteResult) returns (ok: bool)
      modifies this
      ensures file == AfterWrite(old(file), data, w) && ok == w.Written?
    {
      match w {
        case Written => file := Some(data);
        case Refused =>
        case Torn(left) => file := Some(left);
      }
      ok := w.Written?;
    }

    method LoadConfigFromPath(codec: Codec, env: LoadEnv) returns (r: Option<Config>)
      modifies this
      ensures (file, r) == Load(codec, old(file), env)
    {
      if file.None? {
        var config := DEFAULT_CONFIG;
        if env.newKey.None? {
          return None;
        }
        config := config.(localKey := env.newKey.value);
        if !env.mkdirOk {
          return None;
        }
        var ok := WriteFile(codec.render(config), env.write);
        return if ok then Some(config) else None;
      }
      if !env.readOk {
        return None;
      }
      var parsed := codec.parse(file.value);
      if parsed.None? {
        return Some(DEFAULT_CONFIG);
      }
      var config := parsed.value;
      if config.localKey == "" {
        if env.newKey.None? {
          return None;
        }
        config := config.(localKey := env.newKey.value);
        var ok := WriteFile(codec.render(config), env.write);
        if !ok {
          return None;
        }
      }
      return Some(config);
    }

    method SaveConfigToPath(codec: Codec, config: Config, env: SaveEnv)
      modifies this
      ensures file == Save(codec, old(file), config, env)
    {
      if !env.mkdirOk {
        return;
      }
      var ok := WriteFile(codec.render(config), env.write);
    }

    method StartProgram(codec: Codec, env: StartEnv) returns (r: Option<Config>)
      modifies this
      ensures (file, r) == Start(codec, old(file), env)
    {
      var loaded := LoadConfigFromPath(codec, env.load);
      if loaded.None? {
        return None;
      }
      var config := loaded.value;
      if config.externalIP == "" {
        if env.lookup.Some? {
          config := config.(externalIP := env.lookup.value);
          SaveConfigToPath(codec, config, env.saveIp);
        }
      }
      if env.obscuraKey != "" {
        config := config.(userKey := env.obscuraKey);
        if env.pathOk {
          SaveConfigToPath(codec, config, env.saveKey);
        }
      }
      if env.obscuraKey == "" && config.userKey == "" {
        return None;
      }
      return Some(config);
    }
  }

  // ---- The key ----

  /**
   What a load hands out: a non-empty key, stored in the file, exactly unless the file is there,
   readable, and does not parse.
   */
  lemma LoadedKeyIsStored(codec: Codec, file: File, env: LoadEnv)
    requires codec.RoundTrips() && (env.newKey.Some? ==> env.newKey.value != "")
    requires Load(codec, file, env).1.Some?
    ensures var (after, r) := Load(codec, file, env);
            && (r.value.localKey == "" <==> file.Some? && codec.parse(file.value).None?)
            && (r.value.localKey != "" ==> HoldsKey(codec, after, r.value.localKey))
            && (r.value.localKey == "" ==> after == file)
  {
  }

  // ---- The configuration a start works with ----

  /** What there is to load: the stored configuration, or the default one if there is no file. */
  ghost predicate IsStored(codec: Codec, file: File, stored: Config) {
    match file
    case None => stored == DEFAULT_CONFIG
    case Some(data) => codec.parse(data) == Some(stored)
  }

  /**
   A start that gets to run works with what was stored, except for a new key where there was none, the looked-up
   address where there was none, and the user key given to it; and it has a user key.
   */
  lemma StartUses(codec: Codec, file: File, env: StartEnv, stored: Config)
    requires IsStored(codec, file, stored) && Start(codec, file, env).1.Some?
    ensures stored.localKey == "" ==> env.load.newKey.Some?
    ensures var config := Start(codec, file, env).1.value;
            && config.userKey != ""
            && config == stored.(
                           localKey := if stored.localKey == "" then env.load.newKey.value else stored.localKey,
                           externalIP := if stored.externalIP == "" && env.lookup.Some? then env.lookup.value
                                         else stored.externalIP,
                           userKey := if env.obscuraKey != "" then env.obscuraKey else stored.userKey)
  {
  }

  /** When a load succeeds, and when a start with it gets to run. */
  lemma StartRunsExactly(codec: Codec, file: File, env: StartEnv)
    ensures Load(codec, file, env.load).1.Some? <==>
              match file
              case None => env.load.newKey.Some? && env.load.mkdirOk && env.load.write.Written?
              case Some(data) =>
                && env.load.readOk
                && (codec.parse(data).Some? && codec.parse(data).value.localKey == "" ==>
                      env.load.newKey.Some? && env.load.write.Written?)
    ensures Start(codec, file, env).1.Some? <==>
              Load(codec, file, env.load).1.Some?
              && (env.obscuraKey != "" || Load(codec, file, env.load).1.value.userKey != "")
  {
  }

  /** A file that does not parse is used as the default configuration, without a local key. */
  lemma DamagedFileIsUsedAsDefault(codec: Codec, data: string, env: StartEnv)
    requires codec.parse(data).None? && env.load.readOk
    ensures Start(codec, Some(data), env).1 ==
            if env.obscuraKey == "" then None
            else Some(DEFAULT_CONFIG.(userKey := env.obscuraKey,
                                      externalIP := if env.lookup.Some? then env.lookup.value else ""))
  {
  }

  /** Nothing goes wrong while the configuration is read and written. */
  predicate AllGoesWell(env: StartEnv) {
    && env.load.newKey.Some? && env.load.mkdirOk && env.load.readOk && env.load.write.Written?
    && env.saveIp.mkdirOk && env.saveIp.write.Written?
    && env.pathOk && env.saveKey.mkdirOk && env.saveKey.write.Written?
  }

  /** If all goes well, a start runs just when there is a user key, and the file then holds what it works with. */
  lemma StartStores(codec: Codec, file: File, env: StartEnv, stored: Config)
    requires codec.RoundTrips() && IsStored(codec, file, stored) && AllGoesWell(env)
    ensures var (after, used) := Start(codec, file, env);
            && (used.Some? <==> env.obscuraKey != "" || stored.userKey != "")
            && (used.Some? ==> after.Some? && codec.parse(after.value) == used)
  {
  }

  /** What one start was given and has looked up, the next one finds without being given it. */
  lemma NextStartFindsItAll(codec: Codec, file: File, first: StartEnv, stored: Config, next: StartEnv)
    requires codec.RoundTrips() && IsStored(codec, file, stored) && AllGoesWell(first) && first.Sane()
    requires Start(codec, file, first).1.Some?
    requires next.load.readOk && next.obscuraKey == "" && next.lookup.None?
    ensures var (after, used) := Start(codec, file, first); Start(codec, after, next) == (after, used)
  {
    StartStores(codec, file, first, stored);
    StartUses(codec, file, first, stored);
  }

  // ---- What decides over the stored key ----

  /** The writes a start gets to, in order; directories that cannot be made and errors before a write leave none. */
  function Writes(codec: Codec, file: File, env: StartEnv): seq<WriteResult> {
    var loading := if StoresNewKey(codec, file, env.load) then [env.load.write] else [];
    var loaded := Load(codec, file, env.load).1;
    if loaded.None? then loading
    else
      var lookedUp := loaded.value.externalIP == "" && env.lookup.Some?;
      loading
      + (if lookedUp && env.saveIp.mkdirOk then [env.saveIp.write] else [])
      + (if env.obscuraKey != "" && env.pathOk && env.saveKey.mkdirOk then [env.saveKey.write] else [])
  }

  /** The load finds no file or no key, and has one to write. */
  predicate StoresNewKey(codec: Codec, file: File, env: LoadEnv) {
    && env.newKey.Some?
    && match file
       case None => env.mkdirOk
       case Some(data) => env.readOk && codec.parse(data).Some? && codec.parse(data).value.localKey == ""
  }

  /** The last write that has touched the file, if any has. */
  function LastTouch(writes: seq<WriteResult>): Option<WriteResult> {
    if writes == [] then None
    else
      var last := writes[|writes| - 1];
      if last.Refused? then LastTouch(writes[..|writes| - 1]) else Some(last)
  }

  /** The key the start works with: stored, new, or empty for a file that does not parse. */
  function KeyInUse(codec: Codec, file: File, env: StartEnv): string {
    match Load(codec, file, env.load).1
    case None => ""
    case Some(config) => config.localKey
  }

  lemma TouchedOnce(w: WriteResult)
    ensures LastTouch([w]) == if w.Refused? then None else Some(w)
  {
    assert [w][..0] == [];
  }

  lemma LastTouchSnoc(writes: seq<WriteResult>, w: WriteResult)
    ensures LastTouch(writes + [w]) == if w.Refused? then LastTouch(writes) else Some(w)
  {
    assert (writes + [w])[..|writes|] == writes;
  }

  /** What a file holds after `writes`, if every complete one stores a configuration with the key `used`. */
  ghost predicate Holds(codec: Codec, before: File, writes: seq<WriteResult>, used: string, key: string) {
    match LastTouch(writes)
    case None => HoldsKey(codec, before, key)
    case Some(Torn(left)) => HoldsKey(codec, Some(left), key)
    case Some(_) => used == key
  }

  lemma OneMoreWrite(codec: Codec, before: File, writes: seq<WriteResult>, file: File, config: Config, w: WriteResult,
      key: string)
    requires codec.RoundTrips()
    requires HoldsKey(codec, file, key) <==> Holds(codec, before, writes, config.localKey, key)
    ensures HoldsKey(codec, AfterWrite(file, codec.render(config), w), key) <==>
              Holds(codec, before, writes + [w], config.localKey, key)
  {
    LastTouchSnoc(writes, w);
  }

  lemma LoadLeaves(codec: Codec, file: File, env: LoadEnv, key: string)
    requires codec.RoundTrips()
    ensures var writes := if StoresNewKey(codec, file, env) then [env.write] else [];
            var used := if Load(codec, file, env).1.Some? then Load(codec, file, env).1.value.localKey else "";
            HoldsKey(codec, Load(codec, file, env).0, key) <==> Holds(codec, file, writes, used, key)
  {
    TouchedOnce(env.write);
  }

  lemma SaveLeaves(codec: Codec, before: File, writes: seq<WriteResult>, file: File, config: Config, env: SaveEnv,
      key: string)
    requires codec.RoundTrips()
    requires HoldsKey(codec, file, key) <==> Holds(codec, before, writes, config.localKey, key)
    ensures HoldsKey(codec, Save(codec, file, config, env), key) <==>
              Holds(codec, before, writes + (if env.mkdirOk then [env.write] else []), config.localKey, key)
  {
    OneMoreWrite(codec, before, writes, file, config, env.write, key);
    assert writes + [] == writes;
  }

  /**
   For every file, damaged or not, and everything a start can meet: afterwards the file holds a key exactly as the
   last write that touched it says. A complete write stores the key in use, an interrupted one whatever it leaves,
   and without either the file is as before.
   */
  lemma StartLeaves(codec: Codec, file: File, env: StartEnv, key: string)
    requires codec.RoundTrips()
    ensures HoldsKey(codec, Start(codec, file, env).0, key) <==>
              Holds(codec, file, Writes(codec, file, env), KeyInUse(codec, file, env), key)
  {
    LoadLeaves(codec, file, env.load, key);
    var (file1, loaded) := Load(codec, file, env.load);
    if loaded.Some? {
      var writes := if StoresNewKey(codec, file, env.load) then [env.load.write] else [];
      var lookedUp := loaded.value.externalIP == "" && env.lookup.Some?;
      var config1 := if lookedUp then loaded.value.(externalIP := env.lookup.value) else loaded.value;
      var file2 := if lookedUp then Save(codec, file1, config1, env.saveIp) else file1;
      var writes2 := writes + (if lookedUp && env.saveIp.mkdirOk then [env.saveIp.write] else []);
      if lookedUp {
        SaveLeaves(codec, file, writes, file1, config1, env.saveIp, key);
      } else {
        assert writes2 == writes;
      }
      if env.obscuraKey != "" && env.pathOk {
        SaveLeaves(codec, file, writes2, file2, config1.(userKey := env.obscuraKey), env.saveKey, key);
      } else {
        assert writes2 + [] == writes2;
      }
    }
  }

  /** The last write of a start that touched the file, if any did, was complete or has left the key readable. */
  predicate Survives(codec: Codec, file: File, env: StartEnv, key: string) {
    var last := LastTouch(Writes(codec, file, env));
    last.Some? && last.value.Torn? ==> HoldsKey(codec, Some(last.value.left), key)
  }

  /** A start that cannot read a stored key touches nothing. */
  lemma UnreadIsUntouched(codec: Codec, file: File, env: StartEnv, key: string)
    requires key != "" && HoldsKey(codec, file, key) && Load(codec, file, env.load).1.None?
    ensures LastTouch(Writes(codec, file, env)) == None
  {
  }

  /** A stored key survives one start exactly so; and a start that gets to run runs with it in any case. */
  lemma KeySurvivesExactly(codec: Codec, file: File, env: StartEnv, key: string)
    requires codec.RoundTrips() && key != "" && HoldsKey(codec, file, key)
    ensures HoldsKey(codec, Start(codec, file, env).0, key) <==> Survives(codec, file, env, key)
    ensures Start(codec, file, env).1.Some? ==> Start(codec, file, env).1.value.localKey == key
  {
    StoredKeyIsUsed(codec, file, env, key);
    StartLeaves(codec, file, env, key);
    if Load(codec, file, env.load).1.None? {
      UnreadIsUntouched(codec, file, env, key);
    }
  }

  lemma StoredKeyIsUsed(codec: Codec, file: File, env: StartEnv, key: string)
    requires key != "" && HoldsKey(codec, file, key)
    ensures !StoresNewKey(codec, file, env.load)
    ensures Load(codec, file, env.load).1.None? ==> Writes(codec, file, env) == [] && Start(codec, file, env).1.None?
    ensures Load(codec, file, env.load).1.Some? ==> KeyInUse(codec, file, env) == key
    ensures Start(codec, file, env).1.Some? ==> Start(codec, file, env).1.value.localKey == key
  {
  }

  lemma {:induction false} CompleteOrNone(writes: seq<WriteResult>)
    requires forall k :: 0 <= k < |writes| ==> !writes[k].Torn?
    ensures LastTouch(writes).None? || LastTouch(writes).value.Written?
  {
    if writes == [] {
    } else {
      CompleteOrNone(writes[..|writes| - 1]);
    }
  }

  lemma AtomicSurvives(codec: Codec, file: File, env: StartEnv, key: string)
    requires env.Atomic()
    ensures Survives(codec, file, env, key)
  {
    CompleteOrNone(Writes(codec, file, env));
  }

  /** One start with atomic writes keeps a stored key and runs with it. */
  lemma StartKeepsKey(codec: Codec, file: File, env: StartEnv, key: string)
    requires codec.RoundTrips() && env.Atomic()
    requires key != "" && HoldsKey(codec, file, key)
    ensures HoldsKey(codec, Start(codec, file, env).0, key)
    ensures Start(codec, file, env).1.Some? ==> Start(codec, file, env).1.value.localKey == key
  {
    AtomicSurvives(codec, file, env, key);
    KeySurvivesExactly(codec, file, env, key);
  }

  // ---- Sequences of starts ----

  /** The file as start `i` meets it. */
  function Before(codec: Codec, file: File, starts: seq<StartEnv>, i: nat): File
    requires i <= |starts|
  {
    AfterStarts(codec, file, starts[..i])
  }

  /** The key is stored whenever a start begins, and at the end. */
  ghost predicate AlwaysHeld(codec: Codec, file: File, starts: seq<StartEnv>, key: string) {
    forall i: nat :: i <= |starts| ==> HoldsKey(codec, Before(codec, file, starts, i), key)
  }

  ghost predicate AllSurvive(codec: Codec, file: File, starts: seq<StartEnv>, key: string) {
    forall i: nat :: i < |starts| ==> SurvivesAt(codec, file, starts, i, key)
  }

  predicate SurvivesAt(codec: Codec, file: File, starts: seq<StartEnv>, i: nat, key: string)
    requires i < |starts|
  {
    Survives(codec, Before(codec, file, starts, i), starts[i], key)
  }

  lemma BeforePrefix(codec: Codec, file: File, starts: seq<StartEnv>, n: nat, i: nat)
    requires i <= n <= |starts|
    ensures Before(codec, file, starts[..n], i) == Before(codec, file, starts, i)
  {
    assert starts[..n][..i] == starts[..i];
  }

  lemma AfterOneMore(codec: Codec, file: File, starts: seq<StartEnv>, i: nat)
    requires i < |starts|
    ensures Before(codec, file, starts, i + 1) == Start(codec, Before(codec, file, starts, i), starts[i]).0
  {
    assert starts[..i + 1][..i] == starts[..i];
  }

  /**
   Over any sequence of starts, whatever fails and whatever keys and addresses are saved: a stored key is there
   at the beginning of every start and at the end exactly if in every start the last write that touched the file
   was complete or left the key readable.
   */
  lemma {:induction false} KeyIsStableExactly(codec: Codec, file: File, starts: seq<StartEnv>, key: string)
    requires codec.RoundTrips() && key != "" && HoldsKey(codec, file, key)
    ensures AlwaysHeld(codec, file, starts, key) <==> AllSurvive(codec, file, starts, key)
  {
    if starts == [] {
      assert starts[..0] == [];
    } else {
      var n := |starts| - 1;
      var earlier, here := starts[..n], Before(codec, file, starts, n);
      KeyIsStableExactly(codec, file, earlier, key);
      HeldSnoc(codec, file, starts, key);
      SurviveSnoc(codec, file, starts, key);
      if AlwaysHeld(codec, file, earlier, key) {
        assert HoldsKey(codec, Before(codec, file, earlier, n), key);
        BeforePrefix(codec, file, starts, n, n);
        KeySurvivesExactly(codec, here, starts[n], key);
        AfterOneMore(codec, file, starts, n);
      }
    }
  }

  lemma HeldSnoc(codec: Codec, file: File, starts: seq<StartEnv>, key: string)
    requires starts != []
    ensures AlwaysHeld(codec, file, starts, key) <==>
              && AlwaysHeld(codec, file, starts[..|starts| - 1], key)
              && HoldsKey(codec, Before(codec, file, starts, |starts|), key)
  {
    var n := |starts| - 1;
    forall i: nat | i <= n ensures Before(codec, file, starts[..n], i) == Before(codec, file, starts, i) {
      BeforePrefix(codec, file, starts, n, i);
    }
  }

  lemma SameSurvival(codec: Codec, file: File, starts: seq<StartEnv>, n: nat, i: nat, key: string)
    requires i < n <= |starts|
    ensures SurvivesAt(codec, file, starts[..n], i, key) == SurvivesAt(codec, file, starts, i, key)
  {
    BeforePrefix(codec, file, starts, n, i);
    assert starts[..n][i] == starts[i];
  }

  lemma SurviveSnoc(codec: Codec, file: File, starts: seq<StartEnv>, key: string)
    requires starts != []
    ensures AllSurvive(codec, file, starts, key) <==>
              && AllSurvive(codec, file, starts[..|starts| - 1], key)
              && SurvivesAt(codec, file, starts, |starts| - 1, key)
  {
    var n := |starts| - 1;
    forall i: nat | i < n
        ensures SurvivesAt(codec, file, starts[..n], i, key) == SurvivesAt(codec, file, starts, i, key) {
      SameSurvival(codec, file, starts, n, i, key);
    }
  }

  /** In particular no sequence of starts with atomic writes changes a stored key. */
  lemma KeyIsStable(codec: Codec, file: File, starts: seq<StartEnv>, key: string)
    requires codec.RoundTrips() && (forall i :: 0 <= i < |starts| ==> starts[i].Atomic())
    requires key != "" && HoldsKey(codec, file, key)
    ensures HoldsKey(codec, AfterStarts(codec, file, starts), key)
  {
    forall i: nat | i < |starts| ensures SurvivesAt(codec, file, starts, i, key) {
      AtomicSurvives(codec, Before(codec, file, starts, i), starts[i], key);
    }
    KeyIsStableExactly(codec, file, starts, key);
    assert starts[..|starts|] == starts;
    assert HoldsKey(codec, Before(codec, file, starts, |starts|), key);
  }

  /**
   From the first start that runs on a missing or sound file: it has a key, and if its last write survives, then
   as long as those of the starts in between do, every later start that gets to run uses that same key.
   */
  lemma EveryRunUsesTheSameKey(codec: Codec, file: File, first: StartEnv, between: seq<StartEnv>, later: StartEnv)
    requires codec.RoundTrips() && first.Sane()
    requires file.None? || codec.parse(file.value).Some?
    requires Start(codec, file, first).1.Some?
    ensures var key, after := Start(codec, file, first).1.value.localKey, Start(codec, file, first).0;
            && key != ""
            && (HoldsKey(codec, after, key) <==> Survives(codec, file, first, key))
            && (Survives(codec, file, first, key) && AllSurvive(codec, after, between, key) ==>
                  var last := Start(codec, AfterStarts(codec, after, between), later);
                  && (last.1.Some? ==> last.1.value.localKey == key)
                  && (HoldsKey(codec, last.0, key) <==>
                     Survives(codec, AfterStarts(codec, after, between), later, key)))
  {
    var key := FirstStartStoresItsKey(codec, file, first);
    var after := Start(codec, file, first).0;
    if Survives(codec, file, first, key) && AllSurvive(codec, after, between, key) {
      KeyIsStableExactly(codec, after, between, key);
      assert between[..|between|] == between;
      assert HoldsKey(codec, Before(codec, after, between, |between|), key);
      KeySurvivesExactly(codec, AfterStarts(codec, after, between), later, key);
    }
  }

  lemma FirstStartStoresItsKey(codec: Codec, file: File, first: StartEnv) returns (key: string)
    requires codec.RoundTrips() && first.Sane()
    requires file.None? || codec.parse(file.value).Some?
    requires Start(codec, file, first).1.Some?
    ensures key == Start(codec, file, first).1.value.localKey && key != ""
    ensures HoldsKey(codec, Start(codec, file, first).0, key) <==> Survives(codec, file, first, key)
  {
    StartsWithLoadedKey(codec, file, first);
    key := KeyInUse(codec, file, first);
    StartLeaves(codec, file, first, key);
    HeldUnlessTorn(codec, file, first, key);
  }

  /** The key in use is held unless the last write that touched the file was interrupted and left something else. */
  lemma HeldUnlessTorn(codec: Codec, file: File, env: StartEnv, key: string)
    requires codec.RoundTrips() && env.Sane() && (file.None? || codec.parse(file.value).Some?)
    requires Load(codec, file, env.load).1.Some? && key == KeyInUse(codec, file, env)
    ensures key != ""
    ensures Holds(codec, file, Writes(codec, file, env), key, key) <==> Survives(codec, file, env, key)
  {
    LoadedKeyIsStored(codec, file, env.load);
    if StoresNewKey(codec, file, env.load) {
      NewKeyIsTouched(codec, file, env);
    }
  }

  /** A start that gets to run uses the key it has loaded. */
  lemma StartsWithLoadedKey(codec: Codec, file: File, env: StartEnv)
    requires Start(codec, file, env).1.Some?
    ensures Load(codec, file, env.load).1.Some?
    ensures Start(codec, file, env).1.value.localKey == KeyInUse(codec, file, env)
  {
  }

  /** Unless the key was read from the file, it has been written there. */
  lemma NewKeyIsTouched(codec: Codec, file: File, env: StartEnv)
    requires Load(codec, file, env.load).1.Some? && StoresNewKey(codec, file, env.load)
    ensures LastTouch(Writes(codec, file, env)).Some?
  {
    assert Writes(codec, file, env)[0] == Written;
    TouchesSomething(Writes(codec, file, env));
  }

  lemma {:induction false} TouchesSomething(writes: seq<WriteResult>)
    requires writes != [] && writes[0].Written?
    ensures LastTouch(writes).Some?
  {
    if |writes| == 1 {
    } else {
      TouchesSomething(writes[..|writes| - 1]);
    }
  }

  /**
   A file that does not parse, and any start that can read it: afterwards it holds a key exactly if the last write
   that touched it was an interrupted one that left this key. A complete write stores the empty key instead, and
   then any later start that reads the file and completes the writing of its new key stores that.
   */
  lemma DamagedFileLosesTheKey(codec: Codec, data: string, env: StartEnv, key: string)
    requires codec.RoundTrips() && codec.parse(data).None? && env.load.readOk && key != ""
    ensures var after, last := Start(codec, Some(data), env).0, LastTouch(Writes(codec, Some(data), env));
            && (HoldsKey(codec, after, key) <==>
               last.Some? && last.value.Torn? && HoldsKey(codec, Some(last.value.left), key))
            && (last == Some(Written) ==> HoldsKey(codec, after, ""))
  {
    StartLeaves(codec, Some(data), env, key);
    StartLeaves(codec, Some(data), env, "");
  }

  /** A start that finds a stored configuration without a key: it makes up a new one, if it gets to run at all. */
  lemma KeylessFileGetsANewKey(codec: Codec, file: File, env: StartEnv, key: string)
    requires codec.RoundTrips() && HoldsKey(codec, file, "") && key != ""
    ensures Start(codec, file, env).1.Some? ==> Some(Start(codec, file, env).1.value.localKey) == env.load.newKey
    ensures HoldsKey(codec, Start(codec, file, env).0, key) <==>
              match LastTouch(Writes(codec, file, env))
              case None => false
              case Some(Torn(left)) => HoldsKey(codec, Some(left), key)
              case Some(_) => env.load.newKey == Some(key)
  {
    StartLeaves(codec, file, env, key);
    TouchedOnce(env.load.write);
  }

  /**
   A stored key is lost by a start exactly if the last write that touched the file was torn and left another
   content.
   */
  lemma TornWriteLosesTheKey(codec: Codec, file: File, env: StartEnv, key: string)
    requires codec.RoundTrips() && key != "" && HoldsKey(codec, file, key)
    ensures var last := LastTouch(Writes(codec, file, env));
            !HoldsKey(codec, Start(codec, file, env).0, key) <==>
              last.Some? && last.value.Torn? && !HoldsKey(codec, Some(last.value.left), key)
  {
    KeySurvivesExactly(codec, file, env, key);
  }
}
