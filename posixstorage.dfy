/** `PosixStorage`: the storage backend of a repository on a POSIX
    filesystem. The filesystem is the finite set of paths that exist and
    the first line of each file; the codecs that turn files into objects
    and back are parameters. */
module PosixStorage {
  import opened Wrappers
  import opened PyStr
  import opened PosixPath
  import opened Location
  import opened Cfg

  /** The parts of the filesystem the backend looks at. */
  datatype FileSystem = FileSystem(paths: set<string>, firstLine: string -> string)

  /** A storage object: the repository root, possibly unset. */
  datatype Storage = Storage(root: Option<string>)

  const RootMissing: Error := RuntimeError("Root must be specified before PosixRegistry can be used")

  /** What `getMapperClass` raises when the `_parent` chain has no `_mapper`. */
  const NoMapper: Error := RuntimeError("No mapper provided and no _mapper available")

  // ---------------------------------------------------------------------
  // getMapperClass

  /** The paths of `fs` longer than `base`: the search below only ever
      moves to longer paths, so this set shrinks. */
  function Deeper(paths: set<string>, base: string): set<string> {
    set p | p in paths && |p| > |base|
  }

  lemma DeeperShrinks(paths: set<string>, base: string)
    requires Join(base, "_parent") in paths
    ensures Deeper(paths, Join(base, "_parent")) < Deeper(paths, base)
  {
    var up := Join(base, "_parent");
    assert !StartsWith("_parent", "/") by {
      assert "_parent"[..1] == "_";
    }
    assert |up| > |base|;
    assert up in Deeper(paths, base) && up !in Deeper(paths, Join(base, "_parent"));
  }

  /** The directory `getMapperClass` settles on: `base` when it holds a
      `_mapper` file, else the search continues under `base/_parent`, and
      fails when there is neither. */
  function FindMapperBase(paths: set<string>, base: string): (r: Result<string>)
    ensures r.Err? ==> r == Err(NoMapper)
    ensures r.Ok? ==> Join(r.value, "_mapper") in paths
    decreases Deeper(paths, base)
  {
    if Join(base, "_mapper") in paths then Ok(base)
    else if Join(base, "_parent") in paths then
      DeeperShrinks(paths, base);
      FindMapperBase(paths, Join(base, "_parent"))
    else Err(NoMapper)
  }

  /** `base` followed `k` times into `_parent`. */
  function Up(base: string, k: nat): string
    decreases k
  {
    if k == 0 then base else Up(Join(base, "_parent"), k - 1)
  }

  /** The `k` directories before `Up(base, k)` have no `_mapper` file but a
      `_parent` link. */
  predicate ParentsWithoutMapper(paths: set<string>, base: string, k: nat) {
    forall j :: 0 <= j < k ==> Join(Up(base, j), "_mapper") !in paths && Join(Up(base, j), "_parent") in paths
  }

  /** The search finds the nearest directory along the `_parent` chain that
      holds a `_mapper` file, and fails exactly at the first directory that
      has neither a `_mapper` file nor a `_parent` link. */
  lemma {:induction false} FindMapperBaseChain(paths: set<string>, base: string)
    ensures FindMapperBase(paths, base).Ok? ==>
              exists k: nat :: && FindMapperBase(paths, base).value == Up(base, k)
                               && Join(Up(base, k), "_mapper") in paths
                               && ParentsWithoutMapper(paths, base, k)
    ensures FindMapperBase(paths, base).Err? ==>
              exists k: nat :: && Join(Up(base, k), "_mapper") !in paths
                               && Join(Up(base, k), "_parent") !in paths
                               && ParentsWithoutMapper(paths, base, k)
    decreases Deeper(paths, base)
  {
    if Join(base, "_mapper") !in paths && Join(base, "_parent") in paths {
      var up := Join(base, "_parent");
      DeeperShrinks(paths, base);
      FindMapperBaseChain(paths, up);
      var k: nat :| && (FindMapperBase(paths, up).Ok? ==>
                           FindMapperBase(paths, up).value == Up(up, k) && Join(Up(up, k), "_mapper") in paths)
                     && (FindMapperBase(paths, up).Err? ==>
                           Join(Up(up, k), "_mapper") !in paths && Join(Up(up, k), "_parent") !in paths)
                     && ParentsWithoutMapper(paths, up, k);
      ChainShift(paths, base, k);
    } else {
      assert Up(base, 0) == base;
      assert ParentsWithoutMapper(paths, base, 0);
    }
  }

  /** One more step along the chain at the front. */
  lemma ChainShift(paths: set<string>, base: string, k: nat)
    requires Join(base, "_mapper") !in paths && Join(base, "_parent") in paths
    requires ParentsWithoutMapper(paths, Join(base, "_parent"), k)
    ensures Up(base, k + 1) == Up(Join(base, "_parent"), k)
    ensures ParentsWithoutMapper(paths, base, k + 1)
  {
    forall j | 0 <= j < k + 1
      ensures Join(Up(base, j), "_mapper") !in paths && Join(Up(base, j), "_parent") in paths
    {
      if j > 0 {
        assert Up(base, j) == Up(Join(base, "_parent"), j - 1);
      }
    }
  }

  /** The class a `_mapper` file names: its first line must hold a dotted
      name; the package is everything before the last `.`. */
  function MapperNamed(mapperFile: string, mapperName: string): (r: Result<Option<ClassPath>>)
    ensures r.Err? <==> '.' !in mapperName
    ensures r.Ok? ==> var i := RFind(mapperName, '.');
                      r.value == Some(ClassPath(mapperName[..i], mapperName[i + 1..]))
  {
    var components := Split(mapperName, '.');
    SplitShape(mapperName, '.');
    if |components| <= 1 then Err(RuntimeError("Unqualified mapper name " + mapperName + " in " + mapperFile))
    else
      SplitLast(mapperName, '.');
      Ok(Some(ClassPath(JoinWith(components[..|components| - 1], '.'), components[|components| - 1])))
  }

  /** What `getMapperClass(root)` returns or raises: None for a missing or
      empty root; otherwise the class named in the nearest `_mapper` file
      along the `_parent` chain. The import itself is not modelled: the
      result is the package and class name. */
  function MapperClassOf(root: Option<string>, fs: FileSystem): (r: Result<Option<ClassPath>>)
    ensures root.None? || root.value == "" ==> r == Ok(None)
    ensures root.Some? && root.value != "" && FindMapperBase(fs.paths, root.value).Err? ==>
              r == Err(NoMapper)
    ensures root.Some? && root.value != "" && FindMapperBase(fs.paths, root.value).Ok? ==>
              var mapperFile := Join(FindMapperBase(fs.paths, root.value).value, "_mapper");
              r == MapperNamed(mapperFile, Strip(fs.firstLine(mapperFile)))
  {
    if root.None? || root.value == "" then Ok(None)
    else
      var base :- FindMapperBase(fs.paths, root.value);
      var mapperFile := Join(base, "_mapper");
      MapperNamed(mapperFile, Strip(fs.firstLine(mapperFile)))
  }

  /** For a non-empty root, `getMapperClass` reads the `_mapper` file of
      the nearest directory along the `_parent` chain that holds one, after
      `k` directories with a `_parent` link and no `_mapper`; it raises
      exactly when the chain reaches a directory with neither. */
  lemma MapperClassNearest(root: string, fs: FileSystem)
    requires root != ""
    ensures var r := MapperClassOf(Some(root), fs);
            || (exists k: nat :: && Join(Up(root, k), "_mapper") in fs.paths
                                 && ParentsWithoutMapper(fs.paths, root, k)
                                 && r == MapperNamed(Join(Up(root, k), "_mapper"),
                                                     Strip(fs.firstLine(Join(Up(root, k), "_mapper")))))
            || (exists k: nat :: && Join(Up(root, k), "_mapper") !in fs.paths
                                 && Join(Up(root, k), "_parent") !in fs.paths
                                 && ParentsWithoutMapper(fs.paths, root, k)
                                 && r == Err(NoMapper))
  {
    FindMapperBaseChain(fs.paths, root);
  }

  /** `PosixStorage.getMapperClass`: the `_parent` walk, then the first line
      of `basePath/_mapper`, stripped and split on `.`. */
  method GetMapperClass(root: Option<string>, fs: FileSystem) returns (r: Result<Option<ClassPath>>)
    ensures r == MapperClassOf(root, fs)
  {
    if root.None? || root.value == "" {
      return Ok(None);
    }
    var basePath := root.value;
    var mapperFile := "_mapper";
    while Join(basePath, mapperFile) !in fs.paths
      invariant mapperFile == "_mapper"
      invariant FindMapperBase(fs.paths, root.value) == FindMapperBase(fs.paths, basePath)
      decreases Deeper(fs.paths, basePath)
    {
      if Join(basePath, "_parent") in fs.paths {
        DeeperShrinks(fs.paths, basePath);
        basePath := Join(basePath, "_parent");
      } else {
        return Err(NoMapper);
      }
    }
    assert FindMapperBase(fs.paths, basePath) == Ok(basePath);
    mapperFile := Join(basePath, mapperFile);
    r := ReadMapperFile(mapperFile, fs);
  }

  /** The tail of `getMapperClass`: the first line of the `_mapper` file,
      stripped and split on `.`. */
  method ReadMapperFile(mapperFile: string, fs: FileSystem) returns (r: Result<Option<ClassPath>>)
    ensures r == MapperNamed(mapperFile, Strip(fs.firstLine(mapperFile)))
  {
    var mapperName := Strip(fs.firstLine(mapperFile));
    var components := Split(mapperName, '.');
    if |components| <= 1 {
      return Err(RuntimeError("Unqualified mapper name " + mapperName + " in " + mapperFile));
    }
    return Ok(Some(ClassPath(JoinWith(components[..|components| - 1], '.'), components[|components| - 1])));
  }

  // ---------------------------------------------------------------------
  // The root-relative operations

  /** `mapperClass()`: raises without a root, else `getMapperClass(root)`. */
  function MapperClass(s: Storage, fs: FileSystem): (r: Result<Option<ClassPath>>)
    ensures s.root.None? ==> r == Err(RootMissing)
    ensures s.root.Some? ==> r == MapperClassOf(s.root, fs)
  {
    if s.root.None? then Err(RootMissing) else MapperClassOf(s.root, fs)
  }

  const CfgFileName: string := "repoCfg.yaml"

  /** The path `setCfg` writes to and `loadCfg` reads from. */
  function CfgPath(s: Storage): (r: Result<string>)
    ensures s.root.None? <==> r == Err(RootMissing)
    ensures s.root.Some? ==> r == Ok(Join(s.root.value, CfgFileName))
  {
    if s.root.None? then Err(RootMissing) else Ok(Join(s.root.value, CfgFileName))
  }

  /** `setCfg(repoCfg)`: the file written, which is `CfgPath`. */
  function SetCfg(s: Storage): (r: Result<string>)
    ensures s.root.None? <==> r == Err(RootMissing)
    ensures s.root.Some? ==> r == Ok(Join(s.root.value, CfgFileName))
  {
    CfgPath(s)
  }

  /** `loadCfg()`: the file read, which is `CfgPath` as well; the two
      methods share it by construction, as in the source. */
  function LoadCfg(s: Storage): (r: Result<string>)
    ensures s.root.None? <==> r == Err(RootMissing)
    ensures s.root.Some? ==> r == Ok(Join(s.root.value, CfgFileName))
  {
    CfgPath(s)
  }

  /** `locationWithRoot(location)`. */
  function LocationWithRoot(s: Storage, location: string): (r: Result<string>)
    ensures s.root.None? <==> r == Err(RootMissing)
    ensures s.root.Some? ==> r == Ok(Join(s.root.value, location))
  {
    if s.root.None? then Err(RootMissing) else Ok(Join(s.root.value, location))
  }

  /** `exists(location)`: whether the path under the root exists. */
  function Exists(s: Storage, fs: FileSystem, location: string): (r: Result<bool>)
    ensures s.root.None? <==> r == Err(RootMissing)
    ensures s.root.Some? ==> r == Ok(Join(s.root.value, location) in fs.paths)
  {
    if s.root.None? then Err(RootMissing) else Ok(Join(s.root.value, location) in fs.paths)
  }

  /** The configuration a repository writes is found again under its
      root: reading it back (the repository's `butlerRead` sets `root` to
      the directory of the file) gives the root without trailing slashes,
      and a root that does not end in `/` exactly. (`setCfg` and `loadCfg`
      use one path by construction; the content of the lemma is the
      directory of that path.) */
  lemma CfgRootRoundTrip(s: Storage)
    requires s.root.Some?
    ensures SetCfg(s) == LoadCfg(s)
    ensures Dirname(SetCfg(s).value) == NormalDir(s.root.value)
    ensures s.root.value != "" && s.root.value[|s.root.value| - 1] != '/' ==> Dirname(LoadCfg(s).value) == s.root.value
  {
    assert '/' !in CfgFileName;
    DirnameOfJoin(s.root.value, CfgFileName);
    if s.root.value != "" && s.root.value[|s.root.value| - 1] != '/' {
      DirnameOfJoinExact(s.root.value, CfgFileName);
    }
  }

  // ---------------------------------------------------------------------
  // write

  /** What a Python type offers the backend: `butlerWrite` and
      `butlerRead` hooks. */
  datatype Hooks = Hooks(butlerWrite: bool, butlerRead: bool)

  /** How `write` persists the object. */
  datatype WriteAction =
    | ButlerWrite(pythonType: ClassPath)
    | PickleDump(path: string)
    | ConfigSave(path: string)
    | FitsCatalogWrite(path: string)
    | Persist(path: string, deref: bool)

  /** The Python type named by a location, resolved as `getModule` does. */
  function ResolveType(name: Option<string>): (r: Option<ClassPath>)
    ensures name.None? <==> r.None?
  {
    if name.None? then None else Some(GetModule(TypeName(name.value)).value)
  }

  /** The storage names `write` handles by a dedicated branch. */
  const KnownStorages: set<Option<string>> :=
    {Some("PickleStorage"), Some("ConfigStorage"), Some("FitsCatalogStorage"), Some("FitsStorage")}

  /** The location's Python type has a `butlerWrite` hook. */
  predicate WriteHook(bl: ButlerLocation, hooks: ClassPath -> Hooks) {
    ResolveType(bl.pythonType).Some? && hooks(ResolveType(bl.pythonType).value).butlerWrite
  }

  /** The dispatch of `write`: a `butlerWrite` hook wins; otherwise only
      `locations[0]` is written, by the first matching storage branch in
      the order pickle, config, FITS catalog, then the persistence
      framework (dereferencing a smart pointer except for `FitsStorage`). */
  function WriteDispatch(bl: ButlerLocation, hooks: ClassPath -> Hooks, smartPointer: bool): (r: Result<WriteAction>)
    ensures WriteHook(bl, hooks) ==> r == Ok(ButlerWrite(ResolveType(bl.pythonType).value))
    ensures r.Err? <==> !WriteHook(bl, hooks) && |bl.locations| == 0
    ensures r.Ok? && !r.value.ButlerWrite? ==> r.value.path == bl.locations[0]
  {
    var pythonType := ResolveType(bl.pythonType);
    if pythonType.Some? && hooks(pythonType.value).butlerWrite then Ok(ButlerWrite(pythonType.value))
    else if |bl.locations| == 0 then Err(IndexError)
    else
      var location := bl.locations[0];
      if bl.storageName == Some("PickleStorage") then Ok(PickleDump(location))
      else if bl.storageName == Some("ConfigStorage") then Ok(ConfigSave(location))
      else if bl.storageName == Some("FitsCatalogStorage") then Ok(FitsCatalogWrite(location))
      else if bl.storageName == Some("FitsStorage") then Ok(Persist(location, false))
      else Ok(Persist(location, smartPointer))
  }

  /** The locations after the first do not matter to `write`. */
  lemma WriteIgnoresLaterLocations(bl: ButlerLocation, hooks: ClassPath -> Hooks, smartPointer: bool)
    requires |bl.locations| > 0
    ensures WriteDispatch(bl, hooks, smartPointer) == WriteDispatch(bl.(locations := [bl.locations[0]]), hooks, smartPointer)
  {
  }

  /** The storage name selects the branch; a smart pointer is dereferenced
      only on the general persistence path. */
  lemma WriteBranches(bl: ButlerLocation, hooks: ClassPath -> Hooks, smartPointer: bool)
    requires !WriteHook(bl, hooks) && |bl.locations| > 0
    ensures var a := WriteDispatch(bl, hooks, smartPointer).value;
            && (a.PickleDump? <==> bl.storageName == Some("PickleStorage"))
            && (a.ConfigSave? <==> bl.storageName == Some("ConfigStorage"))
            && (a.FitsCatalogWrite? <==> bl.storageName == Some("FitsCatalogStorage"))
            && (a.Persist? && a.deref <==>
                  smartPointer && bl.storageName !in KnownStorages)
  {
  }

  // ---------------------------------------------------------------------
  // read

  /** What a codec gets: the resolved Python type, the storage name and
      the location string. A codec may fail. */
  type Codec<T> = (Option<ClassPath>, Option<string>, string) -> Result<T>

  /** The message `read` raises for a missing file, for the storages that
      check. */
  function MissingFileMessage(storageName: Option<string>): Option<string> {
    if storageName == Some("PickleStorage") then Some("No such pickle file: ")
    else if storageName == Some("FitsCatalogStorage") then Some("No such FITS catalog file: ")
    else if storageName == Some("ConfigStorage") then Some("No such config file: ")
    else None
  }

  /** One location of `read`'s loop: the pickle, FITS catalog and config
      storages first check that the file exists; then the codec reads it. */
  function ReadOne<T>(pythonType: Option<ClassPath>, storageName: Option<string>, location: string,
                      fs: FileSystem, codec: Codec<T>): (r: Result<T>)
    ensures MissingFileMessage(storageName).Some? && location !in fs.paths ==>
              r == Err(RuntimeError(MissingFileMessage(storageName).value + location))
    ensures MissingFileMessage(storageName).None? || location in fs.paths ==> r == codec(pythonType, storageName, location)
  {
    var message := MissingFileMessage(storageName);
    if message.Some? && location !in fs.paths then Err(RuntimeError(message.value + location))
    else codec(pythonType, storageName, location)
  }

  /** The loop over the locations from index `i` on, after the results
      `done`. */
  function ReadFrom<T>(pythonType: Option<ClassPath>, bl: ButlerLocation, fs: FileSystem, codec: Codec<T>,
                       i: nat, done: seq<T>): Result<seq<T>>
    requires i <= |bl.locations|
    decreases |bl.locations| - i
  {
    if i == |bl.locations| then Ok(done)
    else
      var item :- ReadOne(pythonType, bl.storageName, bl.locations[i], fs, codec);
      ReadFrom(pythonType, bl, fs, codec, i + 1, done + [item])
  }

  /** The location's Python type has a `butlerRead` hook. */
  predicate ReadHook(bl: ButlerLocation, hooks: ClassPath -> Hooks) {
    ResolveType(bl.pythonType).Some? && hooks(ResolveType(bl.pythonType).value).butlerRead
  }

  /** What `read(butlerLocation)` returns or raises: the `butlerRead` hook's
      result as it is, or one item per location. */
  function ReadSpec<T>(bl: ButlerLocation, fs: FileSystem, hooks: ClassPath -> Hooks,
                       butlerRead: (ClassPath, ButlerLocation) -> seq<T>, codec: Codec<T>): (r: Result<seq<T>>)
    ensures ReadHook(bl, hooks) ==> r == Ok(butlerRead(ResolveType(bl.pythonType).value, bl))
    ensures !ReadHook(bl, hooks) ==>
              (r.Ok? <==> forall k :: 0 <= k < |bl.locations| ==>
                            ReadOne(ResolveType(bl.pythonType), bl.storageName, bl.locations[k], fs, codec).Ok?)
    ensures !ReadHook(bl, hooks) && r.Ok? ==>
              && |r.value| == |bl.locations|
              && forall k :: 0 <= k < |bl.locations| ==>
                   ReadOne(ResolveType(bl.pythonType), bl.storageName, bl.locations[k], fs, codec) == Ok(r.value[k])
  {
    var pythonType := ResolveType(bl.pythonType);
    ReadFromStart(pythonType, bl, fs, codec);
    if pythonType.Some? && hooks(pythonType.value).butlerRead then Ok(butlerRead(pythonType.value, bl))
    else ReadFrom(pythonType, bl, fs, codec, 0, [])
  }

  /** `PosixStorage.read`. */
  method Read<T>(bl: ButlerLocation, fs: FileSystem, hooks: ClassPath -> Hooks,
                 butlerRead: (ClassPath, ButlerLocation) -> seq<T>, codec: Codec<T>) returns (r: Result<seq<T>>)
    ensures r == ReadSpec(bl, fs, hooks, butlerRead, codec)
  {
    var storageName := bl.storageName;
    var results: seq<T> := [];
    var locations := bl.locations;
    var pythonType := ResolveType(bl.pythonType);
    if pythonType.Some? && hooks(pythonType.value).butlerRead {
      return Ok(butlerRead(pythonType.value, bl));
    }
    for i := 0 to |locations|
      invariant ReadSpec(bl, fs, hooks, butlerRead, codec) == ReadFrom(pythonType, bl, fs, codec, i, results)
    {
      var locationString := locations[i];
      var finalItem: T;
      var message := MissingFileMessage(storageName);
      if message.Some? && locationString !in fs.paths {
        return Err(RuntimeError(message.value + locationString));
      }
      var item := codec(pythonType, storageName, locationString);
      if item.Err? {
        return Err(item.error);
      }
      finalItem := item.value;
      results := results + [finalItem];
    }
    return Ok(results);
  }

  /** Without the hook, `read` succeeds exactly when every location reads,
      giving one item per location in location order. */
  lemma {:induction false} ReadFromOrder<T>(pythonType: Option<ClassPath>, bl: ButlerLocation, fs: FileSystem,
                                           codec: Codec<T>, i: nat, done: seq<T>)
    requires i <= |bl.locations|
    ensures var res := ReadFrom(pythonType, bl, fs, codec, i, done);
            && (res.Ok? <==> forall k :: i <= k < |bl.locations| ==> ReadOne(pythonType, bl.storageName, bl.locations[k], fs, codec).Ok?)
            && (res.Ok? ==> |res.value| == |done| + |bl.locations| - i && res.value[..|done|] == done)
            && (res.Ok? ==> forall k :: i <= k < |bl.locations| ==>
                  res.value[|done| + k - i] == ReadOne(pythonType, bl.storageName, bl.locations[k], fs, codec).value)
    decreases |bl.locations| - i
  {
    if i < |bl.locations| {
      var item := ReadOne(pythonType, bl.storageName, bl.locations[i], fs, codec);
      if item.Ok? {
        ReadFromOrder(pythonType, bl, fs, codec, i + 1, done + [item.value]);
        var res := ReadFrom(pythonType, bl, fs, codec, i, done);
        if res.Ok? {
          assert res.value[..|done| + 1][..|done|] == res.value[..|done|];
        }
      }
    }
  }

  /** `ReadFromOrder` from the first location, with nothing read yet. */
  lemma ReadFromStart<T>(pythonType: Option<ClassPath>, bl: ButlerLocation, fs: FileSystem, codec: Codec<T>)
    ensures var res := ReadFrom(pythonType, bl, fs, codec, 0, []);
            && (res.Ok? <==> forall k :: 0 <= k < |bl.locations| ==> ReadOne(pythonType, bl.storageName, bl.locations[k], fs, codec).Ok?)
            && (res.Ok? ==> |res.value| == |bl.locations|)
            && (res.Ok? ==> forall k :: 0 <= k < |bl.locations| ==>
                  ReadOne(pythonType, bl.storageName, bl.locations[k], fs, codec) == Ok(res.value[k]))
  {
    var none: seq<T> := [];
    ReadFromOrder(pythonType, bl, fs, codec, 0, none);
    var res := ReadFrom(pythonType, bl, fs, codec, 0, none);
    if res.Ok? {
      forall k | 0 <= k < |bl.locations|
        ensures ReadOne(pythonType, bl.storageName, bl.locations[k], fs, codec) == Ok(res.value[k])
      {
        assert res.value[|none| + k - 0] == ReadOne(pythonType, bl.storageName, bl.locations[k], fs, codec).value;
      }
    }
  }

  /** A storage that checks for files raises for the first missing one,
      unless an earlier location already failed. */
  lemma {:induction false} ReadMissingRaises<T>(pythonType: Option<ClassPath>, bl: ButlerLocation, fs: FileSystem,
                                               codec: Codec<T>, i: nat, done: seq<T>, k: nat)
    requires i <= k < |bl.locations|
    requires MissingFileMessage(bl.storageName).Some? && bl.locations[k] !in fs.paths
    requires forall j :: i <= j < k ==> ReadOne(pythonType, bl.storageName, bl.locations[j], fs, codec).Ok?
    ensures ReadFrom(pythonType, bl, fs, codec, i, done)
         == Err(RuntimeError(MissingFileMessage(bl.storageName).value + bl.locations[k]))
    decreases k - i
  {
    if i < k {
      var item := ReadOne(pythonType, bl.storageName, bl.locations[i], fs, codec);
      ReadMissingRaises(pythonType, bl, fs, codec, i + 1, done + [item.value], k);
    }
  }
}
