/** `RepositoryMapper`: the mapper that locates a repository's own
    configuration (`map_cfg`) and a repository directory (`map_repo`)
    through the storage backend. */
module RepositoryMapper {
  import opened Wrappers
  import opened Location
  import opened PosixPath
  import opened PosixStorage

  /** The policy entries the two map operations read. */
  datatype MapperPolicy = MapperPolicy(
    cfgTemplate: string,
    cfgPython: Option<string>,
    cfgStorage: Option<string>,
    repoTemplate: string,
    repoPython: Option<string>)

  /** A mapper: its policy and the storage of its access object. */
  datatype Mapper = Mapper(policy: MapperPolicy, storage: Storage)

  /** Python's `template % dataId`, which the model takes as given. */
  type Formatter = (string, DataId) -> string

  /** The location `map_cfg` builds once it goes ahead: the one rooted
      path, the policy's type and storage, the data id as given. */
  function CfgLocation(m: Mapper, location: string, dataId: DataId): (r: Result<Option<ButlerLocation>>)
    ensures m.storage.root.None? ==> r == Err(RootMissing)
    ensures m.storage.root.Some? ==>
              r == Ok(Some(ButlerLocation(m.policy.cfgPython, None, m.policy.cfgStorage,
                                          [Join(m.storage.root.value, location)], dataId)))
  {
    var full :- LocationWithRoot(m.storage, location);
    Ok(Some(ButlerLocation(m.policy.cfgPython, None, m.policy.cfgStorage, [full], dataId)))
  }

  /** `map_cfg(dataId, write)`: only a `write` that is the literal `False`
      makes the storage check that the formatted location exists, and a
      missing one gives None; otherwise the location is built. */
  function MapCfg(m: Mapper, fs: FileSystem, format: Formatter, dataId: DataId, write: Flag): (r: Result<Option<ButlerLocation>>)
    ensures m.storage.root.None? ==> r == Err(RootMissing)
    ensures m.storage.root.Some? ==>
              (r == Ok(None) <==>
                 write == IsFalse && Join(m.storage.root.value, format(m.policy.cfgTemplate, dataId)) !in fs.paths)
    ensures r.Ok? && r.value.Some? ==>
              r == CfgLocation(m, format(m.policy.cfgTemplate, dataId), dataId)
    ensures m.storage.root.Some? &&
            !(write == IsFalse && Join(m.storage.root.value, format(m.policy.cfgTemplate, dataId)) !in fs.paths) ==>
              r == CfgLocation(m, format(m.policy.cfgTemplate, dataId), dataId)
  {
    var location := format(m.policy.cfgTemplate, dataId);
    if write == IsFalse then
      var found :- Exists(m.storage, fs, location);
      if !found then Ok(None) else CfgLocation(m, location, dataId)
    else CfgLocation(m, location, dataId)
  }

  /** `map_repo(dataId, write)`: nothing for a write; on a read, the
      un-rooted location with no storage name when it exists. */
  function MapRepo(m: Mapper, fs: FileSystem, format: Formatter, dataId: DataId, write: Flag): (r: Result<Option<ButlerLocation>>)
    ensures write == IsTrue ==> r == Ok(None)
    ensures write != IsTrue && m.storage.root.None? ==> r == Err(RootMissing)
    ensures write != IsTrue && m.storage.root.Some? ==>
              var location := format(m.policy.repoTemplate, dataId);
              && r.Ok?
              && (r.value.None? <==> Join(m.storage.root.value, location) !in fs.paths)
              && (r.value.Some? ==> r.value.value == ButlerLocation(m.policy.repoPython, None, None, [location], dataId))
  {
    if write == IsTrue then Ok(None)
    else
      var location := format(m.policy.repoTemplate, dataId);
      var found :- Exists(m.storage, fs, location);
      if found then Ok(Some(ButlerLocation(m.policy.repoPython, None, None, [location], dataId)))
      else Ok(None)
  }

  /** A configuration mapped for reading names a file that exists. */
  lemma MapCfgReadExists(m: Mapper, fs: FileSystem, format: Formatter, dataId: DataId)
    requires MapCfg(m, fs, format, dataId, IsFalse).Ok? && MapCfg(m, fs, format, dataId, IsFalse).value.Some?
    ensures MapCfg(m, fs, format, dataId, IsFalse).value.value.locations[0] in fs.paths
  {
  }

  /** Apart from the literal `False`, `write` does not matter to
      `map_cfg`, nor does what exists on disk. */
  lemma MapCfgSkipsCheck(m: Mapper, fs1: FileSystem, fs2: FileSystem, format: Formatter, dataId: DataId, w1: Flag, w2: Flag)
    requires w1 != IsFalse && w2 != IsFalse
    ensures MapCfg(m, fs1, format, dataId, w1) == MapCfg(m, fs2, format, dataId, w2)
  {
  }

  /** A repository is only found for a read, and its location exists
      under the storage root. */
  lemma MapRepoReadExists(m: Mapper, fs: FileSystem, format: Formatter, dataId: DataId, write: Flag)
    requires MapRepo(m, fs, format, dataId, write).Ok? && MapRepo(m, fs, format, dataId, write).value.Some?
    ensures write != IsTrue && m.storage.root.Some?
    ensures Exists(m.storage, fs, MapRepo(m, fs, format, dataId, write).value.value.locations[0]) == Ok(true)
  {
  }
}
