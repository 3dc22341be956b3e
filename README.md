# daf_persistence, modelled in Dafny

This project models the core of `lsst.daf.persistence`, the data butler's
persistence layer. It covers:

- **Repository graph** (`repository.dfy`). A repository has an optional
  mapper, an optional storage access object, parents, peers and a parent
  join mode (`'left'` or `'outer'`).
  - Reads search the parents depth-first in priority order (`doParents`).
  - Writes and backups go to the repository and its peers
    (`doSelfAndPeers`).
  - `makeFromCfg` turns nested configuration dicts into repositories.
  - `RepositoryCfg.butlerRead` loads configurations and gives each its
    `root`.
- **POSIX storage backend** (`posixstorage.dfy`):
  - the `_mapper`/`_parent` search for the mapper class;
  - the root-relative `exists`/`locationWithRoot`/configuration paths;
  - how `write` and `read` dispatch on the storage name.
- **Repository mapper** (`repositorymapper.dfy`): `map_cfg` and `map_repo`.
- **Glob-based registry** (`registries.dfy`):
  - the HDU number named in a template;
  - the `LookupData` match state of a scanned file (a class whose methods
    update its fields);
  - the `lookup` loop.
- **Filesystem scanner** (`fsscanner.dfy`):
  - compiles a path template into a glob string, a regular expression
    string and a field table (the `FsScanner` class);
  - converts the fields of a matched path.
- **Configuration helper** (`cfg.dfy`): `getFuncArgs` and `getModule`.

Supporting modules:

- `wrappers.dfy`: Option, Result and the Python exceptions raised.
- `location.dfy`: Python values, the `write` flag and `ButlerLocation`.
- `pystr.dfy`: the Python `str` operations used, with their slice rules.
- `posixpath.dfy`: `os.path.join` and `os.path.dirname`.

Modelling choices:

- A repository node never changes after construction, so it is a value.
  The graph is finite and acyclic by construction.
- Every per-node operation is a function `Repo -> Option<R>`. It closes
  over the `*args, **kwargs` Python forwards unchanged.
- Mapper, access, codec, file-parsing and FITS-header calls are function
  parameters.
- The filesystem is the set of existing paths plus the first line of each
  file.
- Python's `is` on strings is modelled as equality.
- A `write` argument tested with `is True`/`is False` is a three-valued
  flag, so only the boolean literals count.

## Model

| member | source | states |
|---|---|---|
| Cfg.RequiredArgs | python/lsst/daf/persistence/cfg.py:55-58 | the required parameters are the declared ones minus as many trailing ones as there are defaults, or all of them without defaults |
| Cfg.GetFuncArgs | python/lsst/daf/persistence/cfg.py:53-66 | the loop over the declared parameters computes exactly the binding `FuncArgs` defines |
| Cfg.FuncArgsContents | python/lsst/daf/persistence/cfg.py:59-63 | on success the result has exactly the non-ignored parameter names present in cfg, each with its cfg value; other cfg keys are dropped |
| Cfg.FuncArgsFailsIff | python/lsst/daf/persistence/cfg.py:64-65 | it raises exactly when a required, non-ignored parameter is absent from cfg |
| Cfg.BindFailsIff | python/lsst/daf/persistence/cfg.py:59-65 | the loop from any position fails iff a later parameter is a missing required one |
| Cfg.BindFailureNamesFirst | python/lsst/daf/persistence/cfg.py:64-65 | the RuntimeError names the first missing required parameter in declaration order |
| Cfg.BindContents | python/lsst/daf/persistence/cfg.py:62-63 | the loop adds exactly the bound parameters found in cfg, with their cfg values |
| Cfg.BindIgnoresOtherKeys | python/lsst/daf/persistence/cfg.py:59-63 | cfg keys naming no parameter do not change the outcome |
| Cfg.DefaultIgnoresReceiver | python/lsst/daf/persistence/cfg.py:27-66 | with the default ignored keys, `self` and `cls` are never bound, and the call fails exactly when another required parameter is absent |
| Cfg.GetModule | python/lsst/daf/persistence/cfg.py:69-76 | a non-string raises RuntimeError; a string splits at its last dot into package and stripped class name (empty package without a dot) |
| FsScanner.Trimmed | python/lsst/daf/persistence/fsScanner.py:58-59 | a template ending in `]` is cut at its last `[`, or loses its last character when it has no `[`; any other template is unchanged |
| FsScanner.WordRunShape | python/lsst/daf/persistence/fsScanner.py:62 | the field name of a spec is a maximal run of word characters |
| FsScanner.ConvFromShape | python/lsst/daf/persistence/fsScanner.py:62 | the lazy `.*?` stops at the first conversion character and never crosses a newline |
| FsScanner.MatchAtShape | python/lsst/daf/persistence/fsScanner.py:62 | a match is `%(`, the name, `)`, then text up to the first conversion character that ends it |
| FsScanner.NextMatchLeftmost | python/lsst/daf/persistence/fsScanner.py:72 | each match `finditer` yields is the leftmost from the search position |
| FsScanner.NextMatchNone | python/lsst/daf/persistence/fsScanner.py:72 | once no match is found, none starts later |
| FsScanner.MatchesOrdered | python/lsst/daf/persistence/fsScanner.py:72 | the matches are disjoint, in increasing position, inside the template |
| FsScanner.GlobShape | python/lsst/daf/persistence/fsScanner.py:64 | `fmt.sub('*', t)` is the template's literal text with one `*` per spec |
| FsScanner.ReStringShape | python/lsst/daf/persistence/fsScanner.py:67-95 | the regular expression the loop builds is the literal text with each spec replaced by its field's named group |
| FsScanner.TemplateShape | python/lsst/daf/persistence/fsScanner.py:58-95 | glob string, regular expression and template share their literal pieces and differ only per spec (`*`, named group, spec text) |
| FsScanner.GlobString | python/lsst/daf/persistence/fsScanner.py:58-64 | the glob string is the trimmed template's literal text with one `*` per spec |
| FsScanner.ReString | python/lsst/daf/persistence/fsScanner.py:66-95 | the regular expression is the trimmed template's literal text with each spec replaced by its stored field's named group |
| FsScanner.Compile | python/lsst/daf/persistence/fsScanner.py:67-93 | the field table holds exactly the stored names and the clash counter ends at the number of clashes |
| FsScanner.Reassemble | python/lsst/daf/persistence/fsScanner.py:78-95 | the literal pieces and the spec texts put back together give the template |
| FsScanner.CompileSpec | python/lsst/daf/persistence/fsScanner.py:72-93 | the loop body computes exactly one compiler step |
| FsScanner.Scanner.constructor | python/lsst/daf/persistence/fsScanner.py:39-95 | the new scanner holds the glob string, regular expression and field table of the trimmed template |
| FsScanner.Scanner.GetFields | python/lsst/daf/persistence/fsScanner.py:97-104 | IndexError iff some position is past the table size; else a list of that size with every name at its position when positions are distinct |
| FsScanner.Scanner.IsNumeric | python/lsst/daf/persistence/fsScanner.py:106-109 | KeyError exactly for an unknown name; otherwise whether the field is an int or a float |
| FsScanner.Scanner.IsInt | python/lsst/daf/persistence/fsScanner.py:111-114 | KeyError exactly for an unknown name; otherwise whether the field is an int |
| FsScanner.Scanner.IsFloat | python/lsst/daf/persistence/fsScanner.py:116-119 | KeyError exactly for an unknown name; otherwise whether the field is a float |
| FsScanner.Scanner.ConvertMatch | python/lsst/daf/persistence/fsScanner.py:135-140 | succeeds iff every numeric field has a group that converts; the data id has the match's keys, numeric fields converted and the rest text |
| FsScanner.ConvertField | python/lsst/daf/persistence/fsScanner.py:137-140 | an int field is `int(text)`, a float field the result of the `float` parameter, a string field the text, each failing exactly when the parse fails |
| FsScanner.ConvertDecimal | python/lsst/daf/persistence/fsScanner.py:137-138 | a matched decimal numeral converts back to the number it prints |
| FsScanner.DistinctSpecNames | python/lsst/daf/persistence/fsScanner.py:73-76 | a template whose spec names all differ stores them unrenamed, in order |
| FsScanner.FieldsInOrder | python/lsst/daf/persistence/fsScanner.py:91-93 | with distinct stored names the table has one entry per spec, the k-th at position k with its type, positions unique and in range |
| FsScanner.RenamingAsWritten | python/lsst/daf/persistence/fsScanner.py:73-76 | spec `k` is stored under its own name unless an earlier spec stored that name, and then under `name_c`, `c` the number of clashes before it, one counter shared by all names |
| FsScanner.AsWrittenFieldsInOrder | python/lsst/daf/persistence/fsScanner.py:73-93 | when no spec name is another spec name with `_j` appended, the renaming as written equals the corrected one and the table has one entry per spec at positions `0..n-1` |
| FsScanner.VisitInOrder | python/lsst/daf/persistence/fsScanner.py:125-126 | the documented template `%(visit)07d/instcal%(visit)07d.fits.fz` meets that condition |
| FsScanner.VisitFields | python/lsst/daf/persistence/fsScanner.py:73-93 | the documented template stores `visit` at position 0 and `visit_0` at position 1, both int fields, with one clash |
| FsScanner.VisitGetFields | python/lsst/daf/persistence/fsScanner.py:97-104 | `getFields` on a scanner for the documented template returns `['visit', 'visit_0']` |
| FsScanner.CollisionAsWritten | python/lsst/daf/persistence/fsScanner.py:73-76 | `%(a_0)d%(a)d%(a)d` stores names `a_0, a, a_0`: the table keeps two entries and one sits at position 2 |
| FsScanner.CollisionGetFields | python/lsst/daf/persistence/fsScanner.py:97-104 | `getFields` on a scanner for that template raises IndexError |
| FsScanner.FreshNamesDistinct | python/lsst/daf/persistence/fsScanner.py:73-76 | with the corrected renaming every stored name is new, so the stored names are distinct |
| FsScanner.CorrectedFieldsInOrder | python/lsst/daf/persistence/fsScanner.py:73-93 | corrected, every template gives one entry per spec at positions `0..n-1`, so `getFields` lists every name |
| FsScanner.CollisionCorrected | python/lsst/daf/persistence/fsScanner.py:73-76 | corrected, the third spec of the colliding template becomes `a_1` |
| Registries.GetHduNumber | python/lsst/daf/persistence/registries.py:92-114 | None unless the template ends with `]`; otherwise the data id's value for the bracketed key, None when that key is absent |
| Registries.HduKeyOf | python/lsst/daf/persistence/registries.py:107-110 | a template `...[pre(key)post]` names exactly `key` |
| Registries.HduKeyUnformatted | python/lsst/daf/persistence/registries.py:110 | brackets without parentheses lose their last character to the `-1` slice end |
| Registries.DocTemplateHdu | python/lsst/daf/persistence/registries.py:97 | the documented template picks the `ccdnum` value |
| Registries.HduAsWritten | python/lsst/daf/persistence/registries.py:239 | the call as written never yields an HDU number, and raises TypeError when the key is a substring of the storage name |
| Registries.HduIgnoredAsWritten | python/lsst/daf/persistence/registries.py:217 | for the documented template and `ccdnum` 12 the intended lookup gives HDU 12 while the call as written gives None |
| Registries.PropNames | python/lsst/daf/persistence/registries.py:119-120 | a single property name is wrapped into a one-element sequence; a sequence is kept |
| Registries.StatusOf | python/lsst/daf/persistence/registries.py:130-152 | the computed status is never `'not match'` |
| Registries.MatchHasNeededKeys | python/lsst/daf/persistence/registries.py:142-151 | a matching file has found every property and every data id key |
| Registries.LookupData.constructor | python/lsst/daf/persistence/registries.py:117-124 | the state starts with nothing found, no cached status, and the properties plus data id keys as needed keys |
| Registries.LookupData.Status | python/lsst/daf/persistence/registries.py:130-152 | returns the cached status or computes it (every data id key found with an equal value and every property found), caches it, and changes nothing else |
| Registries.LookupData.SetFoundItems | python/lsst/daf/persistence/registries.py:154-156 | replaces the found items and clears the cache |
| Registries.LookupData.AddFoundItems | python/lsst/daf/persistence/registries.py:158-160 | merges the items, new values winning, and clears the cache |
| Registries.LookupData.GetMissingKeys | python/lsst/daf/persistence/registries.py:162-163 | a key is missing iff it is a property or data id key not found yet |
| Registries.MissingKeys | python/lsst/daf/persistence/registries.py:162-163 | a key is reported missing iff it is a property or data id key and was not found |
| Registries.FitsItems | python/lsst/daf/persistence/registries.py:236-256 | nothing when the file cannot be opened; otherwise every missing key, with its header value or None when no header holds it |
| Registries.AddHeaderValues | python/lsst/daf/persistence/registries.py:249-256 | the loop adds exactly `FitsItems` for the missing keys, clearing the cache when it adds anything, and changes nothing else |
| Registries.LookupFitsMetadata | python/lsst/daf/persistence/registries.py:220-256 | the keys missing at the start, and only those, gain their header values or None; nothing changes when the file cannot be opened |
| Registries.LookupMetadata | python/lsst/daf/persistence/registries.py:212-217 | only `'FitsStorage'` consults the headers, filling the missing keys; any other storage changes nothing |
| Registries.JudgeFile | python/lsst/daf/persistence/registries.py:204-209 | the file's found items become its settled items and the cached status their status; it gives its row exactly when they match |
| Registries.Settled | python/lsst/daf/persistence/registries.py:199-203 | parsed fields are kept; headers add only missing keys and only for `'FitsStorage'` |
| Registries.Lookups | python/lsst/daf/persistence/registries.py:196-210 | at most one row per scanned file, each with one value per property |
| Registries.Lookup | python/lsst/daf/persistence/registries.py:165-210 | no rows without a `template` argument; AttributeError for `template=None`; otherwise one row per scanned file whose settled items match, in scan order |
| Registries.LookupRows | python/lsst/daf/persistence/registries.py:199-209 | a row is in the result iff some file's settled items match and the row lists their property values |
| Registries.ContradictingFieldNoRow | python/lsst/daf/persistence/registries.py:199-209 | a parsed field that contradicts the data id keeps its value through the header lookup, so that file gives no row whatever its headers hold |
| Registries.CompleteFileUnchanged | python/lsst/daf/persistence/registries.py:249-256 | a file missing no property and no data id key gains nothing from its headers |
| Registries.LookupSingleName | tests/testRegistry.py:51-57 | with the `'FitsStorage'` storage, a bare `'filter'` with `ccd` 1 gives the rows `('g',)` and `('h',)`, whatever the headers hold |
| PosixStorage.FindMapperBase | python/lsst/daf/persistence/posixStorage.py:86-93 | a directory found holds `_mapper`; a failure is the "No mapper" RuntimeError |
| PosixStorage.FindMapperBaseChain | python/lsst/daf/persistence/posixStorage.py:86-93 | the search settles on the nearest `_parent` ancestor holding `_mapper`, or fails at the first level with neither |
| PosixStorage.GetMapperClass | python/lsst/daf/persistence/posixStorage.py:74-104 | the walk and the first-line read compute exactly `MapperClassOf` (None for a missing or empty root) |
| PosixStorage.ReadMapperFile | python/lsst/daf/persistence/posixStorage.py:97-104 | the stripped first line split on dots gives the class |
| PosixStorage.MapperNamed | python/lsst/daf/persistence/posixStorage.py:99-104 | raises exactly for a name without a dot; otherwise the package is the text before the last dot and the class the text after |
| PosixStorage.MapperClassOf | python/lsst/daf/persistence/posixStorage.py:74-104 | None for a missing or empty root; the "No mapper" RuntimeError when the `_parent` search fails; otherwise the class named by the first line of the `_mapper` file of the directory the search settles on |
| PosixStorage.MapperClassNearest | python/lsst/daf/persistence/posixStorage.py:74-104 | for a non-empty root, the class comes from the `_mapper` of the nearest `_parent` ancestor that has one, after only ancestors with a `_parent` link and no `_mapper`; the error comes exactly at the first ancestor with neither |
| PosixStorage.MapperClass | python/lsst/daf/persistence/posixStorage.py:106-110 | RuntimeError without a root, else the mapper class of the root |
| PosixStorage.CfgPath | python/lsst/daf/persistence/posixStorage.py:118-120 | RuntimeError exactly without a root; otherwise `root/repoCfg.yaml` |
| PosixStorage.SetCfg | python/lsst/daf/persistence/posixStorage.py:112-121 | RuntimeError exactly without a root; otherwise the file written is `root/repoCfg.yaml` |
| PosixStorage.LoadCfg | python/lsst/daf/persistence/posixStorage.py:123-131 | RuntimeError exactly without a root; otherwise the file read is `root/repoCfg.yaml` |
| PosixStorage.CfgRootRoundTrip | python/lsst/daf/persistence/posixStorage.py:123-131 | the path `setCfg` and `loadCfg` share has the root without trailing slashes as its directory, and the root itself when it does not end in `/` |
| PosixStorage.Exists | python/lsst/daf/persistence/posixStorage.py:253-261 | RuntimeError exactly without a root; otherwise whether the rooted path exists |
| PosixStorage.LocationWithRoot | python/lsst/daf/persistence/posixStorage.py:263-271 | RuntimeError exactly without a root; otherwise the location joined under it |
| PosixStorage.ResolveType | python/lsst/daf/persistence/posixStorage.py:146-148 | a type name is resolved exactly when one is given |
| PosixStorage.WriteDispatch | python/lsst/daf/persistence/posixStorage.py:133-189 | a `butlerWrite` hook wins and needs no location; otherwise IndexError exactly without a location, and only `locations[0]` is written |
| PosixStorage.WriteIgnoresLaterLocations | python/lsst/daf/persistence/posixStorage.py:158 | the locations after the first do not affect `write` |
| PosixStorage.WriteBranches | python/lsst/daf/persistence/posixStorage.py:161-189 | the storage name selects pickle, config or FITS catalog; a smart pointer is dereferenced only on the general persistence path |
| PosixStorage.ReadOne | python/lsst/daf/persistence/posixStorage.py:222-248 | pickle, FITS catalog and config storages raise their RuntimeError for a missing file; otherwise the codec reads the location |
| PosixStorage.ReadSpec | python/lsst/daf/persistence/posixStorage.py:191-251 | a `butlerRead` hook's result is returned as is; otherwise success exactly when every location reads, one item per location in location order |
| PosixStorage.Read | python/lsst/daf/persistence/posixStorage.py:191-251 | the loop computes exactly `ReadSpec`: the hook's result as it is, or one item per location |
| PosixStorage.ReadFromOrder | python/lsst/daf/persistence/posixStorage.py:219-251 | `read` succeeds iff every location reads, giving one item per location in order |
| PosixStorage.ReadMissingRaises | python/lsst/daf/persistence/posixStorage.py:227-239 | the first missing file raises its storage's message unless an earlier location failed |
| RepositoryMapper.CfgLocation | python/lsst/daf/persistence/repositoryMapper.py:73-80 | the location has the rooted path only, the policy's type and storage, the data id unchanged |
| RepositoryMapper.MapCfg | python/lsst/daf/persistence/repositoryMapper.py:60-80 | RuntimeError without a root; with a root, None exactly when `write` is the literal False and the formatted location is missing, and otherwise the rooted location |
| RepositoryMapper.MapCfgReadExists | python/lsst/daf/persistence/repositoryMapper.py:71-72 | a configuration mapped for reading names an existing file |
| RepositoryMapper.MapCfgSkipsCheck | python/lsst/daf/persistence/repositoryMapper.py:71 | any `write` other than the literal False gives the same result whatever exists |
| RepositoryMapper.MapRepo | python/lsst/daf/persistence/repositoryMapper.py:82-99 | None for `write` True; on read the un-rooted location with no storage name exactly when it exists |
| RepositoryMapper.MapRepoReadExists | python/lsst/daf/persistence/repositoryMapper.py:90-98 | a repository is only found on a read, at an existing location |
| Repository.NewRepository | python/lsst/daf/persistence/repository.py:157-177 | succeeds exactly for `'left'` or `'outer'`; missing parents and peers become empty; the other arguments are kept |
| Repository.NewRepositoryAsWritten | python/lsst/daf/persistence/repository.py:164-166 | an unsupported join mode raises AttributeError; a supported one builds the same node |
| Repository.UnsupportedJoinAsWritten | python/lsst/daf/persistence/repository.py:164-166 | for `'inner'` the code as written raises AttributeError where the RuntimeError is intended |
| Repository.Visits | python/lsst/daf/persistence/repository.py:222-230 | the operation runs on the node, then each peer, never on the peers' peers |
| Repository.DoSelfAndPeers | python/lsst/daf/persistence/repository.py:212-238 | the loop computes exactly `SelfAndPeers` |
| Repository.CollectMembers | python/lsst/daf/persistence/repository.py:223-235 | every collected element comes from one visited node's call, and every such element is collected |
| Repository.SelfAndPeersNoneIff | python/lsst/daf/persistence/repository.py:236-238 | None exactly when every call returned None or an empty sequence |
| Repository.SelfAndPeers | python/lsst/daf/persistence/repository.py:212-238 | a returned list is never empty: no results give None |
| Repository.Yielding | python/lsst/daf/persistence/repository.py:221-235 | the positions of the visited nodes that yield, each once, in visit order |
| Repository.CollectSingles | python/lsst/daf/persistence/repository.py:221-235 | when each call yields at most one value, the result has one entry per yielding node, the `j`-th from the `j`-th such node |
| Repository.SelfAndNonePeers | python/lsst/daf/persistence/repository.py:222-238 | with peers returning None, self's sequence is returned as is, or None if empty |
| Repository.SelfAndPeersOnlyVisits | python/lsst/daf/persistence/repository.py:229-230 | only the calls on self and the peers affect the result |
| Repository.DoParents | python/lsst/daf/persistence/repository.py:240-277 | the loop computes exactly `SearchParents` and applies the operation to exactly the nodes of `Trace` |
| Repository.SearchParents | python/lsst/daf/persistence/repository.py:240-277 | no parents give None; under outer join a result is a non-empty list |
| Repository.SearchOnlyTrace | python/lsst/daf/persistence/repository.py:265-268 | the search consults the operation on the traced nodes only |
| Repository.LeftJoinFirstHit | python/lsst/daf/persistence/repository.py:253-254 | under left join throughout, the result is the first in depth-first priority order and only ancestors up to it are visited |
| Repository.LeftFirstParentWins | python/lsst/daf/persistence/repository.py:269-271 | under left join the first parent that yields decides; later parents are not visited |
| Repository.OuterJoinCollects | python/lsst/daf/persistence/repository.py:254-255 | under outer join the result lists every top-level parent's result in order, or None when there are none |
| Repository.OuterTwoParents | python/lsst/daf/persistence/repository.py:272-273 | two yielding parents under outer join give a list of exactly their results, first parent first |
| Repository.OuterParentStops | python/lsst/daf/persistence/repository.py:266-268 | a parent that yields is not searched further |
| Repository.HitsEmptyIff | python/lsst/daf/persistence/repository.py:275-277 | no entries exactly when no parent yields |
| Repository.DoMap | python/lsst/daf/persistence/repository.py:333-348 | a location exactly when there is a mapper and it maps; the location is stamped with this node |
| Repository.DoGetKeys | python/lsst/daf/persistence/repository.py:302-313 | None without a mapper, else the mapper's `getKeys` result |
| Repository.DoQueryMetadata | python/lsst/daf/persistence/repository.py:363-376 | None without a mapper, else the mapper's `queryMetadata` result |
| Repository.GetMapperDefaultLevel | python/lsst/daf/persistence/repository.py:400-413 | this node only: None without a mapper, else its mapper's default level |
| Repository.Map | python/lsst/daf/persistence/repository.py:315-331 | a read never consults the node's own mapper (no parents give None); a write result is a non-empty list |
| Repository.GetKeys | python/lsst/daf/persistence/repository.py:293-300 | the parent search over `doGetKeys`; no parents give None |
| Repository.QueryMetadata | python/lsst/daf/persistence/repository.py:350-361 | the parent search over `doQueryMetadata`; no parents give None |
| Repository.MapWrite | python/lsst/daf/persistence/repository.py:328-329 | with `write` True: None iff no visited node maps; otherwise exactly one stamped location per node that maps, in visit order |
| Repository.MapWriteCount | python/lsst/daf/persistence/repository.py:328-329 | a write mapping yields exactly one location per visited node that maps, the `j`-th being the `j`-th such node's `doMap` result |
| Repository.MapWriteStamped | python/lsst/daf/persistence/repository.py:347 | every location yielded is its node's `doMap` result, stamped with it |
| Repository.MapWriteEmptyIff | python/lsst/daf/persistence/repository.py:236-238 | a write mapping yields nothing exactly when no visited node maps |
| Repository.MapReadLeft | python/lsst/daf/persistence/repository.py:330-331 | under left join a read mapping gives the first ancestor's location, depth-first in priority order |
| Repository.Backup | python/lsst/daf/persistence/repository.py:378-398 | the node's own mapper is backed up first when it has one; without it only the peers' mappers are |
| Repository.BackupCalls | python/lsst/daf/persistence/repository.py:378-398 | backup calls exactly the mappers of self and the peers that have one, once each, in visit order |
| Repository.Read | python/lsst/daf/persistence/repository.py:279-285 | delegated to this node's access; AttributeError exactly without one |
| Repository.Write | python/lsst/daf/persistence/repository.py:200-207 | delegated to this node's access; AttributeError exactly without one |
| Repository.ReadWriteOnlyAccess | python/lsst/daf/persistence/repository.py:279-285 | reading and writing depend on the node's access only |
| Repository.AccessStep | python/lsst/daf/persistence/repository.py:113-116 | only the access key changes; it is non-None after exactly when before |
| Repository.MapperStep | python/lsst/daf/persistence/repository.py:118-123 | only the mapper key changes; a None mapper without access raises KeyError; an absent mapper leaves the cfg unchanged |
| Repository.MakeMapper | python/lsst/daf/persistence/repository.py:118-123 | computes exactly `MapperStep` |
| Repository.Materialize | python/lsst/daf/persistence/repository.py:91-154 | a non-dict is returned as is; a dict's result is the repository it ends up holding; a missing `repository` key raises |
| Repository.MakeFromCfg | python/lsst/daf/persistence/repository.py:91-154 | the in-order rewrite computes exactly `Materialize` |
| Repository.MakeAll | python/lsst/daf/persistence/repository.py:125-141 | the entry loop computes exactly `MaterializeAll` |
| Repository.Entries | python/lsst/daf/persistence/repository.py:126-127 | a single entry is wrapped into a one-element list |
| Repository.Rebuilt | python/lsst/daf/persistence/repository.py:130-131 | after the loop every entry is its built repository |
| Repository.MaterializeFromOkIff | python/lsst/daf/persistence/repository.py:130-131 | the entry loop succeeds exactly when every entry does |
| Repository.MaterializeFromValues | python/lsst/daf/persistence/repository.py:130-131 | on success one repository per entry, in entry order |
| Repository.MaterializeFromError | python/lsst/daf/persistence/repository.py:130-131 | on failure the error of the first failing entry |
| Repository.MaterializeAllOrder | python/lsst/daf/persistence/repository.py:125-141 | parents and peers materialise exactly when every entry does, one repository per entry in order |
| Repository.MaterializeClass | python/lsst/daf/persistence/repository.py:143-153 | a class is called with exactly the present keys and defaults elsewhere |
| Repository.MaterializeJoinChecked | python/lsst/daf/persistence/repository.py:152-153 | calling the class fails, with RuntimeError, exactly for a present unsupported `parentJoin` |
| Repository.MaterializeRebuilt | python/lsst/daf/persistence/repository.py:108-109 | entries that are already repositories pass through unchanged |
| Repository.MaterializeAgain | python/lsst/daf/persistence/repository.py:149-154 | the rewritten configuration materialises to the same repository |
| Repository.WithRoot | python/lsst/daf/persistence/repository.py:49 | the loaded dict gains `root`, the file's directory; every other key is kept |
| Repository.ButlerRead | python/lsst/daf/persistence/repository.py:40-51 | NotImplementedError exactly for non-YAML storage; otherwise one configuration per location in order, each with its `root` |

## Left out

- The regular-expression engine and `glob`: `FsScanner.processPath` is
  modelled only in its conversion step (`ConvertMatch`). The glob, the
  `re.search` of `reString` and the current-directory change are file
  system I/O.
- The `processPath` dictionary comes with an unspecified key order. The
  glob result is taken as a sequence in a given order; `lookup` returns
  rows in that order.
- `lookupFitsMetadata` opens FITS files with `pyfits` and reads their
  headers. This is I/O, so it is the `Headers` parameter: file path and
  HDU number to the header values found, or None when the file cannot be
  opened. The choice between the indicated HDU and the primary HDU
  (including an HDU number past the end of the file) happens inside
  that parameter. What the model keeps is that only keys missing at the
  start are filled, one `addFoundItems` per key, with None for a key no
  header holds.
- `LogicalLocation` substitution of the additional data into location
  strings is not part of this model. Locations are used as given.
- The codecs: pickle, config, FITS catalog, Paf, YAML and the C++
  persistence framework. They are parameters or named actions of
  `WriteDispatch`.
- `PosixStorage.makeFromCfg` and `PosixStorage.__init__`: the import
  from a string, the `makedirs` and the registry are not modelled.
- `importlib.import_module`/`getattr` and `__import__`: a resolved type
  is its package and class name. Whether it has a `butlerRead` or
  `butlerWrite` hook is a parameter.
- `SqliteRegistry`, `Repository.loadCfg` and `RepositoryCfg.butlerWrite`:
  database and file output.
- Python's dynamic `==` between values: only int and float are compared
  across types (`PyEq` in `location.dfy`). Floats are real numbers, not
  IEEE doubles.
- FsScanner.ConvertField: Python's `float(text)` is the parameter
  `parseFloat`. Its syntax (exponents, `inf`, `nan`, surrounding
  whitespace) and its rounding to a double are not modelled.
- FsScanner.Scanner.ConvertMatch: converts float fields through the
  same `parseFloat` parameter, so the same gap applies.
- Registries.Lookup: data id values are scalars only (`PyValue` in
  `location.dfy`: int, float, string, None). The `lookup` docstring
  (registries.py:177-181) describes a two-item value as an inclusive
  range. `status()` compares values with `!=` (registries.py:146), so
  such a value would only match an equal tuple and never acts as a
  range. Tuple values are not modelled.
- Cfg.GetFuncArgs: the RuntimeError message keeps only the argument name.
  The rest of its text is not modelled.
- Repository.NewRepository: the error text is not modelled.
- Aliasing inside configuration dicts: `makeFromCfg` is modelled on
  values.
  - It returns the rewritten configuration beside the repository rather
    than changing a shared dict.
  - A DAG that shares a parent is modelled by value copies.
- The policy lookups of `RepositoryMapper` read fixed entries. A missing
  policy key is not modelled. `template % dataId` is a function
  parameter.
- Logging in `PosixStorage.write` and the warning `processPath` prints
  for an unmatched path.

## Findings

Each row has an as-written member with the input that shows the
discrepancy, and a corrected member with the intended property proved.

- `lookup` and `repository` use their corrected members: the HDU
  number is looked up in the lookup's data id, and an unsupported join
  mode raises RuntimeError.
- The scanner (`Compile`, the `Scanner` constructor and `GetFields`)
  keeps the renaming as written, because the corrected one changes
  the stored names. `AsWrittenFieldsInOrder` proves that the two
  renamings agree whenever no spec name is another spec name with
  `_j` appended. The documented `visit` template is such a case
  (`VisitInOrder`). The registry's `lookup` takes the scanned paths
  and their parsed fields as a parameter, so it does not depend on
  the renaming.

| source | as written | input that shows it | evidently intended | confidence | as-written member | corrected member |
|---|---|---|---|---|---|---|
| python/lsst/daf/persistence/fsScanner.py:74-76 | a repeated field is renamed `name_n` with one counter shared by all names, without checking the new name is free | template `%(a_0)d%(a)d%(a)d`: the third spec is renamed `a_0`, overwriting the first field, and `getFields` raises IndexError | each stored field gets a fresh name, so the table has one entry per spec | high, not executed | FsScanner.CollisionAsWritten | FsScanner.CorrectedFieldsInOrder |
| python/lsst/daf/persistence/registries.py:217 | `lookupMetadata` passes the storage name as `lookupFitsMetadata`'s `dataId`, which `getHduNumber` then searches | template `%(visit)07d/instcal%(visit)07d.fits.fz[%(ccdnum)d]` with data id `{visit: 1, ccdnum: 12}`: the HDU is None instead of 12, so only the primary header is read; a key that is a substring of `FitsStorage` raises TypeError | the HDU number is looked up in the lookup's data id | high, not executed | Registries.HduIgnoredAsWritten | Registries.GetHduNumber |
| python/lsst/daf/persistence/repository.py:164-166 | the error message for an unsupported `parentJoin` is formatted from `self._parentJoin`, which is not yet set | `parentJoin='inner'` raises AttributeError | RuntimeError naming the supported modes | high, not executed | Repository.UnsupportedJoinAsWritten | Repository.NewRepository |
