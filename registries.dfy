/** The glob-based `PosixRegistry`: the HDU number named at the end of a
    path template, the `LookupData` match state of one scanned file, and
    the `lookup` loop that turns scanned files into rows of values. */
module Registries {
  import opened Wrappers
  import opened PyStr
  import opened Location
  import opened PosixPath

  // ---------------------------------------------------------------------
  // getHduNumber

  /** The key named in a template's trailing `[...]`: the text between the
      last `[` and the last `]`, then, inside it, the text between the last
      `(` and the last `)`, both cut with Python's slice rules (a missing
      `(` starts at 0, a missing `)` ends one character before the end). */
  function HduKey(template: string): string {
    ParenText(BracketText(template))
  }

  function BracketText(s: string): string {
    Slice(s, RFind(s, '[') + 1, RFind(s, ']'))
  }

  function ParenText(s: string): string {
    Slice(s, RFind(s, '(') + 1, RFind(s, ')'))
  }

  /** `PosixRegistry.getHduNumber`: None unless the template ends with `]`;
      otherwise `dataId`'s value for the key named in the brackets, or None
      when `dataId` lacks it. */
  function GetHduNumber(template: string, dataId: DataId): (r: Option<PyValue>)
    ensures !EndsWith(template, "]") ==> r.None?
    ensures r.Some? ==> HduKey(template) in dataId && r.value == dataId[HduKey(template)]
    ensures EndsWith(template, "]") && HduKey(template) in dataId ==> r.Some?
  {
    if !EndsWith(template, "]") then None
    else
      var key := HduKey(template);
      if key in dataId then Some(dataId[key]) else None
  }

  /** A template of the documented form `...[...%(key)...]` names `key`. */
  lemma HduKeyOf(front: string, pre: string, key: string, post: string)
    requires '[' !in pre && '[' !in key && '[' !in post
    requires '(' !in key && '(' !in post && ')' !in post
    ensures var t := front + "[" + (pre + "(" + key + ")" + post) + "]";
            EndsWith(t, "]") && HduKey(t) == key
  {
    var body := pre + "(" + key + ")" + post;
    assert '[' !in body;
    Bracketed(front, body);
    Parenthesised(pre, key, post);
  }

  /** The outer slice of `front[body]` is `body` when `body` has no `[`. */
  lemma Bracketed(front: string, body: string)
    requires '[' !in body
    ensures var t := front + "[" + body + "]";
            && EndsWith(t, "]")
            && BracketText(t) == body
  {
    var t := front + "[" + body + "]";
    assert t == front + ['['] + (body + "]");
    assert '[' !in body + "]";
    RFindAfterLast(front, body + "]", '[');
    assert t == (front + "[" + body) + [']'] + "";
    RFindAfterLast(front + "[" + body, "", ']');
    assert t[|front| + 1..|t| - 1] == body;
  }

  /** The inner slice of `pre(key)post` is `key`. */
  lemma Parenthesised(pre: string, key: string, post: string)
    requires '(' !in key && '(' !in post && ')' !in post
    ensures var body := pre + "(" + key + ")" + post;
            ParenText(body) == key
  {
    var body := pre + "(" + key + ")" + post;
    assert body == pre + ['('] + (key + ")" + post);
    assert '(' !in key + ")" + post;
    RFindAfterLast(pre, key + ")" + post, '(');
    assert body == (pre + "(" + key) + [')'] + post;
    RFindAfterLast(pre + "(" + key, post, ')');
    assert body[|pre| + 1..|pre| + 1 + |key|] == key;
  }

  /** Brackets without parentheses lose their last character: the missing
      `)` makes the inner slice end at -1. */
  lemma HduKeyUnformatted(front: string, body: string)
    requires body != "" && '[' !in body && '(' !in body && ')' !in body
    ensures HduKey(front + "[" + body + "]") == body[..|body| - 1]
  {
    Bracketed(front, body);
  }

  const DocTemplate: string := "%(visit)07d/instcal%(visit)07d.fits.fz[%(ccdnum)d]"

  /** The docstring's example picks the `ccdnum` value. */
  lemma DocTemplateHdu(dataId: DataId)
    requires "ccdnum" in dataId
    ensures GetHduNumber(DocTemplate, dataId) == Some(dataId["ccdnum"])
  {
    DocTemplateKey();
  }

  lemma DocTemplateKey()
    ensures EndsWith(DocTemplate, "]") && HduKey(DocTemplate) == "ccdnum"
  {
    assert DocTemplate == "%(visit)07d/instcal%(visit)07d.fits.fz" + "[" + ("%" + "(" + "ccdnum" + ")" + "d") + "]";
    HduKeyOf("%(visit)07d/instcal%(visit)07d.fits.fz", "%", "ccdnum", "d");
  }

  /** Python's `k in s` on two strings: `k` occurs in `s`. */
  predicate IsSubstring(k: string, s: string) {
    exists i, j :: 0 <= i <= j <= |s| && s[i..j] == k
  }

  /** The HDU number `lookupFitsMetadata` computes as written: it passes its
      fourth argument as `getHduNumber`'s `dataId`, and `lookupMetadata`
      fills that argument with the storage name. On a string, `key in`
      tests for a substring, and indexing the string with the key raises
      TypeError; no HDU number ever results. */
  function HduAsWritten(template: string, storage: string): (r: Result<Option<PyValue>>)
    ensures r.Ok? ==> r.value.None?
    ensures EndsWith(template, "]") && IsSubstring(HduKey(template), storage) ==> r.Err?
  {
    if !EndsWith(template, "]") then Ok(None)
    else if IsSubstring(HduKey(template), storage) then Err(TypeError("string indices must be integers, not str"))
    else Ok(None)
  }

  /** The docstring's template with `ccdnum` in the data id: the intended
      lookup gives the HDU number, the call as written gives None, so the
      metadata is read from the primary HDU only. */
  lemma HduIgnoredAsWritten()
    ensures var dataId := map["visit" := PyInt(1), "ccdnum" := PyInt(12)];
            && GetHduNumber(DocTemplate, dataId) == Some(PyInt(12))
            && HduAsWritten(DocTemplate, "FitsStorage") == Ok(None)
  {
    var dataId := map["visit" := PyInt(1), "ccdnum" := PyInt(12)];
    DocTemplateHdu(dataId);
    DocTemplateKey();
    StorageNameLacksKey();
    HduAsWrittenMisses(DocTemplate, "FitsStorage");
  }

  lemma StorageNameLacksKey()
    ensures !IsSubstring("ccdnum", "FitsStorage")
  {
    assert 'c' !in "FitsStorage";
    NotInStorageName("ccdnum", "FitsStorage");
  }

  lemma HduAsWrittenMisses(template: string, storage: string)
    requires !IsSubstring(HduKey(template), storage)
    ensures HduAsWritten(template, storage) == Ok(None)
  {
  }

  /** A key starting with a character the storage name lacks is no
      substring of it. */
  lemma NotInStorageName(k: string, s: string)
    requires k != "" && k[0] !in s
    ensures !IsSubstring(k, s)
  {
  }

  // ---------------------------------------------------------------------
  // LookupData

  /** The `lookupProperties` argument: a sequence of names, or a single
      name (a Python 2 `str` has no `__iter__`). */
  datatype LookupProperties = Names(names: seq<string>) | Name(name: string)

  /** The property names after the constructor's wrapping of a single name
      into a one-element tuple. */
  function PropNames(p: LookupProperties): (r: seq<string>)
    ensures p.Name? ==> r == [p.name]
    ensures p.Names? ==> r == p.names
  {
    match p
    case Names(ns) => ns
    case Name(n) => [n]
  }

  /** The three statuses the source documents; `'not match'` is never
      produced. */
  datatype LookupStatus = Match | Incomplete | NotMatch

  type FoundItems = map<string, PyValue>

  /** Every data id key was found with an equal value. */
  predicate IdSatisfied(dataId: DataId, found: FoundItems) {
    forall k :: k in dataId ==> k in found && PyEq(dataId[k], found[k])
  }

  /** Every lookup property was found. */
  predicate PropsFound(props: seq<string>, found: FoundItems) {
    forall i :: 0 <= i < |props| ==> props[i] in found
  }

  /** The status `status()` computes from scratch: never `'not match'`,
      whatever was found. */
  function StatusOf(dataId: DataId, props: seq<string>, found: FoundItems): (r: LookupStatus)
    ensures r != NotMatch
  {
    if IdSatisfied(dataId, found) && PropsFound(props, found) then Match else Incomplete
  }

  /** A matching file has every needed key. */
  lemma {:induction false} MatchHasNeededKeys(dataId: DataId, props: seq<string>, found: FoundItems, k: string)
    requires StatusOf(dataId, props, found) == Match
    requires k in props || k in dataId
    ensures k in found
  {
    if k !in dataId {
      var i :| 0 <= i < |props| && props[i] == k;
    }
  }

  /** `PosixRegistry.LookupData`: the match state of one file against a
      data id and the properties the lookup returns. */
  class LookupData {
    var dataId: DataId
    var lookupProperties: seq<string>
    var foundItems: FoundItems
    var cachedStatus: Option<LookupStatus>
    var neededKeys: set<string>

    /** The cache holds the status of the current found items, and the
        needed keys are the properties and the data id keys. */
    predicate Valid()
      reads this
    {
      && (cachedStatus.Some? ==> cachedStatus.value == StatusOf(dataId, lookupProperties, foundItems))
      && neededKeys == (set p | p in lookupProperties) + dataId.Keys
    }

    constructor(props: LookupProperties, id: DataId)
      ensures Valid()
      ensures dataId == id && lookupProperties == PropNames(props)
      ensures foundItems == map[] && cachedStatus == None
      ensures neededKeys == (set p | p in PropNames(props)) + id.Keys
    {
      dataId := id;
      lookupProperties := PropNames(props);
      foundItems := map[];
      cachedStatus := None;
      neededKeys := (set p | p in PropNames(props)) + id.Keys;
    }

    /** `status()`: the cached status, or else one pass over the data id
        keys and, while still matching, over the lookup properties; the
        result is cached. */
    method Status() returns (r: LookupStatus)
      requires Valid()
      modifies this
      ensures Valid()
      ensures r == StatusOf(dataId, lookupProperties, foundItems)
      ensures cachedStatus == Some(r)
      ensures dataId == old(dataId) && lookupProperties == old(lookupProperties)
      ensures foundItems == old(foundItems) && neededKeys == old(neededKeys)
    {
      if cachedStatus.Some? {
        return cachedStatus.value;
      }
      cachedStatus := Some(Match);
      var keys := dataId.Keys;
      while keys != {}
        invariant dataId == old(dataId) && lookupProperties == old(lookupProperties)
        invariant foundItems == old(foundItems) && neededKeys == old(neededKeys)
        invariant keys <= dataId.Keys
        invariant cachedStatus == Some(if forall k :: k in dataId && k !in keys ==> k in foundItems && PyEq(dataId[k], foundItems[k])
                                       then Match else Incomplete)
        decreases keys
      {
        var key :| key in keys;
        if key !in foundItems {
          cachedStatus := Some(Incomplete);
        } else if !PyEq(dataId[key], foundItems[key]) {
          cachedStatus := Some(Incomplete);
        }
        keys := keys - {key};
      }
      if cachedStatus == Some(Match) {
        for i := 0 to |lookupProperties|
          invariant dataId == old(dataId) && lookupProperties == old(lookupProperties)
          invariant foundItems == old(foundItems) && neededKeys == old(neededKeys)
          invariant cachedStatus == Some(Match)
          invariant forall j :: 0 <= j < i ==> lookupProperties[j] in foundItems
        {
          if lookupProperties[i] !in foundItems {
            cachedStatus := Some(Incomplete);
            break;
          }
        }
      }
      return cachedStatus.value;
    }

    /** `setFoundItems(items)`: replaces what was found and drops the cache. */
    method SetFoundItems(items: FoundItems)
      requires Valid()
      modifies this
      ensures Valid()
      ensures foundItems == items && cachedStatus == None
      ensures dataId == old(dataId) && lookupProperties == old(lookupProperties) && neededKeys == old(neededKeys)
    {
      cachedStatus := None;
      foundItems := items;
    }

    /** `addFoundItems(items)`: merges `items` into what was found (a new
        value wins) and drops the cache. */
    method AddFoundItems(items: FoundItems)
      requires Valid()
      modifies this
      ensures Valid()
      ensures foundItems == old(foundItems) + items && cachedStatus == None
      ensures dataId == old(dataId) && lookupProperties == old(lookupProperties) && neededKeys == old(neededKeys)
    {
      cachedStatus := None;
      foundItems := foundItems + items;
    }

    /** `getMissingKeys()`: the properties and data id keys not found yet. */
    function GetMissingKeys(): (r: set<string>)
      requires Valid()
      reads this
      ensures forall k :: k in r <==> (k in lookupProperties || k in dataId) && k !in foundItems
    {
      neededKeys - foundItems.Keys
    }
  }

  // ---------------------------------------------------------------------
  // lookup

  /** The FITS headers of one file, given its path and the HDU number:
      None when the file cannot be opened; otherwise, per key, the value of
      the indicated HDU's header, or else the primary HDU's (a key neither
      header holds is absent). */
  type Headers = (string, Option<PyValue>) -> Option<FoundItems>

  /** The keys `getMissingKeys()` reports for these found items. */
  function MissingKeys(dataId: DataId, props: seq<string>, found: FoundItems): (r: set<string>)
    ensures forall k :: k in r <==> (k in props || k in dataId) && k !in found
  {
    ((set p | p in props) + dataId.Keys) - found.Keys
  }

  /** What `lookupFitsMetadata` adds: nothing when the file cannot be
      opened; otherwise every missing key, with its header value or None. */
  function FitsItems(missing: set<string>, headers: Option<FoundItems>): (r: FoundItems)
    ensures headers.None? ==> r == map[]
    ensures headers.Some? ==> r.Keys == missing
    ensures headers.Some? ==> forall k :: k in missing && k in headers.value ==> r[k] == headers.value[k]
    ensures headers.Some? ==> forall k :: k in missing && k !in headers.value ==> r[k] == PyNone
  {
    match headers
    case None => map[]
    case Some(h) => map k | k in missing :: if k in h then h[k] else PyNone
  }

  /** One row of the result: the found value of each lookup property. */
  function Row(props: seq<string>, found: FoundItems): (r: seq<PyValue>)
    requires PropsFound(props, found)
  {
    seq(|props|, i requires 0 <= i < |props| => found[props[i]])
  }

  /** The items a scanned file ends with: its parsed fields, and, when those
      do not match and the storage is `'FitsStorage'`, the header values of
      the file at `join(root, path)` for the keys still missing. */
  function Settled(root: string, template: string, storage: Option<string>, dataId: DataId, props: seq<string>,
                   path: string, found: FoundItems, headers: Headers): (r: FoundItems)
    ensures storage != Some("FitsStorage") ==> r == found
    ensures forall k :: k in found ==> k in r && r[k] == found[k]
    ensures forall k :: k in r ==> k in found || k in MissingKeys(dataId, props, found)
  {
    if StatusOf(dataId, props, found) == Incomplete && storage == Some("FitsStorage")
    then found + FitsItems(MissingKeys(dataId, props, found), headers(Join(root, path), GetHduNumber(template, dataId)))
    else found
  }

  /** The rows of the scanned files, in scan order. */
  function Lookups(root: string, template: string, storage: Option<string>, dataId: DataId, props: seq<string>,
                   paths: seq<(string, FoundItems)>, headers: Headers): (rows: seq<seq<PyValue>>)
    ensures |rows| <= |paths|
    ensures forall j :: 0 <= j < |rows| ==> |rows[j]| == |props|
  {
    if paths == [] then []
    else
      var found := Settled(root, template, storage, dataId, props, paths[0].0, paths[0].1, headers);
      (if StatusOf(dataId, props, found) == Match then [Row(props, found)] else [])
        + Lookups(root, template, storage, dataId, props, paths[1..], headers)
  }

  /** `lookupFitsMetadata`: unless the file cannot be opened, each key
      missing at the start gets its header value, or None, one
      `addFoundItems` call per key. The HDU number is looked up in the
      lookup's data id (the corrected call of the Findings). */
  method LookupFitsMetadata(filepath: string, template: string, lookupData: LookupData, headers: Headers)
    requires lookupData.Valid()
    modifies lookupData
    ensures lookupData.Valid()
    ensures var h := headers(filepath, GetHduNumber(template, old(lookupData.dataId)));
            var missing := MissingKeys(old(lookupData.dataId), old(lookupData.lookupProperties), old(lookupData.foundItems));
            && lookupData.foundItems == old(lookupData.foundItems) + FitsItems(missing, h)
            && lookupData.cachedStatus == if h.Some? && missing != {} then None else old(lookupData.cachedStatus)
    ensures lookupData.dataId == old(lookupData.dataId) && lookupData.lookupProperties == old(lookupData.lookupProperties)
    ensures lookupData.neededKeys == old(lookupData.neededKeys)
  {
    var h := headers(filepath, GetHduNumber(template, lookupData.dataId));
    if h.None? {
      return;
    }
    var missing := lookupData.GetMissingKeys();
    assert missing == MissingKeys(lookupData.dataId, lookupData.lookupProperties, lookupData.foundItems);
    AddHeaderValues(lookupData, missing, h.value);
  }

  /** The loop of `lookupFitsMetadata`: one `addFoundItems` call per
      missing key, with the header value or None. */
  method AddHeaderValues(lookupData: LookupData, missing: set<string>, h: FoundItems)
    requires lookupData.Valid()
    modifies lookupData
    ensures lookupData.Valid()
    ensures lookupData.foundItems == old(lookupData.foundItems) + FitsItems(missing, Some(h))
    ensures lookupData.cachedStatus == if missing != {} then None else old(lookupData.cachedStatus)
    ensures lookupData.dataId == old(lookupData.dataId) && lookupData.lookupProperties == old(lookupData.lookupProperties)
    ensures lookupData.neededKeys == old(lookupData.neededKeys)
  {
    ghost var items := FitsItems(missing, Some(h));
    ghost var done: FoundItems := map[];
    var todo := missing;
    while todo != {}
      invariant lookupData.Valid()
      invariant todo <= missing
      invariant lookupData.dataId == old(lookupData.dataId) && lookupData.lookupProperties == old(lookupData.lookupProperties)
      invariant lookupData.neededKeys == old(lookupData.neededKeys)
      invariant done.Keys == missing - todo
      invariant forall k :: k in done ==> done[k] == items[k]
      invariant lookupData.foundItems == old(lookupData.foundItems) + done
      invariant lookupData.cachedStatus == if todo == missing then old(lookupData.cachedStatus) else None
      decreases todo
    {
      var property :| property in todo;
      var value := if property in h then h[property] else PyNone;
      MergeOne(lookupData.foundItems, old(lookupData.foundItems), done, property, value);
      lookupData.AddFoundItems(map[property := value]);
      done := done[property := value];
      todo := todo - {property};
    }
    SameItems(done, items);
  }

  /** Adding one item after a merge is merging the extended map. */
  lemma MergeOne(found: FoundItems, start: FoundItems, done: FoundItems, k: string, v: PyValue)
    requires found == start + done
    ensures found + map[k := v] == start + done[k := v]
  {
  }

  lemma SameItems(a: FoundItems, b: FoundItems)
    requires a.Keys == b.Keys && forall k :: k in a ==> a[k] == b[k]
    ensures a == b
  {
  }

  /** `lookupMetadata`: only the `'FitsStorage'` storage consults the
      file's headers. */
  method LookupMetadata(filepath: string, template: string, lookupData: LookupData, storage: Option<string>,
                        headers: Headers)
    requires lookupData.Valid()
    modifies lookupData
    ensures lookupData.Valid()
    ensures storage == Some("FitsStorage") ==>
              lookupData.foundItems == old(lookupData.foundItems)
                + FitsItems(MissingKeys(old(lookupData.dataId), old(lookupData.lookupProperties), old(lookupData.foundItems)),
                            headers(filepath, GetHduNumber(template, old(lookupData.dataId))))
    ensures storage != Some("FitsStorage") ==>
              lookupData.foundItems == old(lookupData.foundItems) && lookupData.cachedStatus == old(lookupData.cachedStatus)
    ensures lookupData.dataId == old(lookupData.dataId) && lookupData.lookupProperties == old(lookupData.lookupProperties)
    ensures lookupData.neededKeys == old(lookupData.neededKeys)
  {
    if storage == Some("FitsStorage") {
      LookupFitsMetadata(filepath, template, lookupData, headers);
    }
  }

  /** The body of `lookup`'s loop for one scanned file: its parsed fields
      replace the found items, the metadata is consulted when they do not
      match, and a matching file gives its row. */
  method JudgeFile(root: string, template: string, storage: Option<string>, lookupData: LookupData,
                   path: string, found: FoundItems, headers: Headers) returns (row: Option<seq<PyValue>>)
    requires lookupData.Valid()
    modifies lookupData
    ensures lookupData.Valid()
    ensures lookupData.dataId == old(lookupData.dataId) && lookupData.lookupProperties == old(lookupData.lookupProperties)
    ensures lookupData.neededKeys == old(lookupData.neededKeys)
    ensures var settled := Settled(root, template, storage, lookupData.dataId, lookupData.lookupProperties, path, found, headers);
            && lookupData.foundItems == settled
            && lookupData.cachedStatus == Some(StatusOf(lookupData.dataId, lookupData.lookupProperties, settled))
    ensures var settled := Settled(root, template, storage, lookupData.dataId, lookupData.lookupProperties, path, found, headers);
            row == if StatusOf(lookupData.dataId, lookupData.lookupProperties, settled) == Match
                   then Some(Row(lookupData.lookupProperties, settled)) else None
  {
    lookupData.SetFoundItems(found);
    var st := lookupData.Status();
    if st == Incomplete {
      LookupMetadata(Join(root, path), template, lookupData, storage, headers);
    }
    st := lookupData.Status();
    if st == Match {
      var l := Row(lookupData.lookupProperties, lookupData.foundItems);
      return Some(l);
    }
    return None;
  }

  /** `PosixRegistry.lookup`: with no `template` keyword, no rows; a
      `template` of None fails in the scanner's constructor
      (`None.endswith`); otherwise one row per scanned file that ends up
      matching, in scan order. `allPaths` is what scanning the root with
      the template yields (the `FsScanner` result, in its iteration order). */
  method Lookup(root: string, props: LookupProperties, dataId: DataId, template: Slot<string>, storage: Option<string>,
                allPaths: seq<(string, FoundItems)>, headers: Headers) returns (r: Result<seq<seq<PyValue>>>)
    ensures template.Missing? ==> r == Ok([])
    ensures template.Null? ==> r == Err(AttributeError("endswith"))
    ensures template.Value? ==> r == Ok(Lookups(root, template.v, storage, dataId, PropNames(props), allPaths, headers))
  {
    if template.Missing? {
      return Ok([]);
    }
    var lookupData := new LookupData(props, dataId);
    if template.Null? {
      return Err(AttributeError("endswith"));
    }
    var t := template.v;
    var retItems := [];
    assert allPaths[0..] == allPaths;
    for i := 0 to |allPaths|
      invariant lookupData.Valid()
      invariant lookupData.dataId == dataId && lookupData.lookupProperties == PropNames(props)
      invariant Lookups(root, t, storage, dataId, PropNames(props), allPaths, headers)
             == retItems + Lookups(root, t, storage, dataId, PropNames(props), allPaths[i..], headers)
    {
      LookupsStep(root, t, storage, dataId, PropNames(props), allPaths, headers, i);
      var row := JudgeFile(root, t, storage, lookupData, allPaths[i].0, allPaths[i].1, headers);
      ghost var here := if row.Some? then [row.value] else [];
      ghost var before := retItems;
      if row.Some? {
        retItems := retItems + [row.value];
      }
      ghost var rest := Lookups(root, t, storage, dataId, PropNames(props), allPaths[i + 1..], headers);
      assert Lookups(root, t, storage, dataId, PropNames(props), allPaths[i..], headers) == here + rest;
      assert retItems == before + here;
      RowsAssoc(before, here, rest);
    }
    assert Lookups(root, t, storage, dataId, PropNames(props), allPaths[|allPaths|..], headers) == [];
    assert retItems + [] == retItems;
    return Ok(retItems);
  }

  lemma RowsAssoc(a: seq<seq<PyValue>>, b: seq<seq<PyValue>>, c: seq<seq<PyValue>>)
    ensures (a + b) + c == a + (b + c)
  {
  }

  lemma LookupsStep(root: string, template: string, storage: Option<string>, dataId: DataId, props: seq<string>,
                    paths: seq<(string, FoundItems)>, headers: Headers, i: nat)
    requires i < |paths|
    ensures var found := Settled(root, template, storage, dataId, props, paths[i].0, paths[i].1, headers);
            Lookups(root, template, storage, dataId, props, paths[i..], headers)
            == (if StatusOf(dataId, props, found) == Match then [Row(props, found)] else [])
               + Lookups(root, template, storage, dataId, props, paths[i + 1..], headers)
  {
    assert paths[i..][0] == paths[i] && paths[i..][1..] == paths[i + 1..];
  }

  /** Each scanned file is judged on its own items: a row is produced for
      file `k` exactly when its settled items match, and it lists those
      items' values in property order. */
  lemma {:induction false} LookupRows(root: string, template: string, storage: Option<string>, dataId: DataId,
                                      props: seq<string>, paths: seq<(string, FoundItems)>, headers: Headers,
                                      row: seq<PyValue>)
    ensures row in Lookups(root, template, storage, dataId, props, paths, headers) <==>
              exists k :: 0 <= k < |paths| &&
                var found := Settled(root, template, storage, dataId, props, paths[k].0, paths[k].1, headers);
                StatusOf(dataId, props, found) == Match && row == Row(props, found)
  {
    if paths != [] {
      LookupRows(root, template, storage, dataId, props, paths[1..], headers, row);
      forall k | 1 <= k < |paths| ensures paths[1..][k - 1] == paths[k] {
      }
      var found := Settled(root, template, storage, dataId, props, paths[0].0, paths[0].1, headers);
      if StatusOf(dataId, props, found) == Match && row == Row(props, found) {
        assert row in Lookups(root, template, storage, dataId, props, paths, headers);
      }
    }
  }

  /** The headers only fill keys that are missing: a parsed field is never
      overwritten, so a file whose parsed field contradicts the data id
      gives no row, whatever its headers hold. */
  lemma ContradictingFieldNoRow(root: string, template: string, storage: Option<string>, dataId: DataId,
                                props: seq<string>, path: string, found: FoundItems, headers: Headers, k: string)
    requires k in dataId && k in found && !PyEq(dataId[k], found[k])
    ensures var settled := Settled(root, template, storage, dataId, props, path, found, headers);
            && k in settled && settled[k] == found[k]
            && StatusOf(dataId, props, settled) == Incomplete
  {
    var settled := Settled(root, template, storage, dataId, props, path, found, headers);
    assert k !in MissingKeys(dataId, props, found);
    assert settled[k] == found[k];
  }

  /** A file that lacks neither a property nor a data id key gains nothing
      from its headers. */
  lemma CompleteFileUnchanged(root: string, template: string, storage: Option<string>, dataId: DataId,
                              props: seq<string>, path: string, found: FoundItems, headers: Headers)
    requires MissingKeys(dataId, props, found) == {}
    ensures Settled(root, template, storage, dataId, props, path, found, headers) == found
  {
    var h := headers(Join(root, path), GetHduNumber(template, dataId));
    assert FitsItems({}, h) == map[];
  }

  /** The registry test's third case: a single property name (`'filter'`
      without a trailing comma), `ccd` 1 in the data id and the
      `'FitsStorage'` storage select the two files with `ccd` 1, in scan
      order, as one-value rows, whatever the files' headers hold. */
  lemma LookupSingleName(root: string, headers: Headers)
    ensures var paths := [("foo-01-g.fits", map["ccd" := PyInt(1), "filter" := PyStr("g")]),
                          ("foo-02-g.fits", map["ccd" := PyInt(2), "filter" := PyStr("g")]),
                          ("foo-01-h.fits", map["ccd" := PyInt(1), "filter" := PyStr("h")])];
            Lookups(root, "foo-%(ccd)02d-%(filter)s.fits", Some("FitsStorage"), map["ccd" := PyInt(1)],
                    PropNames(Name("filter")), paths, headers)
            == [[PyStr("g")], [PyStr("h")]]
  {
    var paths := [("foo-01-g.fits", map["ccd" := PyInt(1), "filter" := PyStr("g")]),
                  ("foo-02-g.fits", map["ccd" := PyInt(2), "filter" := PyStr("g")]),
                  ("foo-01-h.fits", map["ccd" := PyInt(1), "filter" := PyStr("h")])];
    var t, st, id, ps := "foo-%(ccd)02d-%(filter)s.fits", Some("FitsStorage"), map["ccd" := PyInt(1)], ["filter"];
    assert PropNames(Name("filter")) == ps;
    assert StatusOf(id, ps, paths[0].1) == Match;
    assert StatusOf(id, ps, paths[2].1) == Match;
    ContradictingFieldNoRow(root, t, st, id, ps, paths[1].0, paths[1].1, headers, "ccd");
    assert Row(ps, paths[0].1) == [PyStr("g")];
    assert Row(ps, paths[2].1) == [PyStr("h")];
    LookupsStep(root, t, st, id, ps, paths, headers, 0);
    LookupsStep(root, t, st, id, ps, paths, headers, 1);
    LookupsStep(root, t, st, id, ps, paths, headers, 2);
    assert paths[0..] == paths && paths[3..] == [];
  }
}
