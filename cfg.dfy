/** `CfgHelper`: binding a configuration dictionary to a callable's
    declared parameters, and splitting a dotted type name into its package
    and class name. */
module Cfg {
  import opened Wrappers
  import opened PyStr

  /** What `inspect.getargspec` reports that the binder uses: the declared
      parameter names in order and, when some have defaults, how many
      (the defaults always belong to the last parameters). */
  datatype ArgSpec = ArgSpec(args: seq<string>, defaults: Option<nat>)
  {
    predicate Valid() {
      defaults.Some? ==> defaults.value <= |args|
    }
  }

  /** `CfgHelper.defaultArgsToIgnore`. */
  const DefaultArgsToIgnore: set<string> := {"self", "cls"}

  /** The parameters without a default: the first
      `len(args) - len(defaults)` names, or all of them. */
  function RequiredArgs(spec: ArgSpec): (r: seq<string>)
    requires spec.Valid()
    ensures spec.defaults.None? ==> r == spec.args
    ensures spec.defaults.Some? ==> |r| == |spec.args| - spec.defaults.value
    ensures r == spec.args[..|r|]
  {
    if spec.defaults.None? then spec.args
    else spec.args[..|spec.args| - spec.defaults.value]
  }

  function MissingMessage(arg: string): string {
    "Missing argument:" + arg
  }

  /** Parameter `a` is one the binder must report: not ignored, absent
      from `cfg` and without a default. */
  predicate MissingRequired<V>(a: string, required: seq<string>, cfg: map<string, V>, ignored: set<string>) {
    a !in ignored && a !in cfg && a in required
  }

  /** The binding loop from parameter `i` on, with `acc` the entries bound
      so far. */
  function BindFrom<V>(args: seq<string>, required: seq<string>, cfg: map<string, V>,
                       ignored: set<string>, i: nat, acc: map<string, V>): Result<map<string, V>>
    requires i <= |args|
    decreases |args| - i
  {
    if i == |args| then Ok(acc)
    else
      var a := args[i];
      if a in ignored then BindFrom(args, required, cfg, ignored, i + 1, acc)
      else if a in cfg then BindFrom(args, required, cfg, ignored, i + 1, acc[a := cfg[a]])
      else if a in required then Err(RuntimeError(MissingMessage(a)))
      else BindFrom(args, required, cfg, ignored, i + 1, acc)
  }

  /** What `CfgHelper.getFuncArgs(func, cfg, ignoredKeys)` returns or raises. */
  function FuncArgs<V>(spec: ArgSpec, cfg: map<string, V>, ignored: set<string>): Result<map<string, V>>
    requires spec.Valid()
  {
    BindFrom(spec.args, RequiredArgs(spec), cfg, ignored, 0, map[])
  }

  /** `CfgHelper.getFuncArgs`: one pass over the declared parameters,
      filling the result dictionary and raising at the first required
      parameter that `cfg` lacks. `cfg` is a value and cannot change. */
  method GetFuncArgs<V>(spec: ArgSpec, cfg: map<string, V>, ignored: set<string>)
      returns (r: Result<map<string, V>>)
    requires spec.Valid()
    ensures r == FuncArgs(spec, cfg, ignored)
  {
    var required := RequiredArgs(spec);
    var ret: map<string, V> := map[];
    for i := 0 to |spec.args|
      invariant FuncArgs(spec, cfg, ignored) == BindFrom(spec.args, required, cfg, ignored, i, ret)
    {
      var arg := spec.args[i];
      if arg in ignored {
        continue;
      }
      if arg in cfg {
        ret := ret[arg := cfg[arg]];
      } else if arg in required {
        return Err(RuntimeError(MissingMessage(arg)));
      }
    }
    return Ok(ret);
  }

  /** The binder fails exactly when some parameter from `i` on is a missing
      required one. */
  lemma {:induction false} BindFailsIff<V>(args: seq<string>, required: seq<string>, cfg: map<string, V>,
                                           ignored: set<string>, i: nat, acc: map<string, V>)
    requires i <= |args|
    ensures BindFrom(args, required, cfg, ignored, i, acc).Err? <==>
            exists k :: i <= k < |args| && MissingRequired(args[k], required, cfg, ignored)
    decreases |args| - i
  {
    if i < |args| {
      var a := args[i];
      if a in ignored || a in cfg || a !in required {
        BindFailsIff(args, required, cfg, ignored, i + 1, if a !in ignored && a in cfg then acc[a := cfg[a]] else acc);
      } else {
        assert MissingRequired(args[i], required, cfg, ignored);
      }
    }
  }

  /** A failure names the first missing required parameter. */
  lemma {:induction false} BindFailureNamesFirst<V>(args: seq<string>, required: seq<string>, cfg: map<string, V>,
                                                   ignored: set<string>, i: nat, acc: map<string, V>)
    requires i <= |args|
    requires BindFrom(args, required, cfg, ignored, i, acc).Err?
    ensures exists k :: i <= k < |args| && MissingRequired(args[k], required, cfg, ignored)
              && (forall j :: i <= j < k ==> !MissingRequired(args[j], required, cfg, ignored))
              && BindFrom(args, required, cfg, ignored, i, acc).error == RuntimeError(MissingMessage(args[k]))
    decreases |args| - i
  {
    var a := args[i];
    if a in ignored || a in cfg || a !in required {
      var acc' := if a !in ignored && a in cfg then acc[a := cfg[a]] else acc;
      BindFailureNamesFirst(args, required, cfg, ignored, i + 1, acc');
      var k :| i + 1 <= k < |args| && MissingRequired(args[k], required, cfg, ignored)
                && (forall j :: i + 1 <= j < k ==> !MissingRequired(args[j], required, cfg, ignored))
                && BindFrom(args, required, cfg, ignored, i + 1, acc').error == RuntimeError(MissingMessage(args[k]));
      assert !MissingRequired(args[i], required, cfg, ignored);
    } else {
      assert MissingRequired(args[i], required, cfg, ignored);
    }
  }

  /** On success the result holds exactly the bound parameters found in
      `cfg` (besides what `acc` already held), each with its `cfg` value. */
  lemma {:induction false} BindContents<V>(args: seq<string>, required: seq<string>, cfg: map<string, V>,
                                          ignored: set<string>, i: nat, acc: map<string, V>)
    requires i <= |args|
    requires BindFrom(args, required, cfg, ignored, i, acc).Ok?
    ensures var m := BindFrom(args, required, cfg, ignored, i, acc).value;
            && m.Keys == acc.Keys + (set k | i <= k < |args| && args[k] !in ignored && args[k] in cfg :: args[k])
            && forall a :: a in m ==> m[a] == (if a in acc && a !in (set k | i <= k < |args| && args[k] !in ignored && args[k] in cfg :: args[k]) then acc[a] else cfg[a])
    decreases |args| - i
  {
    if i < |args| {
      var a := args[i];
      var acc' := if a !in ignored && a in cfg then acc[a := cfg[a]] else acc;
      BindContents(args, required, cfg, ignored, i + 1, acc');
      var later := set k | i + 1 <= k < |args| && args[k] !in ignored && args[k] in cfg :: args[k];
      var here := set k | i <= k < |args| && args[k] !in ignored && args[k] in cfg :: args[k];
      assert here == later + (if a !in ignored && a in cfg then {a} else {}) by {
        forall x | x in here ensures x in later + (if a !in ignored && a in cfg then {a} else {}) {
          var k :| i <= k < |args| && args[k] !in ignored && args[k] in cfg && args[k] == x;
          if k > i { assert x in later; }
        }
      }
    }
  }

  /** What `getFuncArgs` returns: exactly the non-ignored parameter names
      present in `cfg`, each bound to its `cfg` value; keys of `cfg` that
      name no parameter are dropped. */
  lemma FuncArgsContents<V>(spec: ArgSpec, cfg: map<string, V>, ignored: set<string>)
    requires spec.Valid()
    requires FuncArgs(spec, cfg, ignored).Ok?
    ensures var m := FuncArgs(spec, cfg, ignored).value;
            && m.Keys == (set a | a in spec.args && a !in ignored && a in cfg)
            && forall a :: a in m ==> m[a] == cfg[a]
  {
    var args := spec.args;
    BindContents(args, RequiredArgs(spec), cfg, ignored, 0, map[]);
    var s1 := set k | 0 <= k < |args| && args[k] !in ignored && args[k] in cfg :: args[k];
    var s2 := set a | a in args && a !in ignored && a in cfg;
    assert s1 == s2 by {
      forall a | a in s2 ensures a in s1 {
        var k :| 0 <= k < |args| && args[k] == a;
      }
    }
  }

  /** `getFuncArgs` raises exactly when some required, non-ignored
      parameter is absent from `cfg`; an ignored name never causes it. */
  lemma FuncArgsFailsIff<V>(spec: ArgSpec, cfg: map<string, V>, ignored: set<string>)
    requires spec.Valid()
    ensures FuncArgs(spec, cfg, ignored).Err? <==>
            exists a :: a in RequiredArgs(spec) && a !in ignored && a !in cfg
  {
    var args, required := spec.args, RequiredArgs(spec);
    BindFailsIff(args, required, cfg, ignored, 0, map[]);
    if exists a :: a in required && a !in ignored && a !in cfg {
      var a :| a in required && a !in ignored && a !in cfg;
      var k :| 0 <= k < |required| && required[k] == a;
      assert args[k] == a;
      assert MissingRequired(args[k], required, cfg, ignored);
    }
  }

  /** Only the parameter names of `cfg` matter: dropping every other key
      from `cfg` leaves the outcome unchanged. */
  lemma {:induction false} BindIgnoresOtherKeys<V>(args: seq<string>, required: seq<string>, cfg: map<string, V>,
                                                  ignored: set<string>, i: nat, acc: map<string, V>)
    requires i <= |args|
    ensures BindFrom(args, required, cfg, ignored, i, acc)
         == BindFrom(args, required, map a | a in cfg && a in args :: cfg[a], ignored, i, acc)
    decreases |args| - i
  {
    if i < |args| {
      var a := args[i];
      BindIgnoresOtherKeys(args, required, cfg, ignored, i + 1, if a !in ignored && a in cfg then acc[a := cfg[a]] else acc);
    }
  }

  /** With the default ignore set, the receiver names `self` and `cls`
      are never bound and never reported missing: a failure names some
      other required parameter, and a result never holds them, whatever
      `cfg` holds. */
  lemma DefaultIgnoresReceiver<V>(spec: ArgSpec, cfg: map<string, V>)
    requires spec.Valid()
    ensures var r := FuncArgs(spec, cfg, DefaultArgsToIgnore);
            && (r.Ok? ==> "self" !in r.value && "cls" !in r.value)
            && (r.Err? <==> exists a :: a in RequiredArgs(spec) && a != "self" && a != "cls" && a !in cfg)
  {
    FuncArgsFailsIff(spec, cfg, DefaultArgsToIgnore);
    if FuncArgs(spec, cfg, DefaultArgsToIgnore).Ok? {
      FuncArgsContents(spec, cfg, DefaultArgsToIgnore);
    }
  }

  /** A dotted class reference split the way `getModule` does before it
      imports: the package and the class name. */
  datatype ClassPath = ClassPath(package: string, className: string)

  /** The argument of `getModule`: a string, or any other Python value. */
  datatype TypeRef = TypeName(name: string) | NotAString

  /** `CfgHelper.getModule` up to the import: raises for a non-string;
      otherwise the class name is the stripped text after the last `.` and
      the package is everything before it (empty when there is no `.`). */
  function GetModule(t: TypeRef): (r: Result<ClassPath>)
    ensures r.Ok? <==> t.TypeName?
    ensures t.TypeName? && '.' !in t.name ==> r.value == ClassPath("", Strip(t.name))
    ensures t.TypeName? && '.' in t.name ==>
              var i := RFind(t.name, '.');
              r.value == ClassPath(t.name[..i], Strip(t.name[i + 1..]))
  {
    match t
    case NotAString => Err(RuntimeError("get_module requires a string argument"))
    case TypeName(s) =>
      var tokens := Split(s, '.');
      var r := Ok(ClassPath(JoinWith(tokens[..|tokens| - 1], '.'), Strip(tokens[|tokens| - 1])));
      SplitShape(s, '.');
      if '.' in s then SplitLast(s, '.'); r else r
  }
}
