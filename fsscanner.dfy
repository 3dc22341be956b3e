/** `FsScanner`: compiling a path template such as
    `%(visit)d/raw-%(visit)d-c%(ccd)03d.fits[%(hdu)d]` into a glob string,
    a regular expression string and a table of fields, and converting the
    fields a matched path yields.

    The substitution specs are found with the regular expression
    `%\((\w+)\).*?([dioueEfFgGcrs])`, modelled here by `MatchAt`/`Matches`:
    a `%(`, a maximal non-empty run of word characters (`[A-Za-z0-9_]`,
    Python 2 without the UNICODE flag), `)`, then the shortest run of
    non-newline characters up to the first conversion character.
 */
module FsScanner {
  import opened Wrappers
  import opened PyStr
  import opened Location

  // ---------------------------------------------------------------------
  // Finding the substitution specs

  predicate IsWordChar(c: char) {
    ('a' <= c <= 'z') || ('A' <= c <= 'Z') || ('0' <= c <= '9') || c == '_'
  }

  /** The conversion characters the pattern accepts. */
  const ConvChars: string := "dioueEfFgGcrs"

  /** The length of the run of word characters starting at `j`. */
  function WordRun(s: string, j: nat): (w: nat)
    ensures j + w <= |s| || (j >= |s| && w == 0)
    decreases |s| - j
  {
    if j < |s| && IsWordChar(s[j]) then 1 + WordRun(s, j + 1) else 0
  }

  /** The run is maximal: word characters only, and none right after it. */
  lemma {:induction false} WordRunShape(s: string, j: nat)
    ensures forall k :: j <= k < j + WordRun(s, j) ==> IsWordChar(s[k])
    ensures j + WordRun(s, j) < |s| ==> !IsWordChar(s[j + WordRun(s, j)])
    decreases |s| - j
  {
    if j < |s| && IsWordChar(s[j]) {
      WordRunShape(s, j + 1);
    }
  }

  /** The index of the first conversion character at or after `j`,
      provided no newline comes before it (`.` does not match a newline). */
  function ConvFrom(s: string, j: nat): (r: Option<nat>)
    ensures r.Some? ==> j <= r.value < |s|
    decreases |s| - j
  {
    if j >= |s| then None
    else if s[j] in ConvChars then Some(j)
    else if s[j] == '\n' then None
    else ConvFrom(s, j + 1)
  }

  /** The character found is the first conversion character, with no
      newline before it. */
  lemma {:induction false} ConvFromShape(s: string, j: nat)
    requires ConvFrom(s, j).Some?
    ensures s[ConvFrom(s, j).value] in ConvChars
    ensures forall k :: j <= k < ConvFrom(s, j).value ==> s[k] !in ConvChars && s[k] != '\n'
    decreases |s| - j
  {
    if s[j] !in ConvChars {
      ConvFromShape(s, j + 1);
    }
  }

  /** One match of the spec pattern: `s[start..end]`, with its field name
      (group 1) and conversion character (group 2). */
  datatype Spec = Spec(start: nat, end: nat, name: string, conv: char)

  /** The match of the spec pattern that starts at `i`, if any. */
  function MatchAt(s: string, i: nat): (r: Option<Spec>)
    ensures r.Some? ==> r.value.start == i && i + 5 <= r.value.end <= |s|
  {
    if i + 1 < |s| && s[i] == '%' && s[i + 1] == '(' then
      var w := WordRun(s, i + 2);
      var j := i + 2 + w;
      if w == 0 || j >= |s| || s[j] != ')' then None
      else
        match ConvFrom(s, j + 1)
        case None => None
        case Some(k) => Some(Spec(i, k + 1, s[i + 2..j], s[k]))
    else None
  }

  /** A match is `%(`, the name, `)`, then text up to the conversion
      character that ends it. */
  lemma MatchAtShape(s: string, i: nat)
    requires MatchAt(s, i).Some?
    ensures var m := MatchAt(s, i).value;
            && s[i] == '%' && s[i + 1] == '('
            && |m.name| >= 1 && i + 3 + |m.name| <= m.end
            && s[i + 2..i + 2 + |m.name|] == m.name
            && (forall c :: c in m.name ==> IsWordChar(c))
            && s[i + 2 + |m.name|] == ')'
            && m.conv == s[m.end - 1] && m.conv in ConvChars
            && (forall k :: i + 3 + |m.name| <= k < m.end - 1 ==> s[k] !in ConvChars && s[k] != '\n')
  {
    var w := WordRun(s, i + 2);
    WordRunShape(s, i + 2);
    ConvFromShape(s, i + 3 + w);
    var m := MatchAt(s, i).value;
    assert m.name == s[i + 2..i + 2 + w];
    forall c | c in m.name ensures IsWordChar(c) {
      var k :| 0 <= k < w && m.name[k] == c;
      assert s[i + 2 + k] == c;
    }
  }

  /** The leftmost match starting at or after `p`. */
  function NextMatch(s: string, p: nat): (r: Option<Spec>)
    ensures r.Some? ==> p <= r.value.start && r.value.start < r.value.end <= |s|
    ensures r.Some? ==> MatchAt(s, r.value.start) == r
    decreases |s| - p
  {
    if p >= |s| then None
    else if MatchAt(s, p).Some? then MatchAt(s, p)
    else NextMatch(s, p + 1)
  }

  /** The match found is the leftmost one: no match starts between `p`
      and it. */
  lemma {:induction false} NextMatchLeftmost(s: string, p: nat)
    requires NextMatch(s, p).Some?
    ensures forall k :: p <= k < NextMatch(s, p).value.start ==> MatchAt(s, k).None?
    decreases |s| - p
  {
    if MatchAt(s, p).None? {
      NextMatchLeftmost(s, p + 1);
      LeftmostCons(s, p);
    }
  }

  lemma LeftmostCons(s: string, p: nat)
    requires NextMatch(s, p).Some? && MatchAt(s, p).None?
    requires NextMatch(s, p + 1).Some?
    requires forall k :: p + 1 <= k < NextMatch(s, p + 1).value.start ==> MatchAt(s, k).None?
    ensures forall k :: p <= k < NextMatch(s, p).value.start ==> MatchAt(s, k).None?
  {
    assert NextMatch(s, p) == NextMatch(s, p + 1);
  }

  /** Without a result, no match starts at or after `p`. */
  lemma {:induction false} NextMatchNone(s: string, p: nat)
    requires NextMatch(s, p).None?
    ensures forall k :: p <= k ==> MatchAt(s, k).None?
    decreases |s| - p
  {
    if p >= |s| {
      forall k | p <= k ensures MatchAt(s, k).None? {
        NoMatchPastEnd(s, k);
      }
    } else {
      NextMatchNone(s, p + 1);
    }
  }

  lemma NoMatchPastEnd(s: string, k: nat)
    requires k >= |s|
    ensures MatchAt(s, k).None?
  {
  }

  /** `fmt.finditer(s)` from position `p`: successive non-overlapping
      leftmost matches. */
  function Matches(s: string, p: nat): seq<Spec>
    decreases |s| - p
  {
    match NextMatch(s, p)
    case None => []
    case Some(m) => [m] + Matches(s, m.end)
  }

  // ---------------------------------------------------------------------
  // The template compiler

  /** The trailing HDU suffix `[...]` is cut at the last `[`; a template
      that ends in `]` without any `[` loses its last character (Python's
      `t[0:-1]`). */
  function Trimmed(t: string): (r: string)
    ensures !EndsWith(t, "]") ==> r == t
    ensures EndsWith(t, "]") && '[' in t ==> r == t[..RFind(t, '[')]
    ensures EndsWith(t, "]") && '[' !in t ==> r == t[..|t| - 1]
  {
    if EndsWith(t, "]") then Slice(t, 0, RFind(t, '[')) else t
  }

  /** The three Python types a field converts to. */
  datatype FieldType = StrField | FloatField | IntField

  function KindOf(conv: char): FieldType {
    if conv in "crs" then StrField
    else if conv in "eEfFgG" then FloatField
    else IntField
  }

  /** One entry of `self.fields`. */
  datatype Field = Field(pos: nat, fieldType: FieldType)

  /** The named group `reString` gets for a field. */
  function GroupPattern(name: string, kind: FieldType): string {
    match kind
    case StrField => "(?P<" + name + ">.+)"
    case FloatField => "(?P<" + name + ">[\\d.eE+-]+)"
    case IntField => "(?P<" + name + ">[\\d+-]+)"
  }

  /** The loop variables of the compiler. */
  datatype Compiled = Compiled(fields: map<string, Field>, reString: string, n: nat, pos: nat, last: int)

  const Start := Compiled(map[], "", 0, 0, 0)

  /** `name` with `_j` appended. */
  function Candidate(name: string, j: nat): string {
    name + "_" + DecimalString(j)
  }

  /** The name a spec `m` is stored under, and the counter after it: its
      own name, or, when that is already a field, the name with `_n`
      appended for the shared counter `n`, which advances. With `fix`,
      counter values whose name is itself a field are skipped: the
      corrected renaming. */
  function Rename(st: Compiled, m: Spec, fix: bool): (string, nat) {
    if m.name !in st.fields then (m.name, st.n)
    else if !fix then (Candidate(m.name, st.n), st.n + 1)
    else
      var j := FreshIndex(st.fields.Keys, m.name, st.n, st.n);
      (Candidate(m.name, j), j + 1)
  }

  function FieldName(st: Compiled, m: Spec, fix: bool): string {
    Rename(st, m, fix).0
  }

  /** One iteration of the compiler loop, for the spec `m`. */
  function Step(t: string, st: Compiled, m: Spec, fix: bool): Compiled {
    var name := FieldName(st, m, fix);
    var kind := KindOf(m.conv);
    Compiled(st.fields[name := Field(st.pos, kind)],
             st.reString + Slice(t, st.last, m.start) + GroupPattern(name, kind),
             Rename(st, m, fix).1,
             st.pos + 1,
             m.end)
  }

  /** The compiler loop over the specs `ms`, in order, from loop state `st`. */
  function FoldFrom(t: string, st: Compiled, ms: seq<Spec>, fix: bool): Compiled
    decreases |ms|
  {
    if ms == [] then st else FoldFrom(t, Step(t, st, ms[0], fix), ms[1..], fix)
  }

  /** One step of the constructor's loop, spelled out. */
  lemma StepAsWritten(t: string, st: Compiled, m: Spec)
    ensures var name := if m.name in st.fields then m.name + "_" + DecimalString(st.n) else m.name;
            var kind := KindOf(m.conv);
            Step(t, st, m, false)
            == Compiled(st.fields[name := Field(st.pos, kind)],
                        st.reString + Slice(t, st.last, m.start) + GroupPattern(name, kind),
                        if m.name in st.fields then st.n + 1 else st.n,
                        st.pos + 1,
                        m.end)
  {
  }

  /** Running the loop from spec `i` on is one step followed by the run
      from spec `i + 1` on. */
  lemma FoldFromDrop(t: string, st: Compiled, ms: seq<Spec>, i: nat)
    requires i < |ms|
    ensures FoldFrom(t, st, ms[i..], false) == FoldFrom(t, Step(t, st, ms[i], false), ms[i + 1..], false)
  {
    assert ms[i..][1..] == ms[i + 1..];
  }

  /** `fmt.sub('*', t)`: every spec replaced by `*`. */
  function GlobFrom(t: string, p: nat): string
    decreases |t| - p
  {
    match NextMatch(t, p)
    case None => if p <= |t| then t[p..] else ""
    case Some(m) => t[p..m.start] + "*" + GlobFrom(t, m.end)
  }

  /** What the constructor stores, as functions of the template. The glob
      string is the template's literal text with one `*` per spec. */
  function GlobString(template: string): (r: string)
    ensures var t := Trimmed(template);
            var ms := Matches(t, 0);
            r == FillPre(t, 0, ms, Stars(|ms|)) + Slice(t, LastEnd(0, ms), |t|)
  {
    GlobShape(Trimmed(template), 0);
    GlobFrom(Trimmed(template), 0)
  }

  /** The loop over the specs, as written: its fields are exactly the
      names stored and its counter is the number of clashes. */
  function Compile(template: string): (r: Compiled)
    ensures var t := Trimmed(template);
            var ms := Matches(t, 0);
            var ns := NamesFrom(t, Start, ms, false);
            && r.fields.Keys == Elems(ns)
            && r.n == ClashesBefore(ns, ms, |ms|)
  {
    var t := Trimmed(template);
    AsWrittenAll(t, Matches(t, 0));
    FoldFrom(t, Start, Matches(t, 0), false)
  }

  /** The regular expression is the template's literal text with each spec
      replaced by its field's named group. */
  function ReString(template: string): (r: string)
    ensures var t := Trimmed(template);
            var ms := Matches(t, 0);
            r == FillPre(t, 0, ms, Groups(NamesFrom(t, Start, ms, false), ms)) + Slice(t, LastEnd(0, ms), |t|)
  {
    var t := Trimmed(template);
    var st := Compile(template);
    ReStringFromStart(t, Matches(t, 0));
    st.reString + Slice(t, st.last, |t|)
  }

  /** `AsWrittenPrefix` for the whole spec list. */
  lemma AsWrittenAll(t: string, ms: seq<Spec>)
    ensures var ns := NamesFrom(t, Start, ms, false);
            var st := FoldFrom(t, Start, ms, false);
            && st.fields.Keys == Elems(ns)
            && st.n == ClashesBefore(ns, ms, |ms|)
  {
    AsWrittenPrefix(t, ms, |ms|);
    assert ms[..|ms|] == ms;
    assert NamesFrom(t, Start, ms, false)[..|ms|] == NamesFrom(t, Start, ms, false);
  }

  /** `ReStringShape` from the empty state. */
  lemma ReStringFromStart(t: string, ms: seq<Spec>)
    ensures var st := FoldFrom(t, Start, ms, false);
            && st.reString == FillPre(t, 0, ms, Groups(NamesFrom(t, Start, ms, false), ms))
            && st.last == LastEnd(0, ms)
  {
    ReStringShape(t, Start, ms, false);
    assert "" + FillPre(t, 0, ms, Groups(NamesFrom(t, Start, ms, false), ms))
        == FillPre(t, 0, ms, Groups(NamesFrom(t, Start, ms, false), ms));
  }

  /** The body of the constructor's loop for one spec `m`: rename on a
      clash, append the literal text since the previous spec and the named
      group, and record the field's position and type. */
  method CompileSpec(t: string, m: Spec, fs0: map<string, Field>, re0: string, n0: nat, pos0: nat, last0: int)
    returns (fs: map<string, Field>, re: string, n: nat, pos: nat, last: int)
    ensures Compiled(fs, re, n, pos, last) == Step(t, Compiled(fs0, re0, n0, pos0, last0), m, false)
  {
    fs, re, n, pos, last := fs0, re0, n0, pos0, last0;
    var fieldName := m.name;
    if fieldName in fs {
      fieldName := fieldName + "_" + DecimalString(n);
      n := n + 1;
    }
    var prefix := Slice(t, last, m.start);
    last := m.end;
    re := re + prefix;
    var kind := KindOf(m.conv);
    re := re + GroupPattern(fieldName, kind);
    fs := fs[fieldName := Field(pos, kind)];
    pos := pos + 1;
    StepAsWritten(t, Compiled(fs0, re0, n0, pos0, last0), m);
  }

  /** `FsScanner`: the compiled form of one path template. */
  class Scanner {
    var globString: string
    var reString: string
    var fields: map<string, Field>

    /** `FsScanner.__init__`: trim the HDU suffix, build the glob string,
        then one pass over the specs that extends the regular expression
        and records each field's position and type. */
    constructor (pathTemplate: string)
      ensures globString == GlobString(pathTemplate)
      ensures reString == ReString(pathTemplate)
      ensures fields == Compile(pathTemplate).fields
    {
      var t := pathTemplate;
      if EndsWith(t, "]") {
        t := Slice(t, 0, RFind(t, '['));
      }
      assert t == Trimmed(pathTemplate);
      globString := GlobFrom(t, 0);
      var ms := Matches(t, 0);
      var last: int := 0;
      var fs: map<string, Field> := map[];
      var re := "";
      var n: nat := 0;
      var pos: nat := 0;
      for i := 0 to |ms|
        invariant FoldFrom(t, Start, ms, false) == FoldFrom(t, Compiled(fs, re, n, pos, last), ms[i..], false)
      {
        FoldFromDrop(t, Compiled(fs, re, n, pos, last), ms, i);
        fs, re, n, pos, last := CompileSpec(t, ms[i], fs, re, n, pos, last);
      }
      assert Compiled(fs, re, n, pos, last) == Compile(pathTemplate) by {
        assert ms[|ms|..] == [];
      }
      re := re + Slice(t, last, |t|);
      reString := re;
      fields := fs;
    }

    /** `FsScanner.getFields`: a list as long as the field table, filled by
        writing each name at its position (in an unspecified key order);
        a position past the end raises IndexError. */
    method GetFields() returns (r: Result<seq<string>>)
      ensures r.Err? <==> exists f :: f in fields && fields[f].pos >= |fields|
      ensures r.Err? ==> r.error == IndexError
      ensures r.Ok? ==> |r.value| == |fields|
      ensures r.Ok? && DistinctPositions(fields) ==> forall f :: f in fields ==> r.value[fields[f].pos] == f
    {
      var fieldList := seq(|fields|, _ => "");
      var todo := fields.Keys;
      while todo != {}
        invariant todo <= fields.Keys && |fieldList| == |fields|
        invariant forall f :: f in fields.Keys - todo ==> fields[f].pos < |fields|
        invariant DistinctPositions(fields) ==> forall f :: f in fields.Keys - todo ==> fieldList[fields[f].pos] == f
        decreases |todo|
      {
        var f :| f in todo;
        if fields[f].pos >= |fieldList| {
          return Err(IndexError);
        }
        fieldList := fieldList[fields[f].pos := f];
        todo := todo - {f};
      }
      r := Ok(fieldList);
    }

    /** `isNumeric` / `isInt` / `isFloat`: the field's recorded type; an
        unknown name raises KeyError. */
    function IsNumeric(name: string): (r: Result<bool>)
      reads this
      ensures name !in fields <==> r == Err(KeyError(name))
      ensures r.Ok? ==> (r.value <==> fields[name].fieldType != StrField)
    {
      if name !in fields then Err(KeyError(name)) else Ok(fields[name].fieldType == FloatField || fields[name].fieldType == IntField)
    }

    function IsInt(name: string): (r: Result<bool>)
      reads this
      ensures name !in fields <==> r == Err(KeyError(name))
      ensures r.Ok? ==> (r.value <==> fields[name].fieldType == IntField)
    {
      if name !in fields then Err(KeyError(name)) else Ok(fields[name].fieldType == IntField)
    }

    function IsFloat(name: string): (r: Result<bool>)
      reads this
      ensures name !in fields <==> r == Err(KeyError(name))
      ensures r.Ok? ==> (r.value <==> fields[name].fieldType == FloatField)
    {
      if name !in fields then Err(KeyError(name)) else Ok(fields[name].fieldType == FloatField)
    }

    /** The conversion step of `processPath` for one matched path: starting
        from the match's group dict, every int field is replaced by
        `int(text)` and every float field by `float(text)` (`parseFloat`,
        external); string fields and other groups stay text. A numeric
        field without a group raises KeyError, a bad number ValueError. */
    method ConvertMatch(groups: map<string, string>, parseFloat: string -> Result<real>) returns (r: Result<DataId>)
      ensures r.Ok? <==> forall f :: f in fields && fields[f].fieldType != StrField ==>
                f in groups && ConvertField(fields[f].fieldType, groups[f], parseFloat).Ok?
      ensures r.Ok? ==> r.value.Keys == groups.Keys
      ensures r.Ok? ==> forall k :: k in groups ==>
                r.value[k] == if k in fields then ConvertField(fields[k].fieldType, groups[k], parseFloat).value else PyStr(groups[k])
    {
      var dataId: DataId := map k | k in groups :: PyStr(groups[k]);
      var todo := fields.Keys;
      while todo != {}
        invariant todo <= fields.Keys
        invariant forall f :: f in fields.Keys - todo && fields[f].fieldType != StrField ==>
                    f in groups && ConvertField(fields[f].fieldType, groups[f], parseFloat).Ok?
        invariant dataId.Keys == groups.Keys
        invariant forall k :: k in groups ==>
                    dataId[k] == if k in fields.Keys - todo then ConvertField(fields[k].fieldType, groups[k], parseFloat).value else PyStr(groups[k])
        decreases |todo|
      {
        var f :| f in todo;
        if fields[f].fieldType != StrField {
          if f !in dataId {
            return Err(KeyError(f));
          }
          var v := ConvertField(fields[f].fieldType, groups[f], parseFloat);
          if v.Err? {
            return Err(v.error);
          }
          dataId := dataId[f := v.value];
        }
        todo := todo - {f};
      }
      return Ok(dataId);
    }
  }

  /** `int(text)`, `float(text)` or the text itself, by field type. */
  function ConvertField(kind: FieldType, text: string, parseFloat: string -> Result<real>): (r: Result<PyValue>)
    ensures kind == StrField ==> r == Ok(PyStr(text))
    ensures kind == IntField ==> (r.Ok? <==> ParseInt(text).Ok?) && (r.Ok? ==> r.value == PyInt(ParseInt(text).value))
    ensures kind == FloatField ==> (r.Ok? <==> parseFloat(text).Ok?) && (r.Ok? ==> r.value == PyFloat(parseFloat(text).value))
  {
    match kind
    case IntField =>
      var v :- ParseInt(text);
      Ok(PyInt(v))
    case FloatField =>
      var v :- parseFloat(text);
      Ok(PyFloat(v))
    case StrField => Ok(PyStr(text))
  }

  /** A matched decimal is read back as the number it prints. */
  lemma ConvertDecimal(n: nat, parseFloat: string -> Result<real>)
    ensures ConvertField(IntField, DecimalString(n), parseFloat) == Ok(PyInt(n))
  {
    ParseIntDecimal(n);
  }

  /** No two fields share a position. */
  ghost predicate DistinctPositions(fields: map<string, Field>) {
    forall f, g :: f in fields && g in fields && f != g ==> fields[f].pos != fields[g].pos
  }

  // ---------------------------------------------------------------------
  // What the compiler produces

  lemma {:induction false} FoldFromSnoc(t: string, st: Compiled, ms: seq<Spec>, m: Spec, fix: bool)
    ensures FoldFrom(t, st, ms + [m], fix) == Step(t, FoldFrom(t, st, ms, fix), m, fix)
    decreases |ms|
  {
    if ms != [] {
      assert (ms + [m])[1..] == ms[1..] + [m];
      FoldFromSnoc(t, Step(t, st, ms[0], fix), ms[1..], m, fix);
    } else {
      assert [m][1..] == [];
    }
  }

  /** The names fields are stored under, spec by spec. */
  function NamesFrom(t: string, st: Compiled, ms: seq<Spec>, fix: bool): (ns: seq<string>)
    ensures |ns| == |ms|
    decreases |ms|
  {
    if ms == [] then [] else [FieldName(st, ms[0], fix)] + NamesFrom(t, Step(t, st, ms[0], fix), ms[1..], fix)
  }

  /** The template's literal text from `p` on, with the `k`-th spec
      replaced by `fillers[k]` (the text after the last spec excluded). */
  function FillPre(t: string, p: int, ms: seq<Spec>, fillers: seq<string>): string
    requires |fillers| == |ms|
    decreases |ms|
  {
    if ms == [] then "" else Slice(t, p, ms[0].start) + fillers[0] + FillPre(t, ms[0].end, ms[1..], fillers[1..])
  }

  /** Where the text after the last spec begins. */
  function LastEnd(p: int, ms: seq<Spec>): int {
    if ms == [] then p else ms[|ms| - 1].end
  }

  function Stars(n: nat): (r: seq<string>)
    ensures |r| == n && forall k :: 0 <= k < n ==> r[k] == "*"
  {
    seq(n, _ => "*")
  }

  /** The text of each spec. */
  function Texts(t: string, ms: seq<Spec>): (r: seq<string>)
    ensures |r| == |ms|
    decreases |ms|
  {
    if ms == [] then [] else [Slice(t, ms[0].start, ms[0].end)] + Texts(t, ms[1..])
  }

  lemma {:induction false} TextsAt(t: string, ms: seq<Spec>, k: nat)
    requires k < |ms|
    ensures Texts(t, ms)[k] == Slice(t, ms[k].start, ms[k].end)
    decreases k
  {
    if k > 0 {
      TextsAt(t, ms[1..], k - 1);
    }
  }

  function Groups(names: seq<string>, ms: seq<Spec>): (r: seq<string>)
    requires |names| == |ms|
    ensures |r| == |ms| && forall k :: 0 <= k < |ms| ==> r[k] == GroupPattern(names[k], KindOf(ms[k].conv))
  {
    seq(|ms|, k requires 0 <= k < |ms| => GroupPattern(names[k], KindOf(ms[k].conv)))
  }

  lemma GroupsTail(names: seq<string>, ms: seq<Spec>)
    requires |names| == |ms| > 0
    ensures Groups(names, ms)[1..] == Groups(names[1..], ms[1..])
  {
  }

  /** The specs follow each other from `p` on and lie inside `t`. */
  predicate Ordered(t: string, p: int, ms: seq<Spec>)
    decreases |ms|
  {
    ms == [] || (p <= ms[0].start < ms[0].end <= |t| && Ordered(t, ms[0].end, ms[1..]))
  }

  lemma {:induction false} MatchesOrdered(t: string, p: nat)
    ensures Ordered(t, p, Matches(t, p))
    decreases |t| - p
  {
    var m := NextMatch(t, p);
    if m.Some? {
      MatchesOrdered(t, m.value.end);
      assert Matches(t, p)[1..] == Matches(t, m.value.end);
    }
  }

  lemma AppendAssoc(a: string, b: string, c: string)
    ensures a + (b + c) == (a + b) + c
  {
  }

  lemma Append4(w: string, x: string, y: string, z: string)
    ensures w + x + y + z == w + (x + y + z)
  {
  }

  lemma SplitAt(t: string, p: nat, i: nat, j: nat)
    requires p <= i <= j <= |t|
    ensures t[p..] == t[p..i] + t[i..j] + t[j..]
  {
  }

  lemma FillPreCons(t: string, p: int, m: Spec, rest: seq<Spec>, x: string, fs: seq<string>)
    requires |fs| == |rest|
    ensures FillPre(t, p, [m] + rest, [x] + fs) == Slice(t, p, m.start) + x + FillPre(t, m.end, rest, fs)
  {
    assert ([m] + rest)[1..] == rest;
    assert ([x] + fs)[1..] == fs;
  }

  /** `fmt.sub('*', t)` is the template's literal text with one `*` per spec. */
  lemma {:induction false} GlobShape(t: string, p: nat)
    ensures var ms := Matches(t, p);
            GlobFrom(t, p) == FillPre(t, p, ms, Stars(|ms|)) + Slice(t, LastEnd(p, ms), |t|)
    decreases |t| - p
  {
    match NextMatch(t, p)
    case None =>
    case Some(m) =>
      var rest := Matches(t, m.end);
      GlobShape(t, m.end);
      GlobStep(t, p, m, rest);
  }

  lemma GlobStep(t: string, p: nat, m: Spec, rest: seq<Spec>)
    requires NextMatch(t, p) == Some(m) && rest == Matches(t, m.end)
    requires GlobFrom(t, m.end) == FillPre(t, m.end, rest, Stars(|rest|)) + Slice(t, LastEnd(m.end, rest), |t|)
    ensures var ms := Matches(t, p);
            GlobFrom(t, p) == FillPre(t, p, ms, Stars(|ms|)) + Slice(t, LastEnd(p, ms), |t|)
  {
    var ms := Matches(t, p);
    var tail := Slice(t, LastEnd(m.end, rest), |t|);
    var a, b := Slice(t, p, m.start), FillPre(t, m.end, rest, Stars(|rest|));
    assert ms == [m] + rest;
    assert FillPre(t, p, ms, Stars(|ms|)) == a + "*" + b by {
      StarsCons(t, p, m, rest);
    }
    assert Slice(t, LastEnd(p, ms), |t|) == tail by {
      assert LastEnd(p, ms) == LastEnd(m.end, rest);
    }
    assert GlobFrom(t, p) == a + "*" + (b + tail) by {
      GlobUnfold(t, p, m);
    }
    AppendAssoc(a + "*", b, tail);
  }

  lemma GlobUnfold(t: string, p: nat, m: Spec)
    requires NextMatch(t, p) == Some(m)
    ensures GlobFrom(t, p) == Slice(t, p, m.start) + "*" + GlobFrom(t, m.end)
  {
  }

  lemma StarsCons(t: string, p: int, m: Spec, rest: seq<Spec>)
    ensures FillPre(t, p, [m] + rest, Stars(|rest| + 1)) == Slice(t, p, m.start) + "*" + FillPre(t, m.end, rest, Stars(|rest|))
  {
    assert Stars(|rest| + 1) == ["*"] + Stars(|rest|);
    FillPreCons(t, p, m, rest, "*", Stars(|rest|));
  }

  /** The regular expression accumulated by the loop is the literal text
      with the `k`-th spec replaced by the `k`-th field's named group. */
  lemma {:induction false} ReStringShape(t: string, st: Compiled, ms: seq<Spec>, fix: bool)
    ensures var out := FoldFrom(t, st, ms, fix);
            && out.reString == st.reString + FillPre(t, st.last, ms, Groups(NamesFrom(t, st, ms, fix), ms))
            && out.last == LastEnd(st.last, ms)
    decreases |ms|
  {
    if ms != [] {
      var st' := Step(t, st, ms[0], fix);
      ReStringShape(t, st', ms[1..], fix);
      ReStringCons(t, st, ms, fix);
    }
  }

  /** The inductive step of `ReStringShape`. */
  lemma ReStringCons(t: string, st: Compiled, ms: seq<Spec>, fix: bool)
    requires ms != []
    requires var st', rest := Step(t, st, ms[0], fix), ms[1..];
             var out := FoldFrom(t, st', rest, fix);
             && out.reString == st'.reString + FillPre(t, st'.last, rest, Groups(NamesFrom(t, st', rest, fix), rest))
             && out.last == LastEnd(st'.last, rest)
    ensures var out := FoldFrom(t, st, ms, fix);
            && out.reString == st.reString + FillPre(t, st.last, ms, Groups(NamesFrom(t, st, ms, fix), ms))
            && out.last == LastEnd(st.last, ms)
  {
    var m, rest := ms[0], ms[1..];
    var st' := Step(t, st, m, fix);
    var ns := NamesFrom(t, st, ms, fix);
    var gs := Groups(ns, ms);
    var a, b := Slice(t, st.last, m.start), FillPre(t, m.end, rest, Groups(NamesFrom(t, st', rest, fix), rest));
    StepParts(t, st, m, fix);
    assert FillPre(t, st.last, ms, gs) == a + gs[0] + b by {
      assert gs[1..] == Groups(NamesFrom(t, st', rest, fix), rest) by {
        assert ns[1..] == NamesFrom(t, st', rest, fix);
        GroupsTail(ns, ms);
      }
    }
    assert gs[0] == GroupPattern(FieldName(st, m, fix), KindOf(m.conv)) by {
      assert ns[0] == FieldName(st, m, fix);
    }
    assert LastEnd(st.last, ms) == LastEnd(m.end, rest);
    Append4(st.reString, a, gs[0], b);
  }

  /** The parts of the loop state one step sets. */
  lemma StepParts(t: string, st: Compiled, m: Spec, fix: bool)
    ensures var st' := Step(t, st, m, fix);
            && st'.reString == st.reString + Slice(t, st.last, m.start) + GroupPattern(FieldName(st, m, fix), KindOf(m.conv))
            && st'.last == m.end && st'.pos == st.pos + 1
  {
  }

  /** The specs are disjoint pieces of the template: putting their text
      back between the literal pieces gives the template. */
  lemma {:induction false} Reassemble(t: string, p: nat, ms: seq<Spec>)
    requires p <= |t| && Ordered(t, p, ms)
    ensures FillPre(t, p, ms, Texts(t, ms)) + Slice(t, LastEnd(p, ms), |t|) == t[p..]
    decreases |ms|
  {
    if ms != [] {
      Reassemble(t, ms[0].end, ms[1..]);
      ReassembleCons(t, p, ms);
    }
  }

  /** The inductive step of `Reassemble`. */
  lemma ReassembleCons(t: string, p: nat, ms: seq<Spec>)
    requires ms != [] && p <= ms[0].start < ms[0].end <= |t|
    requires FillPre(t, ms[0].end, ms[1..], Texts(t, ms[1..])) + Slice(t, LastEnd(ms[0].end, ms[1..]), |t|) == t[ms[0].end..]
    ensures FillPre(t, p, ms, Texts(t, ms)) + Slice(t, LastEnd(p, ms), |t|) == t[p..]
  {
    var m, rest := ms[0], ms[1..];
    var a, x := t[p..m.start], t[m.start..m.end];
    var b := FillPre(t, m.end, rest, Texts(t, rest));
    TextsCons(t, p, ms);
    assert LastEnd(p, ms) == LastEnd(m.end, rest);
    SplitAt(t, p, m.start, m.end);
    Assemble(a, x, b, Slice(t, LastEnd(m.end, rest), |t|), t[p..], t[m.end..]);
  }

  lemma TextsCons(t: string, p: nat, ms: seq<Spec>)
    requires ms != [] && p <= ms[0].start < ms[0].end <= |t|
    ensures FillPre(t, p, ms, Texts(t, ms))
         == t[p..ms[0].start] + t[ms[0].start..ms[0].end] + FillPre(t, ms[0].end, ms[1..], Texts(t, ms[1..]))
  {
    assert ms == [ms[0]] + ms[1..];
    FillPreCons(t, p, ms[0], ms[1..], Slice(t, ms[0].start, ms[0].end), Texts(t, ms[1..]));
  }

  lemma Assemble(a: string, x: string, b: string, tail: string, whole: string, after: string)
    requires whole == a + x + after && after == b + tail
    ensures a + x + b + tail == whole
  {
  }

  /** The glob string, the regular expression and the template share their
      literal pieces: the glob has `*`, the expression a named group and
      the template the spec text in between. */
  lemma TemplateShape(template: string)
    ensures var t := Trimmed(template);
            var ms := Matches(t, 0);
            var tail := Slice(t, LastEnd(0, ms), |t|);
            && GlobString(template) == FillPre(t, 0, ms, Stars(|ms|)) + tail
            && ReString(template) == FillPre(t, 0, ms, Groups(NamesFrom(t, Start, ms, false), ms)) + tail
            && t == FillPre(t, 0, ms, Texts(t, ms)) + tail
  {
    var t := Trimmed(template);
    var ms := Matches(t, 0);
    MatchesOrdered(t, 0);
    Reassemble(t, 0, ms);
    assert t[0..] == t;
  }

  /** Without earlier fields of the same names, distinct spec names are
      stored as they are. */
  lemma {:induction false} DistinctNamesKept(t: string, st: Compiled, ms: seq<Spec>)
    requires DistinctNames(ms)
    requires forall k :: 0 <= k < |ms| ==> ms[k].name !in st.fields
    ensures forall k :: 0 <= k < |ms| ==> NamesFrom(t, st, ms, false)[k] == ms[k].name
    decreases |ms|
  {
    if ms != [] {
      var st' := Step(t, st, ms[0], false);
      assert st'.fields.Keys == st.fields.Keys + {ms[0].name};
      forall k | 0 <= k < |ms| - 1 ensures ms[1..][k].name !in st'.fields {
        assert ms[1..][k] == ms[k + 1];
      }
      assert DistinctNames(ms[1..]) by {
        forall i, j | 0 <= i < j < |ms| - 1 ensures ms[1..][i].name != ms[1..][j].name {
          assert ms[1..][i] == ms[i + 1] && ms[1..][j] == ms[j + 1];
        }
      }
      DistinctNamesKept(t, st', ms[1..]);
      forall k | 1 <= k < |ms| ensures NamesFrom(t, st, ms, false)[k] == ms[k].name {
        assert NamesFrom(t, st, ms, false)[k] == NamesFrom(t, st', ms[1..], false)[k - 1];
        assert ms[1..][k - 1] == ms[k];
      }
    }
  }

  /** When the stored names are all distinct (and new), the field table
      holds exactly them, the `k`-th at position `st.pos + k` with the type
      its conversion character gives. */
  lemma {:induction false} FieldTable(t: string, st: Compiled, ms: seq<Spec>, fix: bool)
    requires Distinct(NamesFrom(t, st, ms, fix))
    requires forall k :: 0 <= k < |ms| ==> NamesFrom(t, st, ms, fix)[k] !in st.fields
    ensures var ns := NamesFrom(t, st, ms, fix);
            var out := FoldFrom(t, st, ms, fix).fields;
            && out.Keys == st.fields.Keys + Elems(ns)
            && (forall f :: f in st.fields ==> out[f] == st.fields[f])
            && (forall k :: 0 <= k < |ms| ==> ns[k] in out && out[ns[k]] == Field(st.pos + k, KindOf(ms[k].conv)))
    decreases |ms|
  {
    if ms != [] {
      var st' := Step(t, st, ms[0], fix);
      FieldTablePre(t, st, ms, fix);
      FieldTable(t, st', ms[1..], fix);
      FieldTableCons(t, st, ms, fix);
    }
  }

  /** What the first step leaves for the rest: distinct names, all new. */
  lemma FieldTablePre(t: string, st: Compiled, ms: seq<Spec>, fix: bool)
    requires ms != []
    requires Distinct(NamesFrom(t, st, ms, fix))
    requires forall k :: 0 <= k < |ms| ==> NamesFrom(t, st, ms, fix)[k] !in st.fields
    ensures var st' := Step(t, st, ms[0], fix);
            var ns' := NamesFrom(t, st', ms[1..], fix);
            && Distinct(ns')
            && forall k :: 0 <= k < |ms| - 1 ==> ns'[k] !in st'.fields
  {
    var ns := NamesFrom(t, st, ms, fix);
    var st' := Step(t, st, ms[0], fix);
    var ns' := NamesFrom(t, st', ms[1..], fix);
    assert ns' == ns[1..];
    assert st'.fields.Keys == st.fields.Keys + {ns[0]};
    forall k | 0 <= k < |ms| - 1 ensures ns'[k] !in st'.fields {
      assert ns'[k] == ns[k + 1] && ns[k + 1] != ns[0];
    }
    forall i, j | 0 <= i < j < |ns'| ensures ns'[i] != ns'[j] {
      assert ns'[i] == ns[i + 1] && ns'[j] == ns[j + 1];
    }
  }

  /** The inductive step of `FieldTable`. */
  lemma FieldTableCons(t: string, st: Compiled, ms: seq<Spec>, fix: bool)
    requires ms != []
    requires NamesFrom(t, st, ms, fix)[0] !in st.fields
    requires var st' := Step(t, st, ms[0], fix);
             var ns' := NamesFrom(t, st', ms[1..], fix);
             var out := FoldFrom(t, st', ms[1..], fix).fields;
             && out.Keys == st'.fields.Keys + Elems(ns')
             && (forall f :: f in st'.fields ==> out[f] == st'.fields[f])
             && (forall k :: 0 <= k < |ms| - 1 ==> ns'[k] in out && out[ns'[k]] == Field(st'.pos + k, KindOf(ms[1..][k].conv)))
    ensures var ns := NamesFrom(t, st, ms, fix);
            var out := FoldFrom(t, st, ms, fix).fields;
            && out.Keys == st.fields.Keys + Elems(ns)
            && (forall f :: f in st.fields ==> out[f] == st.fields[f])
            && (forall k :: 0 <= k < |ms| ==> ns[k] in out && out[ns[k]] == Field(st.pos + k, KindOf(ms[k].conv)))
  {
    var ns := NamesFrom(t, st, ms, fix);
    var st' := Step(t, st, ms[0], fix);
    var ns' := NamesFrom(t, st', ms[1..], fix);
    var out := FoldFrom(t, st, ms, fix).fields;
    var v := Field(st.pos, KindOf(ms[0].conv));
    assert ns == [ns[0]] + ns';
    assert out == FoldFrom(t, st', ms[1..], fix).fields;
    assert st'.fields == st.fields[ns[0] := v] && st'.pos == st.pos + 1 by {
      StepFields(t, st, ms[0], fix);
    }
    TableStep(st.fields, ns[0], v, out, Elems(ns'));
    forall k | 0 <= k < |ms| ensures ns[k] in out && out[ns[k]] == Field(st.pos + k, KindOf(ms[k].conv)) {
      if k > 0 {
        assert ns'[k - 1] == ns[k] && ms[1..][k - 1] == ms[k];
      }
    }
  }

  lemma StepFields(t: string, st: Compiled, m: Spec, fix: bool)
    ensures var st' := Step(t, st, m, fix);
            && st'.fields == st.fields[FieldName(st, m, fix) := Field(st.pos, KindOf(m.conv))]
            && st'.pos == st.pos + 1
  {
  }

  /** Storing a new entry `x` and then more entries keeps the old ones. */
  lemma TableStep(prev: map<string, Field>, x: string, v: Field, out: map<string, Field>, more: set<string>)
    requires x !in prev
    requires out.Keys == prev[x := v].Keys + more
    requires forall f :: f in prev[x := v] ==> out[f] == prev[x := v][f]
    ensures out.Keys == prev.Keys + ({x} + more)
    ensures forall f :: f in prev ==> out[f] == prev[f]
    ensures x in out && out[x] == v
  {
  }

  /** The names occurring in `ns`. */
  function Elems(ns: seq<string>): set<string>
    decreases |ns|
  {
    if ns == [] then {} else {ns[0]} + Elems(ns[1..])
  }

  lemma {:induction false} ElemsMembers(ns: seq<string>)
    ensures forall x :: x in Elems(ns) <==> x in ns
    decreases |ns|
  {
    if ns != [] {
      ElemsMembers(ns[1..]);
      assert ns == [ns[0]] + ns[1..];
    }
  }

  /** No name occurs twice. */
  predicate Distinct(ns: seq<string>) {
    forall i, j :: 0 <= i < j < |ns| ==> ns[i] != ns[j]
  }

  lemma {:induction false} DistinctCard(ns: seq<string>)
    requires Distinct(ns)
    ensures |Elems(ns)| == |ns|
    decreases |ns|
  {
    if ns != [] {
      var rest := ns[1..];
      assert |Elems(rest)| == |rest| by {
        assert Distinct(rest) by {
          forall i, j | 0 <= i < j < |rest| ensures rest[i] != rest[j] {
            assert rest[i] == ns[i + 1] && rest[j] == ns[j + 1];
          }
        }
        DistinctCard(rest);
      }
      assert ns[0] !in Elems(rest) by {
        ElemsMembers(rest);
        forall k | 0 <= k < |rest| ensures rest[k] != ns[0] {
          assert rest[k] == ns[k + 1];
        }
      }
    }
  }

  /** A table keyed by distinct names, the `k`-th at position `k`, has as
      many entries as names and no position twice or past the end. */
  lemma PositionsFromNames(fields: map<string, Field>, ns: seq<string>)
    requires Distinct(ns)
    requires fields.Keys == Elems(ns)
    requires forall k :: 0 <= k < |ns| ==> ns[k] in fields && fields[ns[k]].pos == k
    ensures |fields| == |ns|
    ensures DistinctPositions(fields)
    ensures forall f :: f in fields ==> fields[f].pos < |fields|
  {
    DistinctCard(ns);
    ElemsMembers(ns);
    assert |fields| == |fields.Keys|;
    forall f | f in fields ensures fields[f].pos < |ns| {
      var k :| 0 <= k < |ns| && ns[k] == f;
    }
    forall f, g | f in fields && g in fields && f != g ensures fields[f].pos != fields[g].pos {
      var i :| 0 <= i < |ns| && ns[i] == f;
      var j :| 0 <= j < |ns| && ns[j] == g;
      assert fields[f].pos == i && fields[g].pos == j;
    }
  }

  /** The table compiled from specs `ms` with distinct stored names. */
  lemma FieldsInOrderFrom(t: string, ms: seq<Spec>, fix: bool)
    requires Distinct(NamesFrom(t, Start, ms, fix))
    ensures var ns := NamesFrom(t, Start, ms, fix);
            var fields := FoldFrom(t, Start, ms, fix).fields;
            && (forall k :: 0 <= k < |ms| ==> ns[k] in fields && fields[ns[k]] == Field(k, KindOf(ms[k].conv)))
            && |fields| == |ms|
            && DistinctPositions(fields)
            && (forall f :: f in fields ==> fields[f].pos < |fields|)
  {
    var ns := NamesFrom(t, Start, ms, fix);
    var names := Elems(ns);
    FieldTable(t, Start, ms, fix);
    var fields := FoldFrom(t, Start, ms, fix).fields;
    assert fields.Keys == names by {
      assert Start.fields.Keys + names == names;
    }
    PositionsFromNames(fields, ns);
  }

  /** With distinct stored names, `getFields` finds position `k` holding
      the `k`-th name: the table has one entry per spec, positions
      `0..|ms| - 1` without repeats, so it neither raises nor loses a name. */
  lemma FieldsInOrder(template: string)
    requires Distinct(NamesFrom(Trimmed(template), Start, Matches(Trimmed(template), 0), false))
    ensures var t := Trimmed(template);
            var ms := Matches(t, 0);
            var ns := NamesFrom(t, Start, ms, false);
            var fields := Compile(template).fields;
            && (forall k :: 0 <= k < |ms| ==> ns[k] in fields && fields[ns[k]] == Field(k, KindOf(ms[k].conv)))
            && |fields| == |ms|
            && DistinctPositions(fields)
            && (forall f :: f in fields ==> fields[f].pos < |fields|)
  {
    var t := Trimmed(template);
    var ms := Matches(t, 0);
    FieldsInOrderFrom(t, ms, false);
  }

  /** Spec names that are all different. */
  predicate DistinctNames(ms: seq<Spec>) {
    forall i, j :: 0 <= i < j < |ms| ==> ms[i].name != ms[j].name
  }

  /** A template whose spec names are all different keeps them as field
      names, in order. */
  lemma DistinctSpecNames(template: string)
    requires DistinctNames(Matches(Trimmed(template), 0))
    ensures var t := Trimmed(template);
            var ms := Matches(t, 0);
            forall k :: 0 <= k < |ms| ==> NamesFrom(t, Start, ms, false)[k] == ms[k].name
  {
    var t := Trimmed(template);
    DistinctNamesKept(t, Start, Matches(t, 0));
  }

  // ---------------------------------------------------------------------
  // The renaming of repeated fields, as written

  /** How many of the first `k` specs have a name an earlier spec already
      stored: the clashes the shared counter counts. */
  function ClashesBefore(ns: seq<string>, ms: seq<Spec>, k: nat): nat
    requires k <= |ns| && k <= |ms|
  {
    if k == 0 then 0
    else ClashesBefore(ns, ms, k - 1) + (if ms[k - 1].name in ns[..k - 1] then 1 else 0)
  }

  /** The `k`-th stored name is the one the loop state after the first `k`
      specs gives to spec `k`. */
  lemma {:induction false} NamesFromAt(t: string, st: Compiled, ms: seq<Spec>, fix: bool, k: nat)
    requires k < |ms|
    ensures NamesFrom(t, st, ms, fix)[k] == FieldName(FoldFrom(t, st, ms[..k], fix), ms[k], fix)
    decreases k
  {
    if k > 0 {
      var st' := Step(t, st, ms[0], fix);
      NamesFromAt(t, st', ms[1..], fix, k - 1);
      assert NamesFrom(t, st, ms, fix)[k] == NamesFrom(t, st', ms[1..], fix)[k - 1];
      assert ms[..k][0] == ms[0] && ms[..k][1..] == ms[1..][..k - 1];
      assert FoldFrom(t, st, ms[..k], fix) == FoldFrom(t, st', ms[1..][..k - 1], fix);
      assert ms[1..][k - 1] == ms[k];
    } else {
      assert ms[..0] == [];
    }
  }

  lemma ElemsSnoc(ns: seq<string>, x: string)
    ensures Elems(ns + [x]) == Elems(ns) + {x}
  {
    ElemsMembers(ns + [x]);
    ElemsMembers(ns);
  }

  lemma TakeSnoc<T>(s: seq<T>, k: nat)
    requires 0 < k <= |s|
    ensures s[..k] == s[..k - 1] + [s[k - 1]]
  {
  }

  lemma StepAsWrittenParts(t: string, st: Compiled, m: Spec)
    ensures var st' := Step(t, st, m, false);
            && st'.fields.Keys == st.fields.Keys + {FieldName(st, m, false)}
            && st'.n == if m.name in st.fields then st.n + 1 else st.n
  {
  }

  /** As written, after the first `k` specs the fields are exactly the
      names stored so far and the counter is the number of clashes. */
  lemma {:induction false} AsWrittenPrefix(t: string, ms: seq<Spec>, k: nat)
    requires k <= |ms|
    ensures var ns := NamesFrom(t, Start, ms, false);
            var st := FoldFrom(t, Start, ms[..k], false);
            && st.fields.Keys == Elems(ns[..k])
            && st.n == ClashesBefore(ns, ms, k)
    decreases k
  {
    var ns := NamesFrom(t, Start, ms, false);
    if k == 0 {
      assert ms[..0] == [] && ns[..0] == [];
    } else {
      AsWrittenPrefix(t, ms, k - 1);
      var prev := FoldFrom(t, Start, ms[..k - 1], false);
      var before := ns[..k - 1];
      var m := ms[k - 1];
      assert prev.fields.Keys == Elems(before) && prev.n == ClashesBefore(ns, ms, k - 1);
      var st' := Step(t, prev, m, false);
      assert FoldFrom(t, Start, ms[..k], false) == st' by {
        TakeSnoc(ms, k);
        FoldFromSnoc(t, Start, ms[..k - 1], m, false);
      }
      assert ns[k - 1] == FieldName(prev, m, false) by {
        NamesFromAt(t, Start, ms, false, k - 1);
      }
      StepAsWrittenParts(t, prev, m);
      assert Elems(ns[..k]) == Elems(before) + {ns[k - 1]} by {
        TakeSnoc(ns, k);
        ElemsSnoc(before, ns[k - 1]);
      }
      assert (m.name in prev.fields) == (m.name in before) by {
        ElemsMembers(before);
      }
    }
  }

  /** The constructor's renaming: spec `k` is stored under its own name
      unless an earlier spec already stored that name, and then under the
      name with `_c` appended, `c` the number of such clashes before it
      (one counter, from 0, shared by every repeated name); the counter
      ends at the number of clashes. */
  lemma RenamingAsWritten(template: string)
    ensures var t := Trimmed(template);
            var ms := Matches(t, 0);
            var ns := NamesFrom(t, Start, ms, false);
            && (forall k :: 0 <= k < |ms| ==>
                  ns[k] == if ms[k].name in ns[..k] then Candidate(ms[k].name, ClashesBefore(ns, ms, k)) else ms[k].name)
            && Compile(template).n == ClashesBefore(ns, ms, |ms|)
  {
    var t := Trimmed(template);
    var ms := Matches(t, 0);
    var ns := NamesFrom(t, Start, ms, false);
    forall k | 0 <= k < |ms|
      ensures ns[k] == if ms[k].name in ns[..k] then Candidate(ms[k].name, ClashesBefore(ns, ms, k)) else ms[k].name
    {
      AsWrittenPrefix(t, ms, k);
      NamesFromAt(t, Start, ms, false, k);
      ElemsMembers(ns[..k]);
    }
    AsWrittenPrefix(t, ms, |ms|);
    assert ms[..|ms|] == ms;
  }

  /** The template of the example in `processPath`'s documentation,
      `%(visit)07d/instcal%(visit)07d.fits.fz`. */
  const VisitTemplate: string := VisitSpecText + "/instcal" + VisitSpecText + ".fits.fz"

  const VisitSpecText: string := "%(visit)07d"

  /** No spec starts before the next `%`. */
  lemma {:induction false} SkipToPercent(s: string, p: nat, q: nat)
    requires p <= q <= |s|
    requires forall k :: p <= k < q ==> s[k] != '%'
    ensures NextMatch(s, p) == NextMatch(s, q)
    decreases q - p
  {
    if p < q {
      SkipToPercent(s, p + 1, q);
    }
  }

  /** `%(visit)07d` is one spec wherever it occurs. */
  lemma VisitSpecAt(s: string, i: nat)
    requires i + 11 <= |s| && s[i..i + 11] == VisitSpecText
    ensures MatchAt(s, i) == Some(Spec(i, i + 11, "visit", 'd'))
  {
    var u := VisitSpecText;
    assert forall k :: i <= k < i + 11 ==> s[k] == u[k - i];
    assert u[0] == '%' && u[1] == '(' && u[7] == ')' && u[8] == '0' && u[9] == '7' && u[10] == 'd';
    assert u[2] == 'v' && u[3] == 'i' && u[4] == 's' && u[5] == 'i' && u[6] == 't';
    assert WordRun(s, i + 7) == 0;
    assert WordRun(s, i + 2) == 5 by {
      assert WordRun(s, i + 6) == 1;
      assert WordRun(s, i + 5) == 2;
      assert WordRun(s, i + 4) == 3;
      assert WordRun(s, i + 3) == 4;
    }
    assert ConvFrom(s, i + 8) == Some(i + 10) by {
      assert ConvFrom(s, i + 10) == Some(i + 10);
      assert ConvFrom(s, i + 9) == Some(i + 10);
    }
    assert s[i + 2..i + 7] == u[2..7] == "visit";
  }

  lemma VisitSpecs()
    ensures Matches(VisitTemplate, 0) == [Spec(0, 11, "visit", 'd'), Spec(19, 30, "visit", 'd')]
  {
    var t := VisitTemplate;
    var a, b, c := VisitSpecText, "/instcal", ".fits.fz";
    assert t == a + b + a + c && |t| == 38;
    assert t[0..11] == a && t[19..30] == a;
    assert t[11..19] == b && t[30..38] == c;
    VisitSpecAt(t, 0);
    VisitSpecAt(t, 19);
    assert Matches(t, 30) == [] by {
      assert forall k :: 30 <= k < 38 ==> t[k] == c[k - 30];
      SkipToPercent(t, 30, 38);
    }
    assert Matches(t, 11) == [Spec(19, 30, "visit", 'd')] by {
      assert forall k :: 11 <= k < 19 ==> t[k] == b[k - 11];
      SkipToPercent(t, 11, 19);
    }
  }

  /** The specs of the documented template. */
  const VisitSpecList: seq<Spec> := [Spec(0, 11, "visit", 'd'), Spec(19, 30, "visit", 'd')]

  /** The table the constructor builds for the documented template. */
  const VisitTable: map<string, Field> := map["visit" := Field(0, IntField), "visit_0" := Field(1, IntField)]

  lemma VisitFold(t: string)
    ensures FoldFrom(t, Start, VisitSpecList, false).fields == VisitTable
    ensures FoldFrom(t, Start, VisitSpecList, false).n == 1
    ensures NamesFrom(t, Start, VisitSpecList, false) == ["visit", "visit_0"]
  {
    var ms := VisitSpecList;
    var st1 := Step(t, Start, ms[0], false);
    assert st1.fields == map["visit" := Field(0, IntField)] && st1.n == 0;
    assert DecimalString(0) == "0";
    assert Candidate("visit", 0) == "visit_0";
    var st2 := Step(t, st1, ms[1], false);
    assert st2.fields == VisitTable && st2.n == 1;
    assert ms[1..][1..] == [];
    assert FoldFrom(t, Start, ms, false) == st2;
  }

  /** For the documented template the second `visit` is stored as
      `visit_0`, after `visit`: the keys of the documented result. */
  lemma VisitFields()
    ensures NamesFrom(VisitTemplate, Start, Matches(VisitTemplate, 0), false) == ["visit", "visit_0"]
    ensures Compile(VisitTemplate).fields == VisitTable
    ensures Compile(VisitTemplate).n == 1
  {
    var t := VisitTemplate;
    assert Trimmed(t) == t by {
      assert t[30..] == ".fits.fz";
    }
    VisitSpecs();
    VisitFold(t);
  }

  lemma VisitTableShape()
    ensures |VisitTable| == 2 && DistinctPositions(VisitTable)
    ensures forall f :: f in VisitTable ==> VisitTable[f].pos < |VisitTable|
    ensures VisitTable["visit"].pos == 0 && VisitTable["visit_0"].pos == 1
  {
    assert VisitTable.Keys == {"visit", "visit_0"};
  }

  /** `getFields` on a scanner for the documented template lists `visit`
      then `visit_0`. */
  method VisitGetFields() returns (r: Result<seq<string>>)
    ensures r == Ok(["visit", "visit_0"])
  {
    var scanner := new Scanner(VisitTemplate);
    VisitFields();
    VisitTableShape();
    assert scanner.fields == VisitTable;
    r := scanner.GetFields();
    assert r.Ok? && |r.value| == 2;
    assert r.value[0] == "visit" && r.value[1] == "visit_0";
    PairSeq(r.value, "visit", "visit_0");
  }

  lemma PairSeq(s: seq<string>, a: string, b: string)
    requires |s| == 2 && s[0] == a && s[1] == b
    ensures s == [a, b]
  {
  }

  // ---------------------------------------------------------------------
  // A name that collides with a renamed one

  const CollidingTemplate: string := "%(a_0)d%(a)d%(a)d"

  lemma CollidingSpecs()
    ensures Matches(CollidingTemplate, 0) == [Spec(0, 7, "a_0", 'd'), Spec(7, 12, "a", 'd'), Spec(12, 17, "a", 'd')]
  {
    CollidingMatches7();
    CollidingSpec0();
  }

  lemma CollidingMatches7()
    ensures Matches(CollidingTemplate, 7) == [Spec(7, 12, "a", 'd'), Spec(12, 17, "a", 'd')]
  {
    CollidingMatches12();
    CollidingSpec7();
  }

  lemma CollidingMatches12()
    ensures Matches(CollidingTemplate, 12) == [Spec(12, 17, "a", 'd')]
  {
    assert Matches(CollidingTemplate, 17) == [];
    CollidingSpec12();
  }

  lemma CollidingSpec12()
    ensures MatchAt(CollidingTemplate, 12) == Some(Spec(12, 17, "a", 'd'))
  {
    var t := CollidingTemplate;
    assert WordRun(t, 14) == 1 && t[15] == ')' && ConvFrom(t, 16) == Some(16);
    assert t[12] == '%' && t[13] == '(' && t[14..15] == "a" && t[16] == 'd';
  }

  lemma CollidingSpec7()
    ensures MatchAt(CollidingTemplate, 7) == Some(Spec(7, 12, "a", 'd'))
  {
    var t := CollidingTemplate;
    assert WordRun(t, 9) == 1 && t[10] == ')' && ConvFrom(t, 11) == Some(11);
    assert t[7] == '%' && t[8] == '(' && t[9..10] == "a" && t[11] == 'd';
  }

  lemma CollidingSpec0()
    ensures MatchAt(CollidingTemplate, 0) == Some(Spec(0, 7, "a_0", 'd'))
  {
    var t := CollidingTemplate;
    assert t[2] == 'a' && t[3] == '_' && t[4] == '0' && t[5] == ')';
    assert WordRun(t, 5) == 0;
    assert WordRun(t, 4) == 1;
    assert WordRun(t, 3) == 2;
    assert WordRun(t, 2) == 3 && ConvFrom(t, 6) == Some(6);
    assert t[0] == '%' && t[1] == '(' && t[2..5] == "a_0" && t[6] == 'd';
  }

  /** As written, the third spec of `%(a_0)d%(a)d%(a)d` is renamed to
      `a_0`, the name the first spec already holds: the table keeps two
      entries, one of them at position 2, and the stored names repeat. */
  lemma CollisionAsWritten()
    ensures var fields := Compile(CollidingTemplate).fields;
            && fields == CollidingTable
            && |fields| == 2 && fields["a_0"].pos >= |fields|
    ensures NamesFrom(CollidingTemplate, Start, Matches(CollidingTemplate, 0), false) == ["a_0", "a", "a_0"]
  {
    CollidingCompile();
    CollidingSpecs();
    CollidingFold(CollidingTemplate);
    CollidingTableSize();
  }

  /** The table the constructor builds for `%(a_0)d%(a)d%(a)d`. */
  const CollidingTable: map<string, Field> := map["a_0" := Field(2, IntField), "a" := Field(1, IntField)]

  lemma CollidingTableSize()
    ensures |CollidingTable| == 2 && CollidingTable["a_0"].pos == 2
  {
    assert CollidingTable.Keys == {"a_0", "a"};
  }

  lemma CollidingCompile()
    ensures Compile(CollidingTemplate) == FoldFrom(CollidingTemplate, Start, CollidingSpecList, false)
  {
    var t := CollidingTemplate;
    assert Trimmed(t) == t by {
      assert t[16] == 'd';
    }
    CollidingSpecs();
  }

  /** The specs of `%(a_0)d%(a)d%(a)d`. */
  const CollidingSpecList: seq<Spec> := [Spec(0, 7, "a_0", 'd'), Spec(7, 12, "a", 'd'), Spec(12, 17, "a", 'd')]

  lemma CandidatesOfA()
    ensures Candidate("a", 0) == "a_0" && Candidate("a", 1) == "a_1"
  {
    assert DecimalString(0) == "0" && DecimalString(1) == "1";
  }

  /** The table and names the loop builds for those specs, as written. */
  lemma CollidingFold(t: string)
    ensures FoldFrom(t, Start, CollidingSpecList, false).fields == CollidingTable
    ensures NamesFrom(t, Start, CollidingSpecList, false) == ["a_0", "a", "a_0"]
  {
    var ms := CollidingSpecList;
    var st1 := Step(t, Start, ms[0], false);
    assert st1.fields == map["a_0" := Field(0, IntField)] && st1.n == 0;
    var st2 := Step(t, st1, ms[1], false);
    assert "a" != "a_0";
    assert st2.fields == map["a_0" := Field(0, IntField), "a" := Field(1, IntField)] && st2.n == 0;
    CandidatesOfA();
    var st3 := Step(t, st2, ms[2], false);
    assert ms[1..][1..][1..] == [];
    assert FoldFrom(t, Start, ms, false) == st3;
  }

  /** The names the corrected loop stores for those specs. */
  lemma CollidingFoldCorrected(t: string)
    ensures NamesFrom(t, Start, CollidingSpecList, true) == ["a_0", "a", "a_1"]
  {
    var ms := CollidingSpecList;
    var st1 := Step(t, Start, ms[0], true);
    assert st1.fields.Keys == {"a_0"} && st1.n == 0;
    var st2 := Step(t, st1, ms[1], true);
    assert "a" != "a_0";
    assert st2.fields.Keys == {"a_0", "a"} && st2.n == 0;
    CandidatesOfA();
    assert FreshIndex(st2.fields.Keys, "a", 0, 1) == 1;
    assert FreshIndex(st2.fields.Keys, "a", 0, 0) == 1;
    assert ms[1..][1..][1..] == [];
  }

  /** `getFields` on a scanner for `%(a_0)d%(a)d%(a)d` raises IndexError. */
  method CollisionGetFields() returns (r: Result<seq<string>>)
    ensures r == Err(IndexError)
  {
    var scanner := new Scanner(CollidingTemplate);
    CollisionAsWritten();
    r := scanner.GetFields();
  }

  // ---------------------------------------------------------------------
  // The corrected renaming

  /** The corrected compiler: as the constructor, but renaming with the
      first counter value whose name is free. */
  function CorrectedCompile(template: string): Compiled {
    var t := Trimmed(template);
    FoldFrom(t, Start, Matches(t, 0), true)
  }

  lemma CandidateInjective(name: string, i: nat, j: nat)
    requires Candidate(name, i) == Candidate(name, j)
    ensures i == j
  {
    var k := |name| + 1;
    assert Candidate(name, i)[k..] == DecimalString(i);
    assert Candidate(name, j)[k..] == DecimalString(j);
    DecimalStringInjective(i, j);
  }

  /** The candidates for counter values `lo..hi - 1` are all different. */
  lemma {:induction false} CandidateCount(name: string, lo: nat, hi: nat)
    requires lo <= hi
    ensures |set j | lo <= j < hi :: Candidate(name, j)| == hi - lo
    decreases hi - lo
  {
    if lo < hi {
      var first := Candidate(name, lo);
      var rest := set j | lo + 1 <= j < hi :: Candidate(name, j);
      var all := set j | lo <= j < hi :: Candidate(name, j);
      assert |rest| == hi - lo - 1 by {
        CandidateCount(name, lo + 1, hi);
      }
      assert all == rest + {first} by {
        forall c | c in all ensures c in rest + {first} {
          var j :| lo <= j < hi && Candidate(name, j) == c;
          if j > lo { assert c in rest; }
        }
      }
      assert first !in rest by {
        forall c | c in rest ensures c != first {
          var j :| lo + 1 <= j < hi && Candidate(name, j) == c;
          if c == first {
            CandidateInjective(name, j, lo);
          }
        }
      }
    }
  }

  /** Only as many candidates as there are names can be taken. */
  lemma CandidatesTaken(taken: set<string>, name: string, lo: nat, hi: nat)
    requires lo <= hi
    requires forall j :: lo <= j < hi ==> Candidate(name, j) in taken
    ensures hi - lo <= |taken|
  {
    var cs := set j | lo <= j < hi :: Candidate(name, j);
    CandidateCount(name, lo, hi);
    assert taken == cs + (taken - cs);
    assert cs * (taken - cs) == {};
  }

  /** The first counter value from `j` on whose candidate is free. */
  function FreshIndex(taken: set<string>, name: string, lo: nat, j: nat): nat
    requires lo <= j
    requires forall i :: lo <= i < j ==> Candidate(name, i) in taken
    decreases |taken| - (j - lo)
  {
    CandidatesTaken(taken, name, lo, j);
    if Candidate(name, j) !in taken then j
    else
      CandidatesTaken(taken, name, lo, j + 1);
      FreshIndex(taken, name, lo, j + 1)
  }

  /** `FreshIndex` returns the first counter value from `j` on whose
      candidate is free. */
  lemma {:induction false} FreshIndexFirst(taken: set<string>, name: string, lo: nat, j: nat)
    requires lo <= j
    requires forall i :: lo <= i < j ==> Candidate(name, i) in taken
    ensures var r := FreshIndex(taken, name, lo, j);
            && j <= r && Candidate(name, r) !in taken
            && forall i :: j <= i < r ==> Candidate(name, i) in taken
    decreases |taken| - (j - lo)
  {
    CandidatesTaken(taken, name, lo, j);
    if Candidate(name, j) in taken {
      CandidatesTaken(taken, name, lo, j + 1);
      FreshIndexFirst(taken, name, lo, j + 1);
    }
  }

  /** With the corrected renaming every name is new when it is stored, so
      the stored names are distinct. */
  lemma {:induction false} FreshNamesDistinct(t: string, st: Compiled, ms: seq<Spec>)
    ensures Distinct(NamesFrom(t, st, ms, true))
    ensures forall k :: 0 <= k < |ms| ==> NamesFrom(t, st, ms, true)[k] !in st.fields
    decreases |ms|
  {
    if ms != [] {
      var st' := Step(t, st, ms[0], true);
      var ns := NamesFrom(t, st, ms, true);
      var ns' := NamesFrom(t, st', ms[1..], true);
      FreshNamesDistinct(t, st', ms[1..]);
      assert ns[1..] == ns';
      assert ns[0] !in st.fields by {
        if ms[0].name in st.fields {
          FreshIndexFirst(st.fields.Keys, ms[0].name, st.n, st.n);
        }
      }
      assert st'.fields.Keys == st.fields.Keys + {ns[0]};
      forall k | 0 <= k < |ms| ensures ns[k] !in st.fields {
        if k > 0 { assert ns[k] == ns'[k - 1]; }
      }
      forall i, j | 0 <= i < j < |ms| ensures ns[i] != ns[j] {
        assert ns[j] == ns'[j - 1];
        if i > 0 { assert ns[i] == ns'[i - 1]; }
      }
    }
  }

  /** The corrected compiler keeps one entry per spec at positions
      `0..|ms| - 1`, so `getFields` succeeds and lists every stored name at
      its position. */
  lemma CorrectedFieldsInOrder(template: string)
    ensures var t := Trimmed(template);
            var ms := Matches(t, 0);
            var ns := NamesFrom(t, Start, ms, true);
            var fields := CorrectedCompile(template).fields;
            && Distinct(ns)
            && (forall k :: 0 <= k < |ms| ==> ns[k] in fields && fields[ns[k]] == Field(k, KindOf(ms[k].conv)))
            && |fields| == |ms|
            && DistinctPositions(fields)
            && (forall f :: f in fields ==> fields[f].pos < |fields|)
  {
    var t := Trimmed(template);
    FreshNamesDistinct(t, Start, Matches(t, 0));
    FieldsInOrderFrom(t, Matches(t, 0), true);
  }

  /** Corrected, the third spec of `%(a_0)d%(a)d%(a)d` becomes `a_1`. */
  lemma CollisionCorrected()
    ensures NamesFrom(CollidingTemplate, Start, Matches(CollidingTemplate, 0), true) == ["a_0", "a", "a_1"]
  {
    CollidingSpecs();
    CollidingFoldCorrected(CollidingTemplate);
  }

  // ---------------------------------------------------------------------
  // When the renaming as written is already correct

  /** The counter is what follows the last `_` of a candidate, so two
      candidates are equal only for the same counter value. */
  lemma CandidateCounter(a: string, i: nat, b: string, j: nat)
    ensures Candidate(a, i) == Candidate(b, j) ==> i == j
  {
    var di, dj := DecimalString(i), DecimalString(j);
    assert '_' !in di && '_' !in dj;
    RFindAfterLast(a, di, '_');
    RFindAfterLast(b, dj, '_');
    Pieces(a, '_', di);
    Pieces(b, '_', dj);
    if Candidate(a, i) == Candidate(b, j) {
      DecimalStringInjective(i, j);
    }
  }

  /** The names a counter below `n` gives to a name in `names`. */
  function CandidatesBelow(names: set<string>, n: nat): set<string> {
    set name, j: nat | name in names && j < n :: Candidate(name, j)
  }

  /** No name of `names` is another one with `_j` appended. */
  ghost predicate NoCandidateIn(names: set<string>) {
    forall name, j: nat :: name in names ==> Candidate(name, j) !in names
  }

  /** The spec names of a template. */
  function SpecNames(ms: seq<Spec>): (r: set<string>)
    ensures forall k :: 0 <= k < |ms| ==> ms[k].name in r
  {
    set k | 0 <= k < |ms| :: ms[k].name
  }

  /** A name of `names` whose counter value is not below `n` is free. */
  lemma CandidateFree(names: set<string>, name: string, n: nat)
    requires name in names && NoCandidateIn(names)
    ensures Candidate(name, n) !in names + CandidatesBelow(names, n)
  {
    forall other, j: nat | other in names && j < n
      ensures Candidate(other, j) != Candidate(name, n)
    {
      CandidateCounter(other, j, name, n);
    }
  }

  /** While the fields hold only spec names and candidates for counter
      values already used, the as-written and the corrected renaming agree. */
  lemma {:induction false} SameRenaming(t: string, st: Compiled, ms: seq<Spec>, names: set<string>)
    requires forall k :: 0 <= k < |ms| ==> ms[k].name in names
    requires NoCandidateIn(names)
    requires st.fields.Keys <= names + CandidatesBelow(names, st.n)
    ensures NamesFrom(t, st, ms, false) == NamesFrom(t, st, ms, true)
    ensures FoldFrom(t, st, ms, false) == FoldFrom(t, st, ms, true)
    decreases |ms|
  {
    if ms != [] {
      var m := ms[0];
      assert Rename(st, m, false) == Rename(st, m, true) by {
        if m.name in st.fields {
          CandidateFree(names, m.name, st.n);
          FreshIndexFirst(st.fields.Keys, m.name, st.n, st.n);
        }
      }
      var st' := Step(t, st, m, false);
      assert st' == Step(t, st, m, true);
      assert st'.fields.Keys <= names + CandidatesBelow(names, st'.n) by {
        StepAsWrittenParts(t, st, m);
        assert CandidatesBelow(names, st.n) <= CandidatesBelow(names, st'.n);
        if m.name in st.fields {
          assert Candidate(m.name, st.n) in CandidatesBelow(names, st'.n);
        }
      }
      forall k | 0 <= k < |ms| - 1 ensures ms[1..][k].name in names {
        assert ms[1..][k] == ms[k + 1];
      }
      SameRenaming(t, st', ms[1..], names);
    }
  }

  /** When no spec name of a template is another spec name with `_j`
      appended, the shared counter never produces a name already stored:
      the constructor's renaming is the corrected one, so its table has
      one entry per spec at positions `0..|ms| - 1` and `getFields` lists
      every field at its position. */
  lemma AsWrittenFieldsInOrder(template: string)
    requires NoCandidateIn(SpecNames(Matches(Trimmed(template), 0)))
    ensures var t := Trimmed(template);
            var ms := Matches(t, 0);
            var ns := NamesFrom(t, Start, ms, false);
            var fields := Compile(template).fields;
            && ns == NamesFrom(t, Start, ms, true)
            && Distinct(ns)
            && (forall k :: 0 <= k < |ms| ==> ns[k] in fields && fields[ns[k]] == Field(k, KindOf(ms[k].conv)))
            && |fields| == |ms|
            && DistinctPositions(fields)
            && (forall f :: f in fields ==> fields[f].pos < |fields|)
  {
    var t := Trimmed(template);
    var ms := Matches(t, 0);
    SameRenaming(t, Start, ms, SpecNames(ms));
    CorrectedFieldsInOrder(template);
  }

  lemma VisitTrimmed()
    ensures Trimmed(VisitTemplate) == VisitTemplate
  {
    assert VisitTemplate[30..] == ".fits.fz";
  }

  lemma VisitSpecNames()
    ensures SpecNames(VisitSpecList) == {"visit"}
  {
    var ms := VisitSpecList;
    assert ms[0].name == "visit";
    forall x | x in SpecNames(ms) ensures x == "visit" {
      var k :| 0 <= k < |ms| && ms[k].name == x;
    }
  }

  /** The documented template has the one spec name `visit`. */
  lemma VisitNames()
    ensures SpecNames(Matches(Trimmed(VisitTemplate), 0)) == {"visit"}
  {
    VisitTrimmed();
    VisitSpecs();
    VisitSpecNames();
  }

  /** The documented template meets that condition. */
  lemma VisitInOrder()
    ensures NoCandidateIn(SpecNames(Matches(Trimmed(VisitTemplate), 0)))
  {
    VisitNames();
    var names: set<string> := {"visit"};
    forall name, j: nat | name in names
      ensures Candidate(name, j) !in names
    {
      assert |Candidate(name, j)| > |name|;
    }
  }
}
