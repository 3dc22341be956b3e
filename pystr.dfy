/** The handful of Python 2 `str` operations the modelled code relies on:
    `rfind`, slicing with negative and out-of-range bounds, `endswith`,
    `strip`/`rstrip`, `split` and `join` on a one-character separator,
    `"%d" % n` and `int(text)`.
 */
module PyStr {
  import opened Wrappers

  /** `s.rfind(c)`: the last index of `c` in `s`, or -1. */
  function RFind(s: string, c: char): (r: int)
    ensures -1 <= r < |s|
    ensures r == -1 <==> c !in s
    ensures r >= 0 ==> s[r] == c
    ensures forall j :: r < j < |s| ==> s[j] != c
  {
    RFindBefore(s, c, |s|)
  }

  /** The last index below `k` holding `c`, or -1. */
  function RFindBefore(s: string, c: char, k: nat): (r: int)
    requires k <= |s|
    ensures -1 <= r < k
    ensures r >= 0 ==> s[r] == c
    ensures forall j :: r < j < k ==> s[j] != c
    decreases k
  {
    if k == 0 then -1
    else if s[k - 1] == c then k - 1
    else RFindBefore(s, c, k - 1)
  }

  /** `s.find(c)`: the first index of `c` in `s`, or -1. */
  function Find(s: string, c: char): (r: int)
    ensures -1 <= r < |s|
    ensures r == -1 <==> c !in s
    ensures r >= 0 ==> s[r] == c
    ensures forall j :: 0 <= j < r ==> s[j] != c
  {
    FindFrom(s, c, 0)
  }

  /** The first index from `k` on holding `c`, or -1. */
  function FindFrom(s: string, c: char, k: nat): (r: int)
    ensures r == -1 || (k <= r < |s| && s[r] == c)
    ensures r == -1 ==> forall j :: k <= j < |s| ==> s[j] != c
    ensures forall j :: k <= j < r ==> s[j] != c
    decreases |s| - k
  {
    if k >= |s| then -1
    else if s[k] == c then k
    else FindFrom(s, c, k + 1)
  }

  /** A slice bound as Python normalises it: negative counts from the end,
      and the result is clamped to `0..len`. */
  function SliceBound(len: nat, i: int): (r: nat)
    ensures r <= len
    ensures 0 <= i <= len ==> r == i
    ensures i > len ==> r == len
    ensures i < 0 && len + i >= 0 ==> r == len + i
    ensures len + i < 0 ==> r == 0
  {
    if i < 0 then (if len + i < 0 then 0 else len + i)
    else if i > len then len
    else i
  }

  /** `s[a:b]` with Python's slice semantics. */
  function Slice(s: string, a: int, b: int): (r: string)
    ensures |r| <= |s|
    ensures SliceBound(|s|, a) <= SliceBound(|s|, b) ==>
              r == s[SliceBound(|s|, a)..SliceBound(|s|, b)]
    ensures SliceBound(|s|, a) >= SliceBound(|s|, b) ==> r == ""
  {
    var lo, hi := SliceBound(|s|, a), SliceBound(|s|, b);
    if lo >= hi then "" else s[lo..hi]
  }

  predicate EndsWith(s: string, suffix: string) {
    |suffix| <= |s| && s[|s| - |suffix|..] == suffix
  }

  predicate StartsWith(s: string, prefix: string) {
    |prefix| <= |s| && s[..|prefix|] == prefix
  }

  /** The characters Python 2's `str.strip()` removes. */
  predicate IsSpace(c: char) {
    c == ' ' || c == '\t' || c == '\n' || c == '\r' || c as int == 11 || c as int == 12
  }

  function LStrip(s: string): (r: string)
    ensures |r| <= |s| && r == s[|s| - |r|..]
    ensures r == "" || !IsSpace(r[0])
    ensures forall j :: 0 <= j < |s| - |r| ==> IsSpace(s[j])
  {
    if |s| > 0 && IsSpace(s[0]) then LStrip(s[1..]) else s
  }

  function RStrip(s: string): (r: string)
    ensures |r| <= |s| && r == s[..|r|]
    ensures r == "" || !IsSpace(r[|r| - 1])
    ensures forall j :: |r| <= j < |s| ==> IsSpace(s[j])
  {
    if |s| > 0 && IsSpace(s[|s| - 1]) then RStrip(s[..|s| - 1]) else s
  }

  /** `s.strip()`: no whitespace at either end, and only whitespace removed. */
  function Strip(s: string): (r: string)
    ensures r == "" || (!IsSpace(r[0]) && !IsSpace(r[|r| - 1]))
    ensures forall c :: c in r ==> c in s
  {
    RStrip(LStrip(s))
  }

  /** `s.rstrip(c)` for one character `c`. */
  function RStripChar(s: string, c: char): (r: string)
    ensures |r| <= |s| && r == s[..|r|]
    ensures r == "" || r[|r| - 1] != c
    ensures forall j :: |r| <= j < |s| ==> s[j] == c
  {
    if |s| > 0 && s[|s| - 1] == c then RStripChar(s[..|s| - 1], c) else s
  }

  /** `s.split(sep)` for a one-character separator. */
  function Split(s: string, sep: char): (parts: seq<string>)
    ensures |parts| >= 1
    decreases |s|
  {
    var i := Find(s, sep);
    if i == -1 then [s] else [s[..i]] + Split(s[i + 1..], sep)
  }

  /** Splitting yields one part exactly when the separator does not occur,
      and the last part never holds the separator. */
  lemma {:induction false} SplitShape(s: string, sep: char)
    ensures |Split(s, sep)| == 1 <==> sep !in s
    ensures sep !in Split(s, sep)[|Split(s, sep)| - 1]
    decreases |s|
  {
    var i := Find(s, sep);
    if i != -1 {
      SplitShape(s[i + 1..], sep);
      assert Split(s, sep) == [s[..i]] + Split(s[i + 1..], sep);
    }
  }

  /** `sep.join(parts)` for a one-character separator. */
  function JoinWith(parts: seq<string>, sep: char): string {
    if |parts| == 0 then ""
    else if |parts| == 1 then parts[0]
    else parts[0] + [sep] + JoinWith(parts[1..], sep)
  }

  /** Splitting and joining again on the same separator gives back the text. */
  lemma {:induction false} JoinSplit(s: string, sep: char)
    ensures JoinWith(Split(s, sep), sep) == s
    decreases |s|
  {
    var i := Find(s, sep);
    if i != -1 {
      var rest := s[i + 1..];
      var parts := Split(s, sep);
      assert JoinWith(parts, sep) == s[..i] + [sep] + JoinWith(Split(rest, sep), sep) by {
        assert parts == [s[..i]] + Split(rest, sep);
        assert parts[0] == s[..i] && parts[1..] == Split(rest, sep);
      }
      assert JoinWith(Split(rest, sep), sep) == rest by {
        JoinSplit(rest, sep);
      }
      Around(s, i);
    }
  }

  /** A text is the part before index `i`, the character there and the
      part after it. */
  lemma Around(s: string, i: nat)
    requires i < |s|
    ensures s == s[..i] + [s[i]] + s[i + 1..]
  {
  }

  /** Joining all but the last part, then the separator and the last part,
      is joining all the parts. */
  lemma {:induction false} JoinWithLast(parts: seq<string>, sep: char)
    requires |parts| >= 2
    ensures JoinWith(parts, sep) == JoinWith(parts[..|parts| - 1], sep) + [sep] + parts[|parts| - 1]
  {
    if |parts| > 2 {
      JoinWithLast(parts[1..], sep);
      assert parts[1..][..|parts[1..]| - 1] == parts[..|parts| - 1][1..];
    }
  }

  /** After `s.split(sep)`, the last part is the text after the last
      separator and the other parts join back to the text before it. */
  lemma SplitLast(s: string, sep: char)
    requires sep in s
    ensures var parts := Split(s, sep);
            && |parts| >= 2
            && parts[|parts| - 1] == s[RFind(s, sep) + 1..]
            && JoinWith(parts[..|parts| - 1], sep) == s[..RFind(s, sep)]
  {
    SplitLastIndex(s, sep);
    SplitLastPieces(s, sep);
  }

  /** The last separator sits right after the joined front parts. */
  lemma SplitLastIndex(s: string, sep: char)
    requires sep in s
    ensures var parts := Split(s, sep);
            |parts| >= 2 && RFind(s, sep) == |JoinWith(parts[..|parts| - 1], sep)|
  {
    var parts := Split(s, sep);
    SplitShape(s, sep);
    SplitAroundLast(s, sep);
    RFindAfterLast(JoinWith(parts[..|parts| - 1], sep), parts[|parts| - 1], sep);
  }

  lemma SplitLastPieces(s: string, sep: char)
    requires sep in s
    ensures var parts := Split(s, sep);
            var front := JoinWith(parts[..|parts| - 1], sep);
            && |parts| >= 2 && |front| < |s|
            && s[|front| + 1..] == parts[|parts| - 1]
            && s[..|front|] == front
  {
    var parts := Split(s, sep);
    SplitAroundLast(s, sep);
    Pieces(JoinWith(parts[..|parts| - 1], sep), sep, parts[|parts| - 1]);
  }

  /** The text is the join of all parts but the last, the separator and
      the last part. */
  lemma SplitAroundLast(s: string, sep: char)
    requires sep in s
    ensures var parts := Split(s, sep);
            |parts| >= 2 && s == JoinWith(parts[..|parts| - 1], sep) + [sep] + parts[|parts| - 1]
  {
    SplitShape(s, sep);
    JoinSplit(s, sep);
    JoinWithLast(Split(s, sep), sep);
  }

  lemma Pieces(front: string, sep: char, last: string)
    ensures (front + [sep] + last)[..|front|] == front
    ensures (front + [sep] + last)[|front| + 1..] == last
  {
  }

  lemma RFindAfterLast(front: string, last: string, sep: char)
    requires sep !in last
    ensures RFind(front + [sep] + last, sep) == |front|
  {
    var s := front + [sep] + last;
    var i := RFind(s, sep);
    assert s[|front|] == sep;
  }

  /** The decimal digits of a natural number, as `"%d" % n` prints them. */
  function DecimalString(n: nat): (r: string)
    ensures |r| >= 1
    ensures AllDigits(r)
    decreases n
  {
    if n < 10 then [DigitChar(n)] else DecimalString(n / 10) + [DigitChar(n % 10)]
  }

  function DigitChar(d: nat): (c: char)
    requires d < 10
    ensures '0' <= c <= '9'
  {
    ['0', '1', '2', '3', '4', '5', '6', '7', '8', '9'][d]
  }

  predicate AllDigits(s: string) {
    forall i :: 0 <= i < |s| ==> '0' <= s[i] <= '9'
  }

  /** The value of a string of decimal digits. */
  function DigitsValue(s: string): nat
    requires AllDigits(s)
  {
    if |s| == 0 then 0
    else
      var d := (s[|s| - 1] as int) - ('0' as int);
      DigitsValue(s[..|s| - 1]) * 10 + d
  }

  /** Printing a natural number and reading it back gives the number. */
  lemma {:induction false} DecimalStringValue(n: nat)
    ensures DigitsValue(DecimalString(n)) == n
    decreases n
  {
    if n >= 10 {
      DecimalStringValue(n / 10);
      var s := DecimalString(n);
      assert s[..|s| - 1] == DecimalString(n / 10);
    }
  }

  /** Distinct numbers print differently. */
  lemma DecimalStringInjective(m: nat, n: nat)
    requires DecimalString(m) == DecimalString(n)
    ensures m == n
  {
    DecimalStringValue(m);
    DecimalStringValue(n);
  }

  /** `int(text)` in Python 2 for a plain decimal literal: surrounding
      whitespace allowed, at most one sign, at least one digit; anything
      else raises ValueError. */
  function ParseInt(text: string): (r: Result<int>)
    ensures r.Ok? ==> Strip(text) != ""
    ensures r.Ok? <==>
              var t := Strip(text);
              (t != "" && (t[0] == '+' || t[0] == '-') && |t| > 1 && AllDigits(t[1..]))
              || (t != "" && AllDigits(t))
  {
    var t := Strip(text);
    if t == "" then Err(ValueError(text))
    else if (t[0] == '+' || t[0] == '-') && |t| > 1 && AllDigits(t[1..]) then
      var v: int := DigitsValue(t[1..]);
      Ok(if t[0] == '-' then -v else v)
    else if AllDigits(t) then Ok(DigitsValue(t))
    else Err(ValueError(text))
  }

  /** `int("%d" % n) == n` for every natural number. */
  lemma ParseIntDecimal(n: nat)
    ensures ParseInt(DecimalString(n)) == Ok(n)
  {
    var s := DecimalString(n);
    assert Strip(s) == s by {
      StripDigits(s);
    }
    assert DigitsValue(s) == n by {
      DecimalStringValue(n);
    }
    assert s[0] != '+' && s[0] != '-';
  }

  /** A non-empty run of digits has no whitespace to strip. */
  lemma StripDigits(s: string)
    requires |s| >= 1 && AllDigits(s)
    ensures Strip(s) == s
  {
    assert !IsSpace(s[0]);
    assert LStrip(s) == s;
    assert !IsSpace(s[|s| - 1]);
  }
}
