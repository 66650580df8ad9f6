/** JavaScript value semantics the application code relies on: missing values, thrown errors,
    string trimming, case folding, substring search, number formatting and parsing, and
    `Array.prototype.find`. */
module Js {

  /** A value that may be `undefined` or `null`. */
  datatype Option<+T> = None | Some(value: T) {
    function GetOr(default: T): T {
      match this
      case Some(v) => v
      case None => default
    }
  }

  /** The outcome of a call that may throw: `Err` carries the message of the thrown `Error`. */
  datatype Result<+T> = Ok(value: T) | Err(message: string)

  /** A JavaScript number as the model sees it: an integer, or `NaN`. */
  datatype Number = Finite(n: int) | NaN

  /** JavaScript truthiness of an optional string: neither missing nor empty. */
  predicate StringTruthy(s: Option<string>) {
    s.Some? && s.value != ""
  }

  /** JavaScript truthiness of an optional integer: neither missing nor zero. */
  predicate NumberTruthy(n: Option<int>) {
    n.Some? && n.value != 0
  }

  // ---------------------------------------------------------------------------------------
  // Characters and strings
  // ---------------------------------------------------------------------------------------

  /** The characters JavaScript treats as white space, both in the regular-expression class
      `\s` and in `String.prototype.trim` (WhiteSpace and LineTerminator). */
  predicate IsWhitespace(c: char) {
    c == '\t' || c == '\n' || c == '\U{B}' || c == '\U{C}' || c == '\r' || c == ' '
    || c == '\U{A0}' || c == '\U{1680}' || ('\U{2000}' <= c <= '\U{200A}')
    || c == '\U{2028}' || c == '\U{2029}' || c == '\U{202F}' || c == '\U{205F}'
    || c == '\U{3000}' || c == '\U{FEFF}'
  }

  /** A string made only of white space (the empty string included). */
  predicate IsBlank(s: string) {
    forall i :: 0 <= i < |s| ==> IsWhitespace(s[i])
  }

  /** `toLowerCase` on one character; only the ASCII letters are mapped. */
  function LowerChar(c: char): (d: char)
    ensures !('A' <= d <= 'Z')
    ensures IsWhitespace(d) <==> IsWhitespace(c)
  {
    if 'A' <= c <= 'Z' then (c as int + 32) as char else c
  }

  /** `String.prototype.toLowerCase`, restricted to ASCII letters. */
  function ToLowerCase(s: string): (r: string)
    ensures |r| == |s|
    ensures forall i :: 0 <= i < |s| ==> r[i] == LowerChar(s[i])
  {
    if s == [] then [] else [LowerChar(s[0])] + ToLowerCase(s[1..])
  }

  /** Drops the leading white space. */
  function TrimStart(s: string): (r: string)
    ensures |r| <= |s|
  {
    if s != [] && IsWhitespace(s[0]) then TrimStart(s[1..]) else s
  }

  /** What `TrimStart` drops is blank, and what it keeps is a suffix that does not start
      with white space. */
  lemma {:induction false} TrimStartShape(s: string)
    ensures TrimStart(s) == [] || !IsWhitespace(TrimStart(s)[0])
    ensures TrimStart(s) == s[|s| - |TrimStart(s)|..]
    ensures IsBlank(s[..|s| - |TrimStart(s)|])
  {
    if s != [] && IsWhitespace(s[0]) {
      TrimStartShape(s[1..]);
      var r := TrimStart(s);
      assert s[1..][|s[1..]| - |r|..] == s[|s| - |r|..];
      assert s[..|s| - |r|] == [s[0]] + s[1..][..|s[1..]| - |r|];
    }
  }

  /** Drops the trailing white space. */
  function TrimEnd(s: string): (r: string)
    ensures |r| <= |s|
  {
    if s != [] && IsWhitespace(s[|s| - 1]) then TrimEnd(s[..|s| - 1]) else s
  }

  /** What `TrimEnd` drops is blank, and what it keeps is a prefix that does not end with
      white space. */
  lemma {:induction false} TrimEndShape(s: string)
    ensures TrimEnd(s) == [] || !IsWhitespace(TrimEnd(s)[|TrimEnd(s)| - 1])
    ensures TrimEnd(s) == s[..|TrimEnd(s)|]
    ensures IsBlank(s[|TrimEnd(s)|..])
  {
    if s != [] && IsWhitespace(s[|s| - 1]) {
      var p := s[..|s| - 1];
      TrimEndShape(p);
      var r := TrimEnd(s);
      assert p[..|r|] == s[..|r|];
      assert forall i :: 0 <= i < |s| - 1 - |r| ==> s[|r|..][i] == p[|r|..][i];
    }
  }

  /** `String.prototype.trim`. */
  function Trim(s: string): string {
    TrimEnd(TrimStart(s))
  }

  /** `s.trim()` is falsy exactly when `s` is blank. */
  lemma TrimEmptyIffBlank(s: string)
    ensures Trim(s) == "" <==> IsBlank(s)
  {
    var t := TrimStart(s);
    TrimStartShape(s);
    TrimEndShape(t);
    var p := |s| - |t|;
    assert s == s[..p] + t;
    if Trim(s) == "" {
      assert t[0..] == t;
      assert t == [];
      assert s[..|s|] == s;
    }
    if IsBlank(s) {
      assert t == [];
    }
  }

  /** A trimmed string neither starts nor ends with white space, and it is the original
      string with only white space cut off at either end. */
  lemma TrimShape(s: string)
    ensures Trim(s) == [] || (!IsWhitespace(Trim(s)[0]) && !IsWhitespace(Trim(s)[|Trim(s)| - 1]))
    ensures exists k :: OccursAt(s, Trim(s), k) && IsBlank(s[..k]) && IsBlank(s[k + |Trim(s)|..])
  {
    var t := TrimStart(s);
    var r := TrimEnd(t);
    TrimStartShape(s);
    TrimEndShape(t);
    assert r == t[..|r|];
    if r != [] {
      assert r[0] == t[0];
    }
    var k := |s| - |t|;
    assert s[k..k + |r|] == r;
    assert OccursAt(s, r, k);
    assert s[k + |r|..] == t[|r|..];
    assert IsBlank(s[..k]) && IsBlank(s[k + |r|..]);
  }

  /** `s.startsWith(p)`. */
  predicate StartsWith(s: string, p: string) {
    |p| <= |s| && s[..|p|] == p
  }

  /** `needle` occurs in `s` starting at index `i`. */
  predicate OccursAt(s: string, needle: string, i: int) {
    0 <= i <= |s| - |needle| && s[i..i + |needle|] == needle
  }

  /** `s.includes(needle)`: some suffix of `s` starts with `needle`. */
  predicate Includes(s: string, needle: string)
    decreases |s|
  {
    StartsWith(s, needle) || (s != [] && Includes(s[1..], needle))
  }

  /** `includes` finds exactly the occurrences of `needle` as a contiguous piece of `s`. */
  lemma {:induction false} IncludesIffOccurs(s: string, needle: string)
    ensures Includes(s, needle) <==> exists i :: OccursAt(s, needle, i)
    decreases |s|
  {
    if StartsWith(s, needle) {
      assert OccursAt(s, needle, 0);
    }
    if s != [] {
      IncludesIffOccurs(s[1..], needle);
      if Includes(s[1..], needle) {
        var i :| OccursAt(s[1..], needle, i);
        assert s[i + 1..i + 1 + |needle|] == s[1..][i..i + |needle|];
        assert OccursAt(s, needle, i + 1);
      }
      if exists i :: OccursAt(s, needle, i) {
        var i :| OccursAt(s, needle, i);
        if i > 0 {
          assert s[1..][i - 1..i - 1 + |needle|] == s[i..i + |needle|];
          assert OccursAt(s[1..], needle, i - 1);
        } else {
          assert StartsWith(s, needle);
        }
      }
    } else {
      if exists i :: OccursAt(s, needle, i) {
        var i :| OccursAt(s, needle, i);
        assert i == 0 && StartsWith(s, needle);
      }
    }
  }

  /** The string `a + needle + b` includes `needle`. */
  lemma IncludesMiddle(a: string, needle: string, b: string)
    ensures Includes(a + needle + b, needle)
  {
    var s := a + needle + b;
    assert OccursAt(s, needle, |a|);
    IncludesIffOccurs(s, needle);
  }

  // ---------------------------------------------------------------------------------------
  // Numbers as text
  // ---------------------------------------------------------------------------------------

  predicate IsDigit(c: char) {
    '0' <= c <= '9'
  }

  predicate AllDigits(s: string) {
    forall i :: 0 <= i < |s| ==> IsDigit(s[i])
  }

  function DigitChar(d: nat): (c: char)
    requires d < 10
    ensures IsDigit(c) && c as int - '0' as int == d
  {
    ('0' as int + d) as char
  }

  /** The decimal digits of `n`, without leading zeros. */
  function NatToString(n: nat): (r: string)
    ensures |r| > 0 && AllDigits(r)
    decreases n
  {
    if n < 10 then [DigitChar(n)] else NatToString(n / 10) + [DigitChar(n % 10)]
  }

  /** `String(n)` for an integer `n`. */
  function IntToString(n: int): (r: string)
    ensures |r| > 0
    ensures n >= 0 ==> AllDigits(r)
    ensures n < 0 ==> r[0] == '-' && AllDigits(r[1..])
  {
    if n < 0 then "-" + NatToString(-n) else NatToString(n)
  }

  /** The value of a string of decimal digits. */
  function DigitsValue(s: string): nat
    requires AllDigits(s)
  {
    if s == [] then 0 else DigitsValue(s[..|s| - 1]) * 10 + (s[|s| - 1] as int - '0' as int)
  }

  /** Reads back an integer written by `IntToString`: an optional minus sign, then at least
      one digit; anything else is not an integer. */
  function ParseInt(s: string): Option<int> {
    if |s| > 1 && s[0] == '-' && AllDigits(s[1..]) then Some(-(DigitsValue(s[1..]) as int))
    else if |s| > 0 && AllDigits(s) then Some(DigitsValue(s))
    else None
  }

  lemma {:induction false} DigitsValueOfNatToString(n: nat)
    ensures DigitsValue(NatToString(n)) == n
    decreases n
  {
    if n >= 10 {
      var s := NatToString(n);
      DigitsValueOfNatToString(n / 10);
      assert s[..|s| - 1] == NatToString(n / 10);
    }
  }

  /** Writing an integer and reading it back gives the integer again. */
  lemma ParseIntOfIntToString(n: int)
    ensures ParseInt(IntToString(n)) == Some(n)
  {
    if n < 0 {
      DigitsValueOfNatToString(-n);
      assert IntToString(n)[1..] == NatToString(-n);
    } else {
      DigitsValueOfNatToString(n);
    }
  }

  /** `String(n)` is made of digits and at most a leading minus sign. */
  lemma IntToStringChars(n: int, c: char)
    requires c in IntToString(n)
    ensures IsDigit(c) || c == '-'
  {
    var s := IntToString(n);
    var i :| 0 <= i < |s| && s[i] == c;
    if n < 0 && i > 0 {
      assert s[i] == s[1..][i - 1];
    }
  }

  /** `Number(s)` for the strings the model deals with: blank text is 0, an integer
      written in decimal (surrounded by any white space) is that integer, anything else
      is `NaN`. */
  function ToNumber(s: string): Number {
    if Trim(s) == "" then Finite(0)
    else match ParseInt(Trim(s))
      case Some(n) => Finite(n)
      case None => NaN
  }

  /** `Number(String(n)) === n` for every integer. */
  lemma ToNumberOfIntToString(n: int)
    ensures ToNumber(IntToString(n)) == Finite(n)
  {
    var s := IntToString(n);
    assert !IsWhitespace(s[0]) && !IsWhitespace(s[|s| - 1]);
    assert TrimStart(s) == s;
    assert TrimEnd(s) == s;
    ParseIntOfIntToString(n);
  }

  /** The remainder operator `%` of JavaScript, which takes the sign of the dividend
      (Dafny's `%` never yields a negative result). */
  function JsRemainder(a: int, b: int): (r: int)
    requires b > 0
    ensures a >= 0 ==> 0 <= r < b && a == (a / b) * b + r
    ensures a < 0 ==> -b < r <= 0
    ensures (a - r) % b == 0
  {
    var q := if a >= 0 then a / b else -((-a) / b);
    var r := if a >= 0 then a % b else -((-a) % b);
    assert a - r == q * b;
    MultipleRemainder(q, b);
    r
  }

  /** A multiple of `b` leaves no remainder. */
  lemma MultipleRemainder(q: int, b: int)
    requires b > 0
    ensures (q * b) % b == 0
  {
    var d, m := (q * b) / b, (q * b) % b;
    assert (q - d) * b == m by {
      assert q * b == d * b + m;
      assert (q - d) * b == q * b - d * b;
    }
    ProductSign(q - d, b);
  }

  /** A nonzero multiple of `b` is at least `b` away from zero. */
  lemma ProductSign(k: int, b: int)
    requires b > 0
    ensures k >= 1 ==> k * b >= b
    ensures k <= -1 ==> k * b <= -b
  {
    if k >= 1 {
      assert k * b == (k - 1) * b + b;
      assert (k - 1) * b >= 0;
    } else if k <= -1 {
      assert k * b == (k + 1) * b - b;
      assert (k + 1) * b <= 0;
    }
  }

  // ---------------------------------------------------------------------------------------
  // Array.prototype.find
  // ---------------------------------------------------------------------------------------

  /** The first element of `s` that satisfies `p`, if any. */
  function FirstMatch<T>(s: seq<T>, p: T -> bool): (r: Option<T>)
    ensures r.None? <==> forall i :: 0 <= i < |s| ==> !p(s[i])
    ensures r.Some? ==> r.value in s && p(r.value)
  {
    if s == [] then None
    else if p(s[0]) then Some(s[0])
    else
      var r := FirstMatch(s[1..], p);
      assert forall i :: 1 <= i < |s| ==> s[i] == s[1..][i - 1];
      r
  }

  /** One step of `find`: the head if it matches, else the search of the rest. */
  lemma FirstMatchStep<T>(s: seq<T>, p: T -> bool)
    requires s != []
    ensures FirstMatch(s, p) == if p(s[0]) then Some(s[0]) else FirstMatch(s[1..], p)
  {
  }

  /** What `find` returns is the first element that satisfies `p`: every element before it
      fails `p`. */
  lemma {:induction false} FirstMatchIsFirst<T>(s: seq<T>, p: T -> bool)
    requires FirstMatch(s, p).Some?
    ensures exists i :: 0 <= i < |s| && s[i] == FirstMatch(s, p).value && forall j :: 0 <= j < i ==> !p(s[j])
  {
    if !p(s[0]) {
      FirstMatchIsFirst(s[1..], p);
      var i :| 0 <= i < |s[1..]| && s[1..][i] == FirstMatch(s, p).value && forall j :: 0 <= j < i ==> !p(s[1..][j]);
      assert s[i + 1] == FirstMatch(s, p).value;
      forall j | 0 <= j < i + 1
        ensures !p(s[j])
      {
        if j > 0 {
          assert s[j] == s[1..][j - 1];
        }
      }
    } else {
      assert s[0] == FirstMatch(s, p).value;
    }
  }

  /** Appending to a sequence does not change which element is found first, unless nothing
      was found before; then the appended element is found if it matches. */
  lemma {:induction false} FirstMatchAppend<T>(s: seq<T>, x: T, p: T -> bool)
    ensures FirstMatch(s + [x], p) == if FirstMatch(s, p).Some? then FirstMatch(s, p) else if p(x) then Some(x) else None
  {
    if s != [] {
      assert (s + [x])[1..] == s[1..] + [x];
      FirstMatchAppend(s[1..], x, p);
    }
  }

  /** `s.find(p)`: scans `s` from the front and stops at the first element satisfying `p`. */
  method Find<T>(s: seq<T>, p: T -> bool) returns (r: Option<T>)
    ensures r == FirstMatch(s, p)
  {
    var i := 0;
    while i < |s|
      invariant 0 <= i <= |s|
      invariant FirstMatch(s[i..], p) == FirstMatch(s, p)
    {
      if p(s[i]) {
        return Some(s[i]);
      }
      assert s[i..][1..] == s[i + 1..];
      i := i + 1;
    }
    return None;
  }

  // ---------------------------------------------------------------------------------------
  // Array.prototype.filter
  // ---------------------------------------------------------------------------------------

  /** `s.filter(p)`: the elements satisfying `p`, in their order in `s`. */
  function Filter<T(!new)>(s: seq<T>, p: T -> bool): (r: seq<T>)
    ensures |r| <= |s|
    ensures forall x :: x in r <==> x in s && p(x)
  {
    if s == [] then [] else (if p(s[0]) then [s[0]] else []) + Filter(s[1..], p)
  }

  /** The filtered sequence holds each element satisfying `p` as often as `s` does, and no
      other element. */
  lemma {:induction false} FilterCounts<T(!new)>(s: seq<T>, p: T -> bool)
    ensures forall x :: multiset(Filter(s, p))[x] == if p(x) then multiset(s)[x] else 0
    decreases |s|
  {
    if s != [] {
      FilterCounts(s[1..], p);
      assert s == [s[0]] + s[1..];
    }
  }

  /** Filtering keeps the order: it distributes over concatenation. */
  lemma {:induction false} FilterAppend<T(!new)>(a: seq<T>, b: seq<T>, p: T -> bool)
    ensures Filter(a + b, p) == Filter(a, p) + Filter(b, p)
    decreases |a|
  {
    if a != [] {
      assert (a + b)[0] == a[0] && (a + b)[1..] == a[1..] + b;
      FilterAppend(a[1..], b, p);
      var head := if p(a[0]) then [a[0]] else [];
      assert Filter(a + b, p) == head + Filter(a[1..] + b, p);
      assert Filter(a, p) == head + Filter(a[1..], p);
    } else {
      assert a + b == b;
    }
  }

  // ---------------------------------------------------------------------------------------
  // Splitting text
  // ---------------------------------------------------------------------------------------

  /** The part of `s` before the first `c`, or all of `s` when there is none. */
  function Before(s: string, c: char): (r: string)
    ensures |r| <= |s| && r == s[..|r|]
    ensures c !in r
    ensures |r| < |s| ==> s[|r|] == c
  {
    if s == [] || s[0] == c then [] else [s[0]] + Before(s[1..], c)
  }

  /** Cutting at the first `c` recovers a first part that has no `c` in it. */
  lemma {:induction false} BeforeConcat(a: string, c: char, b: string)
    requires c !in a
    ensures Before(a + [c] + b, c) == a
    decreases |a|
  {
    if a != [] {
      assert (a + [c] + b)[1..] == a[1..] + [c] + b;
      BeforeConcat(a[1..], c, b);
    }
  }
}
