/** Models of the JavaScript string built-ins that the discovery page and the
    authentication server rely on: truthiness of optional fields,
    toLowerCase / toUpperCase (ASCII letters only), trim (the ECMAScript
    WhiteSpace and LineTerminator characters), UTF-16 code units and length,
    String(n) for a non-negative integer, and a code-point order standing in
    for localeCompare. */
module JsText {

  datatype Option<T> = None | Some(value: T)

  /** A JavaScript string field that may be absent; absent and "" are falsy. */
  predicate Truthy(o: Option<string>) {
    o.Some? && o.value != ""
  }

  /** `o || fallback` on an optional string field. */
  function Or(o: Option<string>, fallback: string): string {
    if Truthy(o) then o.value else fallback
  }

  // ---------------------------------------------------------------- case

  predicate IsUpperAscii(c: char) { 'A' <= c <= 'Z' }
  predicate IsLowerAscii(c: char) { 'a' <= c <= 'z' }

  function LowerChar(c: char): char {
    if IsUpperAscii(c) then (c as int + 32) as char else c
  }

  function UpperChar(c: char): char {
    if IsLowerAscii(c) then (c as int - 32) as char else c
  }

  /** String.prototype.toLowerCase, restricted to ASCII letters: the same
      letters, ignoring case, and none of them upper-case. */
  function Lower(s: string): (r: string)
    ensures |r| == |s| && NoUpper(r)
    ensures forall i :: 0 <= i < |s| ==> UpperChar(r[i]) == UpperChar(s[i])
  {
    seq(|s|, i requires 0 <= i < |s| => LowerChar(s[i]))
  }

  /** String.prototype.toUpperCase, restricted to ASCII letters. */
  function Upper(s: string): string {
    seq(|s|, i requires 0 <= i < |s| => UpperChar(s[i]))
  }

  /** No ASCII upper-case letter anywhere in s. */
  predicate NoUpper(s: string) {
    forall i :: 0 <= i < |s| ==> !IsUpperAscii(s[i])
  }

  /** toLowerCase leaves nothing to lower and is the identity on such strings. */
  lemma LowerIsIdempotent(s: string)
    ensures NoUpper(Lower(s))
    ensures NoUpper(s) ==> Lower(s) == s
    ensures Lower(Lower(s)) == Lower(s)
  {
    var l := Lower(s);
    forall i | 0 <= i < |l| ensures !IsUpperAscii(l[i]) && LowerChar(l[i]) == l[i] {
    }
  }

  // ---------------------------------------------------------------- trim

  /** ECMAScript WhiteSpace and LineTerminator code points, the set that
      String.prototype.trim removes (Zs is listed out as of Unicode 15). */
  predicate IsJsSpace(c: char) {
    var k := c as int;
    k == 0x09 || k == 0x0A || k == 0x0B || k == 0x0C || k == 0x0D || k == 0x20
    || k == 0xA0 || k == 0x1680 || (0x2000 <= k <= 0x200A)
    || k == 0x2028 || k == 0x2029 || k == 0x202F || k == 0x205F
    || k == 0x3000 || k == 0xFEFF
  }

  /** Neither the first nor the last character is trimmable. */
  predicate Trimmed(s: string) {
    s == [] || (!IsJsSpace(s[0]) && !IsJsSpace(s[|s| - 1]))
  }

  /** Drops leading white space: the result is the longest suffix that does
      not start with white space, and everything dropped was white space. */
  function TrimStart(s: string): (r: string)
    ensures |r| <= |s| && r == s[|s| - |r|..]
    ensures forall i :: 0 <= i < |s| - |r| ==> IsJsSpace(s[i])
    ensures r == [] || !IsJsSpace(r[0])
    decreases |s|
  {
    if s != [] && IsJsSpace(s[0]) then TrimStart(s[1..]) else s
  }

  /** Drops trailing white space: the result is the longest prefix that does
      not end with white space, and everything dropped was white space. */
  function TrimEnd(s: string): (r: string)
    ensures |r| <= |s| && r == s[..|r|]
    ensures forall i :: |r| <= i < |s| ==> IsJsSpace(s[i])
    ensures r == [] || !IsJsSpace(r[|r| - 1])
    decreases |s|
  {
    if s != [] && IsJsSpace(s[|s| - 1]) then TrimEnd(s[..|s| - 1]) else s
  }

  /** r is the slice of s that starts at `start`, with only white space
      before and after it. */
  predicate SliceBetweenSpaces(s: string, r: string, start: int) {
    && 0 <= start <= |s| - |r| && r == s[start..start + |r|]
    && (forall i :: 0 <= i < start ==> IsJsSpace(s[i]))
    && (forall i :: start + |r| <= i < |s| ==> IsJsSpace(s[i]))
  }

  /** String.prototype.trim: the slice of s that is left once the white
      space at both ends is removed. */
  function Trim(s: string): (r: string)
    ensures Trimmed(r)
    ensures exists start :: SliceBetweenSpaces(s, r, start)
  {
    var t := TrimStart(s);
    var r := TrimEnd(t);
    SliceOfSlice(s, t, r);
    r
  }

  /** A suffix of s after white space, cut short before white space, is a
      slice of s between white space; it has no white space at its ends
      when neither cut stopped at white space. */
  lemma SliceOfSlice(s: string, t: string, r: string)
    requires |t| <= |s| && t == s[|s| - |t|..]
    requires forall i :: 0 <= i < |s| - |t| ==> IsJsSpace(s[i])
    requires t == [] || !IsJsSpace(t[0])
    requires |r| <= |t| && r == t[..|r|]
    requires forall i :: |r| <= i < |t| ==> IsJsSpace(t[i])
    requires r == [] || !IsJsSpace(r[|r| - 1])
    ensures Trimmed(r) && SliceBetweenSpaces(s, r, |s| - |t|)
  {
    var start := |s| - |t|;
    forall i | 0 <= i < |r| ensures r[i] == s[start + i] {
      assert r[i] == t[i];
      assert t[i] == s[start + i];
    }
    assert r == s[start..start + |r|];
    forall i | start + |r| <= i < |s| ensures IsJsSpace(s[i]) {
      assert s[i] == t[i - start];
    }
    if r != [] {
      assert r[0] == t[0];
    }
  }

  /** A string already without edge white space is left as it is. */
  lemma TrimOfTrimmed(s: string)
    requires Trimmed(s)
    ensures Trim(s) == s
  {
  }

  /** toLowerCase never creates or removes trimmable characters. */
  lemma LowerKeepsSpaces(s: string)
    ensures forall i :: 0 <= i < |s| ==> (IsJsSpace(Lower(s)[i]) <==> IsJsSpace(s[i]))
  {
  }

  // ---------------------------------------------------------------- UTF-16

  predicate IsHighSurrogate(u: int) { 0xD800 <= u < 0xDC00 }
  predicate IsLowSurrogate(u: int) { 0xDC00 <= u < 0xE000 }

  /** The code point a surrogate pair stands for. */
  function DecodePair(high: int, low: int): int {
    0x1_0000 + (high - 0xD800) * 0x400 + (low - 0xDC00)
  }

  /** The UTF-16 code units of one code point: the code point itself below
      U+10000, otherwise a high and a low surrogate that decode back to it. */
  function CharUnits(c: char): (units: seq<int>)
    ensures forall i :: 0 <= i < |units| ==> 0 <= units[i] < 0x1_0000
    ensures c as int < 0x1_0000 ==> units == [c as int]
    ensures c as int >= 0x1_0000 ==>
              |units| == 2 && IsHighSurrogate(units[0]) && IsLowSurrogate(units[1])
              && DecodePair(units[0], units[1]) == c as int
  {
    var k := c as int;
    if k < 0x1_0000 then [k]
    else [0xD800 + (k - 0x1_0000) / 0x400, 0xDC00 + (k - 0x1_0000) % 0x400]
  }

  /** The UTF-16 code units of a string, the units JavaScript indexes, counts
      with `length` and splits into with `split('')`. */
  function Utf16(s: string): (units: seq<int>)
    ensures forall i :: 0 <= i < |units| ==> 0 <= units[i] < 0x1_0000
  {
    if s == [] then [] else Utf16(s[..|s| - 1]) + CharUnits(s[|s| - 1])
  }

  /** `reduce((a, b) => a + b, 0)` over a list of numbers, left to right. */
  function Sum(xs: seq<int>): int {
    if xs == [] then 0 else Sum(xs[..|xs| - 1]) + xs[|xs| - 1]
  }

  /** The sum of a concatenation is the sum of the sums. */
  lemma {:induction false} SumAppend(a: seq<int>, b: seq<int>)
    ensures Sum(a + b) == Sum(a) + Sum(b)
    decreases |b|
  {
    if b == [] {
      assert a + b == a;
    } else {
      assert (a + b)[..|a + b| - 1] == a + b[..|b| - 1];
      SumAppend(a, b[..|b| - 1]);
    }
  }

  /** Number of UTF-16 code units of one code point. */
  function UnitCount(c: char): (n: nat)
    ensures n == |CharUnits(c)|
  {
    if c as int < 0x1_0000 then 1 else 2
  }

  /** Sum of the UTF-16 code units of one code point: the values
      charCodeAt returns for it. */
  function UnitSum(c: char): (sum: nat)
    ensures sum == Sum(CharUnits(c))
  {
    var k := c as int;
    var units := CharUnits(c);
    if k < 0x1_0000 then
      assert units[..0] == [];
      k
    else
      assert units[..1] == [units[0]] && [units[0]][..0] == [];
      assert Sum(units) == Sum([units[0]]) + units[1] == units[0] + units[1];
      (0xD800 + (k - 0x1_0000) / 0x400) + (0xDC00 + (k - 0x1_0000) % 0x400)
  }

  /** String.prototype.length: the number of UTF-16 code units, one or two
      per code point. */
  function JsLength(s: string): (n: nat)
    ensures n == |Utf16(s)|
    ensures |s| <= n <= 2 * |s|
  {
    if s == [] then 0 else JsLength(s[..|s| - 1]) + UnitCount(s[|s| - 1])
  }

  // ---------------------------------------------------------------- numbers

  predicate IsDigit(c: char) { '0' <= c <= '9' }

  function DigitChar(d: nat): (c: char)
    requires d < 10
    ensures IsDigit(c) && c as int - '0' as int == d
  {
    ('0' as int + d) as char
  }

  /** The number a run of decimal digits denotes, read left to right. */
  function DigitsValue(s: string): nat
    requires forall i :: 0 <= i < |s| ==> IsDigit(s[i])
  {
    if s == [] then 0
    else
      var last := s[|s| - 1];
      assert IsDigit(last);
      DigitsValue(s[..|s| - 1]) * 10 + (last as int - '0' as int)
  }

  /** String(n) for a non-negative integer: its decimal digits with no
      leading zero, which read back as n. */
  function DecimalString(n: nat): (r: string)
    ensures r != []
    ensures forall i :: 0 <= i < |r| ==> IsDigit(r[i])
    ensures r[0] == '0' ==> n == 0
    ensures DigitsValue(r) == n
  {
    if n < 10 then
      var r := [DigitChar(n)];
      assert r[..0] == [];
      r
    else
      var front := DecimalString(n / 10);
      var r := front + [DigitChar(n % 10)];
      assert r[..|r| - 1] == front;
      r
  }

  // ---------------------------------------------------------------- order

  /** Stand-in for String.prototype.localeCompare: code-point lexicographic
      order, negative, zero or positive. */
  function CompareNames(a: string, b: string): (c: int)
    ensures -1 <= c <= 1
    decreases |a|
  {
    if a == [] && b == [] then 0
    else if a == [] then -1
    else if b == [] then 1
    else if a[0] < b[0] then -1
    else if a[0] > b[0] then 1
    else CompareNames(a[1..], b[1..])
  }

  /** The order is antisymmetric and identifies exactly equal names. */
  lemma {:induction false} CompareNamesFlip(a: string, b: string)
    ensures CompareNames(a, b) == -CompareNames(b, a)
    ensures CompareNames(a, b) == 0 <==> a == b
    decreases |a|
  {
    if a != [] && b != [] && a[0] == b[0] {
      CompareNamesFlip(a[1..], b[1..]);
      if a[1..] == b[1..] {
        assert a == [a[0]] + a[1..] && b == [b[0]] + b[1..];
      }
    }
  }

  /** The order is the dictionary order on code points: a proper prefix
      comes first, and otherwise the first differing character decides. */
  lemma {:induction false} CompareNamesMeaning(a: string, b: string)
    ensures a < b ==> CompareNames(a, b) < 0
    ensures (exists k :: 0 <= k < |a| && k < |b| && a[..k] == b[..k] && a[k] < b[k]) ==> CompareNames(a, b) < 0
    decreases |a|
  {
    if a != [] && b != [] && a[0] == b[0] {
      CompareNamesMeaning(a[1..], b[1..]);
      if a < b {
        assert a[1..] < b[1..];
      }
      if k :| 0 <= k < |a| && k < |b| && a[..k] == b[..k] && a[k] < b[k] {
        assert k > 0;
        assert a[1..][..k - 1] == a[..k][1..] && b[1..][..k - 1] == b[..k][1..];
        assert a[1..][k - 1] == a[k] && b[1..][k - 1] == b[k];
      }
    } else if a != [] && b != [] {
      if k :| 0 <= k < |a| && k < |b| && a[..k] == b[..k] && a[k] < b[k] {
        if k > 0 {
          assert a[..k][0] == b[..k][0];
        }
      }
    }
  }

  /** The order is transitive. */
  lemma {:induction false} CompareNamesTransitive(a: string, b: string, c: string)
    requires CompareNames(a, b) <= 0 && CompareNames(b, c) <= 0
    ensures CompareNames(a, c) <= 0
    decreases |a|
  {
    if a != [] && b != [] && c != [] && a[0] == b[0] && b[0] == c[0] {
      CompareNamesTransitive(a[1..], b[1..], c[1..]);
    }
  }
}
