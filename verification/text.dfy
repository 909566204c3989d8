/**
 * The JavaScript string primitives the handlers rely on: `trim`, the `||`
 * fallback on strings, ASCII `toLowerCase`, `includes`, and decimal rendering
 * of non-negative integers (template-literal interpolation and
 * `toLocaleString("en-IN")`).
 */
module JsText {
  import opened Wrappers

  /** The characters `String.prototype.trim` removes: ECMAScript WhiteSpace and LineTerminator. */
  predicate IsSpace(c: char) {
    var n := c as int;
    n == 0x09 || n == 0x0A || n == 0x0B || n == 0x0C || n == 0x0D || n == 0x20
    || n == 0xA0 || n == 0x1680 || (0x2000 <= n <= 0x200A)
    || n == 0x2028 || n == 0x2029 || n == 0x202F || n == 0x205F || n == 0x3000 || n == 0xFEFF
  }

  predicate AllSpace(s: string) {
    forall k :: 0 <= k < |s| ==> IsSpace(s[k])
  }

  /** A string with no whitespace at either end, as `trim` produces. */
  predicate Trimmed(s: string) {
    s == [] || (!IsSpace(s[0]) && !IsSpace(s[|s| - 1]))
  }

  /** Number of whitespace characters at the start of `s`. */
  function LeadingSpaces(s: string): (n: nat)
    ensures n <= |s|
    ensures forall k :: 0 <= k < n ==> IsSpace(s[k])
    ensures n < |s| ==> !IsSpace(s[n])
  {
    if |s| > 0 && IsSpace(s[0]) then 1 + LeadingSpaces(s[1..]) else 0
  }

  /** Number of whitespace characters at the end of `s`. */
  function TrailingSpaces(s: string): (n: nat)
    ensures n <= |s|
    ensures forall k :: |s| - n <= k < |s| ==> IsSpace(s[k])
    ensures n < |s| ==> !IsSpace(s[|s| - 1 - n])
  {
    if |s| > 0 && IsSpace(s[|s| - 1]) then 1 + TrailingSpaces(s[..|s| - 1]) else 0
  }

  /** `s.trim()`: drops whitespace at both ends and keeps the middle intact. */
  function Trim(s: string): (r: string)
    ensures |r| <= |s|
    ensures Trimmed(r)
    ensures r == [] <==> AllSpace(s)
  {
    var rest := s[LeadingSpaces(s)..];
    rest[..|rest| - TrailingSpaces(rest)]
  }

  /** What `trim` removes is whitespace only: `s` is the result framed by blanks. */
  lemma TrimFramedByBlanks(s: string) returns (pre: string, post: string)
    ensures AllSpace(pre) && AllSpace(post)
    ensures s == pre + Trim(s) + post
  {
    var i := LeadingSpaces(s);
    var rest := s[i..];
    var j := |rest| - TrailingSpaces(rest);
    pre, post := s[..i], rest[j..];
    assert s == s[..i] + rest[..j] + rest[j..];
  }

  /** A string that is already trimmed is its own trim. */
  lemma TrimOfTrimmed(s: string)
    requires Trimmed(s)
    ensures Trim(s) == s
  {
    if s != [] {
      assert LeadingSpaces(s) == 0;
      assert TrailingSpaces(s) == 0;
    }
  }

  /** Trimming twice is trimming once. */
  lemma TrimIdempotent(s: string)
    ensures Trim(Trim(s)) == Trim(s)
  {
    TrimOfTrimmed(Trim(s));
  }

  /** JavaScript truthiness of an optional string: present and non-empty. */
  predicate Truthy(o: Option<string>) {
    o.Some? && o.value != ""
  }

  /** `c0 || c1 || … || dflt` over optional strings: the first truthy candidate, else `dflt`. */
  function FirstPresent(cs: seq<Option<string>>, dflt: string): (r: string)
    ensures (forall i :: 0 <= i < |cs| ==> !Truthy(cs[i])) ==> r == dflt
    ensures forall i :: 0 <= i < |cs| && Truthy(cs[i]) && (forall j :: 0 <= j < i ==> !Truthy(cs[j]))
              ==> r == cs[i].value
    ensures dflt != "" ==> r != ""
  {
    if cs == [] then dflt
    else if Truthy(cs[0]) then cs[0].value
    else FirstPresent(cs[1..], dflt)
  }

  /** `a || b || c || dflt` case by case. */
  lemma FirstOfThree(a: Option<string>, b: Option<string>, c: Option<string>, dflt: string)
    ensures FirstPresent([a, b, c], dflt)
         == if Truthy(a) then a.value else if Truthy(b) then b.value else if Truthy(c) then c.value else dflt
  {
    if !Truthy(a) {
      assert [a, b, c][1..] == [b, c];
      assert FirstPresent([a, b, c], dflt) == FirstPresent([b, c], dflt);
      FirstOfTwo(b, c, dflt);
    }
  }

  /** `a || b || dflt` case by case. */
  lemma FirstOfTwo(a: Option<string>, b: Option<string>, dflt: string)
    ensures FirstPresent([a, b], dflt) == if Truthy(a) then a.value else if Truthy(b) then b.value else dflt
  {
    assert [a, b][1..] == [b];
  }

  /** `x || null` on an optional string: an empty string counts as absent. */
  function Present(o: Option<string>): (r: Option<string>)
    ensures r.Some? <==> Truthy(o)
    ensures r.Some? ==> r == o
  {
    if Truthy(o) then o else None
  }

  predicate IsUpper(c: char) {
    'A' <= c <= 'Z'
  }

  function LowerChar(c: char): (d: char)
    ensures !IsUpper(d)
    ensures !IsUpper(c) ==> d == c
  {
    if IsUpper(c) then (c as int + 32) as char else c
  }

  /** `s.toLowerCase()` restricted to ASCII letters. */
  function ToLower(s: string): (r: string)
    ensures |r| == |s|
    ensures forall i :: 0 <= i < |r| ==> !IsUpper(r[i])
    ensures forall i :: 0 <= i < |r| ==> r[i] == LowerChar(s[i])
  {
    if s == [] then [] else [LowerChar(s[0])] + ToLower(s[1..])
  }

  /** Lower-casing is idempotent. */
  lemma ToLowerIdempotent(s: string)
    ensures ToLower(ToLower(s)) == ToLower(s)
  {
  }

  /** `t` occurs in `s` starting at index `i`. */
  predicate OccursAt(s: string, t: string, i: nat) {
    i + |t| <= |s| && s[i..i + |t|] == t
  }

  /** `s.includes(t)`. */
  function Includes(s: string, t: string): (r: bool)
    ensures r <==> exists i: nat :: OccursAt(s, t, i)
    decreases |s|
  {
    if |t| > |s| then false
    else if s[..|t|] == t then (assert OccursAt(s, t, 0); true)
    else
      assert !OccursAt(s, t, 0) by {
        assert s[0..|t|] == s[..|t|];
      }
      assert forall i: nat :: 1 <= i && OccursAt(s, t, i) ==> OccursAt(s[1..], t, i - 1) by {
        forall i: nat | 1 <= i && OccursAt(s, t, i) ensures OccursAt(s[1..], t, i - 1) {
          assert s[1..][i - 1..i - 1 + |t|] == s[i..i + |t|];
        }
      }
      var r := Includes(s[1..], t);
      if r then
        var i: nat :| OccursAt(s[1..], t, i);
        assert s[1..][i..i + |t|] == s[i + 1..i + 1 + |t|];
        assert OccursAt(s, t, i + 1);
        true
      else
        false
  }

  /** Every string includes the empty string. */
  lemma IncludesEmpty(s: string)
    ensures Includes(s, "")
  {
    assert OccursAt(s, "", 0);
  }

  predicate IsDigit(c: char) {
    '0' <= c <= '9'
  }

  predicate AllDigits(s: string) {
    forall i :: 0 <= i < |s| ==> IsDigit(s[i])
  }

  function DigitChar(d: nat): (c: char)
    requires d < 10
    ensures IsDigit(c)
  {
    ('0' as int + d) as char
  }

  function DigitValue(c: char): (d: nat)
    requires IsDigit(c)
    ensures d < 10
    ensures DigitChar(d) == c
  {
    (c as int - '0' as int)
  }

  /** Decimal rendering of a non-negative integer, as `${n}` prints it. */
  function NatToString(n: nat): (r: string)
    ensures 1 <= |r|
    ensures AllDigits(r)
    ensures n >= 10 ==> r[0] != '0'
  {
    if n < 10 then [DigitChar(n)] else NatToString(n / 10) + [DigitChar(n % 10)]
  }

  /** The value of a string of decimal digits. */
  function ParseDigits(s: string): nat
    requires AllDigits(s)
  {
    if s == [] then 0 else ParseDigits(s[..|s| - 1]) * 10 + DigitValue(s[|s| - 1])
  }

  /** Parsing undoes rendering. */
  lemma {:induction false} ParseNatToString(n: nat)
    ensures ParseDigits(NatToString(n)) == n
  {
    if n >= 10 {
      var s := NatToString(n);
      assert s[..|s| - 1] == NatToString(n / 10);
      ParseNatToString(n / 10);
    }
  }

  /** Numbers from 1000 to 9999 render as exactly four digits. */
  lemma FourDigits(n: nat)
    requires 1000 <= n <= 9999
    ensures |NatToString(n)| == 4
  {
    assert |NatToString(n / 1000)| == 1;
    assert |NatToString(n / 100)| == 2;
    assert |NatToString(n / 10)| == 3;
  }

  /** Inserts a comma before every pair of digits, counting from the right: the high part of an Indian-grouped number. */
  function GroupPairs(s: string): (r: string)
    decreases |s|
  {
    if |s| <= 2 then s else GroupPairs(s[..|s| - 2]) + "," + s[|s| - 2..]
  }

  /** Digit grouping of `toLocaleString("en-IN")`: the last three digits, then groups of two. */
  function GroupIndian(digits: string): (r: string)
  {
    if |digits| <= 3 then digits
    else GroupPairs(digits[..|digits| - 3]) + "," + digits[|digits| - 3..]
  }

  /** `n.toLocaleString("en-IN")` for a whole number. */
  function FormatIndian(n: nat): string {
    GroupIndian(NatToString(n))
  }

  function RemoveCommas(s: string): (r: string)
    ensures forall i :: 0 <= i < |r| ==> r[i] != ','
  {
    if s == [] then [] else (if s[0] == ',' then [] else [s[0]]) + RemoveCommas(s[1..])
  }

  lemma RemoveCommasAppend(a: string, b: string)
    ensures RemoveCommas(a + b) == RemoveCommas(a) + RemoveCommas(b)
  {
    if a == [] {
      assert a + b == b;
    } else {
      assert (a + b)[0] == a[0];
      assert (a + b)[1..] == a[1..] + b;
      RemoveCommasAppend(a[1..], b);
    }
  }

  lemma RemoveCommasOfDigits(s: string)
    requires AllDigits(s)
    ensures RemoveCommas(s) == s
  {
  }

  lemma {:induction false} GroupPairsUngroups(s: string)
    requires AllDigits(s)
    ensures RemoveCommas(GroupPairs(s)) == s
    decreases |s|
  {
    if |s| <= 2 {
      RemoveCommasOfDigits(s);
    } else {
      var hi, lo := s[..|s| - 2], s[|s| - 2..];
      GroupPairsUngroups(hi);
      RemoveCommasAppend(GroupPairs(hi) + ",", lo);
      RemoveCommasAppend(GroupPairs(hi), ",");
      RemoveCommasOfDigits(lo);
      assert hi + lo == s;
    }
  }

  /** Digits in groups of two separated by commas, the leftmost group holding one or two digits. */
  predicate PairGrouped(s: string)
    decreases |s|
  {
    if |s| <= 2 then 1 <= |s| && AllDigits(s)
    else 4 <= |s| && s[|s| - 3] == ',' && AllDigits(s[|s| - 2..]) && PairGrouped(s[..|s| - 3])
  }

  /** The en-IN layout: up to three digits alone, otherwise pair groups, a comma and the last three digits. */
  predicate IndianGrouped(s: string) {
    || (1 <= |s| <= 3 && AllDigits(s))
    || (5 <= |s| && s[|s| - 4] == ',' && AllDigits(s[|s| - 3..]) && PairGrouped(s[..|s| - 4]))
  }

  lemma {:induction false} GroupPairsGrouped(s: string)
    requires 1 <= |s| && AllDigits(s)
    ensures PairGrouped(GroupPairs(s))
    decreases |s|
  {
    if |s| > 2 {
      var hi, lo := s[..|s| - 2], s[|s| - 2..];
      GroupPairsGrouped(hi);
      var g := GroupPairs(s);
      assert g == GroupPairs(hi) + "," + lo;
      assert g[..|g| - 3] == GroupPairs(hi);
      assert g[|g| - 2..] == lo;
    }
  }

  /** The rendering follows the en-IN layout: the last three digits, then groups of two. */
  lemma FormatIndianGrouped(n: nat)
    ensures IndianGrouped(FormatIndian(n))
  {
    var d := NatToString(n);
    if |d| > 3 {
      var hi, lo := d[..|d| - 3], d[|d| - 3..];
      GroupPairsGrouped(hi);
      var g := FormatIndian(n);
      assert g == GroupPairs(hi) + "," + lo;
      assert g[..|g| - 4] == GroupPairs(hi);
      assert g[|g| - 3..] == lo;
    }
  }

  /** Grouping only inserts commas: removing them gives back the plain rendering. */
  lemma FormatIndianUngroups(n: nat)
    ensures RemoveCommas(FormatIndian(n)) == NatToString(n)
  {
    var d := NatToString(n);
    if |d| <= 3 {
      RemoveCommasOfDigits(d);
    } else {
      var hi, lo := d[..|d| - 3], d[|d| - 3..];
      GroupPairsUngroups(hi);
      RemoveCommasAppend(GroupPairs(hi) + ",", lo);
      RemoveCommasAppend(GroupPairs(hi), ",");
      RemoveCommasOfDigits(lo);
      assert hi + lo == d;
    }
  }

  /** The position of the first `c` in `s`. */
  function IndexOf(s: string, c: char): (r: Option<nat>)
    ensures r.Some? ==> r.value < |s| && s[r.value] == c && forall j :: 0 <= j < r.value ==> s[j] != c
    ensures r.None? ==> forall j :: 0 <= j < |s| ==> s[j] != c
  {
    if s == [] then None
    else if s[0] == c then Some(0)
    else match IndexOf(s[1..], c)
      case None => None
      case Some(i) => Some(i + 1)
  }
}
