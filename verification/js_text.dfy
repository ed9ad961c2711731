/** The parts of ECMAScript string semantics the handlers depend on:
    `String.prototype.trim`, the truthiness of a string,
    `String.prototype.includes`, and `Number.prototype.toString()` on a
    non-negative integer. */
module JsText {

  /** The code points `trim` strips: WhiteSpace (section 12.2 of ECMA-262:
      TAB, VT, FF, ZWNBSP and every Unicode "Zs" space) and LineTerminator
      (section 12.3: LF, CR, LS, PS). */
  predicate IsWhitespace(c: char) {
    || c == '\U{0009}' || c == '\U{000B}' || c == '\U{000C}' || c == '\U{FEFF}'
    || c == '\U{0020}' || c == '\U{00A0}' || c == '\U{1680}'
    || ('\U{2000}' <= c <= '\U{200A}')
    || c == '\U{202F}' || c == '\U{205F}' || c == '\U{3000}'
    || c == '\U{000A}' || c == '\U{000D}' || c == '\U{2028}' || c == '\U{2029}'
  }

  predicate AllWhitespace(s: string) {
    forall i :: 0 <= i < |s| ==> IsWhitespace(s[i])
  }

  /** `q` occurs in `s` starting at index `k`. */
  predicate OccursAt(s: string, q: string, k: int) {
    0 <= k && k + |q| <= |s| && s[k..k + |q|] == q
  }

  /** A string is truthy exactly when it is non-empty. */
  predicate Truthy(s: string) {
    |s| > 0
  }

  /** The first index at or after `i` that holds no whitespace, or `|s|`. */
  function SkipLeading(s: string, i: nat): (r: nat)
    requires i <= |s|
    ensures i <= r <= |s|
    ensures forall k :: i <= k < r ==> IsWhitespace(s[k])
    ensures r < |s| ==> !IsWhitespace(s[r])
    decreases |s| - i
  {
    if i < |s| && IsWhitespace(s[i]) then SkipLeading(s, i + 1) else i
  }

  /** The least `r >= lo` such that `s[r..j]` is all whitespace. */
  function SkipTrailing(s: string, j: nat, lo: nat): (r: nat)
    requires lo <= j <= |s|
    ensures lo <= r <= j
    ensures forall k :: r <= k < j ==> IsWhitespace(s[k])
    ensures r > lo ==> !IsWhitespace(s[r - 1])
    decreases j
  {
    if j > lo && IsWhitespace(s[j - 1]) then SkipTrailing(s, j - 1, lo) else j
  }

  /** `s.trim()`: the infix of `s` left after removing whitespace at both
      ends. */
  function Trim(s: string): (r: string)
    ensures |r| <= |s|
    ensures exists k :: OccursAt(s, r, k)
    ensures |r| == 0 <==> AllWhitespace(s)
    ensures |r| > 0 ==> !IsWhitespace(r[0]) && !IsWhitespace(r[|r| - 1])
    ensures exists a, b :: 0 <= a <= b <= |s| && r == s[a..b] && AllWhitespace(s[..a]) && AllWhitespace(s[b..])
  {
    var a := SkipLeading(s, 0);
    var b := SkipTrailing(s, |s|, a);
    assert OccursAt(s, s[a..b], a);
    assert a < |s| ==> b > a;
    assert AllWhitespace(s[..a]) && AllWhitespace(s[b..]);
    s[a..b]
  }

  /** Trimming twice is trimming once. */
  lemma TrimIdempotent(s: string)
    ensures Trim(Trim(s)) == Trim(s)
  {
    var t := Trim(s);
    if |t| > 0 {
      assert SkipLeading(t, 0) == 0;
      assert SkipTrailing(t, |t|, 0) == |t|;
      assert t[0..|t|] == t;
    }
  }

  /** A draft is blank when `draft.trim()` is falsy. */
  predicate Blank(s: string) {
    !Truthy(Trim(s))
  }

  /** `s.includes(q)`: a case-sensitive, code-point-exact substring test. */
  function Includes(s: string, q: string): (b: bool)
    ensures b <==> exists k :: OccursAt(s, q, k)
  {
    if |q| <= |s| && s[..|q|] == q then
      assert OccursAt(s, q, 0);
      true
    else if |s| == 0 then
      assert forall k :: !OccursAt(s, q, k);
      false
    else
      var b := Includes(s[1..], q);
      assert forall k :: OccursAt(s[1..], q, k) <==> OccursAt(s, q, k + 1) by {
        forall k
          ensures OccursAt(s[1..], q, k) <==> OccursAt(s, q, k + 1)
        {
          if 0 <= k && k + |q| <= |s[1..]| {
            assert s[1..][k..k + |q|] == s[k + 1..k + 1 + |q|];
          }
        }
      }
      assert !OccursAt(s, q, 0);
      assert b ==> exists k :: OccursAt(s, q, k) by {
        if b {
          var k :| OccursAt(s[1..], q, k);
          assert OccursAt(s, q, k + 1);
        }
      }
      assert (exists k :: OccursAt(s, q, k)) ==> b by {
        if exists k :: OccursAt(s, q, k) {
          var k :| OccursAt(s, q, k);
          assert k != 0;
          assert OccursAt(s[1..], q, k - 1);
        }
      }
      b
  }

  /** Every string includes the empty string. */
  lemma IncludesEmpty(s: string)
    ensures Includes(s, "")
  {
    assert OccursAt(s, "", 0);
  }

  predicate IsDigit(c: char) {
    '0' <= c <= '9'
  }

  function DigitChar(d: nat): (c: char)
    requires d < 10
    ensures IsDigit(c)
  {
    "0123456789"[d]
  }

  function DigitValue(c: char): (d: nat)
    requires IsDigit(c)
    ensures d < 10
  {
    (c as int - '0' as int) as nat
  }

  /** `n.toString()` for a non-negative integer: its decimal digits, most
      significant first, with no leading zero (so 0 is `"0"`). */
  function NatToString(n: nat): (r: string)
    ensures |r| >= 1
    ensures forall i :: 0 <= i < |r| ==> IsDigit(r[i])
    ensures r[0] == '0' ==> n == 0
    ensures |r| > 1 ==> r[0] != '0'
    decreases n
  {
    if n < 10 then [DigitChar(n)] else NatToString(n / 10) + [DigitChar(n % 10)]
  }

  /** The number a string of decimal digits denotes. */
  function ParseDecimal(s: string): nat
    requires forall i :: 0 <= i < |s| ==> IsDigit(s[i])
  {
    if |s| == 0 then 0 else ParseDecimal(s[..|s| - 1]) * 10 + DigitValue(s[|s| - 1])
  }

  /** Reading back the decimal string of `n` gives `n`. */
  lemma {:induction false} ParseNatToString(n: nat)
    ensures ParseDecimal(NatToString(n)) == n
    decreases n
  {
    var r := NatToString(n);
    if n < 10 {
      assert r[..0] == [];
      assert DigitValue(DigitChar(n)) == n by {
        assert "0123456789"[n] as int == '0' as int + n;
      }
    } else {
      ParseNatToString(n / 10);
      assert r[..|r| - 1] == NatToString(n / 10);
      var d := n % 10;
      assert DigitValue(DigitChar(d)) == d by {
        assert "0123456789"[d] as int == '0' as int + d;
      }
    }
  }

  /** Distinct numbers have distinct decimal strings. */
  lemma NatToStringInjective(a: nat, b: nat)
    requires NatToString(a) == NatToString(b)
    ensures a == b
  {
    ParseNatToString(a);
    ParseNatToString(b);
  }
}
