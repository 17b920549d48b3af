/**
 * The JavaScript string built-ins the export workflow relies on:
 * `String.prototype.trim`, `String.prototype.includes` and the decimal
 * rendering of a non-negative integer in a template literal.
 * Strings are sequences of Unicode scalar values.
 */
module JsStrings {

  /** The code points ECMA-262 calls WhiteSpace or LineTerminator, which `trim` removes. */
  predicate IsWhiteSpace(c: char)
  {
    var u := c as int;
    // WhiteSpace: TAB, VT, FF, SP, NBSP, ZWNBSP and the other space separators (Zs)
    || u == 0x09 || u == 0x0B || u == 0x0C || u == 0x20 || u == 0xA0 || u == 0xFEFF
    || u == 0x1680 || (0x2000 <= u <= 0x200A) || u == 0x202F || u == 0x205F || u == 0x3000
    // LineTerminator: LF, CR, LINE SEPARATOR, PARAGRAPH SEPARATOR
    || u == 0x0A || u == 0x0D || u == 0x2028 || u == 0x2029
  }

  /** Drops leading white space: what remains does not start with white space. */
  function TrimStart(s: string): (r: string)
    ensures |r| <= |s|
    ensures r == [] || !IsWhiteSpace(r[0])
  {
    if s != [] && IsWhiteSpace(s[0]) then TrimStart(s[1..]) else s
  }

  /** Drops trailing white space: what remains does not end with white space. */
  function TrimEnd(s: string): (r: string)
    ensures |r| <= |s|
    ensures r == [] || !IsWhiteSpace(r[|r| - 1])
  {
    if s != [] && IsWhiteSpace(s[|s| - 1]) then TrimEnd(s[..|s| - 1]) else s
  }

  /** TrimStart keeps a suffix of its input and drops only white space. */
  lemma {:induction false} TrimStartKeepsSuffix(s: string)
    ensures TrimStart(s) == s[|s| - |TrimStart(s)|..]
    ensures forall i :: 0 <= i < |s| - |TrimStart(s)| ==> IsWhiteSpace(s[i])
  {
    if s != [] && IsWhiteSpace(s[0]) {
      TrimStartKeepsSuffix(s[1..]);
      forall i | 1 <= i < |s| - |TrimStart(s)| ensures IsWhiteSpace(s[i]) {
        assert s[i] == s[1..][i - 1];
      }
    }
  }

  /** TrimEnd keeps a prefix of its input and drops only white space. */
  lemma {:induction false} TrimEndKeepsPrefix(s: string)
    ensures TrimEnd(s) == s[..|TrimEnd(s)|]
    ensures forall i :: |TrimEnd(s)| <= i < |s| ==> IsWhiteSpace(s[i])
  {
    if s != [] && IsWhiteSpace(s[|s| - 1]) {
      TrimEndKeepsPrefix(s[..|s| - 1]);
      forall i | |TrimEnd(s)| <= i < |s| - 1 ensures IsWhiteSpace(s[i]) {
        assert s[i] == s[..|s| - 1][i];
      }
    }
  }

  /** `s.trim()`: white space removed from both ends, so the result neither starts nor ends with it. */
  function Trim(s: string): (r: string)
    ensures |r| <= |s|
    ensures r == [] || (!IsWhiteSpace(r[0]) && !IsWhiteSpace(r[|r| - 1]))
  {
    var t := TrimStart(s);
    TrimEndKeepsPrefix(t);
    TrimEnd(t)
  }

  /** What `trim` keeps is a slice `s[i..j]` of its input, and everything it cuts off is white space. */
  lemma TrimKeepsSlice(s: string)
    ensures var i := |s| - |TrimStart(s)|; var r := Trim(s);
      i + |r| <= |s| && r == s[i..i + |r|] && IsCut(s, i, i + |r|)
  {
    var t := TrimStart(s);
    var r := Trim(s);
    var i := |s| - |t|;
    assert r == TrimEnd(t);
    TrimStartKeepsSuffix(s);
    assert t == s[i..];
    TrimEndKeepsPrefix(t);
    assert r == t[..|r|];
    assert r == s[i..i + |r|];
    forall k | i + |r| <= k < |s| ensures IsWhiteSpace(s[k]) {
      assert s[k] == t[k - i];
    }
  }

  /** Every character of `s` outside `s[i..j]` is white space. */
  ghost predicate IsCut(s: string, i: int, j: int)
    requires 0 <= i <= j <= |s|
  {
    && (forall k :: 0 <= k < i ==> IsWhiteSpace(s[k]))
    && (forall k :: j <= k < |s| ==> IsWhiteSpace(s[k]))
  }

  /** A string that neither starts nor ends with white space is left as it is by `trim`. */
  lemma TrimKeepsUnpadded(s: string)
    requires s == [] || (!IsWhiteSpace(s[0]) && !IsWhiteSpace(s[|s| - 1]))
    ensures Trim(s) == s
  {
    assert TrimStart(s) == s;
  }

  /** Trimming twice is trimming once. */
  lemma TrimIdempotent(s: string)
    ensures Trim(Trim(s)) == Trim(s)
  {
    TrimKeepsUnpadded(Trim(s));
  }

  /** A string made only of white space trims to the empty string. */
  lemma TrimAllWhiteSpace(s: string)
    requires forall k :: 0 <= k < |s| ==> IsWhiteSpace(s[k])
    ensures Trim(s) == ""
  {
    TrimKeepsSlice(s);
  }

  /** `search` occurs in `s` starting at index `k`. */
  predicate OccursAt(s: string, search: string, k: int)
  {
    0 <= k && k + |search| <= |s| && s[k..k + |search|] == search
  }

  /** `s.includes(search)`: true exactly when `search` occurs somewhere in `s`, at any position. */
  function Includes(s: string, search: string): (b: bool)
    ensures b <==> exists k :: OccursAt(s, search, k)
    decreases |s|
  {
    if |search| > |s| then false
    else if s[..|search|] == search then (assert OccursAt(s, search, 0); true)
    else
      var b := Includes(s[1..], search);
      assert b ==> exists k :: OccursAt(s, search, k) by {
        if b {
          var k :| OccursAt(s[1..], search, k);
          assert s[k + 1..k + 1 + |search|] == s[1..][k..k + |search|];
          assert OccursAt(s, search, k + 1);
        }
      }
      assert (exists k :: OccursAt(s, search, k)) ==> b by {
        forall k | OccursAt(s, search, k) ensures OccursAt(s[1..], search, k - 1) {
          assert k != 0;
          assert s[1..][k - 1..k - 1 + |search|] == s[k..k + |search|];
        }
      }
      b
  }

  predicate IsDigit(c: char)
  {
    '0' as int <= c as int <= '9' as int
  }

  function DigitChar(d: nat): (c: char)
    requires d < 10
    ensures IsDigit(c) && c as int - '0' as int == d
  {
    ('0' as int + d) as char
  }

  /**
   * The decimal text JavaScript gives a non-negative integer (`${n}`): digits only,
   * most significant first, with no leading zero.
   */
  function NumberToString(n: nat): (r: string)
    ensures |r| >= 1
    ensures forall i :: 0 <= i < |r| ==> IsDigit(r[i])
    ensures r[0] == '0' ==> n == 0 && r == "0"
  {
    if n < 10 then [DigitChar(n)] else NumberToString(n / 10) + [DigitChar(n % 10)]
  }

  /** The value of a string of decimal digits, read most significant first. */
  function DecimalValue(s: string): nat
    requires forall i :: 0 <= i < |s| ==> IsDigit(s[i])
  {
    if s == [] then 0
    else
      assert IsDigit(s[|s| - 1]);
      10 * DecimalValue(s[..|s| - 1]) + (s[|s| - 1] as int - '0' as int)
  }

  /** Reading back the decimal text of `n` gives `n`. */
  lemma {:induction false} NumberToStringRoundTrip(n: nat)
    ensures DecimalValue(NumberToString(n)) == n
  {
    var r := NumberToString(n);
    if n >= 10 {
      NumberToStringRoundTrip(n / 10);
      assert r[..|r| - 1] == NumberToString(n / 10);
    }
  }

  /** Different integers have different decimal texts. */
  lemma NumberToStringInjective(a: nat, b: nat)
    requires NumberToString(a) == NumberToString(b)
    ensures a == b
  {
    NumberToStringRoundTrip(a);
    NumberToStringRoundTrip(b);
  }
}
