/** String helpers that the components rely on: JavaScript's `String.prototype.includes`
    and the decimal rendering of a non-negative number inside a template literal. */
module Text {

  /** `sub` occurs in `s` starting at index `i`. */
  predicate OccursAt(s: string, sub: string, i: int)
  {
    0 <= i && i + |sub| <= |s| && s[i..i + |sub|] == sub
  }

  /** `s.includes(sub)`: a left-to-right scan over the start positions of `s`. */
  function Includes(s: string, sub: string): (r: bool)
    ensures r ==> |sub| <= |s|
    ensures |sub| <= |s| && s[..|sub|] == sub ==> r
    ensures sub == [] ==> r
    decreases |s|
  {
    if |sub| > |s| then false
    else if s[..|sub|] == sub then true
    else Includes(s[1..], sub)
  }

  /** The scan finds `sub` exactly when `sub` occurs somewhere in `s`. */
  lemma {:induction false} IncludesIff(s: string, sub: string)
    ensures Includes(s, sub) <==> exists i :: OccursAt(s, sub, i)
    decreases |s|
  {
    if |sub| > |s| {
      forall i ensures !OccursAt(s, sub, i) { }
    } else if s[..|sub|] == sub {
      assert OccursAt(s, sub, 0);
    } else {
      IncludesIff(s[1..], sub);
      if Includes(s[1..], sub) {
        var j :| OccursAt(s[1..], sub, j);
        TailSlice(s, j + 1, |sub|);
        assert OccursAt(s, sub, j + 1);
      } else {
        forall i | OccursAt(s, sub, i) ensures false {
          if i > 0 {
            TailSlice(s, i, |sub|);
            assert OccursAt(s[1..], sub, i - 1);
          }
        }
      }
    }
  }

  /** A slice of the tail is the slice of the string one position further on. */
  lemma TailSlice(s: string, i: int, n: nat)
    requires 1 <= i && i + n <= |s|
    ensures s[1..][i - 1..i - 1 + n] == s[i..i + n]
  {
  }

  /** A string shorter than `sub` never includes it. */
  lemma ShorterNeverIncludes(s: string, sub: string)
    requires |s| < |sub|
    ensures !Includes(s, sub)
  {
  }

  /** A string includes every one of its own substrings. */
  lemma IncludesOccurrence(s: string, sub: string, i: int)
    requires OccursAt(s, sub, i)
    ensures Includes(s, sub)
  {
    IncludesIff(s, sub);
  }

  /** A string in which the first character of `sub` never appears does not include `sub`. */
  lemma {:induction false} ExcludesWithoutFirstChar(s: string, sub: string)
    requires |sub| > 0
    requires forall k :: 0 <= k < |s| ==> s[k] != sub[0]
    ensures !Includes(s, sub)
    decreases |s|
  {
    if |sub| <= |s| {
      assert s[..|sub|][0] == s[0];
      ExcludesWithoutFirstChar(s[1..], sub);
    }
  }

  predicate IsDigit(c: char) { '0' <= c <= '9' }

  function DigitChar(d: nat): (c: char)
    requires d < 10
    ensures IsDigit(c)
  {
    ['0', '1', '2', '3', '4', '5', '6', '7', '8', '9'][d]
  }

  function DigitValue(c: char): (d: nat)
    requires IsDigit(c)
    ensures d < 10 && DigitChar(d) == c
  {
    (c as int - '0' as int) as nat
  }

  /** The decimal text of `n`, as `${n}` renders a non-negative integer below 10^21
      (from there on JavaScript switches to exponent notation). */
  function NatToString(n: nat): (r: string)
    ensures |r| > 0 && forall k :: 0 <= k < |r| ==> IsDigit(r[k])
  {
    if n < 10 then [DigitChar(n)] else NatToString(n / 10) + [DigitChar(n % 10)]
  }

  /** The value of a non-empty string of decimal digits. */
  function ParseDigits(s: string): nat
    requires |s| > 0 && forall k :: 0 <= k < |s| ==> IsDigit(s[k])
  {
    if |s| == 1 then DigitValue(s[0])
    else ParseDigits(s[..|s| - 1]) * 10 + DigitValue(s[|s| - 1])
  }

  /** Reading back the decimal text gives the number. */
  lemma {:induction false} ParseNatToString(n: nat)
    ensures ParseDigits(NatToString(n)) == n
  {
    if n >= 10 {
      var r := NatToString(n);
      ParseNatToString(n / 10);
      assert r[..|r| - 1] == NatToString(n / 10);
      assert DigitValue(r[|r| - 1]) == n % 10;
    }
  }

  /** Distinct numbers have distinct decimal texts. */
  lemma NatToStringInjective(a: nat, b: nat)
    requires NatToString(a) == NatToString(b)
    ensures a == b
  {
    ParseNatToString(a);
    ParseNatToString(b);
  }
}
