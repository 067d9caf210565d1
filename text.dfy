/**
 * The JavaScript string operations the dashboard relies on: `toLowerCase`,
 * `toUpperCase` on one character, `includes`, `replace` with a string pattern,
 * the relational `<` on strings, and integer-to-decimal conversion inside
 * template literals.
 *
 * Case mapping covers ASCII and the Latin-1 letters (so `Ñ` lowers to `ñ`, as
 * in "PREÑADA"); the rest of Unicode is not modelled.
 */
module Text {
  import opened Optional

  // ---------------------------------------------------------------------------
  // Case mapping

  /** Upper-case letters that `toLowerCase` maps one-to-one (ASCII and Latin-1, not `×`). */
  predicate IsUpper(c: char) {
    ('A' <= c <= 'Z') || ('À' <= c <= 'Þ' && c != '×')
  }

  /** Lower-case letters that `toUpperCase` maps one-to-one (ASCII and Latin-1, not `÷`, `ß`, `ÿ`). */
  predicate IsLower(c: char) {
    ('a' <= c <= 'z') || ('à' <= c <= 'þ' && c != '÷' && c != 'ß')
  }

  function LowerChar(c: char): (r: char)
    ensures IsUpper(c) ==> IsLower(r)
    ensures !IsUpper(c) ==> r == c
  {
    if IsUpper(c) then (c as int + 32) as char else c
  }

  function UpperChar(c: char): (r: char)
    ensures IsLower(c) ==> IsUpper(r)
    ensures !IsLower(c) ==> r == c
  {
    if IsLower(c) then (c as int - 32) as char else c
  }

  /** `s.toLowerCase()` */
  function ToLower(s: string): (r: string)
    ensures |r| == |s|
    ensures forall i :: 0 <= i < |s| ==> !IsUpper(r[i])
  {
    seq(|s|, i requires 0 <= i < |s| => LowerChar(s[i]))
  }

  /** Lowering twice is lowering once. */
  lemma ToLowerIdempotent(s: string)
    ensures ToLower(ToLower(s)) == ToLower(s)
  {
  }

  /** Lowering the upper-cased form of a character gives the lowered character. */
  lemma LowerOfUpper(c: char)
    ensures LowerChar(UpperChar(c)) == LowerChar(c)
  {
  }

  /** The first character upper-cased, the rest unchanged. */
  function Capitalize(s: string): (r: string)
    ensures |r| == |s|
    ensures |s| > 0 ==> r[0] == UpperChar(s[0]) && r[1..] == s[1..]
    ensures |s| == 0 ==> r == ""
  {
    if |s| == 0 then "" else [UpperChar(s[0])] + s[1..]
  }

  /** Capitalising does not change the lower-cased text. */
  lemma {:induction false} LowerOfCapitalize(s: string)
    ensures ToLower(Capitalize(s)) == ToLower(s)
  {
    if |s| > 0 {
      LowerOfUpper(s[0]);
      assert ToLower(Capitalize(s))[0] == ToLower(s)[0];
    }
  }

  // ---------------------------------------------------------------------------
  // Substrings: `includes`, `indexOf`, `replace`

  predicate IsPrefix(p: string, s: string) {
    |p| <= |s| && s[..|p|] == p
  }

  /** `s.includes(p)` */
  predicate Contains(s: string, p: string)
    decreases |s|
  {
    IsPrefix(p, s) || (|s| > 0 && Contains(s[1..], p))
  }

  /** `p` occurs in `s` starting at position `i`. */
  predicate OccursAt(s: string, p: string, i: int) {
    0 <= i <= |s| - |p| && s[i..i + |p|] == p
  }

  /** `s.includes(p)` holds exactly when `p` occurs at some position of `s`. */
  lemma {:induction false} ContainsIff(s: string, p: string)
    ensures Contains(s, p) <==> exists i :: OccursAt(s, p, i)
    decreases |s|
  {
    assert OccursAt(s, p, 0) <==> IsPrefix(p, s);
    if |s| > 0 {
      ContainsIff(s[1..], p);
      // A match in the tail is a match in `s` one place further right, and back.
      forall j | OccursAt(s[1..], p, j) ensures OccursAt(s, p, j + 1) {
        assert s[1..][j..j + |p|] == s[j + 1..j + 1 + |p|];
      }
      forall i | OccursAt(s, p, i) && i >= 1 ensures OccursAt(s[1..], p, i - 1) {
        assert s[1..][i - 1..i - 1 + |p|] == s[i..i + |p|];
      }
    }
  }

  /** Every string includes the empty string (`s.includes("")`). */
  lemma ContainsEmpty(s: string)
    ensures Contains(s, "")
  {
  }

  /** `s.indexOf(p)`, with `None` for -1. */
  function IndexOf(s: string, p: string): (r: Option<nat>)
    ensures r.Some? ==> OccursAt(s, p, r.value)
    ensures r.Some? ==> forall j :: 0 <= j < r.value ==> !OccursAt(s, p, j)
    ensures r.None? <==> !Contains(s, p)
    decreases |s|
  {
    if IsPrefix(p, s) then Some(0)
    else if |s| == 0 then None
    else
      match IndexOf(s[1..], p)
      case None => None
      case Some(i) =>
        assert forall j :: 1 <= j < i + 1 ==> (OccursAt(s, p, j) <==> OccursAt(s[1..], p, j - 1));
        Some(i + 1)
  }

  /** `s.replace(p, rep)` with a string pattern: only the first occurrence is replaced. */
  function ReplaceFirst(s: string, p: string, rep: string): (r: string)
    ensures !Contains(s, p) ==> r == s
    ensures IndexOf(s, p).Some? ==>
      var i := IndexOf(s, p).value; r == s[..i] + rep + s[i + |p|..]
    decreases |s|
  {
    if IsPrefix(p, s) then
      assert IndexOf(s, p) == Some(0) && s[..0] == [];
      rep + s[|p|..]
    else if |s| == 0 then s
    else
      var rest := ReplaceFirst(s[1..], p, rep);
      if IndexOf(s[1..], p).Some? then
        // The first match in the tail is the first match of `s`, one place further right.
        var j := IndexOf(s[1..], p).value;
        assert IndexOf(s, p) == Some(j + 1);
        ShiftSplice(s, rep, j, j + |p|);
        [s[0]] + rest
      else
        assert IndexOf(s, p).None?;
        [s[0]] + rest
  }

  /** Splicing into the tail of `s` and putting back its head splices into `s` one place further right. */
  lemma ShiftSplice(s: string, rep: string, j: nat, k: nat)
    requires j <= k < |s|
    ensures [s[0]] + (s[1..][..j] + rep + s[1..][k..]) == s[..j + 1] + rep + s[k + 1..]
  {
    assert [s[0]] + s[1..][..j] == s[..j + 1];
    assert s[1..][k..] == s[k + 1..];
  }

  // ---------------------------------------------------------------------------
  // Decimal digits

  predicate IsDigit(c: char) {
    '0' <= c <= '9'
  }

  predicate AllDigits(s: string) {
    forall i :: 0 <= i < |s| ==> IsDigit(s[i])
  }

  function Digit(n: int): (c: char)
    requires 0 <= n < 10
    ensures IsDigit(c)
  {
    ('0' as int + n) as char
  }

  function DigitValue(c: char): int
    requires IsDigit(c)
  {
    c as int - '0' as int
  }

  /** The number a string of decimal digits denotes. */
  function DigitsValue(s: string): nat
    requires AllDigits(s)
    decreases |s|
  {
    if s == [] then 0 else DigitsValue(s[..|s| - 1]) * 10 + DigitValue(s[|s| - 1])
  }

  /** `${n}` for a non-negative integer: no sign, no leading zeros. */
  function NatToString(n: nat): (r: string)
    ensures |r| >= 1 && AllDigits(r)
    ensures |r| > 1 ==> r[0] != '0'
  {
    if n < 10 then [Digit(n)] else NatToString(n / 10) + [Digit(n % 10)]
  }

  /** Reading back the decimal text of `n` gives `n`. */
  lemma {:induction false} NatToStringValue(n: nat)
    ensures DigitsValue(NatToString(n)) == n
  {
    if n >= 10 {
      NatToStringValue(n / 10);
      var s := NatToString(n);
      assert s[..|s| - 1] == NatToString(n / 10);
    }
  }

  /** Decimal text without a leading zero is the text of its own value. */
  lemma {:induction false} CanonicalDigits(s: string)
    requires |s| >= 1 && AllDigits(s) && (|s| == 1 || s[0] != '0')
    ensures NatToString(DigitsValue(s)) == s
    decreases |s|
  {
    if |s| == 1 {
      assert Digit(DigitValue(s[0])) == s[0];
    } else {
      var p, c := s[..|s| - 1], s[|s| - 1];
      assert p[0] == s[0];
      CanonicalDigits(p);
      var v := DigitsValue(p);
      // `p` has no leading zero, so its value has at least one digit before `c`.
      assert v >= 1 by {
        if |p| == 1 {
          assert v == DigitValue(p[0]);
        }
      }
      assert DigitsValue(s) / 10 == v && DigitsValue(s) % 10 == DigitValue(c);
      assert Digit(DigitValue(c)) == c;
      assert s == p + [c];
    }
  }

  /** `${i}` for an integer. */
  function IntToString(i: int): (r: string)
    ensures |r| >= 1
    ensures i < 0 ==> r[0] == '-' && r[1..] == NatToString(-i)
    ensures i >= 0 ==> r == NatToString(i)
  {
    if i < 0 then "-" + NatToString(-i) else NatToString(i)
  }

  function Pow10(w: nat): (r: nat)
    ensures r >= 1
  {
    if w == 0 then 1 else 10 * Pow10(w - 1)
  }

  /** `n` written with exactly `w` digits, zero-padded (`String(n).padStart(w, "0")` for small `n`). */
  function PadDigits(n: nat, w: nat): (r: string)
    ensures |r| == w && AllDigits(r)
  {
    if w == 0 then [] else PadDigits(n / 10, w - 1) + [Digit(n % 10)]
  }

  /** The padded text of `n` denotes `n` whenever `n` fits in `w` digits. */
  lemma {:induction false} PadDigitsValue(n: nat, w: nat)
    requires n < Pow10(w)
    ensures DigitsValue(PadDigits(n, w)) == n
  {
    if w > 0 {
      PadDigitsValue(n / 10, w - 1);
      var s := PadDigits(n, w);
      assert s[..|s| - 1] == PadDigits(n / 10, w - 1);
    }
  }

  // ---------------------------------------------------------------------------
  // The relational operator `<` on strings (code-unit order, shorter prefix first)

  predicate StrLess(a: string, b: string)
    decreases |a|
  {
    if |b| == 0 then false
    else if |a| == 0 then true
    else if a[0] != b[0] then a[0] < b[0]
    else StrLess(a[1..], b[1..])
  }

  /** `<` is irreflexive. */
  lemma {:induction false} StrLessIrreflexive(a: string)
    ensures !StrLess(a, a)
    decreases |a|
  {
    if |a| > 0 {
      StrLessIrreflexive(a[1..]);
    }
  }

  /** Comparing two strings that start with blocks of equal length compares the blocks first. */
  lemma {:induction false} StrLessConcat(a: string, b: string, a': string, b': string)
    requires |a| == |a'|
    ensures StrLess(a + b, a' + b') <==> StrLess(a, a') || (a == a' && StrLess(b, b'))
    decreases |a|
  {
    if |a| == 0 {
      assert a + b == b && a' + b' == b';
    } else {
      assert (a + b)[0] == a[0] && (a' + b')[0] == a'[0];
      if a[0] == a'[0] {
        assert (a + b)[1..] == a[1..] + b && (a' + b')[1..] == a'[1..] + b';
        StrLessConcat(a[1..], b, a'[1..], b');
        if a[1..] == a'[1..] {
          assert a == [a[0]] + a[1..] && a' == [a'[0]] + a'[1..];
        }
      }
    }
  }

  /** Zero-padded numerals of one width compare as strings exactly as the numbers compare. */
  lemma {:induction false} PadDigitsOrder(n: nat, m: nat, w: nat)
    requires n < Pow10(w) && m < Pow10(w)
    ensures StrLess(PadDigits(n, w), PadDigits(m, w)) <==> n < m
  {
    if w == 0 {
    } else {
      PadDigitsOrder(n / 10, m / 10, w - 1);
      StrLessConcat(PadDigits(n / 10, w - 1), [Digit(n % 10)], PadDigits(m / 10, w - 1), [Digit(m % 10)]);
      PadDigitsValue(n / 10, w - 1);
      PadDigitsValue(m / 10, w - 1);
      assert n == 10 * (n / 10) + n % 10 && m == 10 * (m / 10) + m % 10;
    }
  }
}
