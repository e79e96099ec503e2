/**
 * The string operations the storefront relies on, written out exactly:
 * `split` and `join` on a separator, `startsWith`, `includes`, ASCII
 * `toLowerCase`, and the decimal rendering of integers and of exact
 * rupee amounts that a template literal `${x}` produces for values below
 * 1e21 (JavaScript switches to exponent form from there on).
 */
module Text {

  /** `s.split(sep)` for a one-character separator: the pieces between
      the separators, left to right. There is always at least one piece,
      and no piece contains the separator. */
  function Split(s: string, sep: char): (parts: seq<string>)
    ensures |parts| >= 1
    ensures forall i :: 0 <= i < |parts| ==> sep !in parts[i]
  {
    if |s| == 0 then [""]
    else
      var rest := Split(s[1..], sep);
      if s[0] == sep then [""] + rest
      else [[s[0]] + rest[0]] + rest[1..]
  }

  /** `parts.join(sep)`. */
  function Join(parts: seq<string>, sep: string): string
  {
    if |parts| == 0 then ""
    else if |parts| == 1 then parts[0]
    else parts[0] + sep + Join(parts[1..], sep)
  }

  /** Joining the pieces of a split with the same separator gives back the
      original string: `s.split(c).join(c) == s` for every `s`. */
  lemma {:induction false} JoinSplit(s: string, c: char)
    ensures Join(Split(s, c), [c]) == s
  {
    if |s| == 0 {
    } else {
      var rest := Split(s[1..], c);
      JoinSplit(s[1..], c);
      if s[0] == c {
        assert Split(s, c) == [""] + rest;
        assert Join([""] + rest, [c]) == "" + [c] + Join(rest, [c]);
        assert s == [s[0]] + s[1..];
      } else {
        var parts := Split(s, c);
        assert parts == [[s[0]] + rest[0]] + rest[1..];
        if |rest| == 1 {
          assert Join(rest, [c]) == rest[0];
          assert s == [s[0]] + s[1..];
        } else {
          assert parts[1..] == rest[1..];
          assert Join(rest, [c]) == rest[0] + [c] + Join(rest[1..], [c]);
          assert s == [s[0]] + s[1..];
        }
      }
    }
  }

  /** A string without the separator splits into itself alone. */
  lemma {:induction false} SplitWithoutSeparator(s: string, c: char)
    requires c !in s
    ensures Split(s, c) == [s]
  {
    if |s| > 0 {
      SplitWithoutSeparator(s[1..], c);
      assert s == [s[0]] + s[1..];
    }
  }

  /** Splitting `a + c + b`, where `a` has no `c`, yields `a` and then the
      pieces of `b`. */
  lemma {:induction false} SplitAfterSeparator(a: string, c: char, b: string)
    requires c !in a
    ensures Split(a + [c] + b, c) == [a] + Split(b, c)
  {
    var s := a + [c] + b;
    if |a| == 0 {
      assert s[0] == c && s[1..] == b;
    } else {
      assert s[0] == a[0] && s[1..] == a[1..] + [c] + b;
      SplitAfterSeparator(a[1..], c, b);
      assert [a[0]] + a[1..] == a;
    }
  }

  /** Splitting a join of separator-free pieces gives the pieces back. */
  lemma {:induction false} SplitJoin(parts: seq<string>, c: char)
    requires |parts| >= 1
    requires forall i :: 0 <= i < |parts| ==> c !in parts[i]
    ensures Split(Join(parts, [c]), c) == parts
  {
    if |parts| == 1 {
      SplitWithoutSeparator(parts[0], c);
    } else {
      SplitJoin(parts[1..], c);
      SplitAfterSeparator(parts[0], c, Join(parts[1..], [c]));
      assert [parts[0]] + parts[1..] == parts;
    }
  }

  /** The first piece of a split is everything before the first separator:
      when the separator occurs, `s` is that piece, the separator, and the
      rest. */
  lemma SplitHead(s: string, c: char)
    ensures c !in s ==> Split(s, c) == [s]
    ensures c in s ==> |Split(s, c)| >= 2 && exists rest :: s == Split(s, c)[0] + [c] + rest
  {
    var parts := Split(s, c);
    JoinSplit(s, c);
    assert |parts| == 1 ==> Join(parts, [c]) == parts[0];
    if c !in s {
      SplitWithoutSeparator(s, c);
    } else {
      var rest := Join(parts[1..], [c]);
      assert s == parts[0] + [c] + rest;
    }
  }

  /** `s.startsWith(p)`. */
  predicate StartsWith(s: string, p: string)
  {
    |p| <= |s| && s[..|p|] == p
  }

  /** `s` ends with `p`. */
  predicate EndsWith(s: string, p: string)
  {
    |p| <= |s| && s[|s| - |p|..] == p
  }

  /** What lies between a known prefix and a known suffix of `s`. */
  function Between(s: string, pre: string, post: string): string
    requires |pre| + |post| <= |s|
  {
    s[|pre|..|s| - |post|]
  }

  /** A string assembled from three pieces starts with the first, ends with
      the last and holds the middle one between them. */
  lemma Pieces(a: string, m: string, b: string)
    ensures StartsWith(a + m + b, a) && EndsWith(a + m + b, b)
    ensures Between(a + m + b, a, b) == m
  {
    var s := a + m + b;
    assert s[..|a|] == a;
    assert s[|s| - |b|..] == b;
    assert s[|a|..|s| - |b|] == m;
  }

  /** `s.includes(sub)`: `sub` occurs somewhere in `s`. */
  predicate Includes(s: string, sub: string)
    decreases |s|
  {
    StartsWith(s, sub) || (|s| > 0 && Includes(s[1..], sub))
  }

  /** `includes` finds exactly the strings that occur at some offset. */
  lemma {:induction false} IncludesAt(s: string, sub: string)
    ensures Includes(s, sub) <==> exists i :: 0 <= i <= |s| && StartsWith(s[i..], sub)
    decreases |s|
  {
    assert s[0..] == s;
    if |s| > 0 {
      IncludesAt(s[1..], sub);
      if Includes(s[1..], sub) {
        var i :| 0 <= i <= |s[1..]| && StartsWith(s[1..][i..], sub);
        assert s[1..][i..] == s[i + 1..];
      }
      if exists i :: 0 <= i <= |s| && StartsWith(s[i..], sub) {
        var i :| 0 <= i <= |s| && StartsWith(s[i..], sub);
        if i > 0 {
          assert s[1..][i - 1..] == s[i..];
        }
      }
    }
  }

  /** Regrouping a concatenation of five pieces. */
  lemma Regroup(a: string, b: string, c: string, d: string, e: string)
    ensures a + b + (c + d + e) == (a + b + c) + d + e
  {
  }

  /** An occurrence inside `m` is an occurrence inside `a + m + b`. */
  lemma IncludesWithin(a: string, m: string, b: string, sub: string)
    requires Includes(m, sub)
    ensures Includes(a + m + b, sub)
  {
    var s := a + m + b;
    IncludesAt(m, sub);
    var i :| 0 <= i <= |m| && StartsWith(m[i..], sub);
    assert s[|a| + i..][..|sub|] == m[i..][..|sub|];
    IncludesAt(s, sub);
  }

  /** Every part of a join occurs in it. */
  lemma {:induction false} JoinIncludesPart(parts: seq<string>, sep: string, k: nat)
    requires k < |parts|
    ensures Includes(Join(parts, sep), parts[k])
  {
    if |parts| == 1 {
      IncludesWithin("", parts[0], "", parts[0]);
      assert Join(parts, sep) == "" + parts[0] + "";
    } else if k == 0 {
      IncludesWithin("", parts[0], sep + Join(parts[1..], sep), parts[0]);
      assert Join(parts, sep) == "" + parts[0] + (sep + Join(parts[1..], sep));
    } else {
      JoinIncludesPart(parts[1..], sep, k - 1);
      IncludesWithin(parts[0] + sep, Join(parts[1..], sep), "", parts[k]);
      assert Join(parts, sep) == parts[0] + sep + Join(parts[1..], sep) + "";
    }
  }

  /** The empty string is included in every string. */
  lemma IncludesEmpty(s: string)
    ensures Includes(s, "")
  {
    assert StartsWith(s, "");
  }

  /** `toLowerCase` restricted to ASCII letters. */
  function LowerChar(ch: char): (r: char)
    ensures 'A' <= ch <= 'Z' ==> r as int == ch as int + 32
    ensures !('A' <= ch <= 'Z') ==> r == ch
  {
    if 'A' <= ch <= 'Z' then (ch as int + 32) as char else ch
  }

  function ToLower(s: string): (r: string)
    ensures |r| == |s|
    ensures forall i :: 0 <= i < |s| ==> r[i] == LowerChar(s[i])
  {
    seq(|s|, i requires 0 <= i < |s| => LowerChar(s[i]))
  }

  // ---------------------------------------------------------------------
  // Decimal rendering of numbers
  // ---------------------------------------------------------------------

  function DigitChar(d: nat): (ch: char)
    requires d < 10
    ensures '0' <= ch <= '9' && ch as int - '0' as int == d
  {
    ('0' as int + d) as char
  }

  predicate IsDigit(ch: char)
  {
    '0' <= ch <= '9'
  }

  function DigitValue(ch: char): nat
    requires IsDigit(ch)
  {
    ch as int - '0' as int
  }

  /** The value of a string of decimal digits, most significant first. */
  function DigitsValue(s: string): nat
    requires forall i :: 0 <= i < |s| ==> IsDigit(s[i])
  {
    if |s| == 0 then 0
    else DigitsValue(s[..|s| - 1]) * 10 + DigitValue(s[|s| - 1])
  }

  /** `String(n)` for a non-negative integer: the shortest decimal digits. */
  function NatToString(n: nat): (s: string)
    ensures |s| >= 1
    ensures forall i :: 0 <= i < |s| ==> IsDigit(s[i])
    ensures |s| > 1 ==> s[0] != '0'
  {
    if n < 10 then [DigitChar(n)]
    else NatToString(n / 10) + [DigitChar(n % 10)]
  }

  /** Reading back the digits of `NatToString(n)` gives `n`. */
  lemma {:induction false} NatToStringValue(n: nat)
    ensures DigitsValue(NatToString(n)) == n
  {
    if n >= 10 {
      NatToStringValue(n / 10);
      var s := NatToString(n);
      assert s[..|s| - 1] == NatToString(n / 10);
    }
  }

  /** Different numbers render differently. */
  lemma NatToStringInjective(m: nat, n: nat)
    requires NatToString(m) == NatToString(n)
    ensures m == n
  {
    NatToStringValue(m);
    NatToStringValue(n);
  }

  /** `String(i)`, as JavaScript prints integers below 1e21 in size: an
      optional minus sign, then the shortest decimal digits. */
  function IntToString(i: int): (s: string)
    ensures |s| >= 1
    ensures i < 0 <==> s[0] == '-'
    ensures i >= 0 ==> (forall k :: 0 <= k < |s| ==> IsDigit(s[k])) && DigitsValue(s) == i
    ensures i < 0 ==> (forall k :: 1 <= k < |s| ==> IsDigit(s[k])) && DigitsValue(s[1..]) == -i
    ensures i >= 0 && |s| > 1 ==> s[0] != '0'
    ensures i < 0 ==> |s| >= 2 && s[1] != '0'
  {
    if i < 0 then
      var s := "-" + NatToString(-i);
      NatToStringValue(-i);
      assert s[1..] == NatToString(-i);
      s
    else
      NatToStringValue(i);
      NatToString(i)
  }

  /** The text a template literal gives for the exact amount `paise / 100`
      rupees, below 1e21 rupees: no fraction for whole rupees, otherwise
      the shortest decimal fraction ("62.5", "0.05"). */
  function RenderAmount(paise: int): (s: string)
    ensures |s| >= 1
  {
    if paise < 0 then "-" + RenderMagnitude(-paise) else RenderMagnitude(paise)
  }

  function RenderMagnitude(paise: nat): (s: string)
    ensures |s| >= 1
  {
      var rupees, cents := paise / 100, paise % 100;
      if cents == 0 then NatToString(rupees)
      else if cents % 10 == 0 then NatToString(rupees) + "." + [DigitChar(cents / 10)]
      else NatToString(rupees) + "." + [DigitChar(cents / 10), DigitChar(cents % 10)]
  }

  /** The value of a rendered amount in paise: the inverse of `RenderAmount`. */
  function AmountValue(s: string): int
  {
    if |s| > 0 && s[0] == '-' then -AmountValue(s[1..])
    else
      var parts := Split(s, '.');
      var whole := parts[0];
      var frac := if |parts| > 1 then parts[1] else "";
      if (forall i :: 0 <= i < |whole| ==> IsDigit(whole[i])) &&
         (forall i :: 0 <= i < |frac| ==> IsDigit(frac[i])) && |frac| <= 2
      then
        DigitsValue(whole) * 100 +
        (if |frac| == 0 then 0
         else if |frac| == 1 then DigitsValue(frac) * 10
         else DigitsValue(frac))
      else 0
  }

  /** Rendering an amount loses nothing: reading it back gives the same
      number of paise. */
  lemma RenderAmountValue(paise: int)
    ensures AmountValue(RenderAmount(paise)) == paise
  {
    if paise < 0 {
      RenderMagnitudeValue(-paise);
      var s := RenderAmount(paise);
      assert s[1..] == RenderMagnitude(-paise);
    } else {
      RenderMagnitudeValue(paise);
    }
  }

  lemma RenderMagnitudeValue(paise: nat)
    ensures RenderMagnitude(paise)[0] != '-'
    ensures AmountValue(RenderMagnitude(paise)) == paise
  {
    var rupees, cents := paise / 100, paise % 100;
    var whole := NatToString(rupees);
    NatToStringValue(rupees);
    DigitPairValue(cents / 10, cents % 10);
    assert IsDigit(whole[0]);
    if cents == 0 {
      AmountOfWhole(whole);
    } else if cents % 10 == 0 {
      AmountOfParts(whole, [DigitChar(cents / 10)]);
    } else {
      AmountOfParts(whole, [DigitChar(cents / 10), DigitChar(cents % 10)]);
    }
  }

  /** Reading back a rendering without a fraction. */
  lemma AmountOfWhole(whole: string)
    requires |whole| >= 1 && forall i :: 0 <= i < |whole| ==> IsDigit(whole[i])
    ensures AmountValue(whole) == DigitsValue(whole) * 100
  {
    assert whole[0] != '-' by { assert IsDigit(whole[0]); }
    assert '.' !in whole by {
      forall i | 0 <= i < |whole| ensures whole[i] != '.' { assert IsDigit(whole[i]); }
    }
    SplitWithoutSeparator(whole, '.');
  }

  /** Reading back a rendering with a one- or two-digit fraction. */
  lemma AmountOfParts(whole: string, frac: string)
    requires |whole| >= 1 && forall i :: 0 <= i < |whole| ==> IsDigit(whole[i])
    requires 1 <= |frac| <= 2 && forall i :: 0 <= i < |frac| ==> IsDigit(frac[i])
    ensures AmountValue(whole + "." + frac)
         == DigitsValue(whole) * 100 + (if |frac| == 1 then DigitsValue(frac) * 10 else DigitsValue(frac))
  {
    var s := whole + "." + frac;
    assert s[0] != '-' by { assert s[0] == whole[0] && IsDigit(whole[0]); }
    assert '.' !in whole by {
      forall i | 0 <= i < |whole| ensures whole[i] != '.' { assert IsDigit(whole[i]); }
    }
    assert '.' !in frac by {
      forall i | 0 <= i < |frac| ensures frac[i] != '.' { assert IsDigit(frac[i]); }
    }
    assert s == whole + ['.'] + frac;
    SplitAfterSeparator(whole, '.', frac);
    SplitWithoutSeparator(frac, '.');
  }

  /** The value of one or two rendered digits. */
  lemma DigitPairValue(d1: nat, d0: nat)
    requires d1 < 10 && d0 < 10
    ensures DigitsValue([DigitChar(d1)]) == d1
    ensures DigitsValue([DigitChar(d1), DigitChar(d0)]) == d1 * 10 + d0
  {
    var pair := [DigitChar(d1), DigitChar(d0)];
    assert pair[..1] == [DigitChar(d1)];
    assert [DigitChar(d1)][..0] == [];
  }

  /** Worked examples: "3" and "187.5". */
  lemma RenderKalaChana()
    ensures IntToString(3) == "3"
    ensures RenderAmount(18750) == "187.5"
  {
    assert NatToString(187) == "187" by {
      assert NatToString(1) == "1";
      assert NatToString(18) == "18";
    }
    assert DigitChar(5) == '5';
  }
}
