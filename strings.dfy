/**
 * The few `java.lang.String` operations the authentication code relies on:
 * upper/lower-casing, `split` on a one-character separator, `replace` of a
 * literal target, `Integer.toString` and `Integer.parseInt`.
 */
module Strings {
  import opened Wrappers

  const MinInt32: int := -0x8000_0000
  const MaxInt32: int := 0x7fff_ffff

  // ---------------------------------------------------------------- case

  function UpperChar(c: char): char {
    if 'a' <= c <= 'z' then (c as int - 32) as char else c
  }

  function LowerChar(c: char): char {
    if 'A' <= c <= 'Z' then (c as int + 32) as char else c
  }

  /** `String.toUpperCase` on the ASCII letters. */
  function ToUpper(s: string): (r: string)
    ensures |r| == |s|
    ensures forall i :: 0 <= i < |s| ==> r[i] == UpperChar(s[i])
  {
    seq(|s|, i requires 0 <= i < |s| => UpperChar(s[i]))
  }

  /** `String.toLowerCase` on the ASCII letters. */
  function ToLower(s: string): (r: string)
    ensures |r| == |s|
    ensures forall i :: 0 <= i < |s| ==> r[i] == LowerChar(s[i])
  {
    seq(|s|, i requires 0 <= i < |s| => LowerChar(s[i]))
  }

  /** Upper-casing distributes over concatenation and is idempotent. */
  lemma ToUpperConcat(a: string, b: string)
    ensures ToUpper(a + b) == ToUpper(a) + ToUpper(b)
    ensures ToUpper(ToUpper(a)) == ToUpper(a)
  {
    assert ToUpper(a + b) == ToUpper(a) + ToUpper(b) by {
      forall i | 0 <= i < |a| + |b|
        ensures ToUpper(a + b)[i] == (ToUpper(a) + ToUpper(b))[i]
      {
        if i < |a| {
          assert (a + b)[i] == a[i];
        } else {
          assert (a + b)[i] == b[i - |a|];
        }
      }
    }
  }

  // ---------------------------------------------------------------- join and split

  /** The pieces separated by `sep` (inverse of split). */
  function Join(parts: seq<string>, sep: string): string {
    if |parts| == 0 then ""
    else if |parts| == 1 then parts[0]
    else parts[0] + sep + Join(parts[1..], sep)
  }

  /** Every piece between separators, empty ones included: "a,,b," gives ["a", "", "b", ""]. */
  function SplitAll(s: string, sep: char): (r: seq<string>)
    ensures |r| >= 1
    ensures forall p :: p in r ==> sep !in p
  {
    if |s| == 0 then [""]
    else
      var rest := SplitAll(s[1..], sep);
      if s[0] == sep then [""] + rest
      else [[s[0]] + rest[0]] + rest[1..]
  }

  /** Joining the pieces back with the separator gives the original string. */
  lemma {:induction false} JoinSplitAll(s: string, sep: char)
    ensures Join(SplitAll(s, sep), [sep]) == s
  {
    if |s| > 0 {
      var rest := SplitAll(s[1..], sep);
      JoinSplitAll(s[1..], sep);
      if s[0] == sep {
        assert SplitAll(s, sep) == [""] + rest;
        assert ([""] + rest)[1..] == rest;
        assert s == [s[0]] + s[1..];
      } else {
        var r := SplitAll(s, sep);
        assert r == [[s[0]] + rest[0]] + rest[1..];
        if |rest| == 1 {
          assert s == [s[0]] + s[1..];
        } else {
          assert r[1..] == rest[1..];
          assert Join(rest, [sep]) == rest[0] + [sep] + Join(rest[1..], [sep]);
          assert s == [s[0]] + s[1..];
        }
      }
    }
  }

  /** A string without the separator is its own single piece. */
  lemma {:induction false} SplitAllWithoutSeparator(s: string, sep: char)
    requires sep !in s
    ensures SplitAll(s, sep) == [s]
  {
    if |s| > 0 {
      SplitAllWithoutSeparator(s[1..], sep);
      assert s == [s[0]] + s[1..];
    }
  }

  function DropTrailingEmpty(parts: seq<string>): (r: seq<string>)
    ensures |r| <= |parts| && r == parts[..|r|]
    ensures forall i :: |r| <= i < |parts| ==> parts[i] == ""
    ensures |r| > 0 ==> r[|r| - 1] != ""
  {
    if |parts| > 0 && parts[|parts| - 1] == "" then DropTrailingEmpty(parts[..|parts| - 1])
    else parts
  }

  /**
   * `s.split(sep)` for a one-character, non-metacharacter separator: a string
   * without the separator yields itself, otherwise the pieces with trailing
   * empty pieces removed.
   */
  function JavaSplit(s: string, sep: char): seq<string> {
    if sep !in s then [s] else DropTrailingEmpty(SplitAll(s, sep))
  }

  /**
   * The non-empty results of `split` are exactly the non-empty pieces between
   * separators, none of which holds the separator.
   */
  lemma JavaSplitPieces(s: string, sep: char, x: string)
    ensures x in JavaSplit(s, sep) ==> sep !in x
    ensures x != "" ==> (x in JavaSplit(s, sep) <==> x in SplitAll(s, sep))
  {
    if sep !in s {
      SplitAllWithoutSeparator(s, sep);
    } else {
      var all := SplitAll(s, sep);
      var r := DropTrailingEmpty(all);
      if x != "" && x in all {
        var i :| 0 <= i < |all| && all[i] == x;
        assert i < |r|;
        assert r[i] == x;
      }
    }
  }

  // ---------------------------------------------------------------- replace

  /** There is an occurrence of `t` in `s` starting at `i`. */
  predicate OccursAt(s: string, t: string, i: int) {
    0 <= i && i + |t| <= |s| && s[i..i + |t|] == t
  }

  predicate Contains(s: string, t: string) {
    exists i | 0 <= i <= |s| - |t| :: OccursAt(s, t, i)
  }

  /** `s.replace(t, rep)`: every occurrence of `t`, scanned left to right without overlap, becomes `rep`. */
  function ReplaceAll(s: string, t: string, rep: string): string
    requires |t| > 0
    decreases |s|
  {
    if |s| < |t| then s
    else if s[..|t|] == t then rep + ReplaceAll(s[|t|..], t, rep)
    else [s[0]] + ReplaceAll(s[1..], t, rep)
  }

  /** A string with no occurrence of the target is left unchanged. */
  lemma {:induction false} ReplaceAllAbsent(s: string, t: string, rep: string)
    requires |t| > 0 && !Contains(s, t)
    ensures ReplaceAll(s, t, rep) == s
  {
    if |s| >= |t| {
      assert !OccursAt(s, t, 0);
      assert s[0..|t|] == s[..|t|];
      if Contains(s[1..], t) {
        ContainsDropFirst(s, t);
      }
      ReplaceAllAbsent(s[1..], t, rep);
      assert s == [s[0]] + s[1..];
    }
  }

  /** An occurrence in a suffix is an occurrence in the whole string. */
  lemma ContainsDropFirst(p: string, t: string)
    requires |p| > 0 && Contains(p[1..], t)
    ensures Contains(p, t)
  {
    var i :| 0 <= i <= |p[1..]| - |t| && OccursAt(p[1..], t, i);
    assert p[1..][i..i + |t|] == p[i + 1..i + 1 + |t|];
    assert OccursAt(p, t, i + 1);
  }

  /** Under the seam condition below, the target does not start at `p + r`'s first character. */
  lemma NoMatchAtStart(p: string, r: string, t: string)
    requires |t| == 2 && t[0] != t[1] && !Contains(p, t)
    requires |r| == 0 || r[0] == t[0]
    requires |p| > 0 && |p + r| >= |t|
    ensures (p + r)[..|t|] != t
  {
    if |p| >= 2 {
      assert !OccursAt(p, t, 0);
      assert (p + r)[..|t|] == p[0..|t|];
    } else {
      assert (p + r)[..|t|][1] == r[0];
    }
  }

  /**
   * A prefix without an occurrence of a two-character target whose characters
   * differ passes through unchanged, when what follows is empty or starts
   * like the target (no occurrence can straddle the seam).
   */
  lemma {:induction false} ReplaceAllPrefix(p: string, r: string, t: string, rep: string)
    requires |t| == 2 && t[0] != t[1] && !Contains(p, t)
    requires |r| == 0 || r[0] == t[0]
    ensures ReplaceAll(p + r, t, rep) == p + ReplaceAll(r, t, rep)
  {
    if |p| > 0 {
      var s := p + r;
      assert s[1..] == p[1..] + r;
      if Contains(p[1..], t) {
        ContainsDropFirst(p, t);
      }
      ReplaceAllPrefix(p[1..], r, t, rep);
      if |s| >= |t| {
        NoMatchAtStart(p, r, t);
        assert ReplaceAll(s, t, rep) == [s[0]] + ReplaceAll(s[1..], t, rep);
        assert p == [p[0]] + p[1..];
        assert [p[0]] + (p[1..] + ReplaceAll(r, t, rep)) == p + ReplaceAll(r, t, rep);
      } else {
        assert ReplaceAll(s, t, rep) == s;
        assert ReplaceAll(r, t, rep) == r;
      }
    } else {
      assert p + r == r;
    }
  }

  /**
   * Filling a template: when the target has two different characters and
   * no part between the placeholders contains it, replacing the target by
   * `rep` is the same as joining the parts with `rep`.
   */
  lemma {:induction false} ReplaceAllFillsTemplate(parts: seq<string>, t: string, rep: string)
    requires |t| == 2 && t[0] != t[1]
    requires forall p :: p in parts ==> !Contains(p, t)
    ensures ReplaceAll(Join(parts, t), t, rep) == Join(parts, rep)
  {
    if |parts| == 1 {
      ReplaceAllPrefix(parts[0], "", t, rep);
      assert parts[0] + "" == parts[0];
    } else if |parts| > 1 {
      var tail := Join(parts[1..], t);
      ReplaceAllPrefix(parts[0], t + tail, t, rep);
      assert parts[0] + t + tail == parts[0] + (t + tail);
      assert (t + tail)[..|t|] == t;
      assert (t + tail)[|t|..] == tail;
      ReplaceAllFillsTemplate(parts[1..], t, rep);
    }
  }

  // ---------------------------------------------------------------- integers

  function DigitChar(d: nat): char
    requires d < 10
  {
    ('0' as int + d) as char
  }

  predicate IsDigit(c: char) {
    '0' <= c <= '9'
  }

  function DigitValue(c: char): nat
    requires IsDigit(c)
  {
    c as int - '0' as int
  }

  /** Decimal digits of `n`, most significant first, without leading zeros. */
  function NatToString(n: nat): (r: string)
    ensures |r| > 0 && forall i :: 0 <= i < |r| ==> IsDigit(r[i])
  {
    if n < 10 then [DigitChar(n)] else NatToString(n / 10) + [DigitChar(n % 10)]
  }

  /** `Integer.toString(i)` (and string concatenation of an `int`). */
  function IntToString(i: int): string {
    if i < 0 then "-" + NatToString(-i) else NatToString(i)
  }

  /** Value of a non-empty run of decimal digits. */
  function DigitsValue(s: string): nat
    requires forall i :: 0 <= i < |s| ==> IsDigit(s[i])
  {
    if |s| == 0 then 0 else DigitsValue(s[..|s| - 1]) * 10 + DigitValue(s[|s| - 1])
  }

  predicate AllDigits(s: string) {
    |s| > 0 && forall i :: 0 <= i < |s| ==> IsDigit(s[i])
  }

  /**
   * `Integer.parseInt(s)`: an optional sign, at least one digit, and a value in
   * the 32-bit range; anything else is a `NumberFormatException` (None).
   */
  function ParseInt(s: string): (r: Option<int>)
    ensures r.Some? ==> MinInt32 <= r.value <= MaxInt32
  {
    var negative := |s| > 0 && s[0] == '-';
    var digits := if |s| > 0 && (s[0] == '-' || s[0] == '+') then s[1..] else s;
    if !AllDigits(digits) then None
    else
      var v: int := if negative then 0 - DigitsValue(digits) else DigitsValue(digits);
      if MinInt32 <= v <= MaxInt32 then Some(v) else None
  }

  lemma {:induction false} DigitsOfNat(n: nat)
    ensures DigitsValue(NatToString(n)) == n
  {
    if n >= 10 {
      var s := NatToString(n);
      DigitsOfNat(n / 10);
      assert s[..|s| - 1] == NatToString(n / 10);
    }
  }

  /** Parsing what `Integer.toString` printed gives the number back. */
  lemma ParseIntToString(n: int)
    requires MinInt32 <= n <= MaxInt32
    ensures ParseInt(IntToString(n)) == Some(n)
  {
    if n < 0 {
      DigitsOfNat(-n);
      assert ("-" + NatToString(-n))[1..] == NatToString(-n);
    } else {
      DigitsOfNat(n);
      assert IsDigit(NatToString(n)[0]);
    }
  }
}
