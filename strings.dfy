/**
 * The JavaScript string operations the engine service relies on, over
 * `string` = `seq<char>`: `startsWith`, `includes`, `split(' ')`,
 * rendering an integer in a template literal, and reading a run of
 * decimal digits as `parseInt` does.
 */
module Strings {

  predicate IsDigit(c: char) {
    '0' <= c <= '9'
  }

  predicate AllDigits(s: string) {
    forall i :: 0 <= i < |s| ==> IsDigit(s[i])
  }

  /** `s.startsWith(p)`: the first `|p|` characters of `s` are `p`. */
  predicate StartsWith(s: string, p: string): (b: bool)
    ensures b <==> |p| <= |s| && forall i :: 0 <= i < |p| ==> s[i] == p[i]
  {
    |p| <= |s| && s[..|p|] == p
  }

  /** `sub` occurs in `s` starting at index `k`. */
  predicate OccursAt(s: string, sub: string, k: int) {
    0 <= k && k + |sub| <= |s| && s[k..k + |sub|] == sub
  }

  /** `s.includes(sub)`: `sub` occurs somewhere in `s`; the empty string
      occurs in every string, and a prefix is always included. */
  predicate Contains(s: string, sub: string): (b: bool)
    ensures b ==> |sub| <= |s|
    ensures sub == [] ==> b
    ensures StartsWith(s, sub) ==> b
  {
    assert StartsWith(s, sub) ==> OccursAt(s, sub, 0);
    exists k :: 0 <= k <= |s| - |sub| && OccursAt(s, sub, k)
  }

  /** A string whose first character never reappears in it cannot
      overlap itself: two occurrences are at least `|sub|` apart. */
  lemma {:induction false} NoSelfOverlap(s: string, sub: string, j: int, k: int)
    requires sub != [] && forall i :: 0 < i < |sub| ==> sub[i] != sub[0]
    requires OccursAt(s, sub, j) && OccursAt(s, sub, k) && j < k
    ensures j + |sub| <= k
  {
    assert s[k] == s[k..k + |sub|][0] == sub[0];
    assert forall i :: j <= i < j + |sub| ==> s[i] == s[j..j + |sub|][i - j];
  }

  // ---------------------------------------------------------------------
  // `split(' ')` and its inverse

  /** `parts.join(' ')` */
  function Join(parts: seq<string>): string
    requires |parts| >= 1
  {
    if |parts| == 1 then parts[0] else parts[0] + " " + Join(parts[1..])
  }

  /** `s.split(' ')`: the pieces between single spaces, empty pieces
      included; the empty string splits into one empty piece. */
  function Split(s: string): (parts: seq<string>)
    ensures |parts| >= 1
    ensures Join(parts) == s
    ensures forall i :: 0 <= i < |parts| ==> ' ' !in parts[i]
  {
    if s == [] then [""]
    else
      var rest := Split(s[1..]);
      if s[0] == ' ' then
        assert s == " " + s[1..];
        [""] + rest
      else
        var parts := [[s[0]] + rest[0]] + rest[1..];
        assert parts[1..] == rest[1..];
        assert s == [s[0]] + s[1..];
        parts
  }

  lemma {:induction false} SplitSingle(a: string)
    requires ' ' !in a
    ensures Split(a) == [a]
  {
    if a != [] {
      assert ' ' !in a[1..] by { assert forall i :: 0 <= i < |a| - 1 ==> a[1..][i] == a[i + 1]; }
      SplitSingle(a[1..]);
      assert [a[0]] + a[1..] == a;
    }
  }

  lemma {:induction false} SplitCons(a: string, rest: string)
    requires ' ' !in a
    ensures Split(a + " " + rest) == [a] + Split(rest)
  {
    var s := a + " " + rest;
    if a == [] {
      assert s == " " + rest && s[1..] == rest;
    } else {
      var a' := a[1..];
      assert ' ' !in a' by { assert forall i :: 0 <= i < |a'| ==> a'[i] == a[i + 1]; }
      assert s[0] == a[0] != ' ';
      assert s[1..] == a' + " " + rest;
      SplitCons(a', rest);
      SplitHead(s);
      assert [a[0]] + a' == a;
    }
  }

  /** One step of `Split` on a string that does not start with a space. */
  lemma SplitHead(s: string)
    requires s != [] && s[0] != ' '
    ensures Split(s) == [[s[0]] + Split(s[1..])[0]] + Split(s[1..])[1..]
  {
  }

  /** Splitting undoes joining when no piece holds a space. */
  lemma {:induction false} SplitJoin(parts: seq<string>)
    requires |parts| >= 1
    requires forall i :: 0 <= i < |parts| ==> ' ' !in parts[i]
    ensures Split(Join(parts)) == parts
  {
    if |parts| == 1 {
      SplitSingle(parts[0]);
    } else {
      SplitJoin(parts[1..]);
      SplitCons(parts[0], Join(parts[1..]));
      assert [parts[0]] + parts[1..] == parts;
    }
  }

  // ---------------------------------------------------------------------
  // Integers as text

  function DigitChar(d: nat): (c: char)
    requires d < 10
    ensures IsDigit(c) && c as int == '0' as int + d
  {
    ('0' as int + d) as char
  }

  function DigitValue(c: char): (d: nat)
    requires IsDigit(c)
    ensures d < 10
  {
    c as int - '0' as int
  }

  /** The decimal numeral of `n`, as a template literal renders it: digits
      only, and no leading zero except in `0` itself. */
  function ShowNat(n: nat): (s: string)
    ensures s != [] && AllDigits(s)
    ensures s[0] == '0' <==> n == 0
    ensures |s| == 1 <==> n < 10
    ensures |s| == 1 || s[0] != '0'
    decreases n
  {
    if n < 10 then [DigitChar(n)] else ShowNat(n / 10) + [DigitChar(n % 10)]
  }

  /** `${n}` for an integer `n` (one whose magnitude is below 2^53, so a
      JavaScript number holds it exactly and renders it without an
      exponent): a minus sign exactly for negative values, then the
      numeral of the magnitude. */
  function Show(n: int): (s: string)
    ensures s != [] && (s[0] == '-' <==> n < 0)
    ensures n < 0 ==> |s| >= 2 && AllDigits(s[1..]) && s[1] != '0'
    ensures n >= 0 ==> AllDigits(s) && (|s| == 1 || s[0] != '0')
  {
    if n < 0 then "-" + ShowNat(-n) else ShowNat(n)
  }

  /** The value of a run of decimal digits (`parseInt` on digits only). */
  function DigitsValue(ds: string): nat
    requires AllDigits(ds)
  {
    if ds == [] then 0 else 10 * DigitsValue(ds[..|ds| - 1]) + DigitValue(ds[|ds| - 1])
  }

  lemma {:induction false} ReadShowNat(n: nat)
    ensures DigitsValue(ShowNat(n)) == n
    decreases n
  {
    if n >= 10 {
      var s := ShowNat(n);
      ReadShowNat(n / 10);
      assert s[..|s| - 1] == ShowNat(n / 10);
    }
  }

  /** The longest prefix of `s` made of decimal digits (what `\d+` takes). */
  function DigitRun(s: string): (r: string)
    ensures r <= s && AllDigits(r)
    ensures |r| == |s| || !IsDigit(s[|r|])
  {
    if s != [] && IsDigit(s[0]) then [s[0]] + DigitRun(s[1..]) else []
  }

  /** The digit run of `ds + rest` is `ds` when `rest` does not go on with a digit. */
  lemma DigitRunOf(ds: string, rest: string)
    requires AllDigits(ds)
    requires rest == [] || !IsDigit(rest[0])
    ensures DigitRun(ds + rest) == ds
  {
    var r := DigitRun(ds + rest);
    assert r == (ds + rest)[..|r|];
    assert forall i :: 0 <= i < |ds| ==> (ds + rest)[i] == ds[i];
    assert rest != [] ==> (ds + rest)[|ds|] == rest[0];
  }
}
