/**
 * String helpers with Java semantics: decimal digits, `Integer.parseInt`,
 * ASCII case mapping, character replacement, and `String.split(",")`
 * together with its inverse, comma joining.
 */
module Text {
  import opened Wrappers

  const MinInt32: int := -0x8000_0000
  const MaxInt32: int := 0x7fff_ffff

  /** Fits in a Java `int`. */
  predicate IsInt32(i: int) {
    MinInt32 <= i <= MaxInt32
  }

  // ---------------------------------------------------------------------
  // Decimal digits
  // ---------------------------------------------------------------------

  predicate IsDigit(c: char) {
    '0' <= c <= '9'
  }

  function DigitValue(c: char): nat
    requires IsDigit(c)
  {
    c as int - '0' as int
  }

  function DigitChar(d: nat): (c: char)
    requires d < 10
    ensures IsDigit(c) && DigitValue(c) == d
  {
    ('0' as int + d) as char
  }

  lemma DigitCharOfValue(c: char)
    requires IsDigit(c)
    ensures DigitValue(c) < 10 && DigitChar(DigitValue(c)) == c
  {
  }

  predicate AllDigits(s: string) {
    forall i :: 0 <= i < |s| ==> IsDigit(s[i])
  }

  /** The number a string of decimal digits denotes, most significant first. */
  function DigitsValue(s: string): nat
    requires AllDigits(s)
  {
    if s == [] then 0 else DigitsValue(s[..|s| - 1]) * 10 + DigitValue(s[|s| - 1])
  }

  /** A run of digits contains no other character. */
  lemma NoneInDigits(s: string, c: char)
    requires AllDigits(s) && !IsDigit(c)
    ensures c !in s
  {
  }

  function Pow10(k: nat): (p: nat)
    ensures p >= 1
  {
    if k == 0 then 1 else 10 * Pow10(k - 1)
  }

  /** Reading a concatenation of digit strings: the left part is shifted by the right part's length. */
  lemma {:induction false} DigitsValueAppend(a: string, b: string)
    requires AllDigits(a) && AllDigits(b)
    ensures AllDigits(a + b)
    ensures DigitsValue(a + b) == DigitsValue(a) * Pow10(|b|) + DigitsValue(b)
    decreases |b|
  {
    if b == [] {
      assert a + b == a;
    } else {
      var b' := b[..|b| - 1];
      var d := DigitValue(b[|b| - 1]);
      DigitsValueAppend(a, b');
      var ab := a + b;
      assert ab[..|ab| - 1] == a + b';
      assert ab[|ab| - 1] == b[|b| - 1];
      var x, p, y := DigitsValue(a), Pow10(|b'|), DigitsValue(b');
      assert DigitsValue(ab) == DigitsValue(a + b') * 10 + d;
      assert DigitsValue(b) == y * 10 + d;
      assert Pow10(|b|) == p * 10;
      Distribute(x, p, y, d);
    }
  }

  lemma Distribute(x: int, p: int, y: int, d: int)
    ensures (x * p + y) * 10 + d == x * (p * 10) + (y * 10 + d)
  {
  }

  /** Shortest decimal form of `n` (Java's `Integer.toString` for `n >= 0`). */
  function NatToString(n: nat): (s: string)
    ensures |s| >= 1 && AllDigits(s)
    ensures DigitsValue(s) == n
  {
    if n < 10 then [DigitChar(n)]
    else
      var prefix := NatToString(n / 10);
      var s := prefix + [DigitChar(n % 10)];
      assert s[..|s| - 1] == prefix;
      s
  }

  /** Java's `Integer.toString` (and `%d`). */
  function IntToString(i: int): string {
    if i < 0 then "-" + NatToString(-i) else NatToString(i)
  }

  /**
   * Java's `Integer.parseInt`: an optional `+` or `-`, then one or more
   * decimal digits, with a value that fits in an `int`; anything else
   * throws, which is `None` here.
   */
  function ParseInt(s: string): (r: Option<int>)
    ensures r.Some? ==> IsInt32(r.value)
  {
    if |s| > 0 && (s[0] == '-' || s[0] == '+') then
      var body := s[1..];
      if |body| > 0 && AllDigits(body) then
        var v: int := if s[0] == '-' then -(DigitsValue(body) as int) else DigitsValue(body);
        if IsInt32(v) then Some(v) else None
      else None
    else if |s| > 0 && AllDigits(s) && DigitsValue(s) <= MaxInt32 then
      Some(DigitsValue(s))
    else None
  }

  lemma ParseIntOfToString(i: int)
    requires IsInt32(i)
    ensures ParseInt(IntToString(i)) == Some(i)
  {
    if i < 0 {
      var s := IntToString(i);
      assert s[1..] == NatToString(-i);
    }
  }

  /** Two zero-padded digits (`%02d`). */
  function Pad2(n: nat): (s: string)
    requires n < 100
    ensures |s| == 2 && AllDigits(s) && DigitsValue(s) == n
  {
    var s := [DigitChar(n / 10), DigitChar(n % 10)];
    assert s[..1] == [s[0]] && [s[0]][..0] == [];
    assert DigitsValue(s[..1]) == DigitValue(s[0]);
    assert DigitsValue(s) == DigitValue(s[0]) * 10 + DigitValue(s[1]);
    s
  }

  /** Four zero-padded digits (`%04d`). */
  function Pad4(n: nat): (s: string)
    requires n < 10000
    ensures |s| == 4 && AllDigits(s) && DigitsValue(s) == n
  {
    DigitsValueAppend(Pad2(n / 100), Pad2(n % 100));
    Pad2(n / 100) + Pad2(n % 100)
  }

  /** A two-digit field is written back exactly as it was read. */
  lemma Pad2OfValue(s: string)
    requires |s| == 2 && AllDigits(s)
    ensures DigitsValue(s) < 100 && Pad2(DigitsValue(s)) == s
  {
    assert s[..1] == [s[0]] && [s[0]][..0] == [];
    assert DigitsValue(s[..1]) == DigitValue(s[0]);
    assert DigitsValue(s) == DigitValue(s[0]) * 10 + DigitValue(s[1]);
    DigitCharOfValue(s[0]);
    DigitCharOfValue(s[1]);
    assert s == [s[0], s[1]];
  }

  /** A four-digit field is written back exactly as it was read. */
  lemma Pad4OfValue(s: string)
    requires |s| == 4 && AllDigits(s)
    ensures DigitsValue(s) < 10000 && Pad4(DigitsValue(s)) == s
  {
    var hi, lo := s[..2], s[2..];
    assert s == hi + lo;
    DigitsValueAppend(hi, lo);
    assert Pow10(2) == 100;
    Pad2OfValue(hi);
    Pad2OfValue(lo);
    var n := DigitsValue(s);
    DivMod100(DigitsValue(hi), DigitsValue(lo));
    assert n / 100 == DigitsValue(hi) && n % 100 == DigitsValue(lo);
  }

  lemma DivMod100(a: nat, b: nat)
    requires b < 100
    ensures (a * 100 + b) / 100 == a && (a * 100 + b) % 100 == b
  {
  }

  // ---------------------------------------------------------------------
  // Case mapping and replacement (ASCII letters only)
  // ---------------------------------------------------------------------

  function UpperChar(c: char): char {
    if 'a' <= c <= 'z' then (c as int - 32) as char else c
  }

  /** Java's `String.toUpperCase` restricted to ASCII letters. */
  function ToUpper(s: string): (r: string)
    ensures |r| == |s|
  {
    seq(|s|, i requires 0 <= i < |s| => UpperChar(s[i]))
  }

  lemma ToUpperIdempotent(s: string)
    ensures ToUpper(ToUpper(s)) == ToUpper(s)
  {
  }

  /** Java's `String.equalsIgnoreCase` restricted to ASCII letters. */
  predicate EqualsIgnoreCase(a: string, b: string) {
    ToUpper(a) == ToUpper(b)
  }

  /** Characters `String.trim` drops: every code point up to U+0020. */
  predicate IsTrimmed(c: char) {
    c <= ' '
  }

  /** The leading run of trimmed characters removed. */
  function TrimStart(s: string): (r: string)
    ensures |r| <= |s| && r == s[|s| - |r|..]
    ensures r == [] || !IsTrimmed(r[0])
    ensures forall k :: 0 <= k < |s| - |r| ==> IsTrimmed(s[k])
  {
    if s == [] || !IsTrimmed(s[0]) then s else TrimStart(s[1..])
  }

  /** The trailing run of trimmed characters removed. */
  function TrimEnd(s: string): (r: string)
    ensures |r| <= |s| && r == s[..|r|]
    ensures r == [] || !IsTrimmed(r[|r| - 1])
    ensures forall k :: |r| <= k < |s| ==> IsTrimmed(s[k])
  {
    if s == [] || !IsTrimmed(s[|s| - 1]) then s else TrimEnd(s[..|s| - 1])
  }

  /** `r` is `s[i..j]`, and only trimmed characters lie before `i` and from `j` on. */
  predicate TrimmedSlice(s: string, r: string, i: int, j: int) {
    && 0 <= i <= j <= |s| && r == s[i..j]
    && (forall k :: 0 <= k < i ==> IsTrimmed(s[k]))
    && (forall k :: j <= k < |s| ==> IsTrimmed(s[k]))
  }

  /**
   * Java's `String.trim`: the text between the first and the last
   * character above U+0020; empty exactly when there is none.
   */
  function Trim(s: string): (r: string)
    ensures |r| <= |s|
    ensures exists i, j :: TrimmedSlice(s, r, i, j)
    ensures r == [] || (!IsTrimmed(r[0]) && !IsTrimmed(r[|r| - 1]))
  {
    var start := TrimStart(s);
    var r := TrimEnd(start);
    assert r != [] ==> !IsTrimmed(r[0]) by {
      if r != [] {
        assert r[0] == start[0];
      }
    }
    TrimmedSliceOfEnds(s);
    r
  }

  /** Trimming the end of what trimming the start left is a trimmed slice of the text. */
  lemma TrimmedSliceOfEnds(s: string)
    ensures TrimmedSlice(s, TrimEnd(TrimStart(s)), |s| - |TrimStart(s)|, |s| - |TrimStart(s)| + |TrimEnd(TrimStart(s))|)
  {
    SliceBetweenRuns(s, TrimStart(s), TrimEnd(TrimStart(s)));
  }

  /**
   * Cutting a run of trimmed characters off the front of `s`, leaving
   * `start`, then another off the back of `start`, leaving `r`, leaves a
   * trimmed slice of `s`.
   */
  lemma SliceBetweenRuns(s: string, start: string, r: string)
    requires |start| <= |s| && start == s[|s| - |start|..]
    requires |r| <= |start| && r == start[..|r|]
    requires forall k :: 0 <= k < |s| - |start| ==> IsTrimmed(s[k])
    requires forall k :: |r| <= k < |start| ==> IsTrimmed(start[k])
    ensures TrimmedSlice(s, r, |s| - |start|, |s| - |start| + |r|)
  {
    var i := |s| - |start|;
    assert r == s[i..i + |r|];
    forall k | i + |r| <= k < |s| ensures IsTrimmed(s[k]) {
      assert s[k] == start[k - i];
    }
  }

  /** Trimming leaves nothing exactly when every character is trimmed. */
  lemma TrimBlank(s: string)
    ensures Trim(s) == [] <==> forall k :: 0 <= k < |s| ==> IsTrimmed(s[k])
  {
    var start := TrimStart(s);
    if start != [] {
      assert TrimEnd(start) != [] by {
        assert !IsTrimmed(start[0]);
      }
      assert start[0] == s[|s| - |start|];
    }
  }

  /** Trimming twice trims nothing more. */
  lemma TrimIdempotent(s: string)
    ensures Trim(Trim(s)) == Trim(s)
  {
    var r := Trim(s);
    if r != [] {
      assert TrimStart(r) == r;
      assert TrimEnd(r) == r;
    }
  }

  /** Java's `String.replace(char, char)`, here on one-character strings. */
  function Replace(s: string, from: char, to: char): (r: string)
    ensures |r| == |s|
  {
    seq(|s|, i requires 0 <= i < |s| => if s[i] == from then to else s[i])
  }

  /** Replacing `from` by `to` and back restores any text that had no `to`. */
  lemma ReplaceBack(s: string, from: char, to: char)
    requires to !in s
    ensures from != to ==> from !in Replace(s, from, to)
    ensures Replace(Replace(s, from, to), to, from) == s
  {
    var r := Replace(s, from, to);
    if from != to {
      forall i | 0 <= i < |r| ensures r[i] != from {
        assert s[i] != to;
      }
    }
    forall i | 0 <= i < |s| ensures Replace(r, to, from)[i] == s[i] {
      assert s[i] != to;
    }
  }

  // ---------------------------------------------------------------------
  // Splitting and joining on a separator
  // ---------------------------------------------------------------------

  /** Every field between separators, empty ones included: k separators give k + 1 fields. */
  function Split(s: string, sep: char): (r: seq<string>)
    ensures |r| >= 1
    ensures forall k :: 0 <= k < |r| ==> sep !in r[k]
    decreases |s|
  {
    if s == [] then [""]
    else
      var rest := Split(s[1..], sep);
      if s[0] == sep then [""] + rest
      else [[s[0]] + rest[0]] + rest[1..]
  }

  /** The fields written one after another with `sep` between neighbours. */
  function Join(fs: seq<string>, sep: char): string {
    if fs == [] then "" else if |fs| == 1 then fs[0] else fs[0] + [sep] + Join(fs[1..], sep)
  }

  lemma {:induction false} JoinOfSplit(s: string, sep: char)
    ensures Join(Split(s, sep), sep) == s
    decreases |s|
  {
    if s != [] {
      var rest := Split(s[1..], sep);
      JoinOfSplit(s[1..], sep);
      if s[0] == sep {
        assert ([""] + rest)[1..] == rest;
      } else {
        var r := [[s[0]] + rest[0]] + rest[1..];
        if |rest| == 1 {
          assert r == [[s[0]] + rest[0]];
        } else {
          assert r[1..] == rest[1..];
          assert Join(rest, sep) == rest[0] + [sep] + Join(rest[1..], sep);
        }
      }
    }
  }

  lemma {:induction false} SplitNoSeparator(f: string, sep: char)
    requires sep !in f
    ensures Split(f, sep) == [f]
    decreases |f|
  {
    if f != [] {
      SplitNoSeparator(f[1..], sep);
      assert [f[0]] + f[1..] == f;
    }
  }

  lemma {:induction false} SplitFirstField(f: string, rest: string, sep: char)
    requires sep !in f
    ensures Split(f + [sep] + rest, sep) == [f] + Split(rest, sep)
    decreases |f|
  {
    var s := f + [sep] + rest;
    if f == [] {
      assert s[1..] == rest;
    } else {
      assert s[1..] == f[1..] + [sep] + rest;
      SplitFirstField(f[1..], rest, sep);
      assert [f[0]] + f[1..] == f;
    }
  }

  /** Joining separator-free fields and splitting again gives back the fields. */
  lemma {:induction false} SplitOfJoin(fs: seq<string>, sep: char)
    requires |fs| >= 1
    requires forall k :: 0 <= k < |fs| ==> sep !in fs[k]
    ensures Split(Join(fs, sep), sep) == fs
    decreases |fs|
  {
    if |fs| == 1 {
      SplitNoSeparator(fs[0], sep);
    } else {
      SplitOfJoin(fs[1..], sep);
      SplitFirstField(fs[0], Join(fs[1..], sep), sep);
      assert [fs[0]] + fs[1..] == fs;
    }
  }

  /** Trailing empty fields removed, as `String.split` with limit 0 does. */
  function DropTrailingEmpty(fs: seq<string>): (r: seq<string>)
    ensures |r| <= |fs| && r == fs[..|r|]
    ensures r != [] ==> r[|r| - 1] != ""
    ensures forall k :: |r| <= k < |fs| ==> fs[k] == ""
  {
    if fs != [] && fs[|fs| - 1] == "" then DropTrailingEmpty(fs[..|fs| - 1]) else fs
  }

  /**
   * Java's `s.split(",")` for a one-character separator: with no separator
   * in `s` the result is `s` alone (even when `s` is empty); otherwise every
   * field, with interior empty fields kept and trailing empty ones dropped.
   */
  function JavaSplit(s: string, sep: char): (r: seq<string>)
    ensures forall k :: 0 <= k < |r| ==> sep !in r[k]
  {
    if sep !in s then [s] else DropTrailingEmpty(Split(s, sep))
  }

  /** Splitting a join of two or more separator-free fields loses only trailing empty fields. */
  lemma JavaSplitOfJoin(fs: seq<string>, sep: char)
    requires |fs| >= 2
    requires forall k :: 0 <= k < |fs| ==> sep !in fs[k]
    ensures JavaSplit(Join(fs, sep), sep) == DropTrailingEmpty(fs)
  {
    var s := Join(fs, sep);
    assert s[|fs[0]|] == sep;
    SplitOfJoin(fs, sep);
  }
}
