/** Character classes and string primitives of JavaScript that the rest of the
    model relies on: the white-space set shared by String.prototype.trim and the
    regular-expression class \s, substring search, decimal printing of
    non-negative numbers and the global parseInt function. */
module Text {

  datatype Option<T> = None | Some(value: T)

  /** ECMAScript WhiteSpace and LineTerminator code points: exactly what `trim`
      removes and what `\s` matches. */
  predicate IsJsSpace(c: char) {
    || c == '\t' || c == '\n' || c == '\U{000B}' || c == '\U{000C}' || c == '\r'
    || c == ' ' || c == '\U{00A0}' || c == '\U{1680}'
    || ('\U{2000}' <= c <= '\U{200A}')
    || c == '\U{2028}' || c == '\U{2029}' || c == '\U{202F}' || c == '\U{205F}'
    || c == '\U{3000}' || c == '\U{FEFF}'
  }

  ghost predicate AllSpace(s: string) {
    forall i :: 0 <= i < |s| ==> IsJsSpace(s[i])
  }

  /** A string that neither starts nor ends with white space. */
  ghost predicate Trimmed(s: string) {
    s == [] || (!IsJsSpace(s[0]) && !IsJsSpace(s[|s| - 1]))
  }

  /** Number of white-space characters at the start of `s`. */
  function LeadingSpace(s: string): (k: nat)
    ensures k <= |s| && AllSpace(s[..k])
    ensures k < |s| ==> !IsJsSpace(s[k])
  {
    if s == [] || !IsJsSpace(s[0]) then 0
    else
      var k := 1 + LeadingSpace(s[1..]);
      assert s[..k] == [s[0]] + s[1..][..k - 1];
      k
  }

  /** End of the run of white space that starts at `i`. */
  function SpaceEnd(s: string, i: nat): (j: nat)
    requires i <= |s|
    decreases |s| - i
    ensures i <= j <= |s|
    ensures forall k :: i <= k < j ==> IsJsSpace(s[k])
    ensures j < |s| ==> !IsJsSpace(s[j])
  {
    if i < |s| && IsJsSpace(s[i]) then SpaceEnd(s, i + 1) else i
  }

  /** The run of white space from `i` ends at the first character that is
      not white space. */
  lemma {:induction false} SpaceRunEnds(s: string, i: nat, k: nat)
    requires i <= k < |s|
    requires forall m :: i <= m < k ==> IsJsSpace(s[m])
    requires !IsJsSpace(s[k])
    ensures SpaceEnd(s, i) == k
    decreases k - i
  {
    if i < k {
      SpaceRunEnds(s, i + 1, k);
    }
  }

  /** String.prototype.trim: `s` with its leading and trailing white space
      removed, one character at a time. */
  function Trim(s: string): (r: string)
    decreases |s|
    ensures |r| <= |s| && Trimmed(r)
  {
    if s != [] && IsJsSpace(s[0]) then Trim(s[1..])
    else if s != [] && IsJsSpace(s[|s| - 1]) then Trim(s[..|s| - 1])
    else s
  }

  /** What trim leaves is the slice `s[i..i + |Trim(s)|]` with only white
      space around it. */
  lemma {:induction false} TrimIsSlice(s: string) returns (i: nat)
    decreases |s|
    ensures i + |Trim(s)| <= |s| && s[i..i + |Trim(s)|] == Trim(s)
    ensures AllSpace(s[..i]) && AllSpace(s[i + |Trim(s)|..])
  {
    if s != [] && IsJsSpace(s[0]) {
      var j := TrimIsSlice(s[1..]);
      SliceInTail(s, Trim(s), j);
      i := j + 1;
    } else if s != [] && IsJsSpace(s[|s| - 1]) {
      i := TrimIsSlice(s[..|s| - 1]);
      SliceInInit(s, Trim(s), i);
    } else {
      i := 0;
      assert s[..|s|] == s;
    }
  }

  lemma SliceInTail(s: string, r: string, j: nat)
    requires s != [] && IsJsSpace(s[0])
    requires j + |r| <= |s| - 1 && s[1..][j..j + |r|] == r
    requires AllSpace(s[1..][..j]) && AllSpace(s[1..][j + |r|..])
    ensures s[j + 1..j + 1 + |r|] == r
    ensures AllSpace(s[..j + 1]) && AllSpace(s[j + 1 + |r|..])
  {
    assert s[j + 1..j + 1 + |r|] == s[1..][j..j + |r|];
    assert s[..j + 1] == [s[0]] + s[1..][..j];
    SpaceConcat([s[0]], s[1..][..j]);
    assert s[j + 1 + |r|..] == s[1..][j + |r|..];
  }

  lemma SliceInInit(s: string, r: string, i: nat)
    requires s != [] && IsJsSpace(s[|s| - 1])
    requires i + |r| <= |s| - 1 && s[..|s| - 1][i..i + |r|] == r
    requires AllSpace(s[..|s| - 1][..i]) && AllSpace(s[..|s| - 1][i + |r|..])
    ensures s[i..i + |r|] == r
    ensures AllSpace(s[..i]) && AllSpace(s[i + |r|..])
  {
    var u := s[..|s| - 1];
    assert s[i..i + |r|] == u[i..i + |r|];
    assert s[..i] == u[..i];
    assert s[i + |r|..] == u[i + |r|..] + [s[|s| - 1]];
    SpaceConcat(u[i + |r|..], [s[|s| - 1]]);
  }

  lemma SpaceConcat(a: string, b: string)
    requires AllSpace(a) && AllSpace(b)
    ensures AllSpace(a + b)
  {
  }

  /** Trim gives the empty string exactly when `s` is all white space. */
  lemma {:induction false} TrimEmpty(s: string)
    decreases |s|
    ensures AllSpace(s) <==> Trim(s) == []
  {
    if s != [] && IsJsSpace(s[0]) {
      TrimEmpty(s[1..]);
      assert s == [s[0]] + s[1..];
    } else if s != [] && IsJsSpace(s[|s| - 1]) {
      TrimEmpty(s[..|s| - 1]);
      assert s == s[..|s| - 1] + [s[|s| - 1]];
    } else if s != [] {
      assert !IsJsSpace(s[0]);
    }
  }

  /** Trim only removes characters: one absent from `s` is absent from the
      result. */
  lemma TrimHasNo(s: string, x: char)
    requires x !in s
    ensures x !in Trim(s)
  {
    var r := Trim(s);
    var i := TrimIsSlice(s);
    forall k | 0 <= k < |r| ensures r[k] != x {
      assert r[k] == s[i + k];
    }
  }

  /** Trimming a string twice changes nothing more. */
  lemma TrimOfTrimmed(s: string)
    requires Trimmed(s)
    ensures Trim(s) == s
  {
  }

  /** Trim removes exactly the white space around a trimmed core. */
  lemma {:induction false} TrimOfPadded(a: string, m: string, b: string)
    requires AllSpace(a) && AllSpace(b) && Trimmed(m) && m != []
    ensures Trim(a + m + b) == m
    decreases |a|
  {
    if a == [] {
      assert a + m + b == m + b;
      TrimOfPaddedRight(m, b);
    } else {
      assert (a + m + b)[1..] == a[1..] + m + b;
      TrimOfPadded(a[1..], m, b);
    }
  }

  lemma {:induction false} TrimOfPaddedRight(m: string, b: string)
    requires AllSpace(b) && Trimmed(m) && m != []
    ensures Trim(m + b) == m
    decreases |b|
  {
    if b == [] {
      assert m + b == m;
    } else {
      assert (m + b)[..|m + b| - 1] == m + b[..|b| - 1];
      TrimOfPaddedRight(m, b[..|b| - 1]);
    }
  }

  lemma TrimIdempotent(s: string)
    ensures Trim(Trim(s)) == Trim(s)
  {
    TrimOfTrimmed(Trim(s));
  }

  /** A string value is truthy when it is present and not "". */
  predicate Truthy(value: Option<string>) {
    value.Some? && value.value != ""
  }

  /** `value || fallback` for a string value: absent and "" are falsy. */
  function OrString(value: Option<string>, fallback: string): (r: string)
    ensures r == fallback || (value.Some? && r == value.value)
    ensures r == fallback <== (value.None? || value.value == "")
    ensures value.Some? && value.value != "" ==> r == value.value
  {
    if value.Some? && value.value != "" then value.value else fallback
  }

  /** `pat` occurs in `s` at index `i`. */
  predicate OccursAt(s: string, pat: string, i: nat) {
    i + |pat| <= |s| && s[i..i + |pat|] == pat
  }

  /** String.prototype.includes. */
  ghost predicate Contains(s: string, pat: string) {
    exists i: nat :: OccursAt(s, pat, i)
  }

  /** The leftmost occurrence of `pat` at or after `from`, found by scanning
      forward as a regular-expression test of a literal does. */
  function Find(s: string, pat: string, from: nat): (r: Option<nat>)
    decreases |s| - from
    ensures r.Some? ==> from <= r.value && OccursAt(s, pat, r.value)
    ensures r.Some? ==> forall j :: from <= j < r.value ==> !OccursAt(s, pat, j)
    ensures r.None? ==> forall j :: from <= j ==> !OccursAt(s, pat, j)
  {
    if from + |pat| > |s| then None
    else if s[from..from + |pat|] == pat then Some(from)
    else Find(s, pat, from + 1)
  }

  /** Substring test by scanning: it answers exactly `Contains`. */
  predicate Includes(s: string, pat: string)
    ensures Includes(s, pat) <==> Contains(s, pat)
  {
    var r := Find(s, pat, 0);
    assert r.Some? ==> OccursAt(s, pat, r.value);
    r.Some?
  }

  // ---------------------------------------------------------------------
  // Digits, decimal printing and parseInt

  predicate IsDecimalDigit(c: char) { '0' <= c <= '9' }

  predicate IsHexDigit(c: char) {
    IsDecimalDigit(c) || ('a' <= c <= 'f') || ('A' <= c <= 'F')
  }

  predicate IsDigitIn(c: char, radix: nat) {
    if radix == 16 then IsHexDigit(c) else IsDecimalDigit(c)
  }

  function DigitValue(c: char): (v: nat)
    requires IsHexDigit(c)
    ensures v < 16
    ensures IsDecimalDigit(c) ==> v < 10
  {
    if IsDecimalDigit(c) then c as int - '0' as int
    else if 'a' <= c <= 'f' then c as int - 'a' as int + 10
    else c as int - 'A' as int + 10
  }

  ghost predicate AllDigitsIn(s: string, radix: nat) {
    forall i :: 0 <= i < |s| ==> IsDigitIn(s[i], radix)
  }

  /** The number a string of digits denotes, most significant digit first. */
  function DigitsValue(ds: string, radix: nat): nat
    requires radix == 10 || radix == 16
    requires AllDigitsIn(ds, radix)
  {
    if ds == [] then 0
    else DigitsValue(ds[..|ds| - 1], radix) * radix + DigitValue(ds[|ds| - 1])
  }

  function DigitChar(d: nat): (c: char)
    requires d < 10
    ensures IsDecimalDigit(c) && DigitValue(c) == d
  {
    ('0' as int + d) as char
  }

  /** The text JavaScript gives a non-negative integer in a template string:
      its decimal digits with no leading zero. */
  function DecimalString(n: nat): (r: string)
    ensures |r| >= 1 && AllDigitsIn(r, 10) && DigitsValue(r, 10) == n
    ensures |r| > 1 ==> r[0] != '0'
  {
    if n < 10 then [DigitChar(n)]
    else
      var r := DecimalString(n / 10) + [DigitChar(n % 10)];
      assert r[..|r| - 1] == DecimalString(n / 10);
      r
  }

  /** An integer as JavaScript writes it in a template string: a minus sign
      exactly for a negative number, then the digits of its magnitude
      (ParseNumberString reads it back). */
  function NumberString(n: int): (r: string)
    ensures |r| >= 1
    ensures r[0] == '-' <==> n < 0
  {
    if n < 0 then "-" + DecimalString(-n) else DecimalString(n)
  }

  /** Length of the longest prefix of `s` made of digits of the radix. */
  function DigitRun(s: string, radix: nat): (k: nat)
    ensures k <= |s| && AllDigitsIn(s[..k], radix)
    ensures k < |s| ==> !IsDigitIn(s[k], radix)
  {
    if s == [] || !IsDigitIn(s[0], radix) then 0
    else
      var k := 1 + DigitRun(s[1..], radix);
      assert s[..k] == [s[0]] + s[1..][..k - 1];
      k
  }

  predicate HasHexPrefix(s: string) {
    |s| >= 2 && s[0] == '0' && (s[1] == 'x' || s[1] == 'X')
  }

  /** The global parseInt: leading white space is skipped, one optional sign
      is read, and the longest run of digits that follows gives the value; no
      digit at all gives NaN, here None. With `autoRadix` (the one-argument
      call) a leading "0x" or "0X" switches to base 16; with an explicit radix
      of 10 it does not. Values are exact integers. */
  function ParseInt(s: string, autoRadix: bool): (r: Option<int>)
    ensures s == [] ==> r.None?
    ensures |s| > 0 && !IsJsSpace(s[0]) && !IsDecimalDigit(s[0]) && s[0] != '-' && s[0] != '+' ==> r.None?
    ensures |s| > 0 && IsDecimalDigit(s[0]) && !(autoRadix && HasHexPrefix(s)) ==> r.Some? && r.value >= 0
  {
    var t := s[LeadingSpace(s)..];
    var negative := |t| > 0 && t[0] == '-';
    var u := if |t| > 0 && (t[0] == '-' || t[0] == '+') then t[1..] else t;
    var hex := autoRadix && HasHexPrefix(u);
    var radix := if hex then 16 else 10;
    var digits := if hex then u[2..] else u;
    var k := DigitRun(digits, radix);
    if k == 0 then None
    else
      var v: int := DigitsValue(digits[..k], radix);
      Some(if negative then -v else v)
  }

  lemma {:induction false} DigitRunOfDigits(s: string)
    requires AllDigitsIn(s, 10)
    ensures DigitRun(s, 10) == |s|
  {
    if s != [] {
      DigitRunOfDigits(s[1..]);
    }
  }

  /** `parseInt(s) || fallback`: NaN and 0 are falsy, so both give the
      fallback. */
  function ParseIntOr(s: string, autoRadix: bool, fallback: int): (r: int)
    ensures ParseInt(s, autoRadix).Some? && ParseInt(s, autoRadix).value != 0 ==> r == ParseInt(s, autoRadix).value
    ensures ParseInt(s, autoRadix).None? || ParseInt(s, autoRadix).value == 0 ==> r == fallback
  {
    var n := ParseInt(s, autoRadix);
    if n.Some? && n.value != 0 then n.value else fallback
  }

  /** A positive number typed in is taken; "0" and an empty field give the
      fallback. */
  lemma ParseIntOrExamples(n: nat, autoRadix: bool, fallback: int)
    requires n > 0
    ensures ParseIntOr(DecimalString(n), autoRadix, fallback) == n
    ensures ParseIntOr(DecimalString(0), autoRadix, fallback) == fallback
    ensures ParseIntOr("", autoRadix, fallback) == fallback
  {
    ParseDecimalString(n, autoRadix);
    ParseDecimalString(0, autoRadix);
  }

  /** parseInt reads back every number the decimal printer writes, with or
      without an explicit radix. */
  lemma ParseDecimalString(n: nat, autoRadix: bool)
    ensures ParseInt(DecimalString(n), autoRadix) == Some(n)
  {
    var s := DecimalString(n);
    assert !IsJsSpace(s[0]);
    assert s[0..] == s;
    assert !HasHexPrefix(s) by {
      if |s| >= 2 { assert s[0] != '0'; }
    }
    DigitRunOfDigits(s);
    assert s[..|s|] == s;
  }

  /** parseInt reads back every integer a template string writes, the sign
      included. */
  lemma ParseNumberString(n: int, autoRadix: bool)
    ensures ParseInt(NumberString(n), autoRadix) == Some(n)
  {
    if n >= 0 {
      ParseDecimalString(n, autoRadix);
    } else {
      var s, d := NumberString(n), DecimalString(-n);
      assert s[0] == '-' && !IsJsSpace(s[0]);
      assert s[0..] == s && s[1..] == d;
      assert !HasHexPrefix(d) by {
        if |d| >= 2 { assert d[0] != '0'; }
      }
      DigitRunOfDigits(d);
      assert d[..|d|] == d;
    }
  }

  /** parseInt stops at the first character that is not a decimal digit. */
  lemma ParseIntStopsAtNonDigit(ds: string, rest: string, autoRadix: bool)
    requires |ds| >= 1 && AllDigitsIn(ds, 10)
    requires rest == [] || !IsDecimalDigit(rest[0])
    requires autoRadix ==> !HasHexPrefix(ds + rest)
    ensures ParseInt(ds + rest, autoRadix) == Some(DigitsValue(ds, 10))
  {
    var s := ds + rest;
    assert s[0] == ds[0] && !IsJsSpace(s[0]);
    assert s[0..] == s;
    DigitRunOfConcat(ds, rest);
    assert s[..|ds|] == ds;
  }

  lemma {:induction false} DigitRunOfConcat(ds: string, rest: string)
    requires AllDigitsIn(ds, 10)
    requires rest == [] || !IsDecimalDigit(rest[0])
    ensures DigitRun(ds + rest, 10) == |ds|
  {
    if ds == [] {
      assert ds + rest == rest;
    } else {
      assert (ds + rest)[1..] == ds[1..] + rest;
      DigitRunOfConcat(ds[1..], rest);
    }
  }
}
