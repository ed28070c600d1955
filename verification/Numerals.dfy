/**
 Comparing numeric answers: numerals are brought to a normal form and compared as strings.
 */
module Numerals {

  // ---------------------------------------------------------------- the code

  /** White space as Unicode has it. */
  predicate IsSpace(c: char) {
    var u := c as int;
    || 9 <= u <= 13 || u == 0x20 || u == 0x85 || u == 0xA0 || u == 0x1680 || 0x2000 <= u <= 0x200A
    || u == 0x2028 || u == 0x2029 || u == 0x202F || u == 0x205F || u == 0x3000
  }

  function RemoveCommas(s: string): string {
    if s == [] then [] else (if s[0] == ',' then [] else [s[0]]) + RemoveCommas(s[1..])
  }

  function TrimLeft(s: string, c: char): string {
    if s != [] && s[0] == c then TrimLeft(s[1..], c) else s
  }

  function TrimRight(s: string, c: char): string {
    if s != [] && s[|s| - 1] == c then TrimRight(s[..|s| - 1], c) else s
  }

  function TrimSpace(s: string): string {
    if s != [] && IsSpace(s[0]) then TrimSpace(s[1..])
    else if s != [] && IsSpace(s[|s| - 1]) then TrimSpace(s[..|s| - 1])
    else s
  }

  function Clean(s: string): string { TrimSpace(RemoveCommas(s)) }

  function DropLeadingZeros(s: string): string {
    if |s| > 1 && s[0] == '0' && s[1] != '.' then
      var t := TrimLeft(s, '0');
      if t == "" || t[0] == '.' then "0" + t else t
    else s
  }

  function DropTrailingZeros(s: string): string {
    if '.' in s then TrimRight(TrimRight(s, '0'), '.') else s
  }

  function NormalizeNumber(s: string): string {
    DropTrailingZeros(DropLeadingZeros(Clean(s)))
  }

  predicate CheckCorrect(expected: string, extracted: string) {
    expected != "" && extracted != "" && NormalizeNumber(expected) == NormalizeNumber(extracted)
  }

  // ---------------------------------------------------------------- numerals and what they denote

  predicate IsDigit(c: char) { '0' <= c <= '9' }

  predicate Digits(s: string) { forall i | 0 <= i < |s| :: IsDigit(s[i]) }

  function DigitValue(c: char): nat
    requires IsDigit(c)
  {
    c as int - '0' as int
  }

  datatype Sign = Unsigned | Plus | Minus

  /** A sign, the digits before the decimal point and those after it. */
  datatype Numeral = Numeral(sign: Sign, whole: string, fraction: string)

  /** There is a digit on at least one side of the point. */
  ghost predicate Proper(n: Numeral) {
    Digits(n.whole) && Digits(n.fraction) && (n.whole != [] || n.fraction != [])
  }

  function SignText(s: Sign): string {
    match s
    case Unsigned => ""
    case Plus => "+"
    case Minus => "-"
  }

  /** The numeral in plain characters; a point with nothing behind it may be left out. */
  ghost predicate Spells(text: string, n: Numeral) {
    || text == SignText(n.sign) + n.whole + "." + n.fraction
    || (n.fraction == [] && text == SignText(n.sign) + n.whole)
  }

  /** `s` is `body` with any number of commas put in anywhere. */
  predicate CommasInserted(s: string, body: string) {
    if s == [] then body == []
    else if s[0] == ',' then CommasInserted(s[1..], body)
    else body != [] && body[0] == s[0] && CommasInserted(s[1..], body[1..])
  }

  predicate Blank(s: string) { forall i | 0 <= i < |s| :: IsSpace(s[i]) }

  ghost predicate WritesAs(s: string, n: Numeral, left: string, core: string, right: string) {
    Proper(n) && Spells(core, n) && Blank(left) && Blank(right) && CommasInserted(s, left + core + right)
  }

  /** `s` writes `n`: its plain characters with white space around and commas anywhere. */
  ghost predicate Writes(s: string, n: Numeral) { exists left, core, right :: WritesAs(s, n, left, core, right) }

  function WholeValue(s: string): nat
    requires Digits(s)
  {
    if s == [] then 0 else 10 * WholeValue(s[..|s| - 1]) + DigitValue(s[|s| - 1])
  }

  function FractionValue(s: string): real
    requires Digits(s)
  {
    if s == [] then 0.0 else (DigitValue(s[0]) as real + FractionValue(s[1..])) / 10.0
  }

  function Magnitude(n: Numeral): real
    requires Digits(n.whole) && Digits(n.fraction)
  {
    WholeValue(n.whole) as real + FractionValue(n.fraction)
  }

  function Value(n: Numeral): real
    requires Digits(n.whole) && Digits(n.fraction)
  {
    if n.sign == Minus then -Magnitude(n) else Magnitude(n)
  }

  // ---------------------------------------------------------------- commas and white space

  lemma {:induction false} CommasGo(s: string, body: string)
    requires CommasInserted(s, body)
    ensures RemoveCommas(s) == body
  {
    if s != [] {
      if s[0] == ',' {
        CommasGo(s[1..], body);
      } else {
        CommasGo(s[1..], body[1..]);
        assert body == [body[0]] + body[1..];
      }
    }
  }

  lemma {:induction false} NoCommas(s: string)
    requires ',' !in s
    ensures CommasInserted(s, s)
  {
    if s != [] { NoCommas(s[1..]); }
  }

  lemma {:induction false} SpaceGoes(left: string, core: string, right: string)
    requires Blank(left) && Blank(right) && core != [] && !IsSpace(core[0]) && !IsSpace(core[|core| - 1])
    ensures TrimSpace(left + core + right) == core
    decreases |left| + |right|
  {
    var s := left + core + right;
    if left != [] {
      assert s[1..] == left[1..] + core + right;
      SpaceGoes(left[1..], core, right);
    } else if right != [] {
      assert s[0] == core[0];
      assert s[..|s| - 1] == left + core + right[..|right| - 1];
      SpaceGoes(left, core, right[..|right| - 1]);
    } else {
      assert s == core;
    }
  }

  /** The plain characters of a numeral: none of them is white space. */
  lemma CoreIsSolid(core: string, n: Numeral)
    requires Proper(n) && Spells(core, n)
    ensures core != [] && forall i | 0 <= i < |core| :: !IsSpace(core[i])
  {
    assert forall i | 0 <= i < |core| :: core[i] == '.' || core[i] == '-' || core[i] == '+' || IsDigit(core[i]);
  }

  lemma CleanFindsCore(s: string, n: Numeral) returns (core: string)
    requires Writes(s, n)
    ensures Spells(core, n) && core != [] && Clean(s) == core && s != ""
  {
    var left, c, right :| WritesAs(s, n, left, c, right);
    core := c;
    CoreIsSolid(core, n);
    CommasGo(s, left + core + right);
    SpaceGoes(left, core, right);
    assert RemoveCommas("") == "";
  }

  /** A numeral in plain characters writes itself. */
  lemma PlainWrites(core: string, n: Numeral)
    requires Proper(n) && Spells(core, n)
    ensures Writes(core, n)
  {
    assert forall i | 0 <= i < |core| :: core[i] == '.' || core[i] == '-' || core[i] == '+' || IsDigit(core[i]);
    NoCommas(core);
    assert [] + core + [] == core;
    assert WritesAs(core, n, [], core, []);
  }

  // ---------------------------------------------------------------- what the code keeps of a numeral

  /** Leading zeros go only when nothing stands before them; a missing whole part stays missing. */
  function KeptWhole(n: Numeral): string {
    if n.sign != Unsigned || n.whole == [] then n.whole
    else if TrimLeft(n.whole, '0') == [] then "0"
    else TrimLeft(n.whole, '0')
  }

  function Reduced(n: Numeral): Numeral { Numeral(n.sign, KeptWhole(n), TrimRight(n.fraction, '0')) }

  function Show(n: Numeral): string {
    SignText(n.sign) + n.whole + if n.fraction == [] then "" else "." + n.fraction
  }

  lemma {:induction false} TrimLeftDigits(s: string)
    requires Digits(s)
    ensures Digits(TrimLeft(s, '0')) && WholeValue(TrimLeft(s, '0')) == WholeValue(s)
    ensures TrimLeft(s, '0') != [] ==> TrimLeft(s, '0')[0] != '0'
    ensures s != [] && s[0] != '0' ==> TrimLeft(s, '0') == s
  {
    if s != [] && s[0] == '0' {
      TrimLeftDigits(s[1..]);
      LeadingZero(s[1..]);
      assert s == "0" + s[1..];
    }
  }

  lemma {:induction false} LeadingZero(s: string)
    requires Digits(s)
    ensures WholeValue("0" + s) == WholeValue(s)
  {
    var t := "0" + s;
    if s == [] {
      assert t[..0] == [];
    } else {
      assert t[..|t| - 1] == "0" + s[..|s| - 1];
      LeadingZero(s[..|s| - 1]);
    }
  }

  lemma {:induction false} TrimRightDigits(s: string)
    requires Digits(s)
    ensures Digits(TrimRight(s, '0')) && FractionValue(TrimRight(s, '0')) == FractionValue(s)
    ensures TrimRight(s, '0') != [] ==> TrimRight(s, '0')[|TrimRight(s, '0')| - 1] != '0'
  {
    if s != [] && s[|s| - 1] == '0' {
      TrimRightDigits(s[..|s| - 1]);
      TrailingZero(s[..|s| - 1]);
      assert s == s[..|s| - 1] + "0";
    }
  }

  lemma {:induction false} TrailingZero(s: string)
    requires Digits(s)
    ensures FractionValue(s + "0") == FractionValue(s)
  {
    var t := s + "0";
    if s == [] {
      assert t[1..] == [];
    } else {
      assert t[1..] == s[1..] + "0";
      TrailingZero(s[1..]);
    }
  }

  lemma ReducedKeepsValue(n: Numeral)
    requires Proper(n)
    ensures Digits(Reduced(n).whole) && Digits(Reduced(n).fraction) && Value(Reduced(n)) == Value(n)
    ensures n.whole != [] ==> Reduced(n).whole != []
  {
    TrimLeftDigits(n.whole);
    TrimRightDigits(n.fraction);
    assert WholeValue("0") == 0 by { assert "0"[..0] == []; }
  }

  lemma {:induction false} TrimLeftAppend(a: string, b: string, c: char)
    ensures TrimLeft(a + b, c) == if TrimLeft(a, c) == [] then TrimLeft(b, c) else TrimLeft(a, c) + b
  {
    if a == [] {
      assert a + b == b;
    } else if a[0] == c {
      assert (a + b)[1..] == a[1..] + b;
      TrimLeftAppend(a[1..], b, c);
    }
  }

  lemma {:induction false} TrimRightAppend(a: string, b: string, c: char)
    ensures TrimRight(a + b, c) == if TrimRight(b, c) == [] then TrimRight(a, c) else a + TrimRight(b, c)
  {
    if b == [] {
      assert a + b == a;
    } else if b[|b| - 1] == c {
      assert (a + b)[..|a + b| - 1] == a + b[..|b| - 1];
      TrimRightAppend(a, b[..|b| - 1], c);
    }
  }

  /** Leading zeros, on digits followed by nothing or by a point and more. */
  lemma DropLeadingOnParts(whole: string, rest: string)
    requires whole != [] && Digits(whole) && (rest != [] ==> rest[0] == '.')
    ensures DropLeadingZeros(whole + rest) == KeptWhole(Numeral(Unsigned, whole, [])) + rest
  {
    var s := whole + rest;
    TrimLeftDigits(whole);
    TrimLeftAppend(whole, rest, '0');
    assert |s| > 1 ==> s[1] == (if |whole| > 1 then whole[1] else rest[0]);
    if |s| > 1 && s[0] == '0' && s[1] != '.' {
      if TrimLeft(whole, '0') == [] {
        assert TrimLeft(s, '0') == rest;
      }
    } else if whole[0] == '0' {
      assert |whole| == 1;
      assert whole == "0" && TrimLeft(whole, '0') == TrimLeft(whole[1..], '0') == [];
    }
  }

  /** What stands before the point after leading zeros are dropped. */
  lemma DropLeading(n: Numeral, rest: string)
    requires Proper(n) && (rest != [] ==> rest[0] == '.') && (n.whole == [] ==> rest != [])
    ensures DropLeadingZeros(SignText(n.sign) + n.whole + rest) == SignText(n.sign) + KeptWhole(n) + rest
  {
    var s := SignText(n.sign) + n.whole + rest;
    if n.sign == Unsigned && n.whole != [] {
      assert s == n.whole + rest;
      DropLeadingOnParts(n.whole, rest);
    } else {
      assert s[0] == '.' || s[0] == '+' || s[0] == '-';
    }
  }

  lemma ZerosGo(prefix: string, fraction: string)
    requires '.' !in prefix && TrimRight(fraction, '0') == []
    ensures DropTrailingZeros(prefix + "." + fraction) == prefix
  {
    var s, dotted := prefix + "." + fraction, prefix + ".";
    assert s[|prefix|] == '.';
    TrimRightAppend(dotted, fraction, '0');
    assert dotted[|dotted| - 1] == '.' && dotted[..|dotted| - 1] == prefix;
    assert TrimRight(dotted, '0') == dotted;
    assert TrimRight(dotted, '.') == TrimRight(prefix, '.') == prefix;
  }

  lemma FractionStays(prefix: string, fraction: string)
    requires Digits(fraction) && TrimRight(fraction, '0') != []
    ensures DropTrailingZeros(prefix + "." + fraction) == prefix + "." + TrimRight(fraction, '0')
  {
    var s, f := prefix + "." + fraction, TrimRight(fraction, '0');
    assert s[|prefix|] == '.';
    TrimRightAppend(prefix + ".", fraction, '0');
    TrimRightDigits(fraction);
    var shown := prefix + "." + f;
    assert shown[|shown| - 1] == f[|f| - 1];
  }

  lemma NoPointBefore(n: Numeral)
    requires Proper(n)
    ensures '.' !in SignText(n.sign) + KeptWhole(n)
  {
    ReducedKeepsValue(n);
    var p := SignText(n.sign) + KeptWhole(n);
    assert forall i | 0 <= i < |p| :: p[i] == '-' || p[i] == '+' || IsDigit(p[i]);
  }

  lemma Regroup(a: string, b: string, c: string)
    ensures a + (b + c) == a + b + c
  {
  }

  lemma TrailingShows(prefix: string, fraction: string)
    requires '.' !in prefix && Digits(fraction)
    ensures DropTrailingZeros(prefix + ("." + fraction))
            == prefix + if TrimRight(fraction, '0') == [] then "" else "." + TrimRight(fraction, '0')
  {
    var f := TrimRight(fraction, '0');
    Regroup(prefix, ".", fraction);
    if f == [] {
      ZerosGo(prefix, fraction);
      assert prefix + "" == prefix;
    } else {
      FractionStays(prefix, fraction);
      Regroup(prefix, ".", f);
    }
  }

  lemma NormalizeDotted(n: Numeral)
    requires Proper(n)
    ensures DropTrailingZeros(DropLeadingZeros(SignText(n.sign) + n.whole + "." + n.fraction)) == Show(Reduced(n))
  {
    var bare := SignText(n.sign) + n.whole;
    assert bare + "." + n.fraction == bare + ("." + n.fraction);
    DropLeading(n, "." + n.fraction);
    NoPointBefore(n);
    TrailingShows(SignText(n.sign) + KeptWhole(n), n.fraction);
  }

  lemma NormalizePlain(n: Numeral)
    requires Proper(n) && n.fraction == []
    ensures DropTrailingZeros(DropLeadingZeros(SignText(n.sign) + n.whole)) == Show(Reduced(n))
  {
    var bare, prefix := SignText(n.sign) + n.whole, SignText(n.sign) + KeptWhole(n);
    assert bare == bare + [] && prefix + [] == prefix && prefix + "" == prefix;
    DropLeading(n, []);
    NoPointBefore(n);
  }

  /** The normal form shows exactly what is kept. */
  lemma NormalizeShows(s: string, n: Numeral)
    requires Writes(s, n)
    ensures NormalizeNumber(s) == Show(Reduced(n))
  {
    var core := CleanFindsCore(s, n);
    if core == SignText(n.sign) + n.whole + "." + n.fraction {
      NormalizeDotted(n);
    } else {
      NormalizePlain(n);
    }
  }

  // ---------------------------------------------------------------- what is kept determines the numeral

  lemma {:induction false} NonZeroWhole(s: string)
    requires Digits(s) && s != [] && s[0] != '0'
    ensures WholeValue(s) >= 1 && (|s| > 1 ==> WholeValue(s) >= 10)
  {
    if |s| > 1 { NonZeroWhole(s[..|s| - 1]); }
  }

  lemma {:induction false} WholeUnique(s: string, t: string)
    requires Digits(s) && Digits(t) && WholeValue(s) == WholeValue(t)
    requires (s != [] ==> s[0] != '0') && (t != [] ==> t[0] != '0')
    ensures s == t
  {
    if s != [] && t != [] {
      var a, b := s[..|s| - 1], t[..|t| - 1];
      WholeUnique(a, b);
      assert s == a + [s[|s| - 1]] && t == b + [t[|t| - 1]];
    } else if s != [] {
      NonZeroWhole(s);
    } else if t != [] {
      NonZeroWhole(t);
    }
  }

  lemma {:induction false} FractionRange(s: string)
    requires Digits(s)
    ensures 0.0 <= FractionValue(s) < 1.0
    ensures s != [] && s[|s| - 1] != '0' ==> FractionValue(s) > 0.0
  {
    if s != [] { FractionRange(s[1..]); }
  }

  lemma SplitEqual(a: nat, x: real, b: nat, y: real)
    requires 0.0 <= x < 1.0 && 0.0 <= y < 1.0 && a as real + x == b as real + y
    ensures a == b && x == y
  {
    assert a as real - b as real == (a - b) as real;
    assert -1.0 < (a - b) as real < 1.0;
  }

  lemma {:induction false} FractionUnique(s: string, t: string)
    requires Digits(s) && Digits(t) && FractionValue(s) == FractionValue(t)
    requires (s != [] ==> s[|s| - 1] != '0') && (t != [] ==> t[|t| - 1] != '0')
    ensures s == t
  {
    FractionRange(s);
    FractionRange(t);
    if s != [] && t != [] {
      FractionRange(s[1..]);
      FractionRange(t[1..]);
      SplitEqual(DigitValue(s[0]), FractionValue(s[1..]), DigitValue(t[0]), FractionValue(t[1..]));
      FractionUnique(s[1..], t[1..]);
      assert s == [s[0]] + s[1..] && t == [t[0]] + t[1..];
    }
  }

  lemma KeptWholeUnique(v: string, w: string)
    requires v != [] && w != [] && Digits(v) && Digits(w)
    ensures KeptWhole(Numeral(Unsigned, v, [])) == KeptWhole(Numeral(Unsigned, w, [])) <==> WholeValue(v) == WholeValue(w)
  {
    TrimLeftDigits(v);
    TrimLeftDigits(w);
    var a, b := TrimLeft(v, '0'), TrimLeft(w, '0');
    if WholeValue(v) == WholeValue(w) { WholeUnique(a, b); }
    assert WholeValue("0") == 0 by { assert "0"[..0] == []; }
  }

  lemma KeptFractionUnique(f: string, g: string)
    requires Digits(f) && Digits(g)
    ensures TrimRight(f, '0') == TrimRight(g, '0') <==> FractionValue(f) == FractionValue(g)
  {
    TrimRightDigits(f);
    TrimRightDigits(g);
    if FractionValue(f) == FractionValue(g) { FractionUnique(TrimRight(f, '0'), TrimRight(g, '0')); }
  }

  lemma SameMagnitude(m: Numeral, n: Numeral)
    requires Proper(m) && Proper(n)
    ensures Magnitude(m) == Magnitude(n)
            <==> WholeValue(m.whole) == WholeValue(n.whole) && FractionValue(m.fraction) == FractionValue(n.fraction)
  {
    FractionRange(m.fraction);
    FractionRange(n.fraction);
    if Magnitude(m) == Magnitude(n) {
      SplitEqual(WholeValue(m.whole), FractionValue(m.fraction), WholeValue(n.whole), FractionValue(n.fraction));
    }
  }

  /** Written in the same manner: with the same sign, if any, and without one both with or both without digits before
      the point, with one with the same digits there. */
  predicate Alike(m: Numeral, n: Numeral) {
    m.sign == n.sign && if m.sign == Unsigned then m.whole == [] <==> n.whole == [] else m.whole == n.whole
  }

  lemma SameReduced(m: Numeral, n: Numeral)
    requires Proper(m) && Proper(n)
    ensures Reduced(m) == Reduced(n) <==> Value(m) == Value(n) && Alike(m, n)
  {
    KeptFractionUnique(m.fraction, n.fraction);
    SameMagnitude(m, n);
    ReducedKeepsValue(m);
    ReducedKeepsValue(n);
    if m.sign == n.sign == Unsigned && m.whole != [] && n.whole != [] {
      KeptWholeUnique(m.whole, n.whole);
    }
  }

  /** What is shown can be read back in only one way. */
  lemma ShowInjective(m: Numeral, n: Numeral)
    requires Digits(m.whole) && Digits(m.fraction) && Digits(n.whole) && Digits(n.fraction) && Show(m) == Show(n)
    ensures m == n
  {
    SignShows(m);
    SignShows(n);
    var s, k := Show(m), |SignText(m.sign)|;
    UnsignedPart(m);
    UnsignedPart(n);
    PointsAgree(m.whole, m.fraction, n.whole, n.fraction);
  }

  function Body(whole: string, fraction: string): string { whole + if fraction == [] then "" else "." + fraction }

  lemma UnsignedPart(n: Numeral)
    ensures Show(n)[|SignText(n.sign)|..] == Body(n.whole, n.fraction)
  {
  }

  lemma SignShows(n: Numeral)
    requires Digits(n.whole) && Digits(n.fraction)
    ensures n.sign == if Show(n) != "" && Show(n)[0] == '-' then Minus else if Show(n) != "" && Show(n)[0] == '+' then Plus else Unsigned
  {
  }

  lemma PointsAgree(v: string, f: string, w: string, g: string)
    requires Digits(v) && Digits(f) && Digits(w) && Digits(g) && Body(v, f) == Body(w, g)
    ensures v == w && f == g
  {
    var s := Body(v, f);
    if f != [] { assert s[|v|] == '.'; }
    if g != [] { assert s[|w|] == '.'; }
    assert forall i | 0 <= i < |v| :: s[i] == v[i];
    assert forall i | 0 <= i < |w| :: s[i] == w[i];
    assert |v| == |w|;
    assert v == s[..|v|] == w;
    if f != [] { assert f == s[|v| + 1..]; }
    if g != [] { assert g == s[|w| + 1..]; }
  }

  // ---------------------------------------------------------------- results

  /** Two numerals, with or without sign, are judged equal exactly when they denote the same number and are written in
      the same manner. */
  lemma CorrectIff(s: string, m: Numeral, t: string, n: Numeral)
    requires Writes(s, m) && Writes(t, n)
    ensures CheckCorrect(s, t) <==> Value(m) == Value(n) && Alike(m, n)
  {
    var a := CleanFindsCore(s, m);
    var b := CleanFindsCore(t, n);
    NormalizeShows(s, m);
    NormalizeShows(t, n);
    ReducedKeepsValue(m);
    ReducedKeepsValue(n);
    SameReduced(m, n);
    if Show(Reduced(m)) == Show(Reduced(n)) { ShowInjective(Reduced(m), Reduced(n)); }
  }

  /** For unsigned numerals with a digit before the point, which is how answers are mostly written, that is: exactly
      when they denote the same number. */
  lemma CorrectIffSameNumber(s: string, m: Numeral, t: string, n: Numeral)
    requires Writes(s, m) && Writes(t, n) && m.sign == n.sign == Unsigned && m.whole != [] && n.whole != []
    ensures CheckCorrect(s, t) <==> Value(m) == Value(n)
  {
    CorrectIff(s, m, t, n);
  }

  /** The normal form of a numeral is a numeral of the same value, with no zero at the end of its fraction and, without
      a sign, no needless zero in front; except that a zero without a digit before the point loses all its digits. */
  lemma NormalizePreservesValue(s: string, n: Numeral)
    requires Writes(s, n)
    ensures Digits(Reduced(n).whole) && Digits(Reduced(n).fraction) && Value(Reduced(n)) == Value(n)
    ensures if n.whole == [] && Magnitude(n) == 0.0 then NormalizeNumber(s) == SignText(n.sign)
            else Writes(NormalizeNumber(s), Reduced(n))
    ensures n.sign == Unsigned && |Reduced(n).whole| > 1 ==> Reduced(n).whole[0] != '0'
    ensures Reduced(n).fraction != [] ==> Reduced(n).fraction[|Reduced(n).fraction| - 1] != '0'
  {
    var core := CleanFindsCore(s, n);
    NormalizeShows(s, n);
    ReducedKeepsValue(n);
    ReducedIsTidy(n);
    DigitsLeft(n);
    if n.whole == [] && Magnitude(n) == 0.0 {
      assert SignText(n.sign) + "" + "" == SignText(n.sign);
    } else {
      ShownWrites(Reduced(n));
    }
  }

  lemma ReducedIsTidy(n: Numeral)
    requires Proper(n)
    ensures n.sign == Unsigned && |Reduced(n).whole| > 1 ==> Reduced(n).whole[0] != '0'
    ensures Reduced(n).fraction != [] ==> Reduced(n).fraction[|Reduced(n).fraction| - 1] != '0'
  {
    TrimLeftDigits(n.whole);
    TrimRightDigits(n.fraction);
  }

  /** All digits go exactly when there was none before the point and the number is zero. */
  lemma DigitsLeft(n: Numeral)
    requires Proper(n)
    ensures Reduced(n).whole == [] && Reduced(n).fraction == [] <==> n.whole == [] && Magnitude(n) == 0.0
  {
    ReducedKeepsValue(n);
    TrimRightDigits(n.fraction);
    FractionRange(TrimRight(n.fraction, '0'));
  }

  lemma ShownWrites(r: Numeral)
    requires Proper(r)
    ensures Writes(Show(r), r)
  {
    if r.fraction == [] {
      assert Show(r) == SignText(r.sign) + r.whole;
    } else {
      Regroup(SignText(r.sign) + r.whole, ".", r.fraction);
    }
    PlainWrites(Show(r), r);
  }

  /** Normalising twice changes nothing more. */
  lemma NormalizeIsIdempotent(s: string, n: Numeral)
    requires Writes(s, n)
    ensures NormalizeNumber(NormalizeNumber(s)) == NormalizeNumber(s)
  {
    NormalizePreservesValue(s, n);
    NormalizeShows(s, n);
    if n.whole == [] && Magnitude(n) == 0.0 {
      BareSign(n.sign);
    } else {
      NormalizeShows(NormalizeNumber(s), Reduced(n));
      ReducedTwice(n);
    }
  }

  lemma BareSign(sign: Sign)
    ensures NormalizeNumber(SignText(sign)) == SignText(sign)
  {
    var t := SignText(sign);
    NoCommas(t);
    CommasGo(t, t);
  }

  lemma ReducedTwice(n: Numeral)
    requires Proper(n)
    ensures Reduced(Reduced(n)) == Reduced(n)
  {
    TrimLeftDigits(n.whole);
    TrimRightDigits(n.fraction);
    var w, f := TrimLeft(n.whole, '0'), TrimRight(n.fraction, '0');
    TrimLeftDigits(w);
    if w == [] {
      assert "0"[1..] == [];
      assert TrimLeft("0", '0') == TrimLeft("0"[1..], '0') == [];
    }
  }

  // ---------------------------------------------------------------- instances

  /** 0.5 without its zero is judged different from 0.5. */
  lemma MissingZeroFails()
    ensures Writes(".5", Numeral(Unsigned, "", "5")) && Writes("0.5", Numeral(Unsigned, "0", "5"))
    ensures Value(Numeral(Unsigned, "", "5")) == Value(Numeral(Unsigned, "0", "5")) && !CheckCorrect(".5", "0.5")
  {
    var m, n := Numeral(Unsigned, "", "5"), Numeral(Unsigned, "0", "5");
    assert "" + "" + "." + "5" == ".5" && "" + "0" + "." + "5" == "0.5";
    PlainWrites(".5", m);
    PlainWrites("0.5", n);
    assert WholeValue("0") == 0 by { assert "0"[..0] == []; }
    CorrectIff(".5", m, "0.5", n);
  }

  /** Minus zero is judged different from zero. */
  lemma MinusZeroFails()
    ensures Writes("-0", Numeral(Minus, "0", "")) && Writes("0", Numeral(Unsigned, "0", ""))
    ensures Value(Numeral(Minus, "0", "")) == Value(Numeral(Unsigned, "0", "")) && !CheckCorrect("-0", "0")
  {
    var m, n := Numeral(Minus, "0", ""), Numeral(Unsigned, "0", "");
    assert "-" + "0" == "-0" && "" + "0" == "0";
    PlainWrites("-0", m);
    PlainWrites("0", n);
    assert WholeValue("0") == 0 by { assert "0"[..0] == []; }
    CorrectIff("-0", m, "0", n);
  }

  /** -07 and -7 denote the same number and are judged different. */
  lemma NegativeLeadingZeroFails()
    ensures Writes("-07", Numeral(Minus, "07", "")) && Writes("-7", Numeral(Minus, "7", ""))
    ensures Value(Numeral(Minus, "07", "")) == Value(Numeral(Minus, "7", "")) && !CheckCorrect("-07", "-7")
  {
    var m, n := Numeral(Minus, "07", ""), Numeral(Minus, "7", "");
    assert "-" + "07" == "-07" && "-" + "7" == "-7";
    PlainWrites("-07", m);
    PlainWrites("-7", n);
    LeadingZero("7");
    assert "0" + "7" == "07";
    CorrectIff("-07", m, "-7", n);
  }
}
