/**
 * The "DRI" option of src/uxa/intel_dri.c: the forgiving string comparison
 * `namecmp`, the level test `is_level` built on it and on the C library's
 * `strtoul`, and the choice of the DRI driver name.
 *
 * A C string is a `string` without NUL characters; reading one position past
 * its end yields the terminating NUL, as `CharAt` does. A null pointer is
 * `None`.
 */
module DriOptions {
  import opened Common

  // ---------------------------------------------------------------------
  // Characters
  // ---------------------------------------------------------------------

  /** The characters namecmp skips. */
  predicate IsSeparator(c: char) { c == '_' || c == ' ' || c == '\t' }

  predicate IsUpper(c: char) { 'A' <= c <= 'Z' }

  /** tolower in the C locale. */
  function Lower(c: char): char
  {
    if IsUpper(c) then (c as int + 32) as char else c
  }

  /** A C string holds no NUL before its end. */
  predicate IsCString(s: string) { forall i :: 0 <= i < |s| ==> s[i] != '\0' }

  /** The character at `i`, or the terminating NUL at or past the end. */
  function CharAt(s: string, i: nat): char
  {
    if i < |s| then s[i] else '\0'
  }

  // ---------------------------------------------------------------------
  // namecmp
  // ---------------------------------------------------------------------

  /** What namecmp sees of a string: separators dropped, letters lower-cased. */
  function Canonical(s: string): (c: string)
    ensures |c| <= |s|
    ensures forall i :: 0 <= i < |c| ==> !IsSeparator(c[i]) && !IsUpper(c[i])
    ensures IsCString(s) ==> IsCString(c)
  {
    if s == [] then []
    else if IsSeparator(s[0]) then Canonical(s[1..])
    else [Lower(s[0])] + Canonical(s[1..])
  }

  /** Comparison of two NUL-terminated strings: the difference of the first characters that differ, NUL included. */
  function Compare(a: string, b: string): int
    decreases |a|
  {
    if a == [] || b == [] || a[0] != b[0] then CharAt(a, 0) as int - CharAt(b, 0) as int
    else Compare(a[1..], b[1..])
  }

  /**
   * namecmp: a null or empty first string equals a null or empty second one
   * and is greater than anything else; otherwise the strings compare as
   * their canonical forms. The source dereferences `s2` whenever `s1` is not
   * empty, so callers must then pass a string.
   */
  function NameCmp(s1: Option<string>, s2: Option<string>): int
    requires s1.Some? && s1.value != [] ==> s2.Some?
  {
    if s1.None? || s1.value == [] then
      (if s2.None? || s2.value == [] then 0 else 1)
    else Compare(Canonical(s1.value), Canonical(s2.value))
  }

  lemma {:induction false} CompareZeroIff(a: string, b: string)
    requires IsCString(a) && IsCString(b)
    ensures Compare(a, b) == 0 <==> a == b
    decreases |a|
  {
    if a != [] && b != [] && a[0] == b[0] {
      CompareZeroIff(a[1..], b[1..]);
      assert a == [a[0]] + a[1..] && b == [b[0]] + b[1..];
    }
  }

  /** namecmp reports equality exactly when the strings agree up to case, '_', space and tab. */
  lemma NameCmpZeroIff(s1: string, s2: string)
    requires IsCString(s1) && IsCString(s2) && s1 != []
    ensures NameCmp(Some(s1), Some(s2)) == 0 <==> Canonical(s1) == Canonical(s2)
  {
    CompareZeroIff(Canonical(s1), Canonical(s2));
  }

  /**
   * The empty-string shortcut is one-sided: "" is greater than "_" although
   * "_" equals "".
   */
  lemma NameCmpEmptyAsymmetry()
    ensures NameCmp(Some(""), Some("_")) == 1
    ensures NameCmp(Some("_"), Some("")) == 0
  {
    assert Canonical("_") == [];
  }

  /** The first index at or after `i` that is not a separator. */
  method SkipSeparators(s: string, i: nat) returns (k: nat)
    requires i <= |s|
    ensures i <= k <= |s|
    ensures k == |s| || !IsSeparator(s[k])
    ensures Canonical(s[k..]) == Canonical(s[i..])
  {
    k := i;
    while k < |s| && IsSeparator(s[k])
      invariant i <= k <= |s|
      invariant Canonical(s[k..]) == Canonical(s[i..])
    {
      assert s[k..][1..] == s[k + 1..];
      k := k + 1;
    }
  }

  /** After skipping separators, the canonical rest starts with the lower-cased current character, or is empty at the end. */
  lemma CanonicalAt(s: string, k: nat)
    requires k <= |s| && (k == |s| || !IsSeparator(s[k]))
    ensures Canonical(s[k..]) == if k == |s| then [] else [Lower(s[k])] + Canonical(s[k + 1..])
  {
    if k < |s| {
      assert s[k..][1..] == s[k + 1..];
    }
  }

  /** Equal first characters: the comparison moves on to the rests. */
  lemma CompareStep(x: string, y: string)
    requires x != [] && y != [] && x[0] == y[0]
    ensures Compare(x, y) == Compare(x[1..], y[1..])
  {
  }

  /** The lower-cased character namecmp looks at. */
  function LowerAt(s: string, i: nat): char
  {
    Lower(CharAt(s, i))
  }

  /** At a non-separator, namecmp's character is the head of the canonical rest, NUL exactly at the end. */
  lemma HeadAt(s: string, k: nat)
    requires IsCString(s) && k <= |s| && (k == |s| || !IsSeparator(s[k]))
    ensures LowerAt(s, k) == CharAt(Canonical(s[k..]), 0)
    ensures LowerAt(s, k) == '\0' <==> Canonical(s[k..]) == []
  {
    CanonicalAt(s, k);
  }

  /** Where namecmp's characters differ, or are both NUL, the comparison of the canonical rests is decided there. */
  lemma CompareAt(a: string, b: string, i: nat, j: nat)
    requires IsCString(a) && i <= |a| && (i == |a| || !IsSeparator(a[i]))
    requires IsCString(b) && j <= |b| && (j == |b| || !IsSeparator(b[j]))
    ensures LowerAt(a, i) != LowerAt(b, j) ==>
      Compare(Canonical(a[i..]), Canonical(b[j..])) == LowerAt(a, i) as int - LowerAt(b, j) as int
    ensures LowerAt(a, i) == LowerAt(b, j) == '\0' ==> Compare(Canonical(a[i..]), Canonical(b[j..])) == 0
  {
    HeadAt(a, i);
    HeadAt(b, j);
  }

  /** Stepping both strings past equal characters and the separators after them keeps the comparison. */
  lemma AdvanceBoth(a: string, b: string, i: nat, j: nat, i2: nat, j2: nat)
    requires IsCString(a) && IsCString(b)
    requires i < |a| && !IsSeparator(a[i]) && j < |b| && !IsSeparator(b[j])
    requires Lower(a[i]) == Lower(b[j])
    requires i2 <= |a| && j2 <= |b|
    requires Canonical(a[i2..]) == Canonical(a[i + 1..]) && Canonical(b[j2..]) == Canonical(b[j + 1..])
    ensures Compare(Canonical(a[i2..]), Canonical(b[j2..])) == Compare(Canonical(a[i..]), Canonical(b[j..]))
  {
    CanonicalAt(a, i);
    CanonicalAt(b, j);
    CompareStep(Canonical(a[i..]), Canonical(b[j..]));
    assert Canonical(a[i..])[1..] == Canonical(a[i + 1..]);
    assert Canonical(b[j..])[1..] == Canonical(b[j + 1..]);
  }

  /**
   * namecmp as the source runs it: skip separators on both sides, then step
   * both strings while the lower-cased characters agree, stopping at NUL.
   */
  method NameCmpLoop(s1: Option<string>, s2: Option<string>) returns (r: int)
    requires s1.Some? ==> IsCString(s1.value)
    requires s2.Some? ==> IsCString(s2.value)
    requires s1.Some? && s1.value != [] ==> s2.Some?
    ensures r == NameCmp(s1, s2)
  {
    if s1.None? || s1.value == [] {
      if s2.None? || s2.value == [] {
        return 0;
      }
      return 1;
    }
    var a, b := s1.value, s2.value;
    var i := SkipSeparators(a, 0);
    var j := SkipSeparators(b, 0);
    assert a[0..] == a && b[0..] == b;
    r := CompareFrom(a, b, i, j);
  }

  /** The comparison loop of namecmp, from two positions that are not separators. */
  method CompareFrom(a: string, b: string, i0: nat, j0: nat) returns (r: int)
    requires IsCString(a) && IsCString(b)
    requires i0 <= |a| && (i0 == |a| || !IsSeparator(a[i0]))
    requires j0 <= |b| && (j0 == |b| || !IsSeparator(b[j0]))
    ensures r == Compare(Canonical(a[i0..]), Canonical(b[j0..]))
  {
    var i: nat, j: nat := i0, j0;
    var c1, c2 := LowerAt(a, i), LowerAt(b, j);
    while c1 == c2
      invariant i <= |a| && (i == |a| || !IsSeparator(a[i]))
      invariant j <= |b| && (j == |b| || !IsSeparator(b[j]))
      invariant Compare(Canonical(a[i..]), Canonical(b[j..])) == Compare(Canonical(a[i0..]), Canonical(b[j0..]))
      invariant c1 == LowerAt(a, i) && c2 == LowerAt(b, j)
      decreases |a| - i
    {
      if c1 == '\0' {
        CompareAt(a, b, i, j);
        return 0;
      }
      var i2 := SkipSeparators(a, i + 1);
      var j2 := SkipSeparators(b, j + 1);
      AdvanceBoth(a, b, i, j, i2, j2);
      i, j := i2, j2;
      c1, c2 := LowerAt(a, i), LowerAt(b, j);
    }
    CompareAt(a, b, i, j);
    r := c1 as int - c2 as int;
  }

  // ---------------------------------------------------------------------
  // strtoul(s, &end, 0) and the 32-bit `unsigned` it is stored in
  // ---------------------------------------------------------------------

  /** isspace in the C locale. */
  predicate IsSpace(c: char) { c == ' ' || '\t' <= c <= '\r' }

  /** The value of a digit or letter in bases up to 36; 36 for anything else. */
  function DigitValue(c: char): nat
  {
    if '0' <= c <= '9' then c as nat - '0' as nat
    else if 'a' <= c <= 'z' then c as nat - 'a' as nat + 10
    else if 'A' <= c <= 'Z' then c as nat - 'A' as nat + 10
    else 36
  }

  function SkipSpaces(s: string, i: nat): (k: nat)
    requires i <= |s|
    ensures i <= k <= |s|
    decreases |s| - i
  {
    if i < |s| && IsSpace(s[i]) then SkipSpaces(s, i + 1) else i
  }

  /** How many digits of `base` start at `i`. */
  function DigitRun(s: string, i: nat, base: nat): (n: nat)
    requires i <= |s|
    ensures i + n <= |s|
    ensures forall k :: i <= k < i + n ==> DigitValue(s[k]) < base
    ensures i + n == |s| || DigitValue(s[i + n]) >= base
    decreases |s| - i
  {
    if i < |s| && DigitValue(s[i]) < base then 1 + DigitRun(s, i + 1, base) else 0
  }

  /** The number the `n` digits at `i` spell in `base`. */
  function DigitsValue(s: string, i: nat, n: nat, base: nat): nat
    requires i + n <= |s|
  {
    if n == 0 then 0 else DigitsValue(s, i, n - 1, base) * base + DigitValue(s[i + n - 1])
  }

  const ULongModulus: nat := 0x1_0000_0000_0000_0000
  const ULongMax: nat := ULongModulus - 1
  const UIntModulus: nat := 0x1_0000_0000

  /** A conversion result: the value and the index where conversion stopped. */
  datatype Conversion = Conversion(value: nat, end: nat)

  /** Where the digits of a number start, their base, and whether a minus sign came first. */
  datatype NumberSyntax = NumberSyntax(negative: bool, base: nat, start: nat)

  /**
   * strtoul's reading of the text before the digits, with base 0: white
   * space, an optional sign, then "0x" followed by a hex digit selects base
   * 16, a leading 0 base 8 (that 0 being the first digit), else base 10.
   */
  function NumberPrefix(s: string): (p: NumberSyntax)
    ensures p.start <= |s| + 1 && p.base in {8, 10, 16}
  {
    var k := SkipSpaces(s, 0);
    var negative := CharAt(s, k) == '-';
    var k1 := if CharAt(s, k) == '+' || CharAt(s, k) == '-' then k + 1 else k;
    if CharAt(s, k1) == '0' && (CharAt(s, k1 + 1) == 'x' || CharAt(s, k1 + 1) == 'X')
       && DigitValue(CharAt(s, k1 + 2)) < 16
    then NumberSyntax(negative, 16, k1 + 2)
    else if CharAt(s, k1) == '0' then NumberSyntax(negative, 8, k1)
    else NumberSyntax(negative, 10, k1)
  }

  /** An unsigned long from a magnitude: saturated at ULONG_MAX, negated modulo 2^64 after a minus sign. */
  function ULongOf(v: nat, negative: bool): (r: nat)
    ensures r <= ULongMax
    ensures v > ULongMax ==> r == ULongMax
    ensures v <= ULongMax && !negative ==> r == v
    ensures v <= ULongMax && negative ==> (r + v) % ULongModulus == 0
  {
    if v > ULongMax then ULongMax
    else if negative then (ULongModulus - v) % ULongModulus
    else v
  }

  /**
   * strtoul with base 0 on a 64-bit target. Without digits the value is 0
   * and the end is the start of the string; otherwise the end is just past
   * the digits.
   */
  function StrToUL(s: string): (c: Conversion)
    ensures c.end <= |s| && c.value <= ULongMax
    ensures c.end == 0 ==> c.value == 0
    ensures var p := NumberPrefix(s);
      c == Conversion(0, 0) <==> p.start >= |s| || DigitValue(s[p.start]) >= p.base
    ensures var p := NumberPrefix(s);
      c.end > 0 ==>
        p.start < c.end &&
        (forall k :: p.start <= k < c.end ==> DigitValue(s[k]) < p.base) &&
        (c.end == |s| || DigitValue(s[c.end]) >= p.base) &&
        c.value == ULongOf(DigitsValue(s, p.start, c.end - p.start, p.base), p.negative)
  {
    var p := NumberPrefix(s);
    var n := if p.start <= |s| then DigitRun(s, p.start, p.base) else 0;
    if n == 0 then Conversion(0, 0)
    else Conversion(ULongOf(DigitsValue(s, p.start, n, p.base), p.negative), p.start + n)
  }

  // ---------------------------------------------------------------------
  // is_level
  // ---------------------------------------------------------------------

  /** The words is_level takes for a plain on/off setting. */
  const LevelWords: seq<string> := ["on", "true", "yes", "0", "off", "false", "no"]

  /** `t` is what is left of `s` once a pointer into it has moved forward. */
  predicate IsSuffix(t: string, s: string)
  {
    |t| <= |s| && t == s[|s| - |t|..]
  }

  /** One of LevelWords, as namecmp compares. */
  predicate IsLevelWord(s: string)
    requires s != []
  {
    exists i | 0 <= i < |LevelWords| :: NameCmp(Some(s), Some(LevelWords[i])) == 0
  }

  /** is_level's verdict and where it leaves the option string. */
  datatype LevelResult = LevelResult(level: bool, rest: Option<string>)

  /**
   * is_level: a null or empty option, one of LevelWords (as namecmp
   * compares), or a number whose low 32 bits are not zero and that fills the
   * whole string is a level; a nonzero number followed by ':' is not, and
   * the string is advanced past the colon; anything else is not a level and
   * the string is left as it is.
   */
  function IsLevel(s: Option<string>): (r: LevelResult)
    requires s.Some? ==> IsCString(s.value)
    ensures r.level ==> r.rest == s
    ensures s.None? ==> r == LevelResult(true, None)
    ensures s.Some? ==> r.rest.Some? && IsSuffix(r.rest.value, s.value)
  {
    if s.None? || s.value == [] then LevelResult(true, s)
    else if IsLevelWord(s.value) then LevelResult(true, s)
    else NumericLevel(s.value)
  }

  /** The numeric half of is_level, once the option is neither empty nor a level word. */
  function NumericLevel(s: string): (r: LevelResult)
    ensures r.level ==> r.rest == Some(s)
    ensures r.rest.Some? && IsSuffix(r.rest.value, s)
  {
    var c := StrToUL(s);
    var val := c.value % UIntModulus;
    if val != 0 && c.end == |s| then LevelResult(true, Some(s))
    else if val != 0 && CharAt(s, c.end) == ':' then LevelResult(false, Some(s[c.end + 1..]))
    else LevelResult(false, Some(s))
  }

  /** Every spelling of a level word that namecmp accepts is a level, whatever the case and separators. */
  lemma LevelWordsAreLevels(s: string)
    requires IsCString(s) && s != [] && Canonical(s) in LevelWords
    ensures IsLevel(Some(s)) == LevelResult(true, Some(s))
  {
    var i :| 0 <= i < |LevelWords| && LevelWords[i] == Canonical(s);
    LevelWordCanonical(i);
    NameCmpZeroIff(s, LevelWords[i]);
  }

  /** A string already in canonical form is its own canonical form. */
  lemma {:induction false} CanonicalOfCanonical(w: string)
    requires forall k :: 0 <= k < |w| ==> !IsSeparator(w[k]) && !IsUpper(w[k])
    ensures Canonical(w) == w
  {
    if w != [] {
      CanonicalOfCanonical(w[1..]);
    }
  }

  /** Each level word is a C string in canonical form. */
  lemma LevelWordCanonical(i: nat)
    requires i < |LevelWords|
    ensures IsCString(LevelWords[i]) && Canonical(LevelWords[i]) == LevelWords[i]
  {
    var w := LevelWords[i];
    assert w in {"on", "true", "yes", "0", "off", "false", "no"};
    CanonicalOfCanonical(w);
  }

  /** A string whose canonical form is none of the level words is not a level word. */
  lemma NotLevelWord(s: string)
    requires IsCString(s) && s != [] && Canonical(s) !in LevelWords
    ensures !IsLevelWord(s)
  {
    forall i | 0 <= i < |LevelWords|
      ensures NameCmp(Some(s), Some(LevelWords[i])) != 0
    {
      LevelWordCanonical(i);
      NameCmpZeroIff(s, LevelWords[i]);
    }
  }

  /** A number whose low 32 bits are not zero and that fills the option is a level. */
  lemma WholeNumberIsLevel(s: string)
    requires IsCString(s) && s != [] && Canonical(s) !in LevelWords
    requires StrToUL(s).value % UIntModulus != 0 && StrToUL(s).end == |s|
    ensures IsLevel(Some(s)) == LevelResult(true, Some(s))
  {
    NotLevelWord(s);
  }

  /** A number whose low 32 bits are not zero, followed by ':', is not a level, and the option moves past the colon. */
  lemma NumberColonPrefixIsSkipped(s: string)
    requires IsCString(s) && s != [] && Canonical(s) !in LevelWords
    requires StrToUL(s).value % UIntModulus != 0 && StrToUL(s).end < |s| && s[StrToUL(s).end] == ':'
    ensures IsLevel(Some(s)) == LevelResult(false, Some(s[StrToUL(s).end + 1..]))
  {
    NotLevelWord(s);
  }

  /** Anything else that is not a level word, a number whose low 32 bits are zero included, is not a level and stays as it is. */
  lemma OtherOptionsAreNotLevels(s: string)
    requires IsCString(s) && s != [] && Canonical(s) !in LevelWords
    requires StrToUL(s).value % UIntModulus == 0 ||
      (StrToUL(s).end < |s| && s[StrToUL(s).end] != ':')
    ensures IsLevel(Some(s)) == LevelResult(false, Some(s))
  {
    NotLevelWord(s);
  }

  // ---------------------------------------------------------------------
  // dri_driver_name
  // ---------------------------------------------------------------------

  /** The driver for a generation when the option only sets a level: i830 or i915 before gen 3, i915 on gen 3, i965 after. */
  function DefaultDriverName(gen: nat, hasI830Dri: bool): (name: string)
    ensures gen < 24 ==> name == (if hasI830Dri then "i830" else "i915")
    ensures 24 <= gen < 32 ==> name == "i915"
    ensures gen >= 32 ==> name == "i965"
  {
    if gen < 24 then (if hasI830Dri then "i830" else "i915")
    else if gen < 32 then "i915"
    else "i965"
  }

  /**
   * dri_driver_name: the generation's default when the DRI option is a
   * level, otherwise the option itself, past any "N:" prefix. Whether the
   * i830 DRI driver is installed is a parameter.
   */
  function DriDriverName(option: Option<string>, gen: nat, hasI830Dri: bool): (name: string)
    requires option.Some? ==> IsCString(option.value)
    ensures option.None? ==> name == DefaultDriverName(gen, hasI830Dri)
    ensures option.Some? && !IsLevel(option).level ==> IsSuffix(name, option.value)
    ensures IsLevel(option).level ==> name == DefaultDriverName(gen, hasI830Dri)
    ensures !IsLevel(option).level ==> IsLevel(option).rest.Some? && name == IsLevel(option).rest.value
  {
    var r := IsLevel(option);
    if r.level then DefaultDriverName(gen, hasI830Dri) else r.rest.value
  }

  /** Every spelling of a level word, such as "On" or "no", selects the generation's default driver. */
  lemma LevelWordSelectsDefault(s: string, gen: nat, hasI830Dri: bool)
    requires IsCString(s) && s != [] && Canonical(s) in LevelWords
    ensures DriDriverName(Some(s), gen, hasI830Dri) == DefaultDriverName(gen, hasI830Dri)
  {
    LevelWordsAreLevels(s);
  }

  /** A whole non-zero number, such as "1", selects the generation's default driver too. */
  lemma WholeNumberSelectsDefault(s: string, gen: nat, hasI830Dri: bool)
    requires IsCString(s) && s != [] && Canonical(s) !in LevelWords
    requires StrToUL(s).value % UIntModulus != 0 && StrToUL(s).end == |s|
    ensures DriDriverName(Some(s), gen, hasI830Dri) == DefaultDriverName(gen, hasI830Dri)
  {
    WholeNumberIsLevel(s);
  }

  /** strtoul reads the 1 of "1:i965" and stops at the colon. */
  lemma PrefixConversion()
    ensures StrToUL("1:i965") == Conversion(1, 1)
  {
    var s := "1:i965";
    assert SkipSpaces(s, 0) == 0;
    assert NumberPrefix(s) == NumberSyntax(false, 10, 0);
    assert DigitRun(s, 0, 10) == 1;
  }

  /** "1:i965" is a C string, its own canonical form, and no level word. */
  lemma PrefixedOptionText()
    ensures IsCString("1:i965") && Canonical("1:i965") == "1:i965" && "1:i965" !in LevelWords
  {
    CanonicalOfCanonical("1:i965");
  }

  /** "1:i965" selects the i965 driver by name, whatever the generation. */
  lemma PrefixedDriverName(gen: nat, hasI830Dri: bool)
    ensures DriDriverName(Some("1:i965"), gen, hasI830Dri) == "i965"
  {
    PrefixedOptionText();
    PrefixConversion();
    NumberColonPrefixIsSkipped("1:i965");
  }

  /** strtoul reads all of "4294967296", which is 2^32. */
  lemma WrappedConversion()
    ensures StrToUL("4294967296") == Conversion(UIntModulus, 10)
  {
    var s := "4294967296";
    assert SkipSpaces(s, 0) == 0;
    assert NumberPrefix(s) == NumberSyntax(false, 10, 0);
    assert DigitRun(s, 0, 10) == 10;
    assert DigitsValue(s, 0, 1, 10) == 4;
    assert DigitsValue(s, 0, 2, 10) == 42;
    assert DigitsValue(s, 0, 3, 10) == 429;
    assert DigitsValue(s, 0, 4, 10) == 4294;
    assert DigitsValue(s, 0, 5, 10) == 42949;
    assert DigitsValue(s, 0, 6, 10) == 429496;
    assert DigitsValue(s, 0, 7, 10) == 4294967;
    assert DigitsValue(s, 0, 8, 10) == 42949672;
    assert DigitsValue(s, 0, 9, 10) == 429496729;
  }

  /** "4294967296" is its own canonical form. */
  lemma WrappedOptionCanonical()
    ensures Canonical("4294967296") == "4294967296"
  {
    var s := "4294967296";
    assert forall k :: 0 <= k < |s| ==> '0' <= s[k] <= '9';
    CanonicalOfCanonical(s);
  }

  /** "4294967296" is a C string, its own canonical form, and no level word. */
  lemma WrappedOptionText()
    ensures IsCString("4294967296") && Canonical("4294967296") == "4294967296" && "4294967296" !in LevelWords
  {
    WrappedOptionCanonical();
    WrappedIsCString();
    WrappedIsNoLevelWord();
  }

  /** No character of "4294967296" is NUL. */
  lemma WrappedIsCString()
    ensures IsCString("4294967296")
  {
    var s := "4294967296";
    assert forall k :: 0 <= k < |s| ==> '0' <= s[k] <= '9';
  }

  /** "4294967296" starts with a character no level word starts with. */
  lemma WrappedIsNoLevelWord()
    ensures "4294967296" !in LevelWords
  {
    var s := "4294967296";
    assert s[0] == '4';
    assert forall i :: 0 <= i < |LevelWords| ==> LevelWords[i][0] != '4';
  }

  /** A number whose low 32 bits are zero is taken as a driver name, not a level. */
  lemma WrappedNumberIsNotLevel()
    ensures IsLevel(Some("4294967296")) == LevelResult(false, Some("4294967296"))
  {
    WrappedOptionText();
    WrappedConversion();
    OtherOptionsAreNotLevels("4294967296");
  }
}
