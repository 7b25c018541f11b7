/**
 * Component versions (src/hwio_version.cpp): the parser, the printer and the
 * wildcard comparison.
 */
module Version {

  /** HWIO_VERSION_NA: a component that is not available, or a wildcard. */
  const NA: int := -1
  const INT_MAX: int := 0x7fff_ffff

  datatype Version = Version(major: int, minor: int, subminor: int)
  {
    /** operator==: `this` is a concrete version, `pattern` may have wildcards. */
    predicate Matches(pattern: Version) {
      && (pattern.major != NA ==> pattern.major == major)
      && (pattern.minor != NA ==> pattern.minor == minor)
      && (pattern.subminor != NA ==> pattern.subminor == subminor)
    }

    /** Every component is a number that fits a C int. */
    predicate Full() {
      0 <= major <= INT_MAX && 0 <= minor <= INT_MAX && 0 <= subminor <= INT_MAX
    }
  }

  const UNKNOWN: Version := Version(NA, NA, NA)

  /** The exceptions of the parser; only the first one is a std::runtime_error. */
  datatype Error = WrongFormat | OutOfRange | InvalidArgument

  datatype Parsed<T> = Ok(value: T) | Err(error: Error)

  // ---- decimal numbers ----

  predicate IsDigit(c: char) {
    '0' <= c <= '9'
  }

  predicate AllDigits(s: string) {
    forall i :: 0 <= i < |s| ==> IsDigit(s[i])
  }

  function DigitValue(c: char): nat
    requires IsDigit(c)
  {
    c as int - '0' as int
  }

  function Decimal(n: nat): (s: string)
    ensures s != [] && AllDigits(s)
  {
    var last := [('0' as int + n % 10) as char];
    if n < 10 then last else Decimal(n / 10) + last
  }

  function Value(s: string): nat
    requires AllDigits(s)
  {
    if s == [] then 0 else 10 * Value(s[..|s| - 1]) + DigitValue(s[|s| - 1])
  }

  lemma {:induction false} DecimalRoundTrip(n: nat)
    ensures Value(Decimal(n)) == n
  {
    var s := Decimal(n);
    if n >= 10 {
      DecimalRoundTrip(n / 10);
      assert s[..|s| - 1] == Decimal(n / 10);
    } else {
      assert s[..0] == [];
    }
  }

  // ---- the parser ----

  predicate IsAlpha(c: char) {
    'a' <= c <= 'z' || 'A' <= c <= 'Z'
  }

  /** The regular expression class \w. */
  predicate IsWord(c: char) {
    IsAlpha(c) || IsDigit(c) || c == '_'
  }

  /** Length of the longest prefix of digits. */
  function DigitPrefix(s: string): (n: nat)
    ensures n <= |s| && AllDigits(s[..n])
    ensures n < |s| ==> !IsDigit(s[n])
  {
    if s == [] || !IsDigit(s[0]) then 0
    else
      var n := DigitPrefix(s[1..]) + 1;
      assert forall i :: 1 <= i < n ==> s[..n][i] == s[1..][..n - 1][i - 1];
      n
  }

  /** The capture groups of `^(\d+)\.(\d+)(\.(\w|\d+))?` on the whole string. */
  datatype Groups = NoMatch | Groups(major: string, minor: string, subminor: string)

  predicate IsSubminor(s: string) {
    (|s| == 1 && IsWord(s[0])) || (s != [] && AllDigits(s))
  }

  function Match(s: string): (g: Groups)
    ensures g.Groups? ==>
      && g.major != [] && AllDigits(g.major) && g.minor != [] && AllDigits(g.minor)
      && (g.subminor == [] || IsSubminor(g.subminor))
  {
    var i := DigitPrefix(s);
    if i == 0 || i == |s| || s[i] != '.' then NoMatch else MatchMinor(s[..i], s[i + 1..])
  }

  function MatchMinor(major: string, rest: string): (g: Groups)
    ensures g.Groups? ==>
      && g.major == major && g.minor != [] && AllDigits(g.minor)
      && (g.subminor == [] || IsSubminor(g.subminor))
  {
    var j := DigitPrefix(rest);
    if j == 0 then NoMatch
    else if j == |rest| then Groups(major, rest, [])
    else if rest[j] == '.' && IsSubminor(rest[j + 1..]) then Groups(major, rest[..j], rest[j + 1..])
    else NoMatch
  }

  /** std::stoi on a match of \d+. */
  function Stoi(s: string): Parsed<int>
    requires AllDigits(s)
  {
    if Value(s) > INT_MAX then Err(OutOfRange) else Ok(Value(s))
  }

  function ParseSubminor(s: string): Parsed<int>
    requires s == [] || IsSubminor(s)
  {
    if s == [] then Ok(NA)
    else if IsAlpha(s[0]) then Ok(s[0] as int)
    else if s == "_" then Err(InvalidArgument)
    else Stoi(s)
  }

  function ParseVersion(s: string): (r: Parsed<Version>)
    ensures r.Ok? ==>
      && 0 <= r.value.major <= INT_MAX && 0 <= r.value.minor <= INT_MAX
      && (r.value.subminor == NA || 0 <= r.value.subminor <= INT_MAX)
  {
    match Match(s)
    case NoMatch => Err(WrongFormat)
    case Groups(a, b, c) =>
      var major := Stoi(a);
      if major.Err? then Err(major.error) else
      var minor := Stoi(b);
      if minor.Err? then Err(minor.error) else
      var subminor := ParseSubminor(c);
      if subminor.Err? then Err(subminor.error)
      else Ok(Version(major.value, minor.value, subminor.value))
  }

  /** ostream << int */
  function Int(n: int): string {
    if n < 0 then "-" + Decimal(-n) else Decimal(n)
  }

  function Component(n: int): string {
    if n == NA then "<NA>" else Int(n)
  }

  function ToString(v: Version): string {
    Component(v.major) + "." + Component(v.minor) + "." + Component(v.subminor)
  }

  // ---- properties ----

  lemma {:induction false} DigitPrefixOf(d: string, rest: string)
    requires AllDigits(d) && (rest == [] || !IsDigit(rest[0]))
    ensures DigitPrefix(d + rest) == |d|
  {
    var s := d + rest;
    if d == [] {
      assert s == rest;
    } else {
      DigitPrefixOf(d[1..], rest);
      assert s[1..] == d[1..] + rest;
    }
  }

  lemma MatchMajor(a: string, rest: string)
    requires a != [] && AllDigits(a)
    ensures Match(a + "." + rest) == MatchMinor(a, rest)
  {
    hide MatchMinor;
    var s := a + "." + rest;
    DigitPrefixOf(a, "." + rest);
    assert s == a + ("." + rest);
    assert s[..|a|] == a && s[|a| + 1..] == rest;
  }

  lemma MatchTail(a: string, b: string, c: string)
    requires b != [] && AllDigits(b)
    ensures MatchMinor(a, b + ("." + c)) == if IsSubminor(c) then Groups(a, b, c) else NoMatch
  {
    var rest := b + ("." + c);
    DigitPrefixOf(b, "." + c);
    assert rest[..|b|] == b && rest[|b| + 1..] == c;
  }

  /** The decomposition into groups is unique, so Match finds it. */
  lemma MatchComplete(a: string, b: string, c: string)
    requires a != [] && AllDigits(a) && b != [] && AllDigits(b) && (c == [] || IsSubminor(c))
    ensures Match(a + "." + (b + if c == [] then [] else "." + c)) == Groups(a, b, c)
  {
    if c == [] {
      MatchMajor(a, b);
      DigitPrefixOf(b, []);
      assert b + [] == b;
    } else {
      MatchMajor(a, b + ("." + c));
      MatchTail(a, b, c);
    }
  }

  /** Nothing else matches. */
  lemma MatchSound(s: string)
    ensures Match(s).Groups? ==> var g := Match(s);
      s == g.major + "." + (g.minor + if g.subminor == [] then [] else "." + g.subminor)
  {
    hide DigitPrefix, MatchMinor;
    var i := DigitPrefix(s);
    if Match(s).Groups? {
      MinorSound(s[..i], s[i + 1..]);
      assert s == s[..i] + "." + s[i + 1..];
    }
  }

  lemma MinorSound(major: string, rest: string)
    ensures var g := MatchMinor(major, rest);
      g.Groups? ==> g.major == major && rest == g.minor + if g.subminor == [] then [] else "." + g.subminor
  {
    hide DigitPrefix;
    var j := DigitPrefix(rest);
    if 0 < j < |rest| {
      SplitAtDot(rest, j);
    }
  }

  lemma SplitAtDot(s: string, j: nat)
    requires j < |s|
    ensures s[j] == '.' ==> s == s[..j] + ("." + s[j + 1..])
  {
  }

  /** Printing then parsing gives a version back exactly when all three components are numbers. */
  lemma RoundTrip(v: Version)
    ensures ParseVersion(ToString(v)) == Ok(v) <==> v.Full()
  {
    if v.Full() {
      FullRoundTrip(v);
    } else if ParseVersion(ToString(v)) == Ok(v) {
      assert v.major >= 0 && v.minor >= 0 && v.subminor == NA;
      NotAvailableDoesNotParse(v.major, v.minor);
    }
  }

  lemma FullRoundTrip(v: Version)
    requires v.Full()
    ensures ParseVersion(ToString(v)) == Ok(v)
  {
    hide Match, Decimal, Value;
    var a, b, c := Decimal(v.major), Decimal(v.minor), Decimal(v.subminor);
    MatchComplete(a, b, c);
    assert ToString(v) == a + "." + (b + ("." + c));
    DecimalRoundTrip(v.major);
    DecimalRoundTrip(v.minor);
    DecimalRoundTrip(v.subminor);
    assert !IsAlpha(c[0]) && IsDigit(c[0]);
  }

  lemma NotAvailableDoesNotParse(major: nat, minor: nat)
    ensures ParseVersion(ToString(Version(major, minor, NA))) == Err(WrongFormat)
  {
    hide Decimal;
    var a, b, c := Decimal(major), Decimal(minor), "<NA>";
    assert !IsDigit(c[0]) && |c| == 4;
    MatchMajor(a, b + ("." + c));
    MatchTail(a, b, c);
    hide Match;
    assert ToString(Version(major, minor, NA)) == a + "." + (b + ("." + c));
  }

  lemma ParsedSubminor(s: string)
    requires ParseVersion(s).Ok?
    ensures Match(s).Groups? && (ParseVersion(s).value.Full() <==> Match(s).subminor != [])
  {
    hide Match, Value;
  }

  /** Reading a printed version back is stable exactly when the text had a third component, letters included. */
  lemma ParsePrintParse(s: string)
    requires ParseVersion(s).Ok?
    ensures Match(s).Groups?
    ensures ParseVersion(ToString(ParseVersion(s).value)) == ParseVersion(s) <==> Match(s).subminor != []
  {
    ParsedSubminor(s);
    hide Match, ParseVersion, ToString;
    RoundTrip(ParseVersion(s).value);
  }

  // ---- what the parser accepts, and what it makes of it ----

  predicate IsNumber(s: string) {
    s != [] && AllDigits(s)
  }

  /** A number, or one letter or underscore. */
  predicate IsThird(s: string) {
    IsNumber(s) || (|s| == 1 && ('a' <= s[0] <= 'z' || 'A' <= s[0] <= 'Z' || s[0] == '_'))
  }

  /** `<number>.<number>`, and perhaps a dot and a third component. */
  predicate IsVersionText(s: string, major: string, minor: string, subminor: string) {
    && IsNumber(major) && IsNumber(minor) && (subminor == [] || IsThird(subminor))
    && s == major + "." + (minor + if subminor == [] then [] else "." + subminor)
  }

  /** A string has the wrong format exactly if it cannot be taken apart in this way. */
  lemma WrongFormatMeans(s: string)
    ensures ParseVersion(s) == Err(WrongFormat) <==>
      forall major, minor, subminor :: !IsVersionText(s, major, minor, subminor)
  {
    hide Match, Value;
    MatchSound(s);
    if Match(s).Groups? {
      assert IsVersionText(s, Match(s).major, Match(s).minor, Match(s).subminor);
    }
    forall a, b, c | IsVersionText(s, a, b, c)
      ensures Match(s).Groups?
    {
      MatchComplete(a, b, c);
    }
  }

  lemma VersionGroups(s: string, a: string, b: string, c: string)
    requires IsVersionText(s, a, b, c)
    ensures Match(s) == Groups(a, b, c)
  {
    hide Match;
    MatchComplete(a, b, c);
  }

  /** Two numbers, and no third component. */
  lemma ParseTwo(a: string, b: string)
    requires IsNumber(a) && IsNumber(b)
    ensures ParseVersion(a + "." + b) ==
      if Value(a) > INT_MAX || Value(b) > INT_MAX then Err(OutOfRange) else Ok(Version(Value(a), Value(b), NA))
  {
    hide Match, Value;
    assert b + [] == b;
    VersionGroups(a + "." + b, a, b, []);
  }

  /** Three numbers. */
  lemma ParseThree(a: string, b: string, c: string)
    requires IsNumber(a) && IsNumber(b) && IsNumber(c)
    ensures ParseVersion(a + "." + (b + "." + c)) ==
      if Value(a) > INT_MAX || Value(b) > INT_MAX || Value(c) > INT_MAX then Err(OutOfRange)
      else Ok(Version(Value(a), Value(b), Value(c)))
  {
    hide Match, Value;
    assert b + "." + c == b + ("." + c);
    assert IsDigit(c[0]);
    VersionGroups(a + "." + (b + "." + c), a, b, c);
  }

  /** A letter counts as its character code; the underscore, which the expression admits, is no number. */
  lemma ParseLetter(a: string, b: string, letter: char)
    requires IsNumber(a) && IsNumber(b)
    requires 'a' <= letter <= 'z' || 'A' <= letter <= 'Z' || letter == '_'
    ensures ParseVersion(a + "." + (b + "." + [letter])) ==
      if Value(a) > INT_MAX || Value(b) > INT_MAX then Err(OutOfRange)
      else if letter == '_' then Err(InvalidArgument)
      else Ok(Version(Value(a), Value(b), letter as int))
  {
    hide Match, Value;
    assert b + "." + [letter] == b + ("." + [letter]);
    VersionGroups(a + "." + (b + "." + [letter]), a, b, [letter]);
  }

  /** The digits of a number count by powers of ten, the last one least. */
  lemma {:induction false} ValueOfDigits(a: string, b: string)
    requires AllDigits(a) && AllDigits(b)
    ensures Value(a + b) == Value(a) * Pow10(|b|) + Value(b)
    decreases |b|
  {
    if b == [] {
      assert a + b == a;
    } else {
      var init, last := b[..|b| - 1], b[|b| - 1];
      ValueOfDigits(a, init);
      assert (a + b)[..|a + b| - 1] == a + init;
      ShiftedSum(Value(a), Pow10(|init|), Value(init), DigitValue(last));
    }
  }

  function Pow10(k: nat): nat {
    if k == 0 then 1 else 10 * Pow10(k - 1)
  }

  lemma ShiftedSum(a: nat, p: nat, v: nat, d: nat)
    ensures 10 * (a * p + v) + d == a * (10 * p) + (10 * v + d)
  {
    assert a * (10 * p) == 10 * (a * p);
  }

  /** The texts of the sample devices and of the tests. */
  lemma ParseExamples()
    ensures ParseVersion("1.00.a") == Ok(Version(1, 0, 97))
    ensures ParseVersion("10.2") == Ok(Version(10, 2, NA))
    ensures ParseVersion("1.2.30") == Ok(Version(1, 2, 30))
    ensures ParseVersion("type") == Err(WrongFormat)
  {
    hide ParseVersion, Match;
    assert Value("1") == 1 && Value("2") == 2 by { assert Value("") == 0; assert "1"[..0] == "" == "2"[..0]; }
    assert Value("00") == 0 && Value("10") == 10 && Value("30") == 30 by { TwoDigits(); }
    assert "1" + "." + ("00" + "." + ['a']) == "1.00.a";
    ParseLetter("1", "00", 'a');
    assert "10" + "." + "2" == "10.2";
    ParseTwo("10", "2");
    assert "1" + "." + ("2" + "." + "30") == "1.2.30";
    ParseThree("1", "2", "30");
    WrongFormatMeans("type");
    forall a, b, c
      ensures !IsVersionText("type", a, b, c)
    {
      if IsVersionText("type", a, b, c) {
        StartsWithDigit("type", a, b, c);
      }
    }
  }

  lemma StartsWithDigit(s: string, a: string, b: string, c: string)
    requires IsVersionText(s, a, b, c)
    ensures IsDigit(s[0])
  {
    assert s[0] == a[0];
  }

  lemma TwoDigits()
    ensures Value("00") == 0 && Value("10") == 10 && Value("30") == 30
  {
    assert "00"[..1] == "0" && "10"[..1] == "1" && "30"[..1] == "3";
    assert "0"[..0] == "" && "1"[..0] == "" && "3"[..0] == "";
    assert Value("") == 0;
    assert Value("0") == 0 && Value("1") == 1 && Value("3") == 3;
  }

  /** to_str prints major, minor and subminor in this order, a letter as its code. */
  lemma PrintExamples()
    ensures ToString(Version(1, 20, 97)) == "1.20.97" && ToString(UNKNOWN) == "<NA>.<NA>.<NA>"
  {
    assert Decimal(20) == "2" + "0" && Decimal(97) == "9" + "7";
  }
}
