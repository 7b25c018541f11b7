/**
 * Compatibility strings (src/hwio_comp_spec.cpp): parsing, printing, matching.
 */
module CompSpec {
  import opened Version

  datatype Spec = Spec(name: string, vendor: string, typ: string, version: Version)
  {
    /** operator==: `this` belongs to a device, `query` is what is searched for. */
    predicate Matches(query: Spec) {
      if name != "" && query.name != "" then name == query.name
      else if vendor != "" && query.vendor != "" && vendor != query.vendor then false
      else if typ != "" && query.typ != "" && typ != query.typ then false
      else version.Matches(query.version)
    }

    /** `general` keeps the name of `this` and blanks or wildcards any of the rest. */
    predicate Generalizes(special: Spec) {
      && name == special.name
      && (vendor == special.vendor || vendor == "")
      && (typ == special.typ || typ == "")
      && (version.major == special.version.major || version.major == NA)
      && (version.minor == special.version.minor || version.minor == NA)
      && (version.subminor == special.version.subminor || version.subminor == NA)
    }
  }

  /** Blanking fields of a query never loses a match. */
  lemma MatchingIsMonotone(device: Spec, special: Spec, general: Spec)
    requires general.Generalizes(special) && device.Matches(special)
    ensures device.Matches(general)
  {
  }

  // ---- parsing ----

  /** std::string::find_last_of for one character; -1 stands for npos. */
  function LastIndex(s: string, c: char): (i: int)
    ensures -1 <= i < |s|
    ensures i >= 0 ==> s[i] == c
    ensures forall j :: i < j < |s| ==> s[j] != c
  {
    if s == [] then -1
    else if s[|s| - 1] == c then |s| - 1
    else LastIndex(s[..|s| - 1], c)
  }

  /**
   * `type = type_begin` assigns an index to a std::string, which stores the
   * one character with that code.
   */
  function IndexAsType(index: nat): string {
    [(index % 256) as char]
  }

  /** The constructor from a compatibility string. */
  function Parse(s: string): Parsed<Spec> {
    ParseAt(s, LastIndex(s, ','), LastIndex(s, '-'))
  }

  /** Branch by branch, given the last comma and the last hyphen. */
  function ParseAt(s: string, comma: int, hyphen: int): Parsed<Spec>
    requires -1 <= comma < |s| && -1 <= hyphen < |s| && (comma == hyphen ==> comma < 0)
  {
    if comma < 0 && hyphen < 0 then Ok(Spec("", "", s, UNKNOWN))
    else if hyphen < 0 then Ok(Spec("", s[..comma], IndexAsType(comma + 1), UNKNOWN))
    else
      var vendor := if comma < 0 then "" else s[..comma];
      match ParseVersion(s[hyphen + 1..])
      case Ok(v) =>
        // A version cannot contain a comma, so here hyphen > comma.
        if hyphen < comma then Ok(Spec("", vendor, s[comma + 1..], v))
        else Ok(Spec("", vendor, s[comma + 1..hyphen], v))
      case Err(WrongFormat) => Ok(Spec("", vendor, s[comma + 1..], UNKNOWN))
      case Err(e) => Err(e)
  }

  /** `<vendor>,<type>-<version>`, the form the parser documents. */
  function Compatible(spec: Spec): string {
    spec.vendor + "," + spec.typ + "-" + ToString(spec.version)
  }

  /** to_str() also puts the name in front. */
  function Print(spec: Spec): string {
    spec.name + ":" + Compatible(spec)
  }

  lemma LastIndexAt(s: string, c: char, i: int)
    requires -1 <= i < |s| && (i >= 0 ==> s[i] == c)
    requires forall j :: i < j < |s| ==> s[j] != c
    ensures LastIndex(s, c) == i
  {
    hide LastIndex;
    var k := LastIndex(s, c);
    assert !(k < i) && !(i < k);
  }

  lemma LastIndexFound(s: string, c: char)
    ensures c in s <==> LastIndex(s, c) >= 0
  {
    hide LastIndex;
    if c in s {
      var j :| 0 <= j < |s| && s[j] == c;
    }
  }

  /** What the printed version may contain. */
  lemma VersionTextHasNo(v: Version, c: char)
    requires v.major >= NA && v.minor >= NA && v.subminor >= NA
    requires c == ',' || c == '-'
    ensures c !in ToString(v)
  {
    hide Decimal;
  }

  /** The separators found in a compatibility string are the ones that were put there. */
  lemma Separators(vendor: string, typ: string, version: string)
    requires ',' !in typ && ',' !in version && '-' !in version
    ensures var s := vendor + "," + typ + "-" + version;
      LastIndex(s, ',') == |vendor| && LastIndex(s, '-') == |vendor| + 1 + |typ|
  {
    hide LastIndex;
    var s := vendor + "," + typ + "-" + version;
    LastIndexAt(s, ',', |vendor|);
    LastIndexAt(s, '-', |vendor| + 1 + |typ|);
  }

  /** The pieces between the separators. */
  lemma Pieces(vendor: string, typ: string, version: string)
    ensures var s := vendor + "," + typ + "-" + version; var comma, hyphen := |vendor|, |vendor| + 1 + |typ|;
      && |s| == hyphen + 1 + |version| && s[..comma] == vendor && s[comma + 1..hyphen] == typ
      && s[hyphen + 1..] == version && s[comma + 1..] == typ + "-" + version
  {
  }

  lemma ParseOfSeparated(vendor: string, typ: string, version: string)
    requires ',' !in typ && ',' !in version && '-' !in version
    ensures Parse(vendor + "," + typ + "-" + version) ==
      match ParseVersion(version)
      case Ok(v) => Ok(Spec("", vendor, typ, v))
      case Err(WrongFormat) => Ok(Spec("", vendor, typ + "-" + version, UNKNOWN))
      case Err(e) => Err(e)
  {
    hide LastIndex, ParseVersion, ParseAt;
    Separators(vendor, typ, version);
    Pieces(vendor, typ, version);
    ParseWithBoth(vendor + "," + typ + "-" + version, |vendor|, |vendor| + 1 + |typ|);
  }

  lemma ParseWithBoth(s: string, comma: nat, hyphen: nat)
    requires comma < hyphen < |s|
    ensures ParseAt(s, comma, hyphen) ==
      match ParseVersion(s[hyphen + 1..])
      case Ok(v) => Ok(Spec("", s[..comma], s[comma + 1..hyphen], v))
      case Err(WrongFormat) => Ok(Spec("", s[..comma], s[comma + 1..], UNKNOWN))
      case Err(e) => Err(e)
  {
    hide ParseVersion;
  }

  lemma ParsedVersion(s: string)
    ensures Parse(s).Ok? ==> var v := Parse(s).value.version; v.major >= NA && v.minor >= NA && v.subminor >= NA
  {
    hide LastIndex, ParseVersion;
  }

  /**
   * `vendor,type-a.b.c` reads back exactly when the type has no comma and all
   * three version components are numbers. The vendor may contain commas and
   * hyphens, the type hyphens.
   */
  lemma CompatibleRoundTrip(vendor: string, typ: string, version: Version)
    ensures var spec := Spec("", vendor, typ, version);
      Parse(Compatible(spec)) == Ok(spec) <==> ',' !in typ && version.Full()
  {
    hide ToString, ParseVersion, Parse;
    var spec := Spec("", vendor, typ, version);
    if version.major >= NA && version.minor >= NA && version.subminor >= NA {
      VersionTextHasNo(version, ',');
      VersionTextHasNo(version, '-');
      RoundTrip(version);
      if ',' !in typ {
        ParseOfSeparated(vendor, typ, ToString(version));
        assert |typ + "-" + ToString(version)| > |typ|;
      } else {
        VendorTakesCommas(spec, ToString(version));
      }
    } else {
      ParsedVersion(Compatible(spec));
    }
  }

  /** A comma in the type moves the vendor's end into the type. */
  lemma VendorTakesCommas(spec: Spec, text: string)
    requires ',' in spec.typ
    ensures var r := Parse(spec.vendor + "," + spec.typ + "-" + text); r.Ok? ==> |r.value.vendor| > |spec.vendor|
  {
    hide LastIndex, ParseVersion;
    var s := spec.vendor + "," + spec.typ + "-" + text;
    var k :| 0 <= k < |spec.typ| && spec.typ[k] == ',';
    assert s[|spec.vendor| + 1 + k] == ',';
    assert s[|spec.vendor| + 1 + |spec.typ|] == '-';
    assert LastIndex(s, ',') > |spec.vendor|;
  }

  lemma Prepend(p: string, a: string, b: string)
    ensures p + (a + b) == (p + a) + b
  {
  }

  /**
   * Printing a spec and reading it back puts the name and the colon into the
   * vendor and keeps the rest, exactly when the type has no comma and the
   * version is fully specified.
   */
  lemma PrintRoundTrip(spec: Spec)
    ensures Parse(Print(spec)) == Ok(spec.(name := "", vendor := spec.name + ":" + spec.vendor)) <==>
      ',' !in spec.typ && spec.version.Full()
  {
    hide Parse, ToString;
    var vendor := spec.name + ":" + spec.vendor;
    CompatibleRoundTrip(vendor, spec.typ, spec.version);
    var text, name := ToString(spec.version), spec.name + ":";
    Prepend(name, spec.vendor, ",");
    Prepend(name, spec.vendor + ",", spec.typ);
    Prepend(name, spec.vendor + "," + spec.typ, "-");
    Prepend(name, spec.vendor + "," + spec.typ + "-", text);
  }

  /**
   * When `<vendor>,<type>` is read as that vendor and that type: the type must
   * have no comma, and with a hyphen anywhere no version may follow the last
   * one; without a hyphen, the type must happen to be the character with the
   * code of its index.
   */
  lemma VendorAndType(vendor: string, typ: string)
    ensures var s := vendor + "," + typ;
      Parse(s) == Ok(Spec("", vendor, typ, UNKNOWN)) <==>
      && ',' !in typ
      && if '-' in s then ParseVersion(s[LastIndex(s, '-') + 1..]) == Err(WrongFormat)
         else typ == IndexAsType(|vendor| + 1)
  {
    hide ParseVersion, LastIndex, Parse;
    var s := vendor + "," + typ;
    assert s[..|vendor|] == vendor && s[|vendor| + 1..] == typ;
    if ',' in typ {
      VendorEndsLate(vendor, typ);
    } else {
      assert LastIndex(s, ',') == |vendor| by { OneSeparator(vendor, typ); }
      VendorAndTypeAt(s, |vendor|);
    }
  }

  lemma OneSeparator(vendor: string, typ: string)
    requires ',' !in typ
    ensures LastIndex(vendor + "," + typ, ',') == |vendor|
  {
    hide LastIndex;
    LastIndexAt(vendor + "," + typ, ',', |vendor|);
  }

  /** A comma in the type again moves the vendor's end. */
  lemma VendorEndsLate(vendor: string, typ: string)
    requires ',' in typ
    ensures var r := Parse(vendor + "," + typ); r.Ok? ==> |r.value.vendor| > |vendor|
  {
    hide LastIndex, ParseVersion;
    var s := vendor + "," + typ;
    var k :| 0 <= k < |typ| && typ[k] == ',';
    assert s[|vendor| + 1 + k] == ',';
    assert LastIndex(s, ',') > |vendor|;
  }

  lemma VendorAndTypeAt(s: string, comma: nat)
    requires LastIndex(s, ',') == comma
    ensures Parse(s) == Ok(Spec("", s[..comma], s[comma + 1..], UNKNOWN)) <==>
      if '-' in s then ParseVersion(s[LastIndex(s, '-') + 1..]) == Err(WrongFormat)
      else s[comma + 1..] == IndexAsType(comma + 1)
  {
    hide LastIndex, ParseVersion;
    LastIndexFound(s, '-');
  }

  // ---- what the parser makes of any string ----

  /** Without separators the string is the type. */
  lemma ParseTypeOnly(s: string)
    requires ',' !in s && '-' !in s
    ensures Parse(s) == Ok(Spec("", "", s, UNKNOWN))
  {
    hide LastIndex;
    LastIndexFound(s, ',');
    LastIndexFound(s, '-');
  }

  /**
   * Without a comma there is no vendor. What follows the last hyphen is the
   * version if it is one, and else belongs to the type.
   */
  lemma ParseTypeAndVersion(typ: string, text: string)
    requires ',' !in typ && ',' !in text && '-' !in text
    ensures Parse(typ + "-" + text) ==
      match ParseVersion(text)
      case Ok(v) => Ok(Spec("", "", typ, v))
      case Err(WrongFormat) => Ok(Spec("", "", typ + "-" + text, UNKNOWN))
      case Err(e) => Err(e)
  {
    hide LastIndex, ParseVersion;
    var s := typ + "-" + text;
    LastIndexAt(s, ',', -1);
    LastIndexAt(s, '-', |typ|);
    assert s[..|typ|] == typ && s[|typ| + 1..] == text && s[0..|typ|] == typ && s[0..] == s;
  }

  /** With a comma and no hyphen, the vendor is what precedes the last comma; the type is lost. */
  lemma ParseVendorOnly(vendor: string, typ: string)
    requires ',' !in typ && '-' !in vendor && '-' !in typ
    ensures Parse(vendor + "," + typ) == Ok(Spec("", vendor, [((|vendor| + 1) % 256) as char], UNKNOWN))
  {
    hide LastIndex;
    var s := vendor + "," + typ;
    OneSeparator(vendor, typ);
    LastIndexAt(s, '-', -1);
    assert s[..|vendor|] == vendor;
  }

  /** Hyphens in the vendor only: what follows the last one has a comma, so it is no version. */
  lemma ParseHyphenVendor(vendor: string, typ: string)
    requires ',' !in typ && '-' in vendor && '-' !in typ
    ensures Parse(vendor + "," + typ) == Ok(Spec("", vendor, typ, UNKNOWN))
  {
    hide LastIndex, ParseVersion;
    var s := vendor + "," + typ;
    OneSeparator(vendor, typ);
    LastIndexFound(vendor, '-');
    LastIndexAt(s, '-', LastIndex(vendor, '-'));
    var text := s[LastIndex(s, '-') + 1..];
    assert text[|vendor| - LastIndex(s, '-') - 1] == ',';
    NoCommaInVersion(text);
    assert s[..|vendor|] == vendor && s[|vendor| + 1..] == typ;
  }

  lemma NoCommaInVersion(text: string)
    requires ',' in text
    ensures ParseVersion(text) == Err(WrongFormat)
  {
    hide ParseVersion;
    WrongFormatMeans(text);
    forall a, b, c
      ensures !IsVersionText(text, a, b, c)
    {
      if IsVersionText(text, a, b, c) {
        NoCommaInPieces(a, b, c);
      }
    }
  }

  lemma NoCommaInPieces(a: string, b: string, c: string)
    requires AllDigits(a) && AllDigits(b) && (c == [] || IsThird(c))
    ensures ',' !in a + "." + (b + if c == [] then [] else "." + c)
  {
  }

  predicate IsTypeAndText(s: string, typ: string, text: string) {
    ',' !in typ && ',' !in text && '-' !in text && s == typ + "-" + text
  }

  predicate IsVendorAndType(s: string, vendor: string, typ: string) {
    ',' !in typ && '-' !in typ && s == vendor + "," + typ
  }

  predicate IsWhole(s: string, vendor: string, typ: string, text: string) {
    ',' !in typ && ',' !in text && '-' !in text && s == vendor + "," + typ + "-" + text
  }

  /** These are all strings, given by their last comma and their last hyphen. */
  lemma EveryForm(s: string)
    ensures (',' !in s && '-' !in s)
      || (exists typ, text :: IsTypeAndText(s, typ, text))
      || (exists vendor, typ :: IsVendorAndType(s, vendor, typ))
      || (exists vendor, typ, text :: IsWhole(s, vendor, typ, text))
  {
    hide LastIndex;
    LastIndexFound(s, ',');
    LastIndexFound(s, '-');
    var comma, hyphen := LastIndex(s, ','), LastIndex(s, '-');
    if comma < 0 && hyphen >= 0 {
      assert IsTypeAndText(s, s[..hyphen], s[hyphen + 1..]);
    } else if comma >= 0 && hyphen < comma {
      assert IsVendorAndType(s, s[..comma], s[comma + 1..]);
    } else if comma >= 0 {
      assert IsWhole(s, s[..comma], s[comma + 1..hyphen], s[hyphen + 1..]);
    }
  }

  /** `type-a.b.c` reads back exactly when the type has no comma and the version is fully specified. */
  lemma TypeVersionRoundTrip(typ: string, version: Version)
    ensures Parse(typ + "-" + ToString(version)) == Ok(Spec("", "", typ, version)) <==>
      ',' !in typ && version.Full()
  {
    hide ToString, ParseVersion, Parse;
    var text := ToString(version);
    var s := typ + "-" + text;
    if version.major >= NA && version.minor >= NA && version.subminor >= NA {
      VersionTextHasNo(version, ',');
      VersionTextHasNo(version, '-');
      RoundTrip(version);
      if ',' !in typ {
        ParseTypeAndVersion(typ, text);
        assert |typ + "-" + text| > |typ|;
      } else {
        TypeLosesCommas(typ, text);
      }
    } else {
      ParsedVersion(s);
    }
  }

  /** With a comma in it, the type starts behind its last comma. */
  lemma TypeLosesCommas(typ: string, text: string)
    requires ',' in typ && ',' !in text && '-' !in text
    ensures var r := Parse(typ + "-" + text); r.Ok? ==> r.value.typ != typ
  {
    hide LastIndex, ParseVersion;
    var s := typ + "-" + text;
    LastIndexFound(typ, ',');
    var comma := LastIndex(typ, ',');
    LastIndexAt(s, ',', comma);
    LastIndexAt(s, '-', |typ|);
    assert comma < |typ|;
    assert ',' !in s[comma + 1..|typ|] && ',' !in s[comma + 1..];
  }

  /** Strings of the tests and of the sample trees. */
  lemma ParseSamples()
    ensures Parse("testing-type") == Ok(Spec("", "", "testing-type", UNKNOWN))
    ensures Parse("uart-1.00.a") == Ok(Spec("", "", "uart", Version(1, 0, 97)))
    ensures Parse("acme,uart-1.00.a") == Ok(Spec("", "acme", "uart", Version(1, 0, 97)))
  {
    hide Parse, ParseVersion;
    ParseExamples();
    assert "testing" + "-" + "type" == "testing-type";
    ParseTypeAndVersion("testing", "type");
    assert "uart" + "-" + "1.00.a" == "uart-1.00.a";
    ParseTypeAndVersion("uart", "1.00.a");
    assert "acme" + "," + "uart" + "-" + "1.00.a" == "acme,uart-1.00.a";
    ParseOfSeparated("acme", "uart", "1.00.a");
  }

  /** A concrete string that does not read back. */
  lemma VendorAndTypeExample()
    ensures Parse("acme,uart") == Ok(Spec("", "acme", [5 as char], UNKNOWN))
  {
    hide LastIndex;
    LastIndexAt("acme,uart", ',', 4);
    LastIndexAt("acme,uart", '-', -1);
    assert "acme,uart"[..4] == "acme";
  }
}
