/** The settings and progress store shared by the crawler and its user
    interface (`TempData` in tempdata.py), and its colour normaliser. */
module Tempdata {
  import opened Results
  import opened Text
  import opened Osm

  /** Settings chosen by the user and the live progress of a search. The
      settings are the ones the crawler reads; the progress fields are the
      ones it writes for the interface to show. */
  class TempData {
    // Settings
    var searchType: string
    var searchLine: string
    var objectsLanguage: string
    var searchBorders: bool
    var searchLocations: bool
    var searchPlacesChoice: seq<string>
    var polygonsToLines: bool
    var exportToKml: bool
    var exportToExcel: bool

    // Progress
    var currentStage: int
    var currentStageNum: int
    var currentObj: int
    var currentObjName: string
    var currentAreaObj: int
    var currentAreaObjNumber: int
    var currentAreaObjName: string
    var currentSubObjName: string
    var subObjNumber: int
    var currentSearchJson: seq<Candidate>
    var errorFound: int

    /** The values the store starts with, before the configuration file is
        read. The initialiser leaves the current stage and the current object
        unset; they get their first values when the crawler reaches them. */
    constructor ()
      ensures searchType == "world" && searchLine == "Russia" && objectsLanguage == "ru"
      ensures searchBorders && searchLocations && !polygonsToLines
      ensures searchPlacesChoice == ["isolated_dwelling", "hamlet", "village", "town", "city"]
      ensures exportToKml && exportToExcel
      ensures currentStageNum == 0
      ensures currentObjName == "" && currentAreaObj == 0 && currentAreaObjNumber == 0
      ensures currentAreaObjName == "" && currentSubObjName == "" && subObjNumber == 0
      ensures currentSearchJson == [] && errorFound == 0
    {
      searchType := "world";
      searchLine := "Russia";
      objectsLanguage := "ru";
      searchBorders := true;
      searchLocations := true;
      searchPlacesChoice := ["isolated_dwelling", "hamlet", "village", "town", "city"];
      polygonsToLines := false;
      exportToKml := true;
      exportToExcel := true;
      currentStageNum := 0;
      currentObjName := "";
      currentAreaObj := 0;
      currentAreaObjNumber := 0;
      currentAreaObjName := "";
      currentSubObjName := "";
      subObjNumber := 0;
      currentSearchJson := [];
      errorFound := 0;
    }
  }

  /** None of the user's settings changed: the crawler only reads them. */
  twostate predicate SettingsKept(t: TempData)
    reads t
  {
    && t.searchType == old(t.searchType) && t.searchLine == old(t.searchLine)
    && t.objectsLanguage == old(t.objectsLanguage)
    && t.searchBorders == old(t.searchBorders) && t.searchLocations == old(t.searchLocations)
    && t.searchPlacesChoice == old(t.searchPlacesChoice) && t.polygonsToLines == old(t.polygonsToLines)
    && t.exportToKml == old(t.exportToKml) && t.exportToExcel == old(t.exportToExcel)
  }

  /** The progress fields that describe the current area and request did not change. */
  twostate predicate AreaProgressKept(t: TempData)
    reads t
  {
    && t.currentAreaObj == old(t.currentAreaObj) && t.currentAreaObjName == old(t.currentAreaObjName)
    && t.currentAreaObjNumber == old(t.currentAreaObjNumber)
    && t.currentObjName == old(t.currentObjName) && t.currentSearchJson == old(t.currentSearchJson)
    && t.errorFound == old(t.errorFound)
  }

  // ---------------------------------------------------------------------
  // Colour normalisation (get_color)
  // ---------------------------------------------------------------------

  predicate IsHexDigit(c: char) {
    ('0' <= c <= '9') || ('a' <= c <= 'f') || ('A' <= c <= 'F')
  }

  predicate AllHex(s: string) {
    forall k :: 0 <= k < |s| ==> IsHexDigit(s[k])
  }

  predicate NoUpperAscii(s: string) {
    forall k :: 0 <= k < |s| ==> !IsUpperAscii(s[k])
  }

  /** `#rrggbb` in either case: the form of the values in a colour-name table. */
  predicate IsHexTriplet(s: string) {
    |s| == 7 && s[0] == '#' && AllHex(s[1..])
  }

  /** `#rrggbb` in lower case: the normalised form `get_color` returns. */
  predicate IsHexCode(s: string) {
    IsHexTriplet(s) && NoUpperAscii(s)
  }

  /** The default colour, red. */
  const DefaultColor: string := "#ff0000"

  /** Three or six hexadecimal digits. */
  predicate HexDigits(ds: string) {
    (|ds| == 3 || |ds| == 6) && AllHex(ds)
  }

  /** The text after a `#` that the colour library's hex pattern accepts:
      three or six hexadecimal digits, optionally followed by one final line
      feed (the pattern ends in `$`, which in Python also matches just before
      a final line feed). */
  predicate ReadsAsHex(body: string) {
    || HexDigits(body)
    || (|body| >= 1 && body[|body| - 1] == '\n' && HexDigits(body[..|body| - 1]))
  }

  /** Hex normalisation by the rules of CSS hex notation (CSS Color Module
      Level 3, section 4.2.1): `#` followed by three or six hexadecimal
      digits; a three-digit value stands for the six-digit value with every
      digit doubled; the result is in lower case. As the colour library's
      pattern allows, one final line feed after the digits is ignored.
      Anything else is refused. */
  function NormalizeHex(s: string): (r: Option<string>)
    ensures r.Some? <==> |s| >= 1 && s[0] == '#' && ReadsAsHex(s[1..])
    ensures r.Some? ==> IsHexCode(r.value)
  {
    if |s| >= 1 && s[0] == '#' then
      var body := s[1..];
      var ds := if |body| >= 1 && body[|body| - 1] == '\n' then body[..|body| - 1] else body;
      if !HexDigits(ds) then None
      else if |ds| == 3 then Some("#" + AsciiLower([ds[0], ds[0], ds[1], ds[1], ds[2], ds[2]]))
      else Some("#" + AsciiLower(ds))
    else None
  }

  /** A colour-name table as the colour library supplies it: lower-case
      names, each mapped to a `#rrggbb` value. */
  predicate WellFormedNames(names: map<string, string>) {
    forall n :: n in names ==> IsHexTriplet(names[n])
  }

  /** `TempData.get_color`: the setting read as a hex value written without
      its `#`; failing that, as a colour name looked up, case-insensitively, in
      `names`; failing that, red. The result is always in lower case. */
  function GetColor(names: map<string, string>, colorStr: string): (r: string)
    ensures NoUpperAscii(r)
  {
    match NormalizeHex("#" + colorStr)
    case Some(h) => AsciiLower(h)
    case None =>
      var key := AsciiLower(colorStr);
      if key in names then AsciiLower(names[key]) else DefaultColor
  }

  /** The setting reads as hex exactly when it is three or six hexadecimal
      digits, possibly followed by one final line feed. */
  lemma HexReading(colorStr: string)
    ensures NormalizeHex("#" + colorStr).Some? <==> ReadsAsHex(colorStr)
  {
    assert ("#" + colorStr)[1..] == colorStr;
  }

  /** A three-digit setting is widened by doubling every digit, in lower case. */
  lemma GetColorShortHex(names: map<string, string>, colorStr: string)
    requires |colorStr| == 3 && AllHex(colorStr)
    ensures var d0, d1, d2 := LowerChar(colorStr[0]), LowerChar(colorStr[1]), LowerChar(colorStr[2]);
      GetColor(names, colorStr) == ['#', d0, d0, d1, d1, d2, d2]
  {
    var s := "#" + colorStr;
    assert s[1..] == colorStr;
    var c0, c1, c2 := colorStr[0], colorStr[1], colorStr[2];
    var h := "#" + AsciiLower([c0, c0, c1, c1, c2, c2]);
    assert NormalizeHex(s) == Some(h);
    assert GetColor(names, colorStr) == AsciiLower(h);
    LowerDoubled(c0, c1, c2);
  }

  /** Lower-casing the doubled digits behind a `#` once more changes nothing. */
  lemma LowerDoubled(c0: char, c1: char, c2: char)
    ensures var d0, d1, d2 := LowerChar(c0), LowerChar(c1), LowerChar(c2);
      AsciiLower("#" + AsciiLower([c0, c0, c1, c1, c2, c2])) == ['#', d0, d0, d1, d1, d2, d2]
  {
    var lw := AsciiLower([c0, c0, c1, c1, c2, c2]);
    var h := "#" + lw;
    assert h[1] == lw[0] && h[2] == lw[1] && h[3] == lw[2] && h[4] == lw[3] && h[5] == lw[4] && h[6] == lw[5];
    var r := AsciiLower(h);
    assert r == [r[0], r[1], r[2], r[3], r[4], r[5], r[6]];
  }

  /** A six-digit setting is kept, in lower case, behind a `#`. */
  lemma GetColorLongHex(names: map<string, string>, colorStr: string)
    requires |colorStr| == 6 && AllHex(colorStr)
    ensures GetColor(names, colorStr) == "#" + AsciiLower(colorStr)
  {
    assert ("#" + colorStr)[1..] == colorStr;
  }

  /** One final line feed after the digits changes nothing. */
  lemma GetColorFinalNewline(names: map<string, string>, ds: string)
    requires HexDigits(ds)
    ensures GetColor(names, ds + "\n") == GetColor(names, ds)
  {
    var body := ds + "\n";
    assert ("#" + body)[1..] == body;
    assert body[..|body| - 1] == ds;
    assert ("#" + ds)[1..] == ds;
  }

  /** A setting that reads as hex never consults the name table: the hex
      reading is tried first and wins. */
  lemma GetColorHexWins(names1: map<string, string>, names2: map<string, string>, colorStr: string)
    requires ReadsAsHex(colorStr)
    ensures GetColor(names1, colorStr) == GetColor(names2, colorStr)
    ensures IsHexCode(GetColor(names1, colorStr))
  {
    HexReading(colorStr);
  }

  /** A setting that does not read as hex is looked up by its lower-case name. */
  lemma GetColorByName(names: map<string, string>, colorStr: string)
    requires !ReadsAsHex(colorStr) && AsciiLower(colorStr) in names
    ensures GetColor(names, colorStr) == AsciiLower(names[AsciiLower(colorStr)])
  {
    HexReading(colorStr);
  }

  /** Neither hex nor a known name: the default red. */
  lemma GetColorFallsBackToRed(names: map<string, string>, colorStr: string)
    requires !ReadsAsHex(colorStr) && AsciiLower(colorStr) !in names
    ensures GetColor(names, colorStr) == DefaultColor
  {
    HexReading(colorStr);
  }

  /** A `#` typed in the setting is never part of a hex reading. */
  lemma GetColorHashPrefixNotHex(names: map<string, string>, colorStr: string)
    requires |colorStr| > 0 && colorStr[0] == '#'
    ensures GetColor(names, colorStr) ==
              if AsciiLower(colorStr) in names then AsciiLower(names[AsciiLower(colorStr)])
              else DefaultColor
  {
    HexReading(colorStr);
  }

  lemma LowerOfHexTriplet(s: string)
    requires IsHexTriplet(s)
    ensures IsHexCode(AsciiLower(s))
  {
    var l := AsciiLower(s);
    forall k | 0 <= k < |l[1..]| ensures IsHexDigit(l[1..][k]) {
      assert l[1..][k] == LowerChar(s[1..][k]);
    }
  }

  /** With a well-formed name table, every result is a normalised hex code. */
  lemma GetColorIsHexCode(names: map<string, string>, colorStr: string)
    requires WellFormedNames(names)
    ensures IsHexCode(GetColor(names, colorStr))
  {
    var key := AsciiLower(colorStr);
    if NormalizeHex("#" + colorStr).None? && key in names {
      LowerOfHexTriplet(names[key]);
    }
    assert DefaultColor[1..] == "ff0000";
  }

  lemma LowerOfLowerHex(s: string)
    requires AllHex(s) && NoUpperAscii(s)
    ensures AsciiLower(s) == s
  {
  }

  /** Normalising a normalised colour (without its `#`) changes nothing. */
  lemma {:induction false} GetColorIdempotent(names: map<string, string>, colorStr: string)
    requires WellFormedNames(names)
    ensures var r := GetColor(names, colorStr); GetColor(names, r[1..]) == r
  {
    var r := GetColor(names, colorStr);
    GetColorIsHexCode(names, colorStr);
    var ds := r[1..];
    assert |ds| == 6 && AllHex(ds);
    GetColorLongHex(names, ds);
    assert NoUpperAscii(ds) by {
      forall k | 0 <= k < 6 ensures !IsUpperAscii(ds[k]) { assert ds[k] == r[k + 1]; }
    }
    LowerOfLowerHex(ds);
    assert r == "#" + ds;
  }

  /** `get_color("blue")` is `#0000ff`, by the name table. */
  lemma GetColorBlue(names: map<string, string>)
    requires "blue" in names && names["blue"] == "#0000ff"
    ensures GetColor(names, "blue") == "#0000ff"
  {
    assert !ReadsAsHex("blue");
    assert AsciiLower("blue") == "blue";
    GetColorByName(names, "blue");
    assert AsciiLower("#0000ff") == "#0000ff";
  }

  /** `get_color("09c")` is `#0099cc`. */
  lemma GetColorShortExample(names: map<string, string>, colorStr: string)
    requires colorStr == "09c"
    ensures GetColor(names, colorStr) == "#0099cc"
  {
    GetColorShortHex(names, colorStr);
    assert colorStr[0] == '0' && colorStr[1] == '9' && colorStr[2] == 'c';
    assert LowerChar('0') == '0' && LowerChar('9') == '9' && LowerChar('c') == 'c';
    assert ['#', '0', '0', '9', '9', 'c', 'c'] == "#0099cc";
  }

  /** `get_color("09c\n")` is `#0099cc` as well. */
  lemma GetColorNewlineExample(names: map<string, string>)
    ensures GetColor(names, "09c\n") == "#0099cc"
  {
    assert HexDigits("09c");
    GetColorFinalNewline(names, "09c");
    GetColorShortExample(names, "09c");
    assert "09c" + "\n" == "09c\n";
  }

  /** `get_color("")` is the default red. */
  lemma GetColorEmpty(names: map<string, string>)
    requires "" !in names
    ensures GetColor(names, "") == DefaultColor
  {
    assert AsciiLower("") == "";
    GetColorFallsBackToRed(names, "");
  }
}
