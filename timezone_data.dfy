/** lib/timezoneData.ts: the table of time zones offered, its grouping by
    region, and the current-time label of a zone. */
module TimezoneData {
  import opened Wrappers
  import opened JsStrings
  import opened SeqMath

  // ---------------------------------------------------------------------
  // Entries
  // ---------------------------------------------------------------------

  /** The areas of the IANA ids in the table. */
  datatype Area = America | Atlantic | Europe | Africa | Asia | Australia | Pacific

  function AreaText(a: Area): string {
    match a
    case America => "America"
    case Atlantic => "Atlantic"
    case Europe => "Europe"
    case Africa => "Africa"
    case Asia => "Asia"
    case Australia => "Australia"
    case Pacific => "Pacific"
  }

  /** A zone id: the browser sentinel, "UTC", or `Area/City`. */
  datatype ZoneId = Browser | UtcZone | Zone(area: Area, city: string)

  function ZoneIdText(id: ZoneId): string {
    match id
    case Browser => "browser"
    case UtcZone => "UTC"
    case Zone(a, city) => AreaText(a) + "/" + city
  }

  datatype Sign = Plus | Minus

  /** The offset shown for an entry: "Auto", or a sign, hours and minutes. */
  datatype Offset = Auto | Fixed(sign: Sign, hours: nat, minutes: nat)

  function OffsetText(o: Offset): string {
    match o
    case Auto => "Auto"
    case Fixed(sign, h, m) =>
      (if sign == Plus then "+" else "-") + PadStart2(NatToString(h)) + ":" + PadStart2(NatToString(m))
  }

  /** An entry of the table (`label` is `displayLabel`, since `label` is a
      Dafny keyword). Ids and offsets are held as their parts and give the
      table's text through `Value()` and `OffsetLabel()`; no entry has an
      alternative name. */
  datatype TimezoneOption = Tz(id: ZoneId, displayLabel: string, offset: Offset, abbrev: Option<string>) {
    /** `value`. */
    function Value(): string {
      ZoneIdText(id)
    }

    /** `offset`. */
    function OffsetLabel(): string {
      OffsetText(offset)
    }
  }

  // ---------------------------------------------------------------------
  // The table, section by section as its comments divide it; the longer
  // sections are written in parts of six entries.
  // ---------------------------------------------------------------------

  /** The "Browser Default" entries. */
  const BrowserSection: seq<TimezoneOption> := [
    Tz(Browser, "Browser Timezone", Auto, None)]

  /** The "UTC" entries. */
  const UtcSection: seq<TimezoneOption> := [
    Tz(UtcZone, "UTC (Coordinated Universal Time)", Fixed(Plus, 0, 0), Some("UTC"))]

  const AmericasSection1: seq<TimezoneOption> := [
    Tz(Zone(America, "New_York"), "New York (Eastern Time)", Fixed(Minus, 5, 0), Some("EST/EDT")),
    Tz(Zone(America, "Chicago"), "Chicago (Central Time)", Fixed(Minus, 6, 0), Some("CST/CDT")),
    Tz(Zone(America, "Denver"), "Denver (Mountain Time)", Fixed(Minus, 7, 0), Some("MST/MDT")),
    Tz(Zone(America, "Phoenix"), "Phoenix (Mountain Time - No DST)", Fixed(Minus, 7, 0), Some("MST")),
    Tz(Zone(America, "Los_Angeles"), "Los Angeles (Pacific Time)", Fixed(Minus, 8, 0), Some("PST/PDT")),
    Tz(Zone(America, "Anchorage"), "Anchorage (Alaska Time)", Fixed(Minus, 9, 0), Some("AKST/AKDT"))]

  const AmericasSection2: seq<TimezoneOption> := [
    Tz(Zone(Pacific, "Honolulu"), "Honolulu (Hawaii Time)", Fixed(Minus, 10, 0), Some("HST")),
    Tz(Zone(America, "Toronto"), "Toronto (Eastern Time)", Fixed(Minus, 5, 0), Some("EST/EDT")),
    Tz(Zone(America, "Vancouver"), "Vancouver (Pacific Time)", Fixed(Minus, 8, 0), Some("PST/PDT")),
    Tz(Zone(America, "Mexico_City"), "Mexico City (Central Time)", Fixed(Minus, 6, 0), Some("CST")),
    Tz(Zone(America, "Sao_Paulo"), "São Paulo (Brasilia Time)", Fixed(Minus, 3, 0), Some("BRT")),
    Tz(Zone(America, "Buenos_Aires"), "Buenos Aires (Argentina Time)", Fixed(Minus, 3, 0), Some("ART"))]

  const AmericasSection3: seq<TimezoneOption> := [
    Tz(Zone(America, "Santiago"), "Santiago (Chile Time)", Fixed(Minus, 3, 0), Some("CLT/CLST")),
    Tz(Zone(America, "Lima"), "Lima (Peru Time)", Fixed(Minus, 5, 0), Some("PET")),
    Tz(Zone(America, "Bogota"), "Bogotá (Colombia Time)", Fixed(Minus, 5, 0), Some("COT")),
    Tz(Zone(America, "Caracas"), "Caracas (Venezuela Time)", Fixed(Minus, 4, 0), Some("VET")),
    Tz(Zone(America, "Halifax"), "Halifax (Atlantic Time)", Fixed(Minus, 4, 0), Some("AST/ADT")),
    Tz(Zone(America, "St_Johns"), "St. John's (Newfoundland Time)", Fixed(Minus, 3, 30), Some("NST/NDT"))]

  /** The "Americas" entries. */
  const AmericasSection: seq<TimezoneOption> := AmericasSection1 + AmericasSection2 + AmericasSection3

  const EuropeSection1: seq<TimezoneOption> := [
    Tz(Zone(Europe, "London"), "London (Greenwich Mean Time)", Fixed(Plus, 0, 0), Some("GMT/BST")),
    Tz(Zone(Europe, "Dublin"), "Dublin (Irish Time)", Fixed(Plus, 0, 0), Some("GMT/IST")),
    Tz(Zone(Europe, "Lisbon"), "Lisbon (Western European Time)", Fixed(Plus, 0, 0), Some("WET/WEST")),
    Tz(Zone(Europe, "Paris"), "Paris (Central European Time)", Fixed(Plus, 1, 0), Some("CET/CEST")),
    Tz(Zone(Europe, "Berlin"), "Berlin (Central European Time)", Fixed(Plus, 1, 0), Some("CET/CEST")),
    Tz(Zone(Europe, "Rome"), "Rome (Central European Time)", Fixed(Plus, 1, 0), Some("CET/CEST"))]

  const EuropeSection2: seq<TimezoneOption> := [
    Tz(Zone(Europe, "Madrid"), "Madrid (Central European Time)", Fixed(Plus, 1, 0), Some("CET/CEST")),
    Tz(Zone(Europe, "Amsterdam"), "Amsterdam (Central European Time)", Fixed(Plus, 1, 0), Some("CET/CEST")),
    Tz(Zone(Europe, "Brussels"), "Brussels (Central European Time)", Fixed(Plus, 1, 0), Some("CET/CEST")),
    Tz(Zone(Europe, "Vienna"), "Vienna (Central European Time)", Fixed(Plus, 1, 0), Some("CET/CEST")),
    Tz(Zone(Europe, "Warsaw"), "Warsaw (Central European Time)", Fixed(Plus, 1, 0), Some("CET/CEST")),
    Tz(Zone(Europe, "Stockholm"), "Stockholm (Central European Time)", Fixed(Plus, 1, 0), Some("CET/CEST"))]

  const EuropeSection3: seq<TimezoneOption> := [
    Tz(Zone(Europe, "Copenhagen"), "Copenhagen (Central European Time)", Fixed(Plus, 1, 0), Some("CET/CEST")),
    Tz(Zone(Europe, "Oslo"), "Oslo (Central European Time)", Fixed(Plus, 1, 0), Some("CET/CEST")),
    Tz(Zone(Europe, "Zurich"), "Zurich (Central European Time)", Fixed(Plus, 1, 0), Some("CET/CEST")),
    Tz(Zone(Europe, "Athens"), "Athens (Eastern European Time)", Fixed(Plus, 2, 0), Some("EET/EEST")),
    Tz(Zone(Europe, "Helsinki"), "Helsinki (Eastern European Time)", Fixed(Plus, 2, 0), Some("EET/EEST")),
    Tz(Zone(Europe, "Bucharest"), "Bucharest (Eastern European Time)", Fixed(Plus, 2, 0), Some("EET/EEST"))]

  const EuropeSection4: seq<TimezoneOption> := [
    Tz(Zone(Europe, "Istanbul"), "Istanbul (Turkey Time)", Fixed(Plus, 3, 0), Some("TRT")),
    Tz(Zone(Europe, "Moscow"), "Moscow (Moscow Time)", Fixed(Plus, 3, 0), Some("MSK")),
    Tz(Zone(Europe, "Kiev"), "Kyiv (Eastern European Time)", Fixed(Plus, 2, 0), Some("EET/EEST"))]

  /** The "Europe" entries. */
  const EuropeSection: seq<TimezoneOption> := EuropeSection1 + EuropeSection2 + EuropeSection3 + EuropeSection4

  /** The "Africa" entries. */
  const AfricaSection: seq<TimezoneOption> := [
    Tz(Zone(Africa, "Cairo"), "Cairo (Eastern European Time)", Fixed(Plus, 2, 0), Some("EET")),
    Tz(Zone(Africa, "Johannesburg"), "Johannesburg (South Africa Time)", Fixed(Plus, 2, 0), Some("SAST")),
    Tz(Zone(Africa, "Lagos"), "Lagos (West Africa Time)", Fixed(Plus, 1, 0), Some("WAT")),
    Tz(Zone(Africa, "Nairobi"), "Nairobi (East Africa Time)", Fixed(Plus, 3, 0), Some("EAT")),
    Tz(Zone(Africa, "Casablanca"), "Casablanca (Western European Time)", Fixed(Plus, 0, 0), Some("WET/WEST"))]

  /** The "Middle East" entries. */
  const MiddleEastSection: seq<TimezoneOption> := [
    Tz(Zone(Asia, "Dubai"), "Dubai (Gulf Time)", Fixed(Plus, 4, 0), Some("GST")),
    Tz(Zone(Asia, "Riyadh"), "Riyadh (Arabia Time)", Fixed(Plus, 3, 0), Some("AST")),
    Tz(Zone(Asia, "Jerusalem"), "Jerusalem (Israel Time)", Fixed(Plus, 2, 0), Some("IST/IDT")),
    Tz(Zone(Asia, "Beirut"), "Beirut (Eastern European Time)", Fixed(Plus, 2, 0), Some("EET/EEST")),
    Tz(Zone(Asia, "Kuwait"), "Kuwait (Arabia Time)", Fixed(Plus, 3, 0), Some("AST")),
    Tz(Zone(Asia, "Qatar"), "Doha (Arabia Time)", Fixed(Plus, 3, 0), Some("AST"))]

  const AsiaSection1: seq<TimezoneOption> := [
    Tz(Zone(Asia, "Karachi"), "Karachi (Pakistan Time)", Fixed(Plus, 5, 0), Some("PKT")),
    Tz(Zone(Asia, "Kolkata"), "India (Kolkata/Mumbai/Delhi)", Fixed(Plus, 5, 30), Some("IST")),
    Tz(Zone(Asia, "Dhaka"), "Dhaka (Bangladesh Time)", Fixed(Plus, 6, 0), Some("BST")),
    Tz(Zone(Asia, "Kathmandu"), "Kathmandu (Nepal Time)", Fixed(Plus, 5, 45), Some("NPT")),
    Tz(Zone(Asia, "Colombo"), "Colombo (Sri Lanka Time)", Fixed(Plus, 5, 30), Some("IST")),
    Tz(Zone(Asia, "Yangon"), "Yangon (Myanmar Time)", Fixed(Plus, 6, 30), Some("MMT"))]

  const AsiaSection2: seq<TimezoneOption> := [
    Tz(Zone(Asia, "Bangkok"), "Bangkok (Indochina Time)", Fixed(Plus, 7, 0), Some("ICT")),
    Tz(Zone(Asia, "Jakarta"), "Jakarta (Western Indonesia Time)", Fixed(Plus, 7, 0), Some("WIB")),
    Tz(Zone(Asia, "Singapore"), "Singapore (Singapore Time)", Fixed(Plus, 8, 0), Some("SGT")),
    Tz(Zone(Asia, "Kuala_Lumpur"), "Kuala Lumpur (Malaysia Time)", Fixed(Plus, 8, 0), Some("MYT")),
    Tz(Zone(Asia, "Manila"), "Manila (Philippine Time)", Fixed(Plus, 8, 0), Some("PHT")),
    Tz(Zone(Asia, "Hong_Kong"), "Hong Kong (Hong Kong Time)", Fixed(Plus, 8, 0), Some("HKT"))]

  const AsiaSection3: seq<TimezoneOption> := [
    Tz(Zone(Asia, "Shanghai"), "China (Beijing/Shanghai)", Fixed(Plus, 8, 0), Some("CST")),
    Tz(Zone(Asia, "Taipei"), "Taipei (Taiwan Time)", Fixed(Plus, 8, 0), Some("CST")),
    Tz(Zone(Asia, "Seoul"), "Seoul (Korea Time)", Fixed(Plus, 9, 0), Some("KST")),
    Tz(Zone(Asia, "Tokyo"), "Tokyo (Japan Time)", Fixed(Plus, 9, 0), Some("JST")),
    Tz(Zone(Asia, "Vladivostok"), "Vladivostok (Vladivostok Time)", Fixed(Plus, 10, 0), Some("VLAT"))]

  /** The "Asia" entries. */
  const AsiaSection: seq<TimezoneOption> := AsiaSection1 + AsiaSection2 + AsiaSection3

  const OceaniaSection1: seq<TimezoneOption> := [
    Tz(Zone(Australia, "Perth"), "Perth (Western Australia Time)", Fixed(Plus, 8, 0), Some("AWST")),
    Tz(Zone(Australia, "Adelaide"), "Adelaide (Central Australia Time)", Fixed(Plus, 9, 30), Some("ACST/ACDT")),
    Tz(Zone(Australia, "Darwin"), "Darwin (Central Australia Time)", Fixed(Plus, 9, 30), Some("ACST")),
    Tz(Zone(Australia, "Brisbane"), "Brisbane (Eastern Australia Time)", Fixed(Plus, 10, 0), Some("AEST")),
    Tz(Zone(Australia, "Sydney"), "Sydney (Eastern Australia Time)", Fixed(Plus, 10, 0), Some("AEST/AEDT")),
    Tz(Zone(Australia, "Melbourne"), "Melbourne (Eastern Australia Time)", Fixed(Plus, 10, 0), Some("AEST/AEDT"))]

  const OceaniaSection2: seq<TimezoneOption> := [
    Tz(Zone(Australia, "Hobart"), "Hobart (Tasmania Time)", Fixed(Plus, 10, 0), Some("AEST/AEDT")),
    Tz(Zone(Pacific, "Auckland"), "New Zealand (Auckland/Wellington)", Fixed(Plus, 12, 0), Some("NZST/NZDT")),
    Tz(Zone(Pacific, "Fiji"), "Fiji (Fiji Time)", Fixed(Plus, 12, 0), Some("FJT")),
    Tz(Zone(Pacific, "Guam"), "Guam (Chamorro Time)", Fixed(Plus, 10, 0), Some("ChST")),
    Tz(Zone(Pacific, "Port_Moresby"), "Port Moresby (Papua New Guinea Time)", Fixed(Plus, 10, 0), Some("PGT")),
    Tz(Zone(Pacific, "Noumea"), "Nouméa (New Caledonia Time)", Fixed(Plus, 11, 0), Some("NCT"))]

  /** The "Oceania" entries. */
  const OceaniaSection: seq<TimezoneOption> := OceaniaSection1 + OceaniaSection2

  /** The "Atlantic" entries. */
  const AtlanticSection: seq<TimezoneOption> := [
    Tz(Zone(Atlantic, "Bermuda"), "Bermuda (Atlantic Time)", Fixed(Minus, 4, 0), Some("AST/ADT")),
    Tz(Zone(Atlantic, "Azores"), "Azores (Azores Time)", Fixed(Minus, 1, 0), Some("AZOT/AZOST")),
    Tz(Zone(Atlantic, "Cape_Verde"), "Cape Verde (Cape Verde Time)", Fixed(Minus, 1, 0), Some("CVT")),
    Tz(Zone(Atlantic, "Reykjavik"), "Reykjavik (Greenwich Mean Time)", Fixed(Plus, 0, 0), Some("GMT"))]

  /** Every entry after the browser's. */
  const ZoneSections: seq<TimezoneOption> :=
    UtcSection + AmericasSection + EuropeSection + AfricaSection
    + MiddleEastSection + AsiaSection + OceaniaSection + AtlanticSection

  /** TIMEZONE_OPTIONS, in table order. */
  const TimezoneOptions: seq<TimezoneOption> := BrowserSection + ZoneSections

  /** `±HH:MM`. */
  predicate IsOffset(s: string) {
    |s| == 6 && (s[0] == '+' || s[0] == '-') && IsDigit(s[1]) && IsDigit(s[2])
    && s[3] == ':' && IsDigit(s[4]) && IsDigit(s[5])
  }

  /** A fixed offset below 100 hours and 100 minutes is shown as `±HH:MM`,
      and its digits read back as its hours and minutes. */
  lemma FixedOffsetText(o: Offset)
    requires o.Fixed? && o.hours < 100 && o.minutes < 100
    ensures var s := OffsetText(o);
            IsOffset(s) && (s[0] == '+' <==> o.sign == Plus)
            && DigitsValue(s[1..3]) == o.hours && DigitsValue(s[4..6]) == o.minutes
  {
    PadStartOfSmallNat(o.hours);
    PadStartOfSmallNat(o.minutes);
    var s := OffsetText(o);
    assert s[1..3] == TwoDigits(o.hours);
    assert s[4..6] == TwoDigits(o.minutes);
  }

  /** An entry after the browser's: a real zone id and a fixed offset of at
      most 23:59. */
  predicate ZoneEntry(o: TimezoneOption) {
    o.id != Browser && o.offset.Fixed? && o.offset.hours < 24 && o.offset.minutes < 60
  }

  predicate AllZoneEntries(s: seq<TimezoneOption>) {
    forall k :: 0 <= k < |s| ==> ZoneEntry(s[k])
  }

  lemma AllZoneEntriesAppend(a: seq<TimezoneOption>, b: seq<TimezoneOption>)
    requires AllZoneEntries(a) && AllZoneEntries(b)
    ensures AllZoneEntries(a + b)
  {
  }

  lemma UtcEntries()
    ensures AllZoneEntries(UtcSection)
  {
  }

  lemma Americas1Entries()
    ensures AllZoneEntries(AmericasSection1)
  {
  }

  lemma Americas2Entries()
    ensures AllZoneEntries(AmericasSection2)
  {
  }

  lemma Americas3Entries()
    ensures AllZoneEntries(AmericasSection3)
  {
  }

  lemma Europe1Entries()
    ensures AllZoneEntries(EuropeSection1)
  {
  }

  lemma Europe2Entries()
    ensures AllZoneEntries(EuropeSection2)
  {
  }

  lemma Europe3Entries()
    ensures AllZoneEntries(EuropeSection3)
  {
  }

  lemma Europe4Entries()
    ensures AllZoneEntries(EuropeSection4)
  {
  }

  lemma AfricaEntries()
    ensures AllZoneEntries(AfricaSection)
  {
  }

  lemma MiddleEastEntries()
    ensures AllZoneEntries(MiddleEastSection)
  {
  }

  lemma Asia1Entries()
    ensures AllZoneEntries(AsiaSection1)
  {
  }

  lemma Asia2Entries()
    ensures AllZoneEntries(AsiaSection2)
  {
  }

  lemma Asia3Entries()
    ensures AllZoneEntries(AsiaSection3)
  {
  }

  lemma Oceania1Entries()
    ensures AllZoneEntries(OceaniaSection1)
  {
  }

  lemma Oceania2Entries()
    ensures AllZoneEntries(OceaniaSection2)
  {
  }

  lemma AtlanticEntries()
    ensures AllZoneEntries(AtlanticSection)
  {
  }

  /** Every entry after the browser's is a zone entry. */
  lemma ZoneSectionsEntries()
    ensures AllZoneEntries(ZoneSections)
  {
    UtcEntries();
    Americas1Entries();
    Americas2Entries();
    Americas3Entries();
    Europe1Entries();
    Europe2Entries();
    Europe3Entries();
    Europe4Entries();
    AfricaEntries();
    MiddleEastEntries();
    Asia1Entries();
    Asia2Entries();
    Asia3Entries();
    Oceania1Entries();
    Oceania2Entries();
    AtlanticEntries();
    AllZoneEntriesAppend(AmericasSection1, AmericasSection2);
    AllZoneEntriesAppend(AmericasSection1 + AmericasSection2, AmericasSection3);
    AllZoneEntriesAppend(EuropeSection1, EuropeSection2);
    AllZoneEntriesAppend(EuropeSection1 + EuropeSection2, EuropeSection3);
    AllZoneEntriesAppend(EuropeSection1 + EuropeSection2 + EuropeSection3, EuropeSection4);
    AllZoneEntriesAppend(AsiaSection1, AsiaSection2);
    AllZoneEntriesAppend(AsiaSection1 + AsiaSection2, AsiaSection3);
    AllZoneEntriesAppend(OceaniaSection1, OceaniaSection2);
    var s := UtcSection;
    AllZoneEntriesAppend(s, AmericasSection);
    s := s + AmericasSection;
    AllZoneEntriesAppend(s, EuropeSection);
    s := s + EuropeSection;
    AllZoneEntriesAppend(s, AfricaSection);
    s := s + AfricaSection;
    AllZoneEntriesAppend(s, MiddleEastSection);
    s := s + MiddleEastSection;
    AllZoneEntriesAppend(s, AsiaSection);
    s := s + AsiaSection;
    AllZoneEntriesAppend(s, OceaniaSection);
    s := s + OceaniaSection;
    AllZoneEntriesAppend(s, AtlanticSection);
  }

  /** The first entry is the browser's own zone, with offset "Auto"; every
      other entry has a fixed offset shown as `±HH:MM`. */
  lemma TableShape()
    ensures |TimezoneOptions| == 85
    ensures TimezoneOptions[0] == Tz(Browser, "Browser Timezone", Auto, None)
    ensures TimezoneOptions[0].Value() == "browser" && TimezoneOptions[0].OffsetLabel() == "Auto"
    ensures forall i :: 1 <= i < |TimezoneOptions| ==>
              ZoneEntry(TimezoneOptions[i]) && IsOffset(TimezoneOptions[i].OffsetLabel())
  {
    ZoneSectionsEntries();
    forall i | 1 <= i < |TimezoneOptions|
      ensures ZoneEntry(TimezoneOptions[i]) && IsOffset(TimezoneOptions[i].OffsetLabel())
    {
      assert TimezoneOptions[i] == ZoneSections[i - 1];
      FixedOffsetText(TimezoneOptions[i].offset);
    }
  }

  // ---------------------------------------------------------------------
  // Groups
  // ---------------------------------------------------------------------

  /** The regional groups after "Suggested". */
  datatype Region = AmericasGroup | EuropeGroup | AfricaGroup | AsiaGroup | OceaniaGroup | UtcGroup

  const Regions: seq<Region> := [AmericasGroup, EuropeGroup, AfricaGroup, AsiaGroup, OceaniaGroup, UtcGroup]

  function RegionLabel(r: Region): string {
    match r
    case AmericasGroup => "Americas"
    case EuropeGroup => "Europe"
    case AfricaGroup => "Africa"
    case AsiaGroup => "Asia"
    case OceaniaGroup => "Oceania"
    case UtcGroup => "UTC"
  }

  /** The filter of each regional group, as written; the third disjunct of
      the Americas filter is false on both of its branches. */
  predicate InRegion(r: Region, o: TimezoneOption) {
    var v := o.Value();
    match r
    case AmericasGroup =>
      StartsWith(v, "America/") || StartsWith(v, "Atlantic/") || (if v == "browser" then false else false)
    case EuropeGroup => StartsWith(v, "Europe/")
    case AfricaGroup => StartsWith(v, "Africa/")
    case AsiaGroup => StartsWith(v, "Asia/")
    case OceaniaGroup => StartsWith(v, "Australia/") || StartsWith(v, "Pacific/")
    case UtcGroup => v == "UTC"
  }

  /** The region of a zone id, read off its area. */
  function RegionOf(id: ZoneId): Option<Region> {
    match id
    case Browser => None
    case UtcZone => Some(UtcGroup)
    case Zone(a, _) =>
      Some(match a
        case America => AmericasGroup
        case Atlantic => AmericasGroup
        case Europe => EuropeGroup
        case Africa => AfricaGroup
        case Asia => AsiaGroup
        case Australia => OceaniaGroup
        case Pacific => OceaniaGroup)
  }

  /** An `Area/City` id starts with `B/` exactly when its area is `B`: the
      area names differ within their first two characters. */
  lemma ZonePrefix(a: Area, city: string, b: Area)
    ensures StartsWith(ZoneIdText(Zone(a, city)), AreaText(b) + "/") <==> a == b
  {
    var v, p := ZoneIdText(Zone(a, city)), AreaText(b) + "/";
    var x := AreaText(a) + "/";
    assert v == x + city;
    if a == b {
      assert v[..|x|] == x;
    } else {
      assert v[0] == AreaText(a)[0] && v[1] == AreaText(a)[1];
      assert p[0] == AreaText(b)[0] && p[1] == AreaText(b)[1];
      assert |p| >= 2;
      if |p| <= |v| {
        assert v[..|p|][0] == v[0] && v[..|p|][1] == v[1];
      }
    }
  }

  /** The prefixes the filters test are the area names followed by '/'. */
  lemma AreaPrefixes()
    ensures AreaText(America) + "/" == "America/" && AreaText(Atlantic) + "/" == "Atlantic/"
    ensures AreaText(Europe) + "/" == "Europe/" && AreaText(Africa) + "/" == "Africa/"
    ensures AreaText(Asia) + "/" == "Asia/" && AreaText(Australia) + "/" == "Australia/"
    ensures AreaText(Pacific) + "/" == "Pacific/"
  {
  }

  /** Which regional prefixes an `Area/City` id starts with. */
  lemma ZonePrefixes(a: Area, city: string)
    ensures var v := ZoneIdText(Zone(a, city));
            (StartsWith(v, "America/") <==> a == America)
            && (StartsWith(v, "Atlantic/") <==> a == Atlantic)
            && (StartsWith(v, "Europe/") <==> a == Europe)
            && (StartsWith(v, "Africa/") <==> a == Africa)
            && (StartsWith(v, "Asia/") <==> a == Asia)
            && (StartsWith(v, "Australia/") <==> a == Australia)
            && (StartsWith(v, "Pacific/") <==> a == Pacific)
            && v != "UTC" && v != "browser"
  {
    AreaPrefixes();
    ZonePrefix(a, city, America);
    ZonePrefix(a, city, Atlantic);
    ZonePrefix(a, city, Europe);
    ZonePrefix(a, city, Africa);
    ZonePrefix(a, city, Asia);
    ZonePrefix(a, city, Australia);
    ZonePrefix(a, city, Pacific);
    var v := ZoneIdText(Zone(a, city));
    assert v[0] == AreaText(a)[0];
  }

  /** "UTC" and "browser" start with no regional prefix. */
  lemma SpecialIdsHaveNoPrefix(v: string)
    requires v == "UTC" || v == "browser"
    ensures !StartsWith(v, "America/") && !StartsWith(v, "Atlantic/") && !StartsWith(v, "Europe/")
    ensures !StartsWith(v, "Africa/") && !StartsWith(v, "Asia/") && !StartsWith(v, "Australia/")
    ensures !StartsWith(v, "Pacific/")
  {
    assert v[0] == 'U' || v[0] == 'b';
  }

  /** An option passes the filter of region `r` exactly when its id's area
      belongs to `r`; the browser entry passes none. */
  lemma InRegionIsRegionOf(r: Region, o: TimezoneOption)
    ensures InRegion(r, o) <==> RegionOf(o.id) == Some(r)
  {
    match o.id
    case Browser =>
      SpecialIdsHaveNoPrefix(o.Value());
    case UtcZone =>
      SpecialIdsHaveNoPrefix(o.Value());
    case Zone(a, city) =>
      ZonePrefixes(a, city);
  }

  /** A labelled group of options, as the selector lists them. */
  datatype Group = Group(groupLabel: string, options: seq<TimezoneOption>)

  /** The options of table `t` that pass region `r`'s filter, in table order. */
  function RegionOptions(t: seq<TimezoneOption>, r: Region): seq<TimezoneOption> {
    Filter(t, o => InRegion(r, o))
  }

  /** "Suggested": the browser entry, UTC and the five entries after them. */
  function SuggestedOptions(t: seq<TimezoneOption>): seq<TimezoneOption>
    requires |t| >= 7
  {
    [t[0], t[1]] + t[2..7]
  }

  /** The groups built from a table: Suggested first, then one group per
      region in the order of `Regions`. */
  function GroupsOf(t: seq<TimezoneOption>): (g: seq<Group>)
    requires |t| >= 7
    ensures |g| == 1 + |Regions|
    ensures g[0] == Group("Suggested", SuggestedOptions(t))
    ensures forall k :: 0 <= k < |Regions| ==>
              g[k + 1] == Group(RegionLabel(Regions[k]), RegionOptions(t, Regions[k]))
  {
    [Group("Suggested", SuggestedOptions(t))]
      + seq(|Regions|, k requires 0 <= k < |Regions| => Group(RegionLabel(Regions[k]), RegionOptions(t, Regions[k])))
  }

  /** TIMEZONE_GROUPS. */
  function TimezoneGroups(): seq<Group> {
    TableSize();
    GroupsOf(TimezoneOptions)
  }

  lemma TableSize()
    ensures |TimezoneOptions| == 85
  {
    TableShape();
  }

  /** The Suggested group is the first seven options in table order. */
  lemma SuggestedIsPrefix(t: seq<TimezoneOption>)
    requires |t| >= 7
    ensures SuggestedOptions(t) == t[..7]
  {
    assert SuggestedOptions(t)[..2] == t[..2];
  }

  /** A regional group lists, in table order, exactly the entries of the
      table whose region is `r`. */
  lemma {:induction false} RegionOptionsSelect(t: seq<TimezoneOption>, r: Region) returns (idx: seq<nat>)
    ensures var g := RegionOptions(t, r);
            |idx| == |g|
            && (forall k :: 0 <= k < |g| ==> idx[k] < |t| && g[k] == t[idx[k]] && RegionOf(g[k].id) == Some(r))
            && (forall k, l :: 0 <= k < l < |g| ==> idx[k] < idx[l])
            && (forall i :: 0 <= i < |t| && RegionOf(t[i].id) == Some(r) ==> i in idx)
  {
    idx := FilterSelect(t, o => InRegion(r, o));
    var g := RegionOptions(t, r);
    forall k | 0 <= k < |g| ensures RegionOf(g[k].id) == Some(r) {
      InRegionIsRegionOf(r, g[k]);
    }
    forall i | 0 <= i < |t| && RegionOf(t[i].id) == Some(r) ensures i in idx {
      InRegionIsRegionOf(r, t[i]);
    }
  }

  /** An option is in the group of region `r` exactly when it is in the table
      and its region is `r`. */
  lemma InRegionOptions(t: seq<TimezoneOption>, r: Region, o: TimezoneOption)
    ensures o in RegionOptions(t, r) <==> o in t && RegionOf(o.id) == Some(r)
  {
    InRegionIsRegionOf(r, o);
    if o in t {
      var i :| 0 <= i < |t| && t[i] == o;
    }
  }

  /** Every entry of the table but the browser sentinel is in exactly one
      regional group, the one of its area; the browser sentinel is in none. */
  lemma RegionsPartitionTable(i: nat, r: Region)
    requires i < |TimezoneOptions|
    ensures i == 0 ==> TimezoneOptions[i] !in RegionOptions(TimezoneOptions, r)
    ensures i > 0 ==> RegionOf(TimezoneOptions[i].id).Some?
                      && (TimezoneOptions[i] in RegionOptions(TimezoneOptions, r)
                          <==> r == RegionOf(TimezoneOptions[i].id).value)
  {
    TableShape();
    InRegionOptions(TimezoneOptions, r, TimezoneOptions[i]);
  }

  /** The head of the table: the browser sentinel, UTC, the six first
      American zones, then Pacific/Honolulu among the American entries. */
  lemma TableHead()
    ensures |TimezoneOptions| > 9
    ensures TimezoneOptions[1].id == UtcZone
    ensures forall i :: 2 <= i < 8 ==> TimezoneOptions[i].id.Zone? && TimezoneOptions[i].id.area == America
    ensures TimezoneOptions[8].id == Zone(Pacific, "Honolulu")
    ensures TimezoneOptions[9].id == Zone(America, "Toronto")
  {
    var head := BrowserSection + UtcSection + AmericasSection1 + AmericasSection2;
    assert TimezoneOptions[..|head|] == head;
  }

  /** Suggested holds the browser entry, UTC and five American zones, which
      are the first seven options in table order. */
  lemma SuggestedGroup()
    ensures var t := TimezoneOptions;
            SuggestedOptions(t) == t[..7]
            && t[0].id == Browser && t[1].id == UtcZone
            && forall i :: 2 <= i < 7 ==> RegionOf(t[i].id) == Some(AmericasGroup)
  {
    TableHead();
    TableShape();
    SuggestedIsPrefix(TimezoneOptions);
  }

  /** Pacific/Honolulu, listed between American zones, is grouped with
      Oceania and not with the Americas. */
  lemma HonoluluInOceania()
    ensures var t := TimezoneOptions;
            t[8].id == Zone(Pacific, "Honolulu")
            && t[8] in RegionOptions(t, OceaniaGroup) && t[8] !in RegionOptions(t, AmericasGroup)
  {
    TableHead();
    HonoluluGroups(TimezoneOptions);
  }

  lemma HonoluluGroups(t: seq<TimezoneOption>)
    requires |t| > 8 && t[8].id == Zone(Pacific, "Honolulu")
    ensures t[8] in RegionOptions(t, OceaniaGroup) && t[8] !in RegionOptions(t, AmericasGroup)
  {
    InRegionOptions(t, OceaniaGroup, t[8]);
    InRegionOptions(t, AmericasGroup, t[8]);
  }

  // ---------------------------------------------------------------------
  // Current time in a zone
  // ---------------------------------------------------------------------

  /** getCurrentTimeInTimezone. The clock reading `now` is a parameter;
      `localTime` formats it in the browser's zone and `zoneTime` in a named
      zone, `None` when the zone id is rejected (the thrown RangeError). */
  function CurrentTimeIn(timezone: string, now: int, localTime: int -> string,
                         zoneTime: (int, string) -> Option<string>): (r: string)
    ensures timezone == "browser" ==> r == localTime(now)
    ensures timezone != "browser" && zoneTime(now, timezone).None? ==> r == ""
    ensures timezone != "browser" && zoneTime(now, timezone).Some? ==> r == zoneTime(now, timezone).value
  {
    if timezone == "browser" then localTime(now)
    else
      match zoneTime(now, timezone)
      case None => ""
      case Some(text) => text
  }
}
