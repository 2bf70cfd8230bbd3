/** The geolocation service: the configuration constructor and `Lookup`,
    which decodes the database's answer for an address into a zero-valued
    `Record` and projects it into `GeoIPData`. The MaxMind reader itself is
    an uninterpreted function from an address to an error or to the part of
    the record the database holds for it. */
module GeoIP {
  import opened Wrappers
  import opened GoTypes
  import Strings

  /** `net.IP`: the address bytes; the nil IP has none. */
  datatype IP = IP(bytes: seq<uint8>)

  const NilIP: IP := IP([])

  datatype Subdivision = Subdivision(isoCode: string)

  datatype Location = Location(
    accuracyRadius: uint16,
    latitude: Float64,
    longitude: Float64,
    metroCode: uint64,
    timeZone: string)

  /** `geoip.Record`, the decode target. */
  datatype Record = Record(
    cityNames: map<string, string>,
    continentCode: string,
    countryIsoCode: string,
    location: Location,
    postalCode: string,
    subdivisions: seq<Subdivision>)

  /** Go's zero value of `Record`, which `Lookup` decodes into. */
  const ZeroRecord: Record :=
    Record(map[], "", "", Location(0, ZeroFloat64, ZeroFloat64, 0, ""), "", [])

  /** The fields the database holds for one address; `None` marks a field
      it does not hold (a subdivision entry may lack its code). */
  datatype Answer = Answer(
    cityNames: Option<map<string, string>>,
    continentCode: Option<string>,
    countryIsoCode: Option<string>,
    accuracyRadius: Option<uint16>,
    latitude: Option<Float64>,
    longitude: Option<Float64>,
    metroCode: Option<uint64>,
    timeZone: Option<string>,
    postalCode: Option<string>,
    subdivisions: Option<seq<Option<string>>>)

  /** The answer for an address the database does not contain: the reader
      reports no error and writes nothing. */
  const NotFound: Answer := Answer(None, None, None, None, None, None, None, None, None, None)

  /** The MaxMind reader's lookup. */
  type Database = IP -> Result<Answer, string>

  function SubdivisionsOf(a: Option<seq<Option<string>>>): seq<Subdivision> {
    match a
    case None => []
    case Some(codes) => seq(|codes|, k requires 0 <= k < |codes| => Subdivision(codes[k].GetOr("")))
  }

  /** Decoding an answer into the zero-valued target: each field the answer
      holds is written, every other field keeps its zero value. */
  function Decode(a: Answer): (r: Record)
    ensures a == NotFound ==> r == ZeroRecord
  {
    Record(
      a.cityNames.GetOr(map[]),
      a.continentCode.GetOr(""),
      a.countryIsoCode.GetOr(""),
      Location(
        a.accuracyRadius.GetOr(0),
        a.latitude.GetOr(ZeroFloat64),
        a.longitude.GetOr(ZeroFloat64),
        a.metroCode.GetOr(0),
        a.timeZone.GetOr("")),
      a.postalCode.GetOr(""),
      SubdivisionsOf(a.subdivisions))
  }

  /** `GeoIPData`, the projection stored in every enriched record. */
  datatype GeoIPData = GeoIPData(
    ip: IP,
    city: string,
    continent: string,
    country: string,
    latitude: Float64,
    longitude: Float64,
    metroCode: uint64,
    timeZone: string,
    postalCode: string,
    subdivision: string)

  const SubdivisionSeparator: char := ';'

  /** The subdivision ISO codes, collected in the record's order. */
  function SubdivisionCodes(subs: seq<Subdivision>): (codes: seq<string>)
    ensures |codes| == |subs|
    ensures forall k :: 0 <= k < |subs| ==> codes[k] == subs[k].isoCode
  {
    if |subs| == 0 then []
    else SubdivisionCodes(subs[..|subs| - 1]) + [subs[|subs| - 1].isoCode]
  }

  /** Go's `m[k]` on a string map: the zero value for a missing key. */
  function MapGet(m: map<string, string>, k: string): string {
    if k in m then m[k] else ""
  }

  /** `Config.Lookup(ip)`. */
  function Lookup(db: Database, ip: IP): (r: Result<GeoIPData, string>)
    ensures r.Failure? <==> db(ip).Failure?
    ensures r.Failure? ==> r.error == db(ip).error
    ensures r.Success? ==> r.value.ip == ip
  {
    var answer :- db(ip);
    var data := Decode(answer);
    var subdivs := SubdivisionCodes(data.subdivisions);
    Success(GeoIPData(
      ip := ip,
      city := MapGet(data.cityNames, "en"),
      continent := data.continentCode,
      country := data.countryIsoCode,
      latitude := data.location.latitude,
      longitude := data.location.longitude,
      metroCode := data.location.metroCode,
      timeZone := data.location.timeZone,
      postalCode := data.postalCode,
      subdivision := Strings.Join(subdivs, SubdivisionSeparator)))
  }

  /** What a successful lookup reports, field by field, in terms of the
      database's answer: the English city name or "" without one, the
      scalar fields the answer holds or their zero values, and the
      joined subdivision field "" when the answer lists no subdivisions. */
  lemma LookupFields(db: Database, ip: IP)
    requires db(ip).Success?
    ensures var a, g := db(ip).value, Lookup(db, ip).value;
      && (a.cityNames.Some? && "en" in a.cityNames.value ==> g.city == a.cityNames.value["en"])
      && (!(a.cityNames.Some? && "en" in a.cityNames.value) ==> g.city == "")
      && g.continent == a.continentCode.GetOr("")
      && g.country == a.countryIsoCode.GetOr("")
      && g.latitude == a.latitude.GetOr(ZeroFloat64)
      && g.longitude == a.longitude.GetOr(ZeroFloat64)
      && g.metroCode == a.metroCode.GetOr(0)
      && g.timeZone == a.timeZone.GetOr("")
      && g.postalCode == a.postalCode.GetOr("")
      && (a.subdivisions.None? || a.subdivisions.value == [] ==> g.subdivision == "")
  {
  }

  /** An address the database does not contain is not an error: the
      lookup succeeds with every field empty or zero, including the joined
      subdivision codes, and only the address filled in. */
  lemma LookupNotFound(db: Database, ip: IP)
    requires db(ip) == Success(NotFound)
    ensures Lookup(db, ip) == Success(GeoIPData(ip, "", "", "", ZeroFloat64, ZeroFloat64, 0, "", "", ""))
  {
  }

  /** The joined subdivision field can be split back on ';' into exactly
      the codes the database listed, in order ("" for an entry without a
      code), whenever it listed at least one and none contains ';'. */
  lemma LookupSubdivisionsRoundTrip(db: Database, ip: IP)
    requires db(ip).Success? && db(ip).value.subdivisions.Some?
    requires var codes := db(ip).value.subdivisions.value;
      && |codes| >= 1
      && forall k :: 0 <= k < |codes| ==> SubdivisionSeparator !in codes[k].GetOr("")
    ensures var codes := db(ip).value.subdivisions.value;
      var pieces := Strings.Split(Lookup(db, ip).value.subdivision, SubdivisionSeparator);
      && |pieces| == |codes|
      && forall k :: 0 <= k < |codes| ==> pieces[k] == codes[k].GetOr("")
  {
    var codes := db(ip).value.subdivisions.value;
    var subdivs := SubdivisionCodes(Decode(db(ip).value).subdivisions);
    assert forall k :: 0 <= k < |codes| ==> subdivs[k] == codes[k].GetOr("");
    Strings.SplitJoin(subdivs, SubdivisionSeparator);
  }

  // ---------------------------------------------------------------------
  // Construction.

  /** The only option the constructor takes, `SetGeoDB(path)`. */
  datatype ConfigOption = SetGeoDB(path: string)

  /** The database path after applying the options in order. */
  function ApplyOptions(opts: seq<ConfigOption>, geodb: string): string {
    if |opts| == 0 then geodb else ApplyOptions(opts[1..], opts[0].path)
  }

  /** Every option overwrites the path, so the last one wins and no option
      leaves it empty. */
  lemma {:induction false} ApplyOptionsLastWins(opts: seq<ConfigOption>, geodb: string)
    ensures |opts| == 0 ==> ApplyOptions(opts, geodb) == geodb
    ensures |opts| > 0 ==> ApplyOptions(opts, geodb) == opts[|opts| - 1].path
  {
    if |opts| > 0 {
      ApplyOptionsLastWins(opts[1..], opts[0].path);
    }
  }

  datatype Config = Config(geodb: string, db: Database)

  /** The constructor's three outcomes: a configuration, a returned error,
      or a process exit through `log.Fatal` when the open fails. */
  datatype NewOutcome = Opened(config: Config) | Rejected(err: string) | Fatal(err: string)

  const GeoDBRequired: string := "geodb is required"

  /** `New(opts...)`; `open` is `maxminddb.Open`. An empty path is rejected
      before any open is attempted, so that outcome cannot depend on
      `open`. */
  function New(opts: seq<ConfigOption>, open: string -> Result<Database, string>): (r: NewOutcome)
    ensures ApplyOptions(opts, "") == "" <==> r.Rejected?
    ensures r.Rejected? ==> r.err == GeoDBRequired
    ensures r.Opened? ==> r.config.geodb == ApplyOptions(opts, "") && open(r.config.geodb) == Success(r.config.db)
    ensures r.Fatal? ==> open(ApplyOptions(opts, "")) == Failure(r.err)
  {
    var geodb := ApplyOptions(opts, "");
    if geodb == "" then Rejected(GeoDBRequired)
    else
      match open(geodb)
      case Failure(e) => Fatal(e)
      case Success(db) => Opened(Config(geodb, db))
  }

  /** No options, or a last option with an empty path, is rejected whatever
      the open would have done. */
  lemma NewEmptyPath(opts: seq<ConfigOption>, open1: string -> Result<Database, string>, open2: string -> Result<Database, string>)
    requires |opts| == 0 || opts[|opts| - 1].path == ""
    ensures New(opts, open1) == New(opts, open2) == Rejected(GeoDBRequired)
  {
    ApplyOptionsLastWins(opts, "");
  }
}
