/**
 * The string logic of `main` in Find_Me.c that turns each provider's
 * response into a sample: ip-api.com answers a CSV record (lines 94-112),
 * tools.keycdn.com a JSON object whose failure is not fatal (lines
 * 136-149), and ipinfo.io a JSON object whose "loc" holds both
 * coordinates (lines 179-193). Coordinates are kept as the text strtod()
 * would read.
 */
module Providers {
  import opened CStrings
  import opened Outcomes
  import opened Csv
  import opened Json
  import opened CsvRecord

  /** A coordinate of `struct location`: the 0.0 set at start-up, or the text read for it. */
  datatype Coordinate = Zero | Text(text: seq<char>)

  datatype Sample = Sample(latitude: Coordinate, longitude: Coordinate)

  /** What `main` stores for a provider before reading it (lines 58-59). */
  const Unset: Sample := Sample(Zero, Zero)

  const SUCCESS: seq<char> := "success"

  // ---------------------------------------------------------------- ip-api.com

  /**
   * `strncmp(csv_field, "success", 7) == 0`: the status starts with
   * "success". A shorter status differs at its terminator.
   */
  predicate StatusAccepted(status: seq<char>) {
    |status| >= |SUCCESS| && status[..|SUCCESS|] == SUCCESS
  }

  /** The status check accepts exactly the statuses that extend "success". */
  lemma StatusAcceptedIff(status: seq<char>)
    ensures StatusAccepted(status) <==> exists tail :: status == SUCCESS + tail
  {
    if StatusAccepted(status) {
      assert status == SUCCESS + status[|SUCCESS|..];
    }
  }

  /**
   * `ip[strlen(ip) - 1] = '\0'`: the IP field without its last character,
   * the newline that ends the record.
   */
  function StripLast(ip: seq<char>): (r: seq<char>)
    requires |ip| >= 1
    ensures r + [ip[|ip| - 1]] == ip
  {
    ip[..|ip| - 1]
  }

  /**
   * The ip-api.com block runs without undefined behaviour: every fetch it
   * reaches is defined, and the IP it strips is not empty.
   */
  predicate IpApiDefined(csv: seq<char>) {
    && FetchDefined(1, csv)
    && (FetchResult(1, csv).Success? && StatusAccepted(FetchResult(1, csv).value) ==>
          && FetchDefined(8, csv)
          && (FetchResult(8, csv).Success? ==>
                && FetchDefined(9, csv)
                && (FetchResult(9, csv).Success? ==>
                      && FetchDefined(14, csv)
                      && (FetchResult(14, csv).Success? ==> |FetchResult(14, csv).value| >= 1))))
  }

  /**
   * What the ip-api.com block yields: the status in field 1, the latitude
   * and longitude in fields 8 and 9, and the IP in field 14.
   */
  function IpApiResult(csv: seq<char>): Result<(Sample, seq<char>)>
    requires IpApiDefined(csv)
  {
    var status :- FetchResult(1, csv);
    if !StatusAccepted(status) then Failure(FailedRequest(status))
    else
      var lat :- FetchResult(8, csv);
      var lon :- FetchResult(9, csv);
      var ip :- FetchResult(14, csv);
      Success((Sample(Text(lat), Text(lon)), StripLast(ip)))
  }

  /** Lines 94-112 of `main` on the ip-api.com response `csv`. */
  method IpApi(csv: seq<char>) returns (r: Result<(Sample, seq<char>)>)
    requires IpApiDefined(csv)
    ensures r == IpApiResult(csv)
  {
    var status :- Fetch(1, csv);
    if !StatusAccepted(status) {
      return Failure(FailedRequest(status));
    }
    var lat :- Fetch(8, csv);
    var lon :- Fetch(9, csv);
    var ip :- Fetch(14, csv);
    return Success((Sample(Text(lat), Text(lon)), StripLast(ip)));
  }

  /**
   * On a record written from well-formed fields, the ip-api.com block
   * accepts a status that starts with "success", then takes fields 8, 9
   * and 14, exiting at the first that is missing.
   */
  lemma IpApiOfRecord(fs: seq<Field>)
    requires WellFormed(fs) && (|fs| >= 14 ==> |fs[13].text| >= 1)
    ensures IpApiDefined(Render(fs))
    ensures IpApiResult(Render(fs)) ==
      if !StatusAccepted(fs[0].text) then Failure(FailedRequest(fs[0].text))
      else if |fs| < 8 then Failure(FieldNotFound(8))
      else if |fs| < 9 then Failure(FieldNotFound(9))
      else if |fs| < 14 then Failure(FieldNotFound(14))
      else Success((Sample(Text(fs[7].text), Text(fs[8].text)), StripLast(fs[13].text)))
  {
    RecordFetch(fs, 1);
    RecordFetch(fs, 8);
    RecordFetch(fs, 9);
    RecordFetch(fs, 14);
  }

  // ---------------------------------------------------------- tools.keycdn.com

  const STATUS: seq<char> := "status"
  const LATITUDE: seq<char> := "latitude"
  const LONGITUDE: seq<char> := "longitude"

  /**
   * The tools.keycdn.com block runs without undefined behaviour: every
   * parse it reaches is defined and every value fits the BUFSIZE buffer.
   */
  predicate KeyCdnDefined(json: seq<char>) {
    && ParseDefined(json, STATUS)
    && (QuotedValue(json, STATUS).Success? ==> |QuotedValue(json, STATUS).value| < BUFSIZE)
    && (QuotedValue(json, STATUS) == Success(SUCCESS) ==>
          && ExtractDefined(json, LATITUDE)
          && (NumberValue(json, LATITUDE).Success? ==>
                && |NumberValue(json, LATITUDE).value| < BUFSIZE
                && ExtractDefined(json, LONGITUDE)
                && (NumberValue(json, LONGITUDE).Success? ==> |NumberValue(json, LONGITUDE).value| < BUFSIZE)))
  }

  /**
   * What the tools.keycdn.com block yields: a status other than "success"
   * leaves the sample at (0, 0) and is not fatal; otherwise latitude and
   * longitude are read as numbers.
   */
  function KeyCdnResult(json: seq<char>): Result<Sample>
    requires KeyCdnDefined(json)
  {
    var status :- QuotedValue(json, STATUS);
    if status != SUCCESS then Success(Unset)
    else
      var lat :- NumberValue(json, LATITUDE);
      var lon :- NumberValue(json, LONGITUDE);
      Success(Sample(Text(lat), Text(lon)))
  }

  /** Lines 136-149 of `main` on the tools.keycdn.com response `json`. */
  method KeyCdn(json: seq<char>) returns (r: Result<Sample>)
    requires KeyCdnDefined(json)
    ensures r == KeyCdnResult(json)
  {
    var value := new char[BUFSIZE];
    var status :- Parse(json, STATUS, value);
    // strcmp(value, "success") == 0: `value` holds exactly `status`.
    if status != SUCCESS {
      return Success(Unset);
    }
    var lat :- ExtractValue(json, LATITUDE, value);
    var lon :- ExtractValue(json, LONGITUDE, value);
    return Success(Sample(Text(lat), Text(lon)));
  }

  /**
   * A tools.keycdn.com sample other than (0, 0) comes from a "success"
   * status, and both of its coordinates are numbers that start with a digit.
   */
  lemma KeyCdnSampleRead(json: seq<char>)
    requires KeyCdnDefined(json)
    ensures KeyCdnResult(json).Success? && KeyCdnResult(json).value != Unset ==>
      && QuotedValue(json, STATUS) == Success(SUCCESS)
      && KeyCdnResult(json).value.latitude == Text(NumberValue(json, LATITUDE).value)
      && KeyCdnResult(json).value.longitude == Text(NumberValue(json, LONGITUDE).value)
      && InClass(NumberValue(json, LATITUDE).value[0], Digit)
      && InClass(NumberValue(json, LONGITUDE).value[0], Digit)
  {
  }

  // ---------------------------------------------------------------- ipinfo.io

  const LOC: seq<char> := "loc"

  /**
   * The split of the "loc" value at its first comma into latitude and
   * longitude; a value without a comma is fatal.
   */
  function LocSplit(loc: seq<char>): Result<(seq<char>, seq<char>)> {
    var i := Seek(loc, 0, Char(','));
    if i == |loc| then Failure(UnableToParseLoc) else Success((loc[..i], loc[i + 1..]))
  }

  /** The split fails exactly when there is no comma. */
  lemma LocSplitFails(loc: seq<char>)
    ensures LocSplit(loc).Failure? <==> ',' !in loc
  {
    SeekMissing(loc, 0, Char(','));
  }

  /**
   * The split yields (lat, lon) exactly when the value is lat, a comma and
   * lon, and lat holds no comma.
   */
  lemma LocSplitIff(loc: seq<char>, lat: seq<char>, lon: seq<char>)
    ensures LocSplit(loc) == Success((lat, lon)) <==> loc == lat + [','] + lon && ',' !in lat
  {
    if loc == lat + [','] + lon && ',' !in lat {
      SeekIs(loc, 0, Char(','), |lat|);
      assert loc[..|lat|] == lat;
      assert loc[|lat| + 1..] == lon;
    }
    if LocSplit(loc) == Success((lat, lon)) {
      var i := Seek(loc, 0, Char(','));
      assert loc == loc[..i] + [','] + loc[i + 1..];
    }
  }

  /**
   * The comma search of lines 179-193 over the C string of `len`
   * characters in `value`: the comma is overwritten with the terminator,
   * which ends the latitude text; the longitude text follows it.
   */
  method SplitLoc(value: array<char>, len: nat) returns (r: Result<(seq<char>, seq<char>)>)
    requires len < value.Length && value[len] == NUL && CString(value[..len])
    modifies value
    ensures r == LocSplit(old(value[..len]))
    ensures r.Success? ==> value[..] == old(value[..])[|r.value.0| := NUL]
    ensures r.Failure? ==> value[..] == old(value[..])
  {
    ghost var loc := value[..len];
    var offset := 0;
    while value[offset] != ','
      invariant offset <= len && Seek(loc, offset, Char(',')) == Seek(loc, 0, Char(','))
      invariant value[..] == old(value[..])
      decreases len - offset
    {
      if value[offset] == NUL {
        return Failure(UnableToParseLoc);
      }
      offset := offset + 1;
    }
    assert offset < len && Seek(loc, 0, Char(',')) == offset;
    value[offset] := NUL;
    assert value[..offset] == loc[..offset] && value[offset + 1..len] == loc[offset + 1..];
    // The latitude ends at the new terminator, the longitude at the old one.
    return Success((value[..offset], value[offset + 1..len]));
  }

  /** The ipinfo.io block runs without undefined behaviour. */
  predicate IpInfoDefined(json: seq<char>) {
    ParseDefined(json, LOC) && (QuotedValue(json, LOC).Success? ==> |QuotedValue(json, LOC).value| < BUFSIZE)
  }

  /** What the ipinfo.io block yields: the two halves of the "loc" value. */
  function IpInfoResult(json: seq<char>): Result<Sample>
    requires IpInfoDefined(json)
  {
    var loc :- QuotedValue(json, LOC);
    var parts :- LocSplit(loc);
    Success(Sample(Text(parts.0), Text(parts.1)))
  }

  /** Lines 179-193 of `main` on the ipinfo.io response `json`. */
  method IpInfo(json: seq<char>) returns (r: Result<Sample>)
    requires IpInfoDefined(json)
    ensures r == IpInfoResult(json)
  {
    var value := new char[BUFSIZE];
    var loc :- Parse(json, LOC, value);
    var parts :- SplitLoc(value, |loc|);
    return Success(Sample(Text(parts.0), Text(parts.1)));
  }

  // ------------------------------------------------------------ the three reads

  /** The IP ip-api.com reports and the samples of the three providers, in order. */
  datatype Survey = Survey(ip: seq<char>, samples: seq<Sample>)

  /** The three blocks run without undefined behaviour, each one that is reached. */
  predicate SurveyDefined(csv: seq<char>, keyCdn: seq<char>, ipInfo: seq<char>) {
    && IpApiDefined(csv)
    && (IpApiResult(csv).Success? ==>
          KeyCdnDefined(keyCdn) && (KeyCdnResult(keyCdn).Success? ==> IpInfoDefined(ipInfo)))
  }

  /** What `main` reads from the three responses before it averages the samples. */
  function SurveyResult(csv: seq<char>, keyCdn: seq<char>, ipInfo: seq<char>): Result<Survey>
    requires SurveyDefined(csv, keyCdn, ipInfo)
  {
    var first :- IpApiResult(csv);
    var second :- KeyCdnResult(keyCdn);
    var third :- IpInfoResult(ipInfo);
    Success(Survey(first.1, [first.0, second, third]))
  }

  /** The three reads of `main`, with the responses libcurl delivered as parameters. */
  method ReadProviders(csv: seq<char>, keyCdn: seq<char>, ipInfo: seq<char>) returns (r: Result<Survey>)
    requires SurveyDefined(csv, keyCdn, ipInfo)
    ensures r == SurveyResult(csv, keyCdn, ipInfo)
  {
    var first :- IpApi(csv);
    var second :- KeyCdn(keyCdn);
    var third :- IpInfo(ipInfo);
    return Success(Survey(first.1, [first.0, second, third]));
  }

  /**
   * A tools.keycdn.com status other than "success" does not stop the
   * reads: the survey goes on to ipinfo.io with (0, 0) as the second sample.
   */
  lemma KeyCdnFailureNotFatal(csv: seq<char>, keyCdn: seq<char>, ipInfo: seq<char>)
    requires SurveyDefined(csv, keyCdn, ipInfo)
    requires IpApiResult(csv).Success? && IpInfoDefined(ipInfo) && IpInfoResult(ipInfo).Success?
    requires QuotedValue(keyCdn, STATUS).Success? && QuotedValue(keyCdn, STATUS).value != SUCCESS
    ensures SurveyResult(csv, keyCdn, ipInfo).Success?
    ensures SurveyResult(csv, keyCdn, ipInfo).value.samples[1] == Unset
  {
  }
}
