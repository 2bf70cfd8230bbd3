/** The record transformer and the batch loop of the `fetch` command:
    `processRecord` turns one row into an enriched record, and `runFetch`
    folds it over the rows in order, aborting on the first failure before
    anything is written. */
module FetchCmd {
  import opened Wrappers
  import opened GoTypes
  import Strconv
  import Strings
  import GeoIP
  import UserAgent
  import Fetch
  import Rtl

  /** The errors a row can end the run with. Go returns each of them
      unwrapped; the tag records which step produced it. */
  datatype Error =
    | ScanError(msg: string)
    | ParseError(num: Strconv.NumError)
    | LookupError(msg: string)
    | UserAgentError(msg: string)

  /** The collaborators the transformer calls: `net.ParseIP`, the opened
      geolocation database, and the outcome of loading the user-agent
      rules table. */
  datatype Services = Services(
    parseIP: string -> GeoIP.IP,
    db: GeoIP.Database,
    uaDefinitions: Result<UserAgent.Classifier, string>)

  /** The timestamp text with its first '.' removed. */
  function TimestampDigits(text: string): string {
    Strings.ReplaceFirst(text, '.', "")
  }

  /** Timestamp conversion: the digits are read as epoch milliseconds. */
  function ParseTimestamp(text: string): Result<Rtl.Instant, Strconv.NumError> {
    var epoch :- Strconv.ParseInt(TimestampDigits(text));
    Success(Rtl.UnixMilli(epoch))
  }

  function Numeric<T>(r: Result<T, Strconv.NumError>): Result<T, Error> {
    r.MapFailure((e: Strconv.NumError) => ParseError(e))
  }

  /** `processRecord`: timestamp, year, month and day are parsed, then the
      client address is enriched, then the user agent; the first failure
      ends the row. `ClientIPAddr` is never assigned and keeps Go's zero
      value. */
  function ProcessRecord(e: Fetch.Entry, svc: Services): Result<Rtl.Record, Error> {
    var timestamp :- Numeric(ParseTimestamp(e.timestamp));
    var year :- Numeric(Strconv.Atoi(e.year));
    var month :- Numeric(Strconv.Atoi(e.month));
    var day :- Numeric(Strconv.Atoi(e.day));
    var geodata :- GeoIP.Lookup(svc.db, svc.parseIP(e.clientIP)).MapFailure((m: string) => LookupError(m));
    var ua :- UserAgent.Parse(svc.uaDefinitions, e.userAgent).MapFailure((m: string) => UserAgentError(m));
    Success(Rtl.Record(
      timestamp := timestamp,
      clientIPAddr := "",
      status := e.status,
      bytes := e.bytes,
      httpMethod := e.httpMethod,
      protocol := e.protocol,
      host := e.host,
      uriStem := e.uriStem,
      edgeLocation := e.edgeLocation,
      edgeRequestID := e.edgeRequestID,
      hostHeader := e.hostHeader,
      timeTaken := e.timeTaken,
      protoVersion := e.protoVersion,
      ipVersion := e.ipVersion,
      referer := e.referer,
      cookie := e.cookie,
      uriQuery := e.uriQuery,
      edgeResponseResultType := e.edgeResponseResultType,
      sslProtocol := e.sslProtocol,
      sslCipher := e.sslCipher,
      edgeResultType := e.edgeResultType,
      contentType := e.contentType,
      contentLength := e.contentLength,
      edgeDetailedResultType := e.edgeDetailedResultType,
      country := e.country,
      cacheBehaviorPathPattern := e.cacheBehaviorPathPattern,
      year := year,
      month := month,
      day := day,
      clientIP := geodata,
      userAgent := ua))
  }

  // ---------------------------------------------------------------------
  // Properties of one row.

  /** Text that Go's base-10, 64-bit parsing accepts. */
  predicate Accepted(s: string) {
    Strconv.IsDecimal(s) && Strconv.InInt64(Strconv.DecimalValue(s))
  }

  /** A row becomes a record exactly when the dot-stripped timestamp and
      the three date columns are decimal int64 text (no calendar range
      check), the database answers for the parsed address, and the
      user-agent rules load; the record then carries those decimal values,
      the two enrichment results, and an empty `ClientIPAddr`. */
  lemma ProcessRecordSpec(e: Fetch.Entry, svc: Services)
    ensures var r := ProcessRecord(e, svc);
      && (r.Success? <==>
            && Accepted(TimestampDigits(e.timestamp))
            && Accepted(e.year) && Accepted(e.month) && Accepted(e.day)
            && svc.db(svc.parseIP(e.clientIP)).Success?
            && svc.uaDefinitions.Success?)
      && (r.Success? ==>
            && r.value.timestamp.ms == Strconv.DecimalValue(TimestampDigits(e.timestamp))
            && r.value.year == Strconv.DecimalValue(e.year)
            && r.value.month == Strconv.DecimalValue(e.month)
            && r.value.day == Strconv.DecimalValue(e.day)
            && r.value.clientIP == GeoIP.Lookup(svc.db, svc.parseIP(e.clientIP)).value
            && r.value.userAgent == UserAgent.Parse(svc.uaDefinitions, e.userAgent).value
            && r.value.clientIPAddr == "")
  {
    Strconv.ParseIntSpec(TimestampDigits(e.timestamp));
    Strconv.AtoiSpec(e.year);
    Strconv.AtoiSpec(e.month);
    Strconv.AtoiSpec(e.day);
  }

  /** Errors surface in a fixed order: timestamp, year, month, day,
      geolocation, user agent. The first failing step's error is the
      row's error. */
  lemma ProcessRecordErrorOrder(e: Fetch.Entry, svc: Services)
    ensures var r := ProcessRecord(e, svc);
      var ts, y, m, d := ParseTimestamp(e.timestamp), Strconv.Atoi(e.year), Strconv.Atoi(e.month), Strconv.Atoi(e.day);
      var geo := GeoIP.Lookup(svc.db, svc.parseIP(e.clientIP));
      var ua := UserAgent.Parse(svc.uaDefinitions, e.userAgent);
      && (ts.Failure? ==> r == Failure(ParseError(ts.error)))
      && (ts.Success? && y.Failure? ==> r == Failure(ParseError(y.error)))
      && (ts.Success? && y.Success? && m.Failure? ==> r == Failure(ParseError(m.error)))
      && (ts.Success? && y.Success? && m.Success? && d.Failure? ==> r == Failure(ParseError(d.error)))
      && (ts.Success? && y.Success? && m.Success? && d.Success? && geo.Failure? ==> r == Failure(LookupError(geo.error)))
      && (ts.Success? && y.Success? && m.Success? && d.Success? && geo.Success? && ua.Failure? ==> r == Failure(UserAgentError(ua.error)))
  {
  }

  /** A row whose timestamp or dates do not parse fails the same way
      whatever the collaborators would have answered: the enrichment steps
      are never consulted. */
  lemma ProcessRecordParsesBeforeEnriching(e: Fetch.Entry, svc1: Services, svc2: Services)
    requires !(Accepted(TimestampDigits(e.timestamp)) && Accepted(e.year) && Accepted(e.month) && Accepted(e.day))
    ensures ProcessRecord(e, svc1) == ProcessRecord(e, svc2)
    ensures ProcessRecord(e, svc1).Failure? && ProcessRecord(e, svc1).error.ParseError?
  {
    ProcessRecordSpec(e, svc1);
    Strconv.ParseIntSpec(TimestampDigits(e.timestamp));
    Strconv.AtoiSpec(e.year);
    Strconv.AtoiSpec(e.month);
    Strconv.AtoiSpec(e.day);
  }

  /** Rebuilds a row from its record and the five columns the record does
      not keep as text. */
  function EntryOf(r: Rtl.Record, timestamp: string, clientIP: string, year: string, month: string, day: string): Fetch.Entry {
    Fetch.Entry(
      timestamp := timestamp,
      clientIP := clientIP,
      status := r.status,
      bytes := r.bytes,
      httpMethod := r.httpMethod,
      protocol := r.protocol,
      host := r.host,
      uriStem := r.uriStem,
      edgeLocation := r.edgeLocation,
      edgeRequestID := r.edgeRequestID,
      hostHeader := r.hostHeader,
      timeTaken := r.timeTaken,
      protoVersion := r.protoVersion,
      ipVersion := r.ipVersion,
      userAgent := r.userAgent.raw,
      referer := r.referer,
      cookie := r.cookie,
      uriQuery := r.uriQuery,
      edgeResponseResultType := r.edgeResponseResultType,
      sslProtocol := r.sslProtocol,
      sslCipher := r.sslCipher,
      edgeResultType := r.edgeResultType,
      contentType := r.contentType,
      contentLength := r.contentLength,
      edgeDetailedResultType := r.edgeDetailedResultType,
      country := r.country,
      cacheBehaviorPathPattern := r.cacheBehaviorPathPattern,
      year := year,
      month := month,
      day := day)
  }

  /** Every other column is copied verbatim: a record, together with the
      timestamp, client-address and date texts, gives back its row exactly
      (the user-agent text survives as the parser record's `Raw`). */
  lemma ProcessRecordRestoresEntry(e: Fetch.Entry, svc: Services)
    requires ProcessRecord(e, svc).Success?
    ensures EntryOf(ProcessRecord(e, svc).value, e.timestamp, e.clientIP, e.year, e.month, e.day) == e
  {
  }

  // ---------------------------------------------------------------------
  // The timestamp convention.

  /** The timestamp is accepted exactly when its dot-stripped text is
      decimal int64 text, and then denotes that many milliseconds; every
      error names ParseInt and the dot-stripped text, and decimal text
      beyond the int64 range is a range error. */
  lemma ParseTimestampSpec(text: string)
    ensures var r := ParseTimestamp(text);
      && (r.Success? <==> Accepted(TimestampDigits(text)))
      && (r.Success? ==> r.value.ms == Strconv.DecimalValue(TimestampDigits(text)))
      && (r.Failure? ==> r.error.fn == Strconv.ParseIntFn && r.error.num == TimestampDigits(text))
      && (var digits := TimestampDigits(text);
          Strconv.IsDecimal(digits) && !Strconv.InInt64(Strconv.DecimalValue(digits)) ==> r.Failure? && r.error.err == Strconv.ErrRange)
  {
    Strconv.ParseIntSpec(TimestampDigits(text));
  }

  /** Stripping the point between seconds and fraction. */
  lemma StripPoint(secs: string, frac: string)
    requires '.' !in secs
    ensures TimestampDigits(secs + "." + frac) == secs + frac
  {
    var text := secs + "." + frac;
    var i := Strings.IndexOf(text, '.');
    assert text[|secs|] == '.';
    assert text[..|secs|] == secs;
    assert i == |secs|;
    assert text[..i] == secs;
    assert text[i + 1..] == frac;
  }

  /** Seconds, a point and a fraction of any width become the digits of
      both read as one number: the fraction is not padded or checked, so
      the result is epoch milliseconds only for a three-digit fraction. */
  lemma TimestampFraction(secs: string, frac: string)
    requires |secs| > 0 && Strconv.AllDigits(secs) && Strconv.AllDigits(frac)
    requires Strconv.DigitsValue(secs) * Strconv.Pow10(|frac|) + Strconv.DigitsValue(frac) <= MaxInt64
    ensures ParseTimestamp(secs + "." + frac)
      == Success(Rtl.UnixMilli(Strconv.DigitsValue(secs) * Strconv.Pow10(|frac|) + Strconv.DigitsValue(frac)))
  {
    assert '.' !in secs by {
      forall k | 0 <= k < |secs| ensures secs[k] != '.' {
        assert Strconv.IsDigit(secs[k]);
      }
    }
    StripPoint(secs, frac);
    var digits := secs + frac;
    Strconv.DigitsValueConcat(secs, frac);
    assert !Strconv.HasSign(digits) by { assert Strconv.IsDigit(digits[0]); }
    assert Strconv.Magnitude(digits) == digits;
    ParseTimestampSpec(secs + "." + frac);
  }

  /** The seconds of the examples below, read by the unsigned scan. */
  lemma ExampleSeconds()
    ensures Strconv.AllDigits("1645564800") && Strconv.DigitsValue("1645564800") == 1645564800
  {
    Strconv.ParseUintSpec("1645564800");
  }

  /** The fraction of the first example. */
  lemma ExampleFraction()
    ensures Strconv.AllDigits("123") && Strconv.DigitsValue("123") == 123
  {
    Strconv.ParseUintSpec("123");
  }

  /** "1645564800.123" is the instant 1645564800123 ms. */
  lemma TimestampExample(text: string)
    requires text == "1645564800.123"
    ensures ParseTimestamp(text) == Success(Rtl.UnixMilli(1645564800123))
  {
    ExampleSeconds();
    ExampleFraction();
    assert Strconv.Pow10(3) == 1000;
    TimestampFraction("1645564800", "123");
    assert "1645564800" + "." + "123" == text;
  }

  /** A one-digit fraction is not scaled: "1645564800.5" becomes
      16455648005 ms rather than 1645564800500. */
  lemma TimestampShortFraction(text: string)
    requires text == "1645564800.5"
    ensures ParseTimestamp(text) == Success(Rtl.UnixMilli(16455648005))
  {
    ExampleSeconds();
    Strconv.ParseUintSpec("5");
    assert Strconv.Pow10(1) == 10;
    TimestampFraction("1645564800", "5");
    assert "1645564800" + "." + "5" == text;
  }

  /** A timestamp without a point is read whole, as milliseconds. */
  lemma TimestampWithoutPoint(text: string)
    requires text == "1645564800"
    ensures ParseTimestamp(text) == Success(Rtl.UnixMilli(1645564800))
  {
    ExampleSeconds();
    assert TimestampDigits(text) == text;
    Strconv.ParseIntSpec(text);
  }

  /** Text with a point in it is never decimal. */
  lemma PointNotAccepted(digits: string, k: nat)
    requires k < |digits| && digits[k] == '.'
    ensures !Accepted(digits)
  {
  }

  /** Only the first point is removed, so text with two or more points
      still has one after stripping and is always rejected. */
  lemma TimestampTwoPoints(text: string)
    requires '.' in text
    requires '.' in text[Strings.IndexOf(text, '.') + 1..]
    ensures ParseTimestamp(text).Failure?
  {
    var i := Strings.IndexOf(text, '.');
    var digits := TimestampDigits(text);
    assert digits == text[..i] + text[i + 1..];
    var j :| 0 <= j < |text[i + 1..]| && text[i + 1..][j] == '.';
    assert digits[i + j] == '.';
    PointNotAccepted(digits, i + j);
    ParseTimestampSpec(text);
  }

  /** "1.2.3" becomes "12.3", a syntax error. */
  lemma TimestampInnerPoint(text: string)
    requires text == "1.2.3"
    ensures ParseTimestamp(text) == Failure(Strconv.NumError(Strconv.ParseIntFn, "12.3", Strconv.ErrSyntax))
  {
    assert TimestampDigits(text) == "12.3" by {
      assert Strings.IndexOf(text, '.') == 1;
      assert text[..1] == "1";
      assert text[2..] == "2.3";
    }
    Strconv.ParseIntSpec("12.3");
  }

  /** A timestamp of at most 19 characters with no point that is not
      decimal text (empty, or with a non-digit after the optional sign)
      is a syntax error on that text. */
  lemma TimestampNotNumeric(text: string)
    requires '.' !in text && |text| <= 19 && !Strconv.IsDecimal(text)
    ensures ParseTimestamp(text) == Failure(Strconv.NumError(Strconv.ParseIntFn, text, Strconv.ErrSyntax))
  {
    Strconv.ParseIntSpec(text);
  }

  /** The date columns are parsed on their own with no calendar check:
      month "13" is accepted, "" and "Feb" are not. */
  lemma DateExamples()
    ensures Strconv.Atoi("13") == Success(13)
    ensures Strconv.Atoi("").Failure?
    ensures Strconv.Atoi("Feb").Failure?
  {
  }

  // ---------------------------------------------------------------------
  // The batch.

  /** One iteration of the loop: the row scan, then `processRecord`. */
  function ProcessRow(row: Result<Fetch.Entry, string>, svc: Services): Result<Rtl.Record, Error> {
    match row
    case Failure(msg) => Failure(ScanError(msg))
    case Success(e) => ProcessRecord(e, svc)
  }

  /** Item `i` is the first one whose step fails. */
  predicate FirstFailure<A, B, E>(xs: seq<A>, step: A -> Result<B, E>, i: int) {
    && 0 <= i < |xs|
    && step(xs[i]).Failure?
    && forall j :: 0 <= j < i ==> step(xs[j]).Success?
  }

  /** The fail-fast fold: one result per item, in item order, or the error
      of the first item whose step fails. */
  function Collect<A, B, E>(xs: seq<A>, step: A -> Result<B, E>): (r: Result<seq<B>, E>)
    ensures r.Success? <==> forall i :: 0 <= i < |xs| ==> step(xs[i]).Success?
    ensures r.Success? ==> |r.value| == |xs|
    ensures r.Success? ==> forall i :: 0 <= i < |xs| ==> r.value[i] == step(xs[i]).value
    ensures r.Failure? ==> exists i :: FirstFailure(xs, step, i) && r.error == step(xs[i]).error
  {
    if |xs| == 0 then Success([])
    else
      var head :- step(xs[0]);
      var tail := Collect(xs[1..], step);
      if tail.Failure? then
        assert exists i :: FirstFailure(xs, step, i) && tail.error == step(xs[i]).error by {
          var i :| FirstFailure(xs[1..], step, i) && tail.error == step(xs[1..][i]).error;
          assert FirstFailure(xs, step, i + 1);
        }
        Failure(tail.error)
      else
        Success([head] + tail.value)
  }

  /** The batch `runFetch` builds from the rows. */
  function Batch(rows: seq<Result<Fetch.Entry, string>>, svc: Services): Result<seq<Rtl.Record>, Error> {
    Collect(rows, (row: Result<Fetch.Entry, string>) => ProcessRow(row, svc))
  }

  /** The row loop of `runFetch`, with `process` standing for `ProcessRow`
      under the run's collaborators. A success is the batch that is handed
      to `writeData`; a failure returns at once and `writeData` is never
      reached. */
  method RunFetch<A, B, E>(rows: seq<A>, process: A -> Result<B, E>) returns (r: Result<seq<B>, E>)
    ensures r.Success? <==> forall i :: 0 <= i < |rows| ==> process(rows[i]).Success?
    ensures r.Success? ==> |r.value| == |rows|
    ensures r.Success? ==> forall i :: 0 <= i < |rows| ==> r.value[i] == process(rows[i]).value
    ensures r.Failure? ==> exists i :: FirstFailure(rows, process, i) && r.error == process(rows[i]).error
  {
    var records: seq<B> := [];
    var i := 0;
    while i < |rows|
      invariant 0 <= i <= |rows|
      invariant |records| == i
      invariant forall j :: 0 <= j < i ==> process(rows[j]).Success? && records[j] == process(rows[j]).value
    {
      var record := process(rows[i]);
      if record.Failure? {
        assert FirstFailure(rows, process, i);
        return Failure(record.error);
      }
      records := records + [record.value];
      i := i + 1;
    }
    return Success(records);
  }

  /** Items after the first failing one are never processed: appending
      items to a failing prefix changes nothing. */
  lemma {:induction false} CollectStopsAtFailure<A, B, E>(xs: seq<A>, more: seq<A>, step: A -> Result<B, E>)
    requires Collect(xs, step).Failure?
    ensures Collect(xs + more, step) == Collect(xs, step)
  {
    assert |xs| > 0;
    assert (xs + more)[0] == xs[0];
    if step(xs[0]).Success? {
      assert (xs + more)[1..] == xs[1..] + more;
      CollectStopsAtFailure(xs[1..], more, step);
    }
  }

  /** The fold distributes over concatenation of its input. */
  lemma CollectAppend<A, B, E>(xs: seq<A>, more: seq<A>, step: A -> Result<B, E>)
    requires Collect(xs, step).Success?
    ensures Collect(xs + more, step).Success? <==> Collect(more, step).Success?
    ensures Collect(xs + more, step).Success? ==> Collect(xs + more, step).value == Collect(xs, step).value + Collect(more, step).value
  {
    var ys := xs + more;
    var front, whole, rest := Collect(xs, step), Collect(ys, step), Collect(more, step);
    if rest.Success? {
      forall i | 0 <= i < |ys| ensures step(ys[i]).Success? {
        if i >= |xs| {
          assert ys[i] == more[i - |xs|];
        }
      }
      assert whole.value == front.value + rest.value;
    } else {
      var i :| 0 <= i < |more| && step(more[i]).Failure?;
      assert ys[|xs| + i] == more[i];
    }
  }

  /** No record of a batch has `ClientIPAddr` set. */
  lemma BatchClientIPAddrEmpty(rows: seq<Result<Fetch.Entry, string>>, svc: Services)
    requires Batch(rows, svc).Success?
    ensures forall i :: 0 <= i < |rows| ==> Batch(rows, svc).value[i].clientIPAddr == ""
  {
    forall i | 0 <= i < |rows|
      ensures Batch(rows, svc).value[i].clientIPAddr == ""
    {
      ProcessRecordSpec(rows[i].value, svc);
    }
  }
}
