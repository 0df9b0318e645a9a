/**
 * What the handler promises, stated over the pipeline function `Handle` and
 * its parts: the order of the request checks, the statuses and messages they
 * produce, the forecast horizon, the propagation of provider failures, and
 * which forecast day the report describes.
 */
module WeatherHandlerProperties {
  import opened Wrappers
  import opened JsonValues
  import opened Dates
  import opened DateFormat
  import opened WeatherHandler

  /** The required fields, in the order the handler looks them up. */
  const REQUIRED_FIELDS: seq<string> := ["token", "requester_name", "city", "date"]

  /** A refusal names a check the request fails, and it passes every earlier one. */
  lemma RefusalIsViolation(fields: map<string, Json>, secret: string)
    ensures var v := Validate(JObject(fields), secret);
      v.Refused? ==>
        && Violates(fields, secret, v.why)
        && forall earlier: Rejection :: earlier.Rank() < v.why.Rank() ==> !Violates(fields, secret, earlier)
  {
    var v := Validate(JObject(fields), secret);
    if v.Refused? {
      forall earlier: Rejection | earlier.Rank() < v.why.Rank()
        ensures !Violates(fields, secret, earlier)
      {
        match earlier
        case TokenMissing =>
        case WrongToken =>
        case RequesterNameMissing =>
        case CityMissing =>
        case DateMissing =>
        case DateInvalid =>
      }
    }
  }

  /** A request failing a check is refused, for that check or an earlier one. */
  lemma ViolationIsRefused(fields: map<string, Json>, secret: string, check: Rejection)
    requires Violates(fields, secret, check)
    ensures var v := Validate(JObject(fields), secret);
      v.Refused? && v.why.Rank() <= check.Rank()
  {
  }

  /**
   * A request is refused for a check exactly when it fails that check and
   * passes every check made before it: the first failing check decides.
   */
  lemma FirstViolationWins(fields: map<string, Json>, secret: string, check: Rejection)
    ensures Validate(JObject(fields), secret) == Refused(check) <==>
      && Violates(fields, secret, check)
      && forall earlier: Rejection :: earlier.Rank() < check.Rank() ==> !Violates(fields, secret, earlier)
  {
    var v := Validate(JObject(fields), secret);
    RefusalIsViolation(fields, secret);
    if v != Refused(check) && Violates(fields, secret, check) {
      ViolationIsRefused(fields, secret, check);
      assert v.why.Rank() != check.Rank();
    }
  }

  /**
   * A request is accepted exactly when its token is the configured secret,
   * requester_name and city are anything but null, and date is a string
   * strptime accepts. Only a null or absent value counts as missing: "",
   * 0 and false are present.
   */
  lemma AcceptedExactly(fields: map<string, Json>, secret: string)
    ensures Validate(JObject(fields), secret).Accepted? <==>
      && Lookup(fields, "token") == JString(secret)
      && Lookup(fields, "requester_name") != JNull
      && Lookup(fields, "city") != JNull
      && Lookup(fields, "date").JString?
      && IsValidDateFormat(Lookup(fields, "date").s)
  {
  }

  /** A token that is present but not the secret gives 403 "wrong API token", whatever else the request holds. */
  lemma WrongTokenIs403(request: Json, config: Config, today: Date, fetch: Fetch, timestamp: string)
    requires IsCalendarDate(today)
    requires request.JObject?
    requires Lookup(request.fields, "token") != JNull
    requires Lookup(request.fields, "token") != JString(config.apiToken)
    ensures var r := Handle(request, config, today, fetch, timestamp);
      && r == Failed(Rejected(WrongToken))
      && r.failure.Status() == 403
      && r.failure.Message() == "wrong API token"
  {
  }

  /**
   * The first required field that is missing, once the token has been
   * accepted, gives 400 with a message naming that field.
   */
  lemma MissingFieldIs400(request: Json, config: Config, today: Date, fetch: Fetch, timestamp: string, k: nat)
    requires IsCalendarDate(today)
    requires request.JObject? && k < |REQUIRED_FIELDS|
    requires Lookup(request.fields, REQUIRED_FIELDS[k]) == JNull
    requires k > 0 ==> Lookup(request.fields, "token") == JString(config.apiToken)
    requires forall j :: 0 <= j < k ==> Lookup(request.fields, REQUIRED_FIELDS[j]) != JNull
    ensures var r := Handle(request, config, today, fetch, timestamp);
      && r.Failed?
      && r.failure.Status() == 400
      && r.failure.Message() == REQUIRED_FIELDS[k] + " is required"
  {
    var fields := request.fields;
    var v := Validate(request, config.apiToken);
    if k == 0 {
      assert v == Refused(TokenMissing);
      assert "token" + " is required" == "token is required";
    } else if k == 1 {
      assert Lookup(fields, REQUIRED_FIELDS[0]) != JNull;
      assert v == Refused(RequesterNameMissing);
      assert "requester_name" + " is required" == "requester_name is required";
    } else if k == 2 {
      assert Lookup(fields, REQUIRED_FIELDS[1]) != JNull;
      assert v == Refused(CityMissing);
      assert "city" + " is required" == "city is required";
    } else {
      assert Lookup(fields, REQUIRED_FIELDS[1]) != JNull && Lookup(fields, REQUIRED_FIELDS[2]) != JNull;
      assert v == Refused(DateMissing);
      assert "date" + " is required" == "date is required";
    }
  }

  /** A present date string that strptime refuses gives 400 "Date format is invalid" once the other checks pass. */
  lemma InvalidDateIs400(request: Json, config: Config, today: Date, fetch: Fetch, timestamp: string)
    requires IsCalendarDate(today)
    requires request.JObject?
    requires Lookup(request.fields, "token") == JString(config.apiToken)
    requires Lookup(request.fields, "requester_name") != JNull && Lookup(request.fields, "city") != JNull
    requires Lookup(request.fields, "date").JString? && !IsValidDateFormat(Lookup(request.fields, "date").s)
    ensures var r := Handle(request, config, today, fetch, timestamp);
      r.Failed? && r.failure.Status() == 400 && r.failure.Message() == "Date format is invalid"
  {
  }

  /** strptime's groups admit spellings other than the zero-padded one, and refuse non-dates. */
  lemma DateSpellings()
    ensures ParseDate("2024-06-01") == Some(Date(2024, 6, 1))
    ensures ParseDate("2024-6-1") == Some(Date(2024, 6, 1))
    ensures ParseDate("2024-06- 1") == Some(Date(2024, 6, 1))
    ensures !IsValidDateFormat("2024-13-40")
    ensures !IsValidDateFormat("2023-02-29")
    ensures !IsValidDateFormat("0000-01-01")
    ensures !IsValidDateFormat("notadate")
    ensures !IsValidDateFormat("2024-06-01 ")
  {
    assert "2024-06-01"[..4] == "2024" && "2024-06-01"[5..7] == "06" && "2024-06-01"[8..] == "01";
    assert "2024-6-1"[..4] == "2024" && "2024-6-1"[5..6] == "6" && "2024-6-1"[7..] == "1";
    assert "2024-06- 1"[..4] == "2024" && "2024-06- 1"[5..7] == "06" && "2024-06- 1"[8..] == " 1";
    assert "2024-13-40"[5..7] == "13";
    assert "2023-02-29"[..4] == "2023" && "2023-02-29"[5..7] == "02" && "2023-02-29"[8..] == "29";
    assert "0000-01-01"[..4] == "0000" && "0000-01-01"[5..7] == "01" && "0000-01-01"[8..] == "01";
    assert "2024-06-01 "[5..7] == "06" && "2024-06-01 "[8..] == "01 ";
  }

  /** A date n days ahead of today (n at least 1) asks the provider for exactly n days. */
  lemma HorizonOfFutureDate(today: Date, n: nat)
    requires IsCalendarDate(today) && n >= 1
    ensures Horizon(AddDays(today, n), today) == n
  {
    AddDaysOrdinal(today, n);
  }

  /** Today or a past date asks the provider for exactly 1 day. */
  lemma HorizonOfTodayOrPast(given: Date, today: Date)
    requires IsCalendarDate(given) && IsCalendarDate(today)
    requires !Before(today, given)
    ensures Horizon(given, today) == 1
  {
    OrdinalOrder(today, given);
  }

  /** The handler asks the provider one thing only: the configured key, the city, and the horizon. */
  lemma OneUpstreamQuery(request: Json, config: Config, today: Date, fetchA: Fetch, fetchB: Fetch, timestamp: string)
    requires IsCalendarDate(today)
    requires var v := Validate(request, config.apiToken);
      v.Accepted? ==> fetchA(config.apiKey, v.city, Horizon(v.given, today)) == fetchB(config.apiKey, v.city, Horizon(v.given, today))
    ensures Handle(request, config, today, fetchA, timestamp) == Handle(request, config, today, fetchB, timestamp)
  {
  }

  /**
   * An accepted request is served, and nothing after validation looks at the
   * request again: two requests accepted with the same requester name, city,
   * date string and date get the same response.
   */
  lemma AcceptedRequestIsServed(requestA: Json, requestB: Json, config: Config, today: Date, fetch: Fetch, timestamp: string)
    requires IsCalendarDate(today)
    requires Validate(requestA, config.apiToken).Accepted?
    requires Validate(requestB, config.apiToken) == Validate(requestA, config.apiToken)
    ensures var v := Validate(requestA, config.apiToken);
      Handle(requestA, config, today, fetch, timestamp)
        == Serve(v.requesterName, v.city, v.date, v.given, config, today, fetch, timestamp)
    ensures Handle(requestA, config, today, fetch, timestamp) == Handle(requestB, config, today, fetch, timestamp)
  {
  }

  /** A non-200 provider response is raised with the provider's status and raw body. */
  lemma UpstreamFailurePropagates(requesterName: Json, city: Json, date: string, given: Date,
                                  config: Config, today: Date, fetch: Fetch, timestamp: string)
    requires IsCalendarDate(given) && IsCalendarDate(today)
    requires fetch(config.apiKey, city, Horizon(given, today)).status != STATUS_OK
    ensures var response := fetch(config.apiKey, city, Horizon(given, today));
      var r := Serve(requesterName, city, date, given, config, today, fetch, timestamp);
      && r.Failed?
      && r.failure.Status() == response.status
      && r.failure.Message() == response.text
  {
  }

  /**
   * When the provider's list holds a day dated exactly as requested, the
   * report describes the first such day.
   */
  lemma ReportFromFirstMatchingDay(requesterName: Json, city: Json, date: string, given: Date,
                                   config: Config, today: Date, fetch: Fetch, timestamp: string, i: int)
    requires IsCalendarDate(given) && IsCalendarDate(today)
    requires var response := fetch(config.apiKey, city, Horizon(given, today));
      && response.status == STATUS_OK
      && 0 <= i < |response.forecastDays|
      && response.forecastDays[i].date == date
      && forall j :: 0 <= j < i ==> response.forecastDays[j].date != date
    ensures var days := fetch(config.apiKey, city, Horizon(given, today)).forecastDays;
      Serve(requesterName, city, date, given, config, today, fetch, timestamp)
        == Report(BuildReport(requesterName, timestamp, city, days[i]))
  {
    FirstMatchSelected(fetch(config.apiKey, city, Horizon(given, today)).forecastDays, date, i);
  }

  /** When no day is dated as requested, the report silently describes the last day of the list. */
  lemma ReportFromLastDayWithoutMatch(requesterName: Json, city: Json, date: string, given: Date,
                                      config: Config, today: Date, fetch: Fetch, timestamp: string)
    requires IsCalendarDate(given) && IsCalendarDate(today)
    requires var response := fetch(config.apiKey, city, Horizon(given, today));
      && response.status == STATUS_OK
      && response.forecastDays != []
      && forall j :: 0 <= j < |response.forecastDays| ==> response.forecastDays[j].date != date
    ensures var days := fetch(config.apiKey, city, Horizon(given, today)).forecastDays;
      Serve(requesterName, city, date, given, config, today, fetch, timestamp)
        == Report(BuildReport(requesterName, timestamp, city, days[|days| - 1]))
  {
    LastDayWhenNoMatch(fetch(config.apiKey, city, Horizon(given, today)).forecastDays, date);
  }

  /** An empty day list from a successful provider call ends in the KeyError, not in a report. */
  lemma EmptyForecastCrashes(requesterName: Json, city: Json, date: string, given: Date,
                             config: Config, today: Date, fetch: Fetch, timestamp: string)
    requires IsCalendarDate(given) && IsCalendarDate(today)
    requires var response := fetch(config.apiKey, city, Horizon(given, today));
      response.status == STATUS_OK && response.forecastDays == []
    ensures Serve(requesterName, city, date, given, config, today, fetch, timestamp) == Crashed(NoForecastDay)
  {
  }

  /**
   * The provider's documented answer to a horizon of n days: n records, one
   * per day starting today, each dated in zero-padded ISO form.
   */
  ghost predicate ListsDaysFrom(days: seq<ForecastDay>, today: Date, n: int)
    requires IsCalendarDate(today)
  {
    && |days| == n
    && forall k :: 0 <= k < |days| ==> AddDays(today, k).year <= 9999 && days[k].date == IsoFormat(AddDays(today, k))
  }

  /**
   * For a date in the future, a list of (date - today) days starting today
   * never holds the requested date, however it is spelt.
   */
  lemma FutureDateNeverListed(days: seq<ForecastDay>, today: Date, date: string, given: Date)
    requires IsCalendarDate(today) && ParseDate(date) == Some(given) && Before(today, given)
    requires ListsDaysFrom(days, today, Horizon(given, today))
    ensures forall k :: 0 <= k < |days| ==> days[k].date != date
  {
    forall k | 0 <= k < |days|
      ensures days[k].date != date
    {
      if days[k].date == date {
        IsoFormatParsesBack(AddDays(today, k));
        AddDaysOrdinal(today, k);
        assert false;
      }
    }
  }

  /** The last day of such a list is the day before the requested date. */
  lemma LastListedIsDayBefore(today: Date, given: Date)
    requires IsCalendarDate(today) && IsCalendarDate(given) && Before(today, given)
    ensures NextDay(AddDays(today, Horizon(given, today) - 1)) == given
  {
    var last := AddDays(today, Horizon(given, today) - 1);
    AddDaysOrdinal(today, Horizon(given, today) - 1);
    NextDayOrdinal(last);
    OrdinalOrder(NextDay(last), given);
  }

  /**
   * For a date in the future, the horizon of (date - today) days makes the
   * provider list today .. date - 1, so the requested day is never in the
   * list and the report describes the day before it.
   */
  lemma FutureDateReportsDayBefore(requesterName: Json, city: Json, date: string, given: Date,
                                   config: Config, today: Date, fetch: Fetch, timestamp: string)
    requires IsCalendarDate(today) && ParseDate(date) == Some(given) && Before(today, given)
    requires var response := fetch(config.apiKey, city, Horizon(given, today));
      response.status == STATUS_OK && ListsDaysFrom(response.forecastDays, today, Horizon(given, today))
    ensures var h := Horizon(given, today);
      var days := fetch(config.apiKey, city, h).forecastDays;
      && |days| == h
      && Serve(requesterName, city, date, given, config, today, fetch, timestamp)
           == Report(BuildReport(requesterName, timestamp, city, days[|days| - 1]))
      && NextDay(AddDays(today, h - 1)) == given
  {
    var days := fetch(config.apiKey, city, Horizon(given, today)).forecastDays;
    assert |days| == Horizon(given, today);
    FutureDateNeverListed(days, today, date, given);
    ReportFromLastDayWithoutMatch(requesterName, city, date, given, config, today, fetch, timestamp);
    LastListedIsDayBefore(today, given);
  }

  /**
   * With the intended horizon, a provider that lists that many days from
   * today lists the requested date (for today or a later date), and the
   * day selection picks exactly that record.
   */
  lemma IntendedHorizonListsDate(days: seq<ForecastDay>, today: Date, date: string, given: Date)
    requires IsCalendarDate(today) && IsCalendarDate(given) && given.year <= 9999 && !Before(given, today)
    requires date == IsoFormat(given)
    requires ListsDaysFrom(days, today, IntendedHorizon(given, today))
    ensures var k := Ordinal(given) - Ordinal(today);
      && 0 <= k < |days|
      && days[k].date == date
      && Selection(days, date) == Some(days[k])
  {
    var k := Ordinal(given) - Ordinal(today);
    AddDaysUnique(today, k, given);
    forall j | 0 <= j < k
      ensures days[j].date != date
    {
      AddDaysOrdinal(today, j);
      IsoFormatInjective(AddDays(today, j), given);
    }
    FirstMatchSelected(days, date, k);
  }
}
