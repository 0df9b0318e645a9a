/**
 * `weather_endpoint` and `get_weather` (main.py) with HTTP, JSON decoding and
 * the clock taken out: the decoded request body, the configuration, today's
 * date, the forecast provider (a function from API key, city and horizon to
 * its response) and the report timestamp are all parameters.
 *
 * The pipeline is written twice: once as the function `Handle`, which says
 * what the response is, and once as the method `WeatherEndpoint`, which does
 * what the source does (a loop for the day selection, an `InvalidUsage`
 * object for every error) and is proved to agree with `Handle`.
 */
module WeatherHandler {
  import opened Wrappers
  import opened JsonValues
  import opened Dates
  import opened DateFormat
  import opened Errors

  /** The shared secret requests must carry and the provider's API key. */
  datatype Config = Config(apiToken: string, apiKey: string)

  /** The `day` object of one forecast day; every value is passed on untouched. */
  datatype DayMetrics = DayMetrics(
    maxTempC: Json,
    minTempC: Json,
    maxWindKph: Json,
    totalPrecipMm: Json,
    totalSnowCm: Json,
    willItRain: Json,
    willItSnow: Json,
    conditionText: Json)

  /** One entry of `forecast.forecastday`. */
  datatype ForecastDay = ForecastDay(date: string, day: DayMetrics)

  /** The provider's answer: HTTP status, raw body, and the decoded day list. */
  datatype UpstreamResponse = UpstreamResponse(status: int, text: string, forecastDays: seq<ForecastDay>)

  /** The forecast provider, called with the API key, the city and the horizon in days. */
  type Fetch = (string, Json, int) -> UpstreamResponse

  /** `requests.codes.ok`. */
  const STATUS_OK: int := 200

  /** The request checks, in the order the handler makes them, each named by how it fails. */
  datatype Rejection =
    | TokenMissing
    | WrongToken
    | RequesterNameMissing
    | CityMissing
    | DateMissing
    | DateInvalid
  {
    /** Position of the check in the handler. */
    function Rank(): nat
    {
      match this
      case TokenMissing => 0
      case WrongToken => 1
      case RequesterNameMissing => 2
      case CityMissing => 3
      case DateMissing => 4
      case DateInvalid => 5
    }

    function Message(): string
    {
      match this
      case TokenMissing => "token is required"
      case WrongToken => "wrong API token"
      case RequesterNameMissing => "requester_name is required"
      case CityMissing => "city is required"
      case DateMissing => "date is required"
      case DateInvalid => "Date format is invalid"
    }

    function Status(): int
    {
      if this == WrongToken then 403 else 400
    }
  }

  /** What an `InvalidUsage` raised by the handler is made from. */
  datatype Failure =
    | Rejected(why: Rejection)
    | UpstreamFailed(status: int, body: string)
  {
    function Message(): string
    {
      match this
      case Rejected(why) => why.Message()
      case UpstreamFailed(_, body) => body
    }

    function Status(): int
    {
      match this
      case Rejected(why) => why.Status()
      case UpstreamFailed(status, _) => status
    }
  }

  /** Exceptions other than `InvalidUsage` that the handler lets escape (a 500 response). */
  datatype Crash =
    | NotAnObject     // the body is not a JSON object: `json_data.get` raises AttributeError
    | DateNotString   // `strptime` on a non-string date raises TypeError, which is not caught
    | NoForecastDay   // an empty day list leaves `weather_dict == {}`: KeyError on "date"

  datatype Validation =
    | Accepted(requesterName: Json, city: Json, date: string, given: Date)
    | Refused(why: Rejection)
    | ValidationCrashed(crash: Crash)

  /** What the handler responds. */
  datatype Response =
    | Report(body: Json)
    | Failed(failure: Failure)
    | Crashed(crash: Crash)

  /** Whether a request body fails the given check on its own. */
  predicate Violates(fields: map<string, Json>, secret: string, check: Rejection)
  {
    match check
    case TokenMissing => Lookup(fields, "token") == JNull
    case WrongToken => Lookup(fields, "token") != JString(secret)
    case RequesterNameMissing => Lookup(fields, "requester_name") == JNull
    case CityMissing => Lookup(fields, "city") == JNull
    case DateMissing => Lookup(fields, "date") == JNull
    case DateInvalid => Lookup(fields, "date").JString? && !IsValidDateFormat(Lookup(fields, "date").s)
  }

  /** The fail-fast checks of the request body, in the handler's order. */
  function Validate(request: Json, secret: string): (v: Validation)
    ensures v.Accepted? ==>
      && request.JObject?
      && Lookup(request.fields, "token") == JString(secret)
      && v.requesterName == Lookup(request.fields, "requester_name") != JNull
      && v.city == Lookup(request.fields, "city") != JNull
      && Lookup(request.fields, "date") == JString(v.date)
      && ParseDate(v.date) == Some(v.given)
  {
    if !request.JObject? then ValidationCrashed(NotAnObject)
    else
      var fields := request.fields;
      var token := Lookup(fields, "token");
      if token == JNull then Refused(TokenMissing)
      else if token != JString(secret) then Refused(WrongToken)
      else if Lookup(fields, "requester_name") == JNull then Refused(RequesterNameMissing)
      else if Lookup(fields, "city") == JNull then Refused(CityMissing)
      else if Lookup(fields, "date") == JNull then Refused(DateMissing)
      else if !Lookup(fields, "date").JString? then ValidationCrashed(DateNotString)
      else
        var date := Lookup(fields, "date").s;
        match ParseDate(date)
        case None => Refused(DateInvalid)
        case Some(given) => Accepted(Lookup(fields, "requester_name"), Lookup(fields, "city"), date, given)
  }

  /**
   * The number of forecast days asked for: the whole-day difference between
   * the requested date and today when it is positive, and 1 otherwise.
   */
  function Horizon(given: Date, today: Date): (days: int)
    requires IsCalendarDate(given) && IsCalendarDate(today)
    ensures days >= 1
    ensures Before(today, given) <==> days == Ordinal(given) - Ordinal(today)
  {
    OrdinalOrder(today, given);
    var difference := Ordinal(given) - Ordinal(today);
    if difference > 0 then difference else 1
  }

  /**
   * The horizon the handler evidently means: one day more than the
   * difference for today or a later date, so that a list of that many days
   * starting today ends on the requested date. It exceeds `Horizon` by one
   * exactly for a future date; for today and past dates the two agree.
   */
  function IntendedHorizon(given: Date, today: Date): (days: int)
    requires IsCalendarDate(given) && IsCalendarDate(today)
    ensures days >= 1
    ensures !Before(given, today) <==> days == Ordinal(given) - Ordinal(today) + 1
    ensures days == Horizon(given, today) + (if Before(today, given) then 1 else 0)
  {
    OrdinalOrder(given, today);
    var difference := Ordinal(given) - Ordinal(today);
    if difference >= 0 then difference + 1 else 1
  }

  /** `get_weather`: one call to the provider; anything but 200 becomes a failure carrying its status and raw body. */
  function GetWeather(fetch: Fetch, apiKey: string, city: Json, days: int): (r: Result<seq<ForecastDay>, Failure>)
    ensures r.Ok? <==> fetch(apiKey, city, days).status == STATUS_OK
    ensures r.Ok? ==> r.value == fetch(apiKey, city, days).forecastDays
    ensures r.Err? ==> r.error == UpstreamFailed(fetch(apiKey, city, days).status, fetch(apiKey, city, days).text)
  {
    var response := fetch(apiKey, city, days);
    if response.status == STATUS_OK then Ok(response.forecastDays)
    else Err(UpstreamFailed(response.status, response.text))
  }

  /**
   * The record the selection loop ends on: the first day dated `date`, or,
   * when none is, the last day; None for an empty list.
   */
  function Selection(days: seq<ForecastDay>, date: string): (r: Option<ForecastDay>)
    ensures r.None? <==> days == []
    ensures r.Some? ==> r.value in days
  {
    if days == [] then None
    else if days[0].date == date || |days| == 1 then Some(days[0])
    else Selection(days[1..], date)
  }

  /** Index i is where the loop stops: no earlier day matches, and day i matches or is the last. */
  predicate StopsAt(days: seq<ForecastDay>, date: string, i: int)
  {
    && 0 <= i < |days|
    && (forall j :: 0 <= j < i ==> days[j].date != date)
    && (days[i].date == date || i == |days| - 1)
  }

  /** Selection picks the day at the stopping index. */
  lemma {:induction false} SelectionStopsAt(days: seq<ForecastDay>, date: string, i: int)
    requires StopsAt(days, date, i)
    ensures Selection(days, date) == Some(days[i])
    decreases i
  {
    if i > 0 {
      assert days[0].date != date;
      assert StopsAt(days[1..], date, i - 1);
      SelectionStopsAt(days[1..], date, i - 1);
    }
  }

  /** A matching day is selected exactly when it is the first match. */
  lemma FirstMatchSelected(days: seq<ForecastDay>, date: string, i: int)
    requires 0 <= i < |days| && days[i].date == date
    requires forall j :: 0 <= j < i ==> days[j].date != date
    ensures Selection(days, date) == Some(days[i])
  {
    SelectionStopsAt(days, date, i);
  }

  /** With no day matching, the last day is selected. */
  lemma LastDayWhenNoMatch(days: seq<ForecastDay>, date: string)
    requires days != []
    requires forall j :: 0 <= j < |days| ==> days[j].date != date
    ensures Selection(days, date) == Some(days[|days| - 1])
  {
    SelectionStopsAt(days, date, |days| - 1);
  }

  /**
   * The selection loop: `weather_dict` is overwritten with each record in
   * turn and the loop breaks on the first exact date match; None stands for
   * the initial `{}`.
   */
  method SelectDay(days: seq<ForecastDay>, date: string) returns (weatherDict: Option<ForecastDay>)
    ensures weatherDict == Selection(days, date)
  {
    weatherDict := None;
    var i := 0;
    while i < |days|
      invariant 0 <= i <= |days|
      invariant forall j :: 0 <= j < i ==> days[j].date != date
      invariant weatherDict == if i == 0 then None else Some(days[i - 1])
    {
      weatherDict := Some(days[i]);
      if days[i].date == date {
        SelectionStopsAt(days, date, i);
        return;
      }
      i := i + 1;
    }
    if days != [] {
      SelectionStopsAt(days, date, |days| - 1);
    }
  }

  /** `"yes" if flag == 1 else "no"`. */
  function YesNo(flag: Json): (answer: Json)
    ensures answer == JString("yes") || answer == JString("no")
    ensures answer == JString("yes") <==> EqualsOne(flag)
  {
    if EqualsOne(flag) then JString("yes") else JString("no")
  }

  /** The `weather` block of the report. */
  function WeatherBlock(record: ForecastDay): Json
  {
    JObject(map[
      "Date" := JString(record.date),
      "Max Temperature, C" := record.day.maxTempC,
      "Min Temperature, C" := record.day.minTempC,
      "Max Wind Speed, kph" := record.day.maxWindKph,
      "Total Precipitation, mm" := record.day.totalPrecipMm,
      "Total Snow, cm" := record.day.totalSnowCm,
      "Will it rain?" := YesNo(record.day.willItRain),
      "Will it snow?" := YesNo(record.day.willItSnow),
      "Condition" := record.day.conditionText])
  }

  /**
   * The report built from the selected day. The timestamp key is spelt
   * "timespamp", as in the source.
   */
  function BuildReport(requesterName: Json, timestamp: string, city: Json, record: ForecastDay): (report: Json)
    ensures report.JObject? && report.fields.Keys == {"requester_name", "timespamp", "location", "weather"}
    ensures report.fields["requester_name"] == requesterName
    ensures report.fields["timespamp"] == JString(timestamp)
    ensures report.fields["location"] == city
    ensures var w := report.fields["weather"];
      && w.JObject?
      && w.fields.Keys == {"Date", "Max Temperature, C", "Min Temperature, C", "Max Wind Speed, kph",
                          "Total Precipitation, mm", "Total Snow, cm", "Will it rain?", "Will it snow?", "Condition"}
      && w.fields["Date"] == JString(record.date)
      && w.fields["Max Temperature, C"] == record.day.maxTempC
      && w.fields["Min Temperature, C"] == record.day.minTempC
      && w.fields["Max Wind Speed, kph"] == record.day.maxWindKph
      && w.fields["Total Precipitation, mm"] == record.day.totalPrecipMm
      && w.fields["Total Snow, cm"] == record.day.totalSnowCm
      && (w.fields["Will it rain?"] == JString("yes") <==> EqualsOne(record.day.willItRain))
      && (w.fields["Will it rain?"] == JString("no") <==> !EqualsOne(record.day.willItRain))
      && (w.fields["Will it snow?"] == JString("yes") <==> EqualsOne(record.day.willItSnow))
      && (w.fields["Will it snow?"] == JString("no") <==> !EqualsOne(record.day.willItSnow))
      && w.fields["Condition"] == record.day.conditionText
  {
    JObject(map[
      "requester_name" := requesterName,
      "timespamp" := JString(timestamp),
      "location" := city,
      "weather" := WeatherBlock(record)])
  }

  /** The handler once the request is accepted: one provider call, the day selection, the report. */
  function Serve(requesterName: Json, city: Json, date: string, given: Date,
                 config: Config, today: Date, fetch: Fetch, timestamp: string): (r: Response)
    requires IsCalendarDate(given) && IsCalendarDate(today)
    ensures r.Failed? ==> r.failure.UpstreamFailed? && r.failure.status != STATUS_OK
    ensures r.Crashed? ==> r.crash == NoForecastDay
  {
    match GetWeather(fetch, config.apiKey, city, Horizon(given, today))
    case Err(failure) => Failed(failure)
    case Ok(days) =>
      match Selection(days, date)
      case None => Crashed(NoForecastDay)
      case Some(record) => Report(BuildReport(requesterName, timestamp, city, record))
  }

  /** The whole handler: the response to `request`, given the configuration, today's date, the provider and the timestamp. */
  function Handle(request: Json, config: Config, today: Date, fetch: Fetch, timestamp: string): (r: Response)
    requires IsCalendarDate(today)
    ensures r.Report? ==> request.JObject? && Lookup(request.fields, "token") == JString(config.apiToken)
    ensures r.Failed? && r.failure.Rejected? ==> Validate(request, config.apiToken) == Refused(r.failure.why)
  {
    match Validate(request, config.apiToken)
    case ValidationCrashed(crash) => Crashed(crash)
    case Refused(why) => Failed(Rejected(why))
    case Accepted(requesterName, city, date, given) =>
      Serve(requesterName, city, date, given, config, today, fetch, timestamp)
  }

  /** What the endpoint method ends with: a report, a raised `InvalidUsage`, or another exception. */
  datatype Outcome =
    | Returned(body: Json)
    | Raised(error: InvalidUsage)
    | Aborted(crash: Crash)

  /**
   * `weather_endpoint`. It responds as `Handle` says; every error it raises
   * is a fresh `InvalidUsage` with the failure's message and status and no
   * payload, so its JSON body is `{"message": ...}` alone.
   */
  method WeatherEndpoint(request: Json, config: Config, today: Date, fetch: Fetch, timestamp: string)
    returns (outcome: Outcome)
    requires IsCalendarDate(today)
    ensures match Handle(request, config, today, fetch, timestamp)
      case Report(body) => outcome == Returned(body)
      case Crashed(crash) => outcome == Aborted(crash)
      case Failed(failure) =>
        && outcome.Raised?
        && fresh(outcome.error)
        && outcome.error.message == failure.Message()
        && outcome.error.statusCode == failure.Status()
        && outcome.error.ToDict() == map["message" := JString(failure.Message())]
  {
    var validation := Validate(request, config.apiToken);
    match validation {
      case ValidationCrashed(crash) =>
        return Aborted(crash);
      case Refused(why) =>
        var error := new InvalidUsage(why.Message(), Some(why.Status()), None);
        return Raised(error);
      case Accepted(requesterName, city, date, given) =>
        var days := Horizon(given, today);
        var weather := GetWeather(fetch, config.apiKey, city, days);
        if weather.Err? {
          var error := new InvalidUsage(weather.error.Message(), Some(weather.error.Status()), None);
          return Raised(error);
        }
        var weatherDict := SelectDay(weather.value, date);
        if weatherDict.None? {
          return Aborted(NoForecastDay);
        }
        return Returned(BuildReport(requesterName, timestamp, city, weatherDict.value));
    }
  }
}
