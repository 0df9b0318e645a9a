# Weather report relay: a Dafny model of the request handler

The repository is a one-endpoint Flask service (`main.py`). `POST /weather` takes
a JSON body with `token`, `requester_name`, `city` and `date`. The handler checks
the fields in a fixed order and asks the weatherapi.com forecast service for
the number of days between today and the requested date (at least one). It then
picks one day out of the returned list and returns a flat report. Every refusal, and every failed call to the provider, is raised as an
`InvalidUsage` error with a message and an HTTP status.

This project models that handler with HTTP, JSON decoding and the clock
taken out. The following are all parameters:

- the decoded request body, a `Json` value;
- the configuration, which holds the shared token and the API key;
- today's date;
- the forecast provider, a function from API key, city and horizon to a response
  (status, raw body, decoded day list);
- the report's timestamp string.

Modules:

- `Wrappers` (`wrappers.dfy`): `Option` and `Result`.
- `JsonValues` (`json.dfy`): decoded JSON values. It also models `dict.get`, where
  an absent key reads as null. `EqualsOne` models Python's `v == 1`, which holds
  for `1`, `1.0` and `true`.
- `Dates` (`dates.dfy`): the proleptic Gregorian calendar and `date.toordinal()`,
  through which `given_date - today_date` is taken. It also has `NextDay` and
  `AddDays`, with the facts that relate them to the ordinal.
- `DateFormat` (`date_format.dfy`): `strptime(date, "%Y-%m-%d")` and
  `is_valid_date_format`, following the groups CPython's `_strptime` matches:
  - `%Y` is four digits;
  - `%m` is `1[0-2]`, `0[1-9]` or `[1-9]`;
  - `%d` is `3[01]`, `[12]\d`, `0[1-9]`, `[1-9]` or a space and `[1-9]`.

  The whole string must be consumed, and the result must be a real
  `datetime.date`: year at least 1, and the day within the month's length.
  `Year4`, `Pad2`, `MonthSpelt`, `DaySpelt` and `Spells` describe the accepted
  spellings independently of the parser, and `ParseDateIsSpelling` proves the
  parser accepts exactly those.
- `Errors` (`errors.dfy`): the class `InvalidUsage`, with its constructor and `to_dict`.
- `WeatherHandler` (`handler.dfy`): the pipeline.
  - `Validate` runs the request checks.
  - `Horizon` gives the number of forecast days asked for; `IntendedHorizon` is
    the corrected count described under "Findings".
  - `GetWeather` makes the success/failure decision of `get_weather`.
  - `Selection` specifies the day-selection loop; the method `SelectDay` runs it.
  - `BuildReport` assembles the report.
  - `Serve` is the part after validation, and `Handle` is the whole handler.
  - The method `WeatherEndpoint` does what the source does: it runs the loop and
    raises `InvalidUsage` objects. It is proved to agree with `Handle`.
- `WeatherHandlerProperties` (`handler_properties.dfy`): what the handler promises.
  - The first failing check decides.
  - A wrong token gives 403.
  - A missing field gives a 400 that names the field.
  - The horizon facts.
  - Provider failures pass through with the provider's status and body.
  - The report describes a known day.

Three outcomes are exceptions other than `InvalidUsage`, which Flask turns into a
500. They are modelled as `Crash` values:

- a body that is not a JSON object (`json_data.get` fails);
- a `date` that is present but not a string (`strptime` raises `TypeError`, which
  is not caught);
- an empty forecast list (`weather_dict` stays `{}` and `weather_dict["date"]` raises `KeyError`).

The model follows the code as written, including where it departs from what the service evidently means to do:

- The report's timestamp key is spelt `"timespamp"` (main.py:106), not "timestamp".
- The weather keys carry commas: `"Max Temperature, C"`, `"Total Snow, cm"` and so on.
- The date check is strptime's, which is looser than a strict `YYYY-MM-DD`.
  `"2024-6-1"` and `"2024-06- 1"` are accepted as 1 June 2024 (`DateSpellings`).
  Such a spelling never equals the provider's zero-padded dates, so the day
  selection falls back to the last day.
- The forecast horizon is one day short for a future date (see "Findings").
  The handler model keeps the code's horizon, `Horizon`, and proves the
  consequence; the corrected `IntendedHorizon` stands beside it with its own
  property proved.
- A missing rain/snow flag would be a `KeyError` in the code, not "no". The
  model's forecast records always carry both flags.

## Model

| member | source | states |
|---|---|---|
| `WeatherHandler.Validate` | main.py:66-84 | An accepted request has the configured token. Its requester_name and city are present and are what the handler carries on. Its date is a string that strptime parses to the accepted date. |
| `WeatherHandlerProperties.RefusalIsViolation` | main.py:66-84 | A refusal names a check the request fails, and the request passes every check made before it. |
| `WeatherHandlerProperties.ViolationIsRefused` | main.py:66-84 | A request that fails any check is refused, for that check or an earlier one. |
| `WeatherHandlerProperties.FirstViolationWins` | main.py:66-84 | Both directions: the request is refused for check c exactly when it fails c and passes every earlier check. The order is token present, token matches, requester_name, city, date present, date format. |
| `WeatherHandlerProperties.AcceptedExactly` | main.py:66-84 | Both directions: a request is accepted exactly when the token equals the secret, requester_name and city are not null, and date is a string strptime accepts. Only null or absent counts as missing, as `dict.get` (`Lookup`) returns None for both. |
| `WeatherHandlerProperties.WrongTokenIs403` | main.py:66-70 | A token that is present but is not the secret gives 403 "wrong API token", whatever the other fields hold. |
| `WeatherHandlerProperties.MissingFieldIs400` | main.py:66-82 | The first missing required field gives 400 with the message "<field> is required". |
| `WeatherHandlerProperties.InvalidDateIs400` | main.py:83-84 | A date string that strptime refuses gives 400 "Date format is invalid" once the earlier checks pass. |
| `DateFormat.ParseDate` | main.py:42-47 | A date strptime accepts is a real calendar date with a four-digit year. `IsValidDateFormat` (`is_valid_date_format`) is "ParseDate gives a date". |
| `DateFormat.ParseDateIsSpelling` | main.py:42-47 | Both directions: strptime accepts s as d exactly when d is a calendar date (year 1 to 9999) and s is a four-digit year, '-', the month zero-padded or as one digit for months 1 to 9, '-', the day zero-padded, as one digit or as a space and one digit for days 1 to 9, with nothing else. |
| `DateFormat.ValidDateFormatIsSpelling` | main.py:42-47 | `is_valid_date_format` holds exactly for the strings that spell some calendar date in that way; every other string is refused. |
| `DateFormat.IsoFormatParsesBack` | main.py:42-47 | A zero-padded `YYYY-MM-DD` string is accepted exactly when it names a real calendar date, and then it parses back to that date. Month 13, day 40 and 29 February of a common year are refused; leap years are respected. |
| `DateFormat.IsoFormatInjective` | main.py:42-47 | Two real dates have the same `YYYY-MM-DD` spelling only when they are the same date. |
| `WeatherHandlerProperties.DateSpellings` | main.py:42-47 | strptime accepts "2024-6-1" and "2024-06- 1" as 1 June 2024. It refuses "2024-13-40", "2023-02-29", "0000-01-01", "notadate" and a trailing space. |
| `Dates.OrdinalOrder` | main.py:86-88 | The day ordinal orders dates as the calendar does, in both directions, and equal ordinals mean equal dates. |
| `Dates.AddDaysOrdinal` | main.py:86-88 | The date n days after d has an ordinal exactly n greater, so the day difference counts calendar days. |
| `Dates.AddDaysUnique` | main.py:86-88 | The date whose ordinal is n past d's is AddDays(d, n), and no other. |
| `WeatherHandler.Horizon` | main.py:86-92 | The horizon is at least 1. It equals the day difference exactly when the requested date is after today. |
| `WeatherHandlerProperties.HorizonOfFutureDate` | main.py:86-92 | A date n ≥ 1 days after today asks for exactly n days. |
| `WeatherHandlerProperties.HorizonOfTodayOrPast` | main.py:86-92 | Today or a past date asks for exactly 1 day. |
| `WeatherHandler.IntendedHorizon` | main.py:86-92 | The corrected horizon: at least 1, the day difference plus one exactly for today or a later date, and one more than `Horizon` exactly for a future date. |
| `WeatherHandler.GetWeather` | main.py:30-39 | Success exactly when the provider answers 200, and then the decoded day list. Otherwise a failure carries the provider's status and raw body. |
| `WeatherHandler.Selection` | main.py:98-102 | The selected record is None exactly for an empty list. Otherwise it is one of the list's records. |
| `WeatherHandler.SelectionStopsAt` | main.py:98-102 | Selection returns the record at the index where the loop stops: no earlier record matches, and this one matches or is the last. |
| `WeatherHandler.FirstMatchSelected` | main.py:98-102 | A record dated as requested, with none before it, is the one selected. |
| `WeatherHandler.LastDayWhenNoMatch` | main.py:98-102 | With no record dated as requested, the last record is selected. |
| `WeatherHandler.SelectDay` | main.py:98-102 | The loop that overwrites `weather_dict` and breaks on the first match ends with exactly the record Selection specifies. |
| `WeatherHandler.YesNo` | main.py:115-120 | A flag gives "yes" exactly when it equals 1 (1, 1.0 or true, which is what Python's `== 1` accepts, `EqualsOne`) and "no" for every other value. |
| `WeatherHandler.BuildReport` | main.py:104-123 | The report has exactly the keys requester_name, timespamp, location and weather. The weather block has exactly its nine keys. Date, temperatures, wind, precipitation, snow and condition are copied unchanged. Rain and snow read "yes" exactly when the flag equals 1. |
| `WeatherHandler.Serve` | main.py:86-123 | After validation, the only failure is a provider failure with a non-200 status, and the only crash is the empty-list KeyError. |
| `WeatherHandler.Handle` | main.py:62-125 | A report is produced only for a JSON object that carries the configured token. Every refusal is the one validation decides. |
| `WeatherHandler.WeatherEndpoint` | main.py:62-125 | The endpoint returns the report, or lets the crash escape, exactly as Handle says. Every error it raises is a fresh InvalidUsage with the failure's message and status. Its `to_dict` is `{"message": ...}` alone. |
| `WeatherHandlerProperties.AcceptedRequestIsServed` | main.py:66-94 | An accepted request's response is `Serve` of the accepted values, and two requests accepted with the same requester name, city, date string and date get the same response, whatever else they carry. |
| `WeatherHandlerProperties.OneUpstreamQuery` | main.py:32-37 | The response depends on the provider only through its answer for the configured key, the city and the horizon. |
| `WeatherHandlerProperties.UpstreamFailurePropagates` | main.py:36-39 | A non-200 provider answer becomes an error with the provider's status code and raw body as message. |
| `WeatherHandlerProperties.ReportFromFirstMatchingDay` | main.py:98-123 | When the list holds a day dated exactly as requested, the report is built from the first such day. |
| `WeatherHandlerProperties.ReportFromLastDayWithoutMatch` | main.py:98-123 | When no day is dated as requested, the report is built from the last day of the list. |
| `WeatherHandlerProperties.EmptyForecastCrashes` | main.py:98-109 | A successful provider answer with no days ends in the KeyError, not in a report. |
| `WeatherHandlerProperties.FutureDateNeverListed` | main.py:86-102 | For a future date, a list of (date − today) days starting today never holds the requested date, however the request spells it. |
| `WeatherHandlerProperties.LastListedIsDayBefore` | main.py:86-92 | The last day of that list is the day before the requested date. |
| `WeatherHandlerProperties.FutureDateReportsDayBefore` | main.py:86-123 | For a future date and a provider that lists the asked-for days from today, the report describes the day before the requested one. |
| `WeatherHandlerProperties.IntendedHorizonListsDate` | main.py:86-102 | With the corrected horizon, for today or a later date, the provider's list holds the requested date at position (date − today), and the day selection picks that record. |
| `Errors.InvalidUsage.constructor` | main.py:17-22 | Sets the message and the payload. The status is the given one, or the class-wide 400 when none is given. |
| `Errors.InvalidUsage.ToDict` | main.py:24-27 | The keys are the payload's keys plus "message". "message" always holds the error's message, overriding a payload key of that name. Every other key keeps the payload's value. |

## Left out

- Flask plumbing is not modelled: the app, routing, `home_page`, and the `jsonify` response that `handle_invalid_usage` builds. The body it sends is `to_dict`, which is modelled.
- The HTTP call itself is a parameter (`Fetch`): the URL with `aqi=no&alerts=no`, `requests.get`, timeouts. The unused `limit` argument of `get_weather` is left out too.
- Decoding is not modelled: `request.get_json()` and the provider's `json.loads`, including Flask's own refusals of non-JSON bodies and duplicate-key handling. A 200 answer whose body is not JSON is also left out.
- The provider's day records are typed (`ForecastDay`), so a record that lacks `day`, `date` or one of the metrics cannot occur. The KeyError or TypeError such a record would cause in the source is therefore not modelled. The empty list is modelled: it is the one such failure a well-formed answer can cause.
- `dt.datetime.now()` and `dt.datetime.utcnow()`/`strftime` are parameters (`today`, `timestamp`). The mix of local time for the horizon and UTC for the stamp is therefore the caller's to supply.
- The numeric weather values are opaque `Json` values that are only copied. Float rounding during JSON decoding is not modelled: `JFloat` holds the decoded value.
- Python's `\d` also matches non-ASCII decimal digits, which `int()` accepts. `DateFormat.ParseDate` reads ASCII digits only.
- The module-level `API_TOKEN` and `API_KEY` are the fields of `Config`.
- Python equality between JSON values is modelled as equality of `Json` values. The token comparison (main.py:68-69) sets any JSON value against the string `API_TOKEN`: in Python a str never equals a number, a boolean, a list or a dict, and likewise `JString(secret)` differs from every value that is not a `JString`, so the two agree. The day dates are strings compared with the request's date string, and a flag is compared with 1 through `EqualsOne`.

## Findings

| source | as written | input that shows it | evidently intended | confidence | as-written member | corrected member |
|---|---|---|---|---|---|---|
| main.py:86-92 | `days = difference.days if difference.days > 0 else 1` asks for exactly (date − today) days for a future date | today 2024-06-01, date "2024-06-04": 3 days are asked for, a provider listing from today returns 06-01 .. 06-03, and the report describes 2024-06-03 | ask for (date − today) + 1 days, so that the list ends on the requested date | medium: depends on the provider listing its days from today; not executed | `WeatherHandlerProperties.FutureDateReportsDayBefore` | `WeatherHandler.IntendedHorizon`, `WeatherHandlerProperties.IntendedHorizonListsDate` |

The handler model (`Serve`, `Handle`, `WeatherEndpoint`) keeps the horizon as written, since it models the code.
