# check_unifi: a Dafny model of the UniFi controller check plugin

`check_unifi.py` is a monitoring plugin for a UniFi Network Application
controller. It runs in one of two modes. `health` asks the controller's
`/status` endpoint whether the application is up. `stats` logs in and reads
the first site record of `/api/s/<site>/stat/health`. Each check returns a
verdict `{state, message, perfdata}`. `fmt_output` prints that verdict as one
line, `STATE: message`, optionally followed by ` | 'key'=value ...`, and the
process exits with the state (0 OK, 1 WARNING, 2 CRITICAL, 3 UNKNOWN).

This project models that decision logic. Every HTTP exchange is an input
(`Probe.Transport`): either a connection error or a response with its
status code and decoded body. Printing and exiting become a returned
`Output.Outcome(line, exitCode)`.

Modules, one per part of the program:

- `Values`: the scalars of a decoded record (`Int`, `Str`) and how `str()`
  renders them (`Decimal`).
- `Dicts`: a Python `dict` as a heap object (`Dict`) with `update` and
  `pop`. The first site record and the performance data are the same
  object, and both the stats check and the formatter change it in place.
- `KeyOrder`: Python's `str` ordering and the key order `sorted()` yields.
  `Ordered` specifies that order and `SortKeys` computes it.
- `Probe`: the settings the checks read, the transport outcome and the
  verdict record.
- `Health`: `check_health` (`CheckHealth`), including the `^30\d` redirect
  test on the decimal status code.
- `SiteStats`: `check_site_stats`, including the login step of `api_login`
  and the in-place byte-unit reshaping of the record (`AppendUnits`).
- `Output`: `fmt_output`. `DropDescriptive` removes `status` and
  `subsystem` in place, `RenderPairs` renders the sorted pairs, and
  `Report` specifies the printed line.
- `Plugin`: `main`'s mode dispatch (`Run`), with whole-run specifications
  (`HealthOutcome`, `StatsOutcome`) and lemmas about them.

Behaviour of check_unifi.py worth knowing:

- A controller that answers without a redirect but is not up with rc "ok"
  keeps state 3 and message `None`. The printed line is `UNKNOWN: None`
  (`Plugin.UnhealthyLine`). There is no WARNING verdict and no "unhealthy"
  text.
- There is no 5xx branch and no 401 branch. The stats fetch has no redirect
  test either: its body is decoded whatever the status code.
- The only request stats mode makes after logging in is the site-health
  request.
- The port is never used in a URI.
- The removal of `status` and `subsystem` happens in the formatter, not in
  the stats check. It happens only when the performance data is non-empty
  on entry, so a dictionary holding just those two keys still prints the
  ` | ` separator (`Output.DescriptiveOnly`).
- A failed login prints the bare connection message, with no state name in
  front, and exits 3.
- The redirect test is a prefix match on the decimal code, so 3000..3099 pass
  it as well as 300..309 (`Health.LongCodeMatches`).

## Model

| member | source | states |
|---|---|---|
| `Values.Natural` | check_unifi.py:159-161 | `str()` of a natural number is a non-empty string of decimal digits with no leading zero except for 0 itself |
| `Values.Decimal` | check_unifi.py:99 | `str()` of an integer starts with a minus sign exactly when the integer is negative |
| `Values.Text` | check_unifi.py:159-161 | `str()` of a string is the string. `str()` of an integer is non-empty, starts with a minus sign exactly for a negative number and has no comma |
| `Values.LeadingDigitBound` | check_unifi.py:99 | a number of three or more digits is at least its leading digit times 100 |
| `Values.NaturalRoundTrip` | check_unifi.py:168 | reading back the digits `str()` writes gives the number again |
| `Values.DecimalInjective` | check_unifi.py:99 | distinct status codes (and other integers) render as distinct strings |
| `Dicts.Dict.Update` | check_unifi.py:168 | `update({key: value})` sets that key and leaves every other entry as it was |
| `Dicts.Dict.Pop` | check_unifi.py:184 | `pop(key, None)` removes the key if present, returns its old value or `None`, and leaves the rest alone |
| `KeyOrder.Below` | check_unifi.py:189 | Python's string order: a proper prefix sorts first, and no string sorts before itself |
| `KeyOrder.BelowIrreflexive` | check_unifi.py:189 | no key sorts before itself |
| `KeyOrder.BelowTransitive` | check_unifi.py:189 | the key order used by `sorted` is transitive |
| `KeyOrder.BelowTotal` | check_unifi.py:189 | any two distinct keys are ordered one way or the other |
| `KeyOrder.HasLeast` | check_unifi.py:189 | every non-empty set of keys has a least key |
| `KeyOrder.Ordered` | check_unifi.py:189 | the sorted listing of a key set is strictly ascending and lists exactly the keys of the set |
| `KeyOrder.OrderedUnique` | check_unifi.py:189 | only one strictly ascending sequence lists exactly a given key set, so the sorted order is determined |
| `KeyOrder.SortKeys` | check_unifi.py:189 | repeatedly taking the least remaining key yields exactly the sorted listing of the keys |
| `Health.CheckHealth` | check_unifi.py:88-111 | connection error gives state 3 with the connection-problem message for `proto://host/status`. A redirect code gives state 3 with "Found redirection for ... Wrong protocol?". State 0 holds exactly when the response is not a redirect and `up` holds with rc "ok", and then the message names the server version. Otherwise the message is `None`. The state is always 0 or 3 and perfdata is always `None` |
| `Health.StatusUri` | check_unifi.py:94-95 | the status URI uses "https" exactly when SSL is on and ends in `/status` |
| `Health.IsRedirect` | check_unifi.py:99 | the `^30\d` test on the decimal status code passes every code from 300 to 309 and no code below 300 |
| `Health.DecimalTestBounds` | check_unifi.py:99 | the proof of `Health.IsRedirect`'s contract, carried out on the decimal string |
| `Health.RedirectBand` | check_unifi.py:99-101 | for every status code below 1000 the `^30\d` test on its decimal string holds exactly for 300..309 |
| `Health.LongCodeMatches` | check_unifi.py:99 | the test only anchors the leading digits: 3000 and 30999 pass it too |
| `Health.StatusUriInjective` | check_unifi.py:94-95 | the status URI determines the protocol choice and the host: different settings give different URIs |
| `SiteStats.LoginUri` | check_unifi.py:121-122 | the login URI uses "https" exactly when SSL is on and ends in `/api/login` |
| `SiteStats.StatsUri` | check_unifi.py:144-145 | the site-health URI uses "https" exactly when SSL is on and ends in `/stat/health` |
| `SiteStats.SiteMessage` | check_unifi.py:159-161 | the message starts with "WLAN - Active APs: " |
| `SiteStats.SiteMessageDeterminesCounts` | check_unifi.py:159-161 | with integer counts, two sites with the same message have the same three counts: the message names them unambiguously |
| `SiteStats.SiteState` | check_unifi.py:158 | the site state is 0 exactly when the record's `status` is "ok" and 1 otherwise |
| `SiteStats.WithUnits` | check_unifi.py:163-168 | reshaping keeps the key set, gives each listed throughput key exactly one "B" suffix on its `str()` text, and leaves every other value unchanged |
| `SiteStats.AppendUnits` | check_unifi.py:166-168 | the update loop over the shared record leaves it equal to the reshaped record |
| `SiteStats.CheckSiteStats` | check_unifi.py:136-170 | a failed login ends the run with the connection message for `/api/login` and status 3. A failed fetch gives state 3, the connection message for the site URI and perfdata `None`. Otherwise the state is the site state and the message is the WLAN summary. With perfdata on, the perfdata is the record object itself, reshaped. With it off, the perfdata is a new empty dictionary and the record is untouched |
| `Output.JoinPairs` | check_unifi.py:188-189 | the joined pairs are empty exactly when there are no keys |
| `Output.JoinPairsAppend` | check_unifi.py:188-189 | joining two key lists is joining each and putting one space between them |
| `Output.DropDescriptive` | check_unifi.py:182-184 | the pop loop removes `status` and `subsystem` and nothing else |
| `Output.RenderPairs` | check_unifi.py:187-189 | the rendered pairs are the `'key'=value` pairs of the dictionary in sorted key order, joined by single spaces |
| `Output.FmtOutput` | check_unifi.py:173-193 | the line is the specified report of the verdict as it was on entry and the exit status is the state. Non-empty perfdata loses `status` and `subsystem` in place; empty or absent perfdata is left alone |
| `Output.Report` | check_unifi.py:181-191 | every printed line starts with the state's name, ": " and the message, and runs on past it exactly when the performance data is present and non-empty |
| `Output.DescriptiveOnly` | check_unifi.py:181-189 | perfdata holding only `status`/`subsystem` still prints the separator with nothing after it, because emptiness is tested before the removal |
| `Plugin.HealthOutcome` | check_unifi.py:88-111 | health mode exits 0 or 3, exits 0 exactly when the controller answers without a redirect and is up with rc "ok", and prints the state's name followed by the health check's message |
| `Plugin.StatsOutcome` | check_unifi.py:136-170 | stats mode after login exits 0, 1 or 3, exits 3 exactly when the site-health request fails to connect (then printing the connection message for the site URI), and otherwise prints a line starting with the state's name and the WLAN message |
| `Plugin.Run` | check_unifi.py:196-207 | `health` prints and exits with the health check's outcome and `stats` with the stats check's (a failed login with its own line). Any other mode prints nothing. The first site record changes only in stats mode after a successful login, and only with perfdata on: it then holds the reshaped record without `status` and `subsystem` |
| `Plugin.HealthExitStatus` | check_unifi.py:99-111 | health mode exits 0 with "OK: Healthy - UniFi Network Application: v..." exactly when the controller answers without a redirect and is up with rc "ok". Otherwise it exits 3 with an UNKNOWN line |
| `Plugin.UnhealthyLine` | check_unifi.py:106-111 | a controller that answers but is not up with rc "ok" makes the plugin print "UNKNOWN: None" and exit 3 |
| `Plugin.HealthyScenario` | check_unifi.py:106-109 | a healthy controller at ctrl.example reporting version 8.0.0 prints "OK: Healthy - UniFi Network Application: v8.0.0" and exits 0 |
| `Plugin.UnreachableScenario` | check_unifi.py:102-104 | a refused connection prints "UNKNOWN: There was a connection problem for: http://ctrl.example/status" and exits 3 |
| `Plugin.StatsLine` | check_unifi.py:158-168 | stats mode exits 0 exactly for status "ok" and 1 otherwise. With perfdata on, the separator is always printed and is followed by every field of the record except `status`/`subsystem`, in ascending key order. With perfdata off, the line is the state and the WLAN message alone |

## Left out

- Argument parsing and environment-variable defaults (check_unifi.py:17-85) are left out. The checks take an `Args` value instead. Port, user, password and timeout are not used by the modelled logic, so `Args` omits them.
- The HTTP requests, the `requests.Session`, its cookies, the headers, timeouts and redirect settings are network I/O. Each request is an input `Transport` value. The login POST is an input whose response is never inspected, as in the source.
- JSON decoding is left out. Bodies arrive decoded: `/status` as a `HealthMeta` record, the site-health response as its `data` list of `Dict` objects.
- In stats mode the source raises on a missing field or an empty `data` list. These crash paths are stated as preconditions instead (`SiteStats.WellFormed` and a non-empty list). An undecodable body, which also raises, cannot be expressed at all: the fetch's body has type `seq<Dict>`.
- In health mode the source raises in three cases (check_unifi.py:106-109). It raises when `resp.json()` gets a non-JSON body (a 404 or 500 page, say) or a `meta` without `up`. It raises when `up` is truthy and `meta` has no `rc`, because the `and` evaluates `rc` only then. It raises when the reply is healthy and `meta` has no `server_version`, which only the healthy branch reads. A `meta` with a false `up` and no `rc` or version does not raise: it prints "UNKNOWN: None" and exits 3. The `HealthMeta` type always holds all three fields, so the three crash paths cannot be expressed.
- Only `requests.exceptions.ConnectionError` is caught (check_unifi.py:102, 129, 153). Any other exception of the request, such as a read timeout or an invalid URL, ends in a traceback and exit status 1. `Transport` has no case for it, so the model does not capture that outcome.
- `Health.RedirectBand` covers codes below 1000 only. `http.client` rejects a status line whose code is outside 100..999, and `requests` reports that as a `ConnectionError`, so a four-digit code never reaches the test at check_unifi.py:99. `Health.LongCodeMatches` shows what the test would do with one.
- Record values are modelled as integers and strings only. JSON floats, booleans and nulls, and how `str()` renders them, are not modelled. `meta.up` is a boolean and `server_version` a string.
- `print` and `sys.exit` become the returned `Outcome`. When the mode is neither `health` nor `stats`, `Run` returns `None`: nothing is printed and the process ends normally.
