/**
 `main`: the mode selects the check, the check's verdict goes to the
 formatter. Each HTTP exchange is an input; so is the login POST, whose
 connection failure ends the stats check with its own line and status 3.
 */
module Plugin {
  import opened Wrappers
  import opened Values
  import opened Dicts
  import opened KeyOrder
  import opened Probe
  import opened Health
  import opened SiteStats
  import opened Output

  /** What the plugin prints and exits with in health mode. */
  ghost function HealthOutcome(args: Args, resp: Transport<HealthMeta>): (o: Outcome)
    ensures o.exitCode == 0 || o.exitCode == 3
    ensures o.exitCode == 0 <==> resp.Response? && !IsRedirect(resp.statusCode) && resp.body.up && resp.body.rc == "ok"
    ensures o.line == Head(o.exitCode, CheckHealth(args, resp).message)
  {
    var v := CheckHealth(args, resp);
    Outcome(Report(v.state, v.message, None), v.state)
  }

  /**
   What the plugin prints and exits with in stats mode once the login went
   through, given the first site record as it was decoded.
   */
  ghost function StatsOutcome(args: Args, fetch: Transport<map<string, Value>>): (o: Outcome)
    requires fetch.Response? ==> WellFormed(fetch.body, args.perfdata)
    ensures o.exitCode == 0 || o.exitCode == 1 || o.exitCode == 3
    ensures o.exitCode == 3 <==> fetch.ConnectionError?
    ensures fetch.ConnectionError? ==>
      o.line == Head(3, Some(ConnectionProblem(StatsUri(args))))
    ensures fetch.Response? ==>
      |o.line| >= |Head(o.exitCode, Some(SiteMessage(fetch.body)))|
      && o.line[..|Head(o.exitCode, Some(SiteMessage(fetch.body)))|] == Head(o.exitCode, Some(SiteMessage(fetch.body)))
  {
    match fetch
    case ConnectionError =>
      Outcome(Report(3, Some(ConnectionProblem(StatsUri(args))), None), 3)
    case Response(_, rec) =>
      var state := SiteState(rec);
      var perf := if args.perfdata then WithUnits(rec, UnitKeys) else map[];
      Outcome(Report(state, Some(SiteMessage(rec)), Some(perf)), state)
  }

  /** `main` after argument parsing; `None` when the mode is neither check. */
  method Run(mode: string, args: Args, health: Transport<HealthMeta>,
             login: Transport<()>, stats: Transport<seq<Dict>>)
    returns (out: Option<Outcome>)
    requires mode == "stats" && login.Response? && stats.Response? ==>
      |stats.body| > 0 && WellFormed(stats.body[0].entries, args.perfdata)
    modifies if stats.Response? && |stats.body| > 0 then {stats.body[0]} else {}
    ensures mode == "health" ==> out == Some(HealthOutcome(args, health))
    ensures mode == "stats" && login.ConnectionError? ==>
      out == Some(Outcome(ConnectionProblem(LoginUri(args)), 3))
    ensures mode == "stats" && login.Response? && stats.ConnectionError? ==>
      out == Some(StatsOutcome(args, ConnectionError))
    ensures mode == "stats" && login.Response? && stats.Response? ==>
      out == Some(StatsOutcome(args, Response(stats.statusCode, old(stats.body[0].entries))))
    ensures mode != "health" && mode != "stats" ==> out == None
    ensures (mode != "stats" || login.ConnectionError?) && stats.Response? && |stats.body| > 0 ==>
      unchanged(stats.body[0])
    ensures mode == "stats" && login.Response? && stats.Response? ==>
      stats.body[0].entries == if args.perfdata
        then WithUnits(old(stats.body[0].entries), UnitKeys) - Descriptive
        else old(stats.body[0].entries)
  {
    out := None;
    if mode == "health" {
      var o := FmtOutput(CheckHealth(args, health));
      out := Some(o);
    }
    if mode == "stats" {
      var r := CheckSiteStats(args, login, stats);
      match r
      case LoginFailed(line, code) =>
        out := Some(Outcome(line, code));
      case Evaluated(v) =>
        var o := FmtOutput(v);
        out := Some(o);
    }
  }

  /**
   Health mode exits 0 with the version line exactly when the controller is
   up and reports "ok"; every other outcome exits 3 as UNKNOWN.
   */
  lemma HealthExitStatus(args: Args, resp: Transport<HealthMeta>)
    ensures var o := HealthOutcome(args, resp);
      && (o.exitCode == 0 || o.exitCode == 3)
      && (o.exitCode == 0 <==>
            resp.Response? && !IsRedirect(resp.statusCode) && resp.body.up && resp.body.rc == "ok")
      && (o.exitCode == 0 ==> o.line == "OK: " + HealthyMessage(resp.body.serverVersion))
      && (o.exitCode == 3 ==> o.line == "UNKNOWN: " + MessageText(CheckHealth(args, resp).message))
  {
    var v := CheckHealth(args, resp);
    assert "OK" + ": " == "OK: ";
    assert "UNKNOWN" + ": " == "UNKNOWN: ";
    if v.state == 0 {
      assert v.message == Some(HealthyMessage(resp.body.serverVersion));
    }
  }

  /**
   A controller that answers without a redirect but is not up with rc "ok"
   leaves the message at `None`, which the f-string prints as "None".
   */
  lemma UnhealthyLine(args: Args, code: int, meta: HealthMeta)
    requires !IsRedirect(code) && !(meta.up && meta.rc == "ok")
    ensures HealthOutcome(args, Response(code, meta)) == Outcome("UNKNOWN: None", 3)
  {
    assert "UNKNOWN" + ": " + "None" == "UNKNOWN: None";
  }

  /** A healthy controller reached over plain HTTP. */
  lemma HealthyScenario()
    ensures HealthOutcome(Args("ctrl.example", false, "default", false),
                          Response(200, HealthMeta(true, "ok", "8.0.0")))
         == Outcome("OK: " + "Healthy - UniFi Network Application: v" + "8.0.0", 0)
  {
    var args := Args("ctrl.example", false, "default", false);
    assert !IsRedirect(200) by { RedirectBand(200); }
    assert CheckHealth(args, Response(200, HealthMeta(true, "ok", "8.0.0")))
        == Verdict(0, Some(HealthyMessage("8.0.0")), None);
    assert "OK" + ": " == "OK: ";
  }

  /** A refused connection to `/status`. */
  lemma UnreachableScenario()
    ensures HealthOutcome(Args("ctrl.example", false, "default", false), ConnectionError)
         == Outcome("UNKNOWN: " + "There was a connection problem for: " + "http://ctrl.example/status", 3)
  {
    var args := Args("ctrl.example", false, "default", false);
    assert StatusUri(args) == "http://ctrl.example/status";
    assert "UNKNOWN" + ": " == "UNKNOWN: ";
  }

  /**
   Stats mode once the site-health request answered: the exit status is 0
   exactly for a site reporting "ok" and 1 otherwise. With performance data
   on, the record always holds `status`, so the separator is always printed,
   followed by every other field of the reshaped record in ascending key
   order; with it off the line is the state and the message alone.
   */
  lemma StatsLine(args: Args, code: int, rec: map<string, Value>)
    requires WellFormed(rec, args.perfdata)
    ensures var o := StatsOutcome(args, Response(code, rec));
      var metrics := (if args.perfdata then WithUnits(rec, UnitKeys) else map[]) - Descriptive;
      && (o.exitCode == 0 || o.exitCode == 1)
      && (o.exitCode == 0 <==> rec["status"] == Str("ok"))
      && (args.perfdata ==>
            o.line == Head(o.exitCode, Some(SiteMessage(rec))) + " | "
                      + JoinPairs(Ordered(metrics.Keys), metrics))
      && (!args.perfdata ==> o.line == Head(o.exitCode, Some(SiteMessage(rec))))
      && (args.perfdata ==>
            forall k :: k in Ordered(metrics.Keys) <==> k in rec && k !in Descriptive)
  {
    if args.perfdata {
      assert "status" in WithUnits(rec, UnitKeys);
    }
  }
}
