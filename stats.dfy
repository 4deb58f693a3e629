/**
 The `stats` mode: log in, fetch the site's health summary, and derive the
 verdict from the first site record. With performance data on, that record
 object itself becomes the performance data, reshaped in place.
 */
module SiteStats {
  import opened Wrappers
  import opened Values
  import opened Dicts
  import opened Probe

  const RxRate := "rx_bytes-r"
  const TxRate := "tx_bytes-r"

  /** The throughput fields that get a byte unit suffix, in loop order. */
  const UnitKeys: seq<string> := [RxRate, TxRate]

  /** `{proto}://{host}/api/login`: "https" exactly when SSL is on. */
  function LoginUri(args: Args): (r: string)
    ensures |r| >= 17 && (r[4] == 's' <==> args.ssl)
    ensures r[|r| - 10..] == "/api/login"
  {
    Proto(args.ssl) + "://" + args.host + "/api/login"
  }

  /** `{proto}://{host}/api/s/{site}/stat/health`: "https" exactly when SSL is on. */
  function StatsUri(args: Args): (r: string)
    ensures |r| >= 26 && (r[4] == 's' <==> args.ssl)
    ensures r[|r| - 12..] == "/stat/health"
  {
    Proto(args.ssl) + "://" + args.host + "/api/s/" + args.siteId + "/stat/health"
  }

  /**
   The fields the check reads from the first site record (a missing one makes
   the source raise `KeyError`).
   */
  predicate WellFormed(rec: map<string, Value>, perfdata: bool) {
    && "status" in rec && "num_ap" in rec && "num_disconnected" in rec && "num_user" in rec
    && (perfdata ==> RxRate in rec && TxRate in rec)
  }

  /** OK when the site reports status "ok", WARNING otherwise. */
  function SiteState(rec: map<string, Value>): (s: int)
    requires "status" in rec
    ensures s == 0 || s == 1
    ensures s == 0 <==> rec["status"] == Str("ok")
  {
    if rec["status"] == Str("ok") then 0 else 1
  }

  /** The WLAN summary naming the three counts (see `SiteMessageDeterminesCounts`). */
  function SiteMessage(rec: map<string, Value>): (r: string)
    requires WellFormed(rec, false)
    ensures |r| > 19 && r[..19] == "WLAN - Active APs: "
  {
    "WLAN - Active APs: " + (Text(rec["num_ap"])
    + (", Disconnected APs: " + (Text(rec["num_disconnected"])
    + (", Client Devices: " + Text(rec["num_user"])))))
  }

  /** A comma-free text followed by a comma-led one splits in only one way. */
  lemma CommaSplit(x: string, y: string, x': string, y': string)
    requires forall i :: 0 <= i < |x| ==> x[i] != ','
    requires forall i :: 0 <= i < |x'| ==> x'[i] != ','
    requires |y| > 0 && y[0] == ',' && |y'| > 0 && y'[0] == ','
    requires x + y == x' + y'
    ensures x == x' && y == y'
  {
    FirstCommaAfter(x, y);
    FirstCommaAfter(x', y');
    assert x == (x + y)[..|x|] && x' == (x' + y')[..|x|];
    assert y == (x + y)[|x|..] && y' == (x' + y')[|x|..];
  }

  /** The position of the first comma, or the length when there is none. */
  function FirstComma(s: string): nat {
    if s == [] || s[0] == ',' then 0 else 1 + FirstComma(s[1..])
  }

  lemma {:induction false} FirstCommaAfter(x: string, y: string)
    requires forall i :: 0 <= i < |x| ==> x[i] != ','
    requires |y| > 0 && y[0] == ','
    ensures FirstComma(x + y) == |x|
  {
    if x != [] {
      assert (x + y)[1..] == x[1..] + y;
      FirstCommaAfter(x[1..], y);
    }
  }

  lemma StripPrefix(p: string, x: string, x': string)
    requires p + x == p + x'
    ensures x == x'
  {
    assert x == (p + x)[|p|..] && x' == (p + x')[|p|..];
  }

  /**
   When the three counts are integers, the message names them unambiguously:
   equal messages mean equal counts.
   */
  lemma SiteMessageDeterminesCounts(a: map<string, Value>, b: map<string, Value>)
    requires WellFormed(a, false) && WellFormed(b, false)
    requires a["num_ap"].Int? && a["num_disconnected"].Int? && a["num_user"].Int?
    requires b["num_ap"].Int? && b["num_disconnected"].Int? && b["num_user"].Int?
    requires SiteMessage(a) == SiteMessage(b)
    ensures a["num_ap"] == b["num_ap"]
    ensures a["num_disconnected"] == b["num_disconnected"]
    ensures a["num_user"] == b["num_user"]
  {
    var p, q, s := "WLAN - Active APs: ", ", Disconnected APs: ", ", Client Devices: ";
    var ta, tb, tc := Text(a["num_ap"]), Text(a["num_disconnected"]), Text(a["num_user"]);
    var ua, ub, uc := Text(b["num_ap"]), Text(b["num_disconnected"]), Text(b["num_user"]);
    DecimalCommaFree(a["num_ap"].i);
    DecimalCommaFree(a["num_disconnected"].i);
    DecimalCommaFree(b["num_ap"].i);
    DecimalCommaFree(b["num_disconnected"].i);
    StripPrefix(p, ta + (q + (tb + (s + tc))), ua + (q + (ub + (s + uc))));
    CommaSplit(ta, q + (tb + (s + tc)), ua, q + (ub + (s + uc)));
    StripPrefix(q, tb + (s + tc), ub + (s + uc));
    CommaSplit(tb, s + tc, ub, s + uc);
    StripPrefix(s, tc, uc);
    DecimalInjective(a["num_ap"].i, b["num_ap"].i);
    DecimalInjective(a["num_disconnected"].i, b["num_disconnected"].i);
    DecimalInjective(a["num_user"].i, b["num_user"].i);
  }

  function WithUnit(m: map<string, Value>, key: string): map<string, Value>
    requires key in m
  {
    m[key := Str(Text(m[key]) + "B")]
  }

  /**
   The record after appending "B" to each key of `keys` in turn; every key is
   listed once, so each gets exactly one suffix and nothing else changes.
   */
  function WithUnits(m: map<string, Value>, keys: seq<string>): (r: map<string, Value>)
    requires forall k :: k in keys ==> k in m
    requires forall i, j :: 0 <= i < j < |keys| ==> keys[i] != keys[j]
    ensures r.Keys == m.Keys
    ensures forall k :: k in m && k in keys ==> r[k] == Str(Text(m[k]) + "B")
    ensures forall k :: k in m && k !in keys ==> r[k] == m[k]
    decreases |keys|
  {
    if keys == [] then m
    else
      var front, last := keys[..|keys| - 1], keys[|keys| - 1];
      assert keys == front + [last];
      assert forall i :: 0 <= i < |front| ==> front[i] != last;
      WithUnit(WithUnits(m, front), last)
  }

  /** The `for key in (...): perf.update(...)` loop over the shared record. */
  method AppendUnits(d: Dict)
    requires RxRate in d.entries && TxRate in d.entries
    modifies d
    ensures d.entries == WithUnits(old(d.entries), UnitKeys)
  {
    for i := 0 to |UnitKeys|
      invariant d.entries == WithUnits(old(d.entries), UnitKeys[..i])
    {
      var key := UnitKeys[i];
      assert UnitKeys[..i + 1][..i] == UnitKeys[..i];
      d.Update(key, Str(Text(d.entries[key]) + "B"));
    }
    assert UnitKeys[..|UnitKeys|] == UnitKeys;
  }

  /** `api_login` ending the process, or `check_site_stats` returning a verdict. */
  datatype StatsRun = LoginFailed(line: string, exitCode: int) | Evaluated(verdict: Verdict)

  /**
   `check_site_stats`, with the login POST and the site-health GET as inputs.
   The decoded response records are heap objects; the first one is the
   performance data when it is requested.
   */
  method CheckSiteStats(args: Args, login: Transport<()>, fetch: Transport<seq<Dict>>)
    returns (r: StatsRun)
    requires login.Response? && fetch.Response? ==>
      |fetch.body| > 0 && WellFormed(fetch.body[0].entries, args.perfdata)
    modifies if fetch.Response? && |fetch.body| > 0 then {fetch.body[0]} else {}
    ensures login.ConnectionError? ==>
      r == LoginFailed(ConnectionProblem(LoginUri(args)), 3)
    ensures login.ConnectionError? && fetch.Response? && |fetch.body| > 0 ==>
      unchanged(fetch.body[0])
    ensures login.Response? && fetch.ConnectionError? ==>
      r == Evaluated(Verdict(3, Some(ConnectionProblem(StatsUri(args))), None))
    ensures login.Response? && fetch.Response? ==>
      var rec := old(fetch.body[0].entries);
      && r.Evaluated?
      && r.verdict.state == SiteState(rec)
      && r.verdict.message == Some(SiteMessage(rec))
      && r.verdict.perfdata.Some?
      && (args.perfdata ==>
            r.verdict.perfdata.value == fetch.body[0]
            && fetch.body[0].entries == WithUnits(rec, UnitKeys))
      && (!args.perfdata ==>
            fresh(r.verdict.perfdata.value)
            && r.verdict.perfdata.value.entries == map[]
            && fetch.body[0].entries == rec)
  {
    var perf := new Dict(map[]);
    var uri := StatsUri(args);
    if login.ConnectionError? {
      return LoginFailed(ConnectionProblem(LoginUri(args)), 3);
    }
    if fetch.ConnectionError? {
      return Evaluated(Verdict(3, Some(ConnectionProblem(uri)), None));
    }
    var site := fetch.body[0];
    var state := SiteState(site.entries);
    var msg := SiteMessage(site.entries);
    if args.perfdata {
      perf := site;
      AppendUnits(perf);
    }
    r := Evaluated(Verdict(state, Some(msg), Some(perf)));
  }
}
