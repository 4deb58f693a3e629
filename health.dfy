/**
 The `health` mode: one unauthenticated GET of the controller's `/status`
 endpoint, classified into a verdict. Health mode never has performance data.
 */
module Health {
  import opened Wrappers
  import opened Values
  import opened Probe

  /** The `meta` object of the `/status` response. */
  datatype HealthMeta = HealthMeta(up: bool, rc: string, serverVersion: string)

  /** `{proto}://{host}/status`: "https" exactly when SSL is on. */
  function StatusUri(args: Args): (r: string)
    ensures |r| >= 14 && (r[4] == 's' <==> args.ssl)
    ensures r[|r| - 7..] == "/status"
  {
    Proto(args.ssl) + "://" + args.host + "/status"
  }

  /** `re.match(r'^30\d', s)`: the string starts with "30" and a digit. */
  predicate Matches30x(s: string) {
    |s| >= 3 && s[0] == '3' && s[1] == '0' && IsDigit(s[2])
  }

  /**
   The redirect test applied to the response's status code: it passes every
   code from 300 to 309 and no code below 300.
   */
  predicate IsRedirect(code: int)
    ensures IsRedirect(code) ==> code >= 300
    ensures 300 <= code <= 309 ==> IsRedirect(code)
  {
    DecimalTestBounds(code);
    Matches30x(Decimal(code))
  }

  lemma DecimalTestBounds(code: int)
    ensures Matches30x(Decimal(code)) ==> code >= 300
    ensures 300 <= code <= 309 ==> Matches30x(Decimal(code))
  {
    if 100 <= code < 1000 {
      ThreeDigits(code);
    } else if code >= 0 && |Natural(code)| >= 3 {
      LeadingDigitBound(code);
    }
  }

  function HealthyMessage(serverVersion: string): string {
    "Healthy - UniFi Network Application: v" + serverVersion
  }

  function RedirectMessage(uri: string): string {
    "Found redirection for " + uri + ". Wrong protocol?"
  }

  /** `check_health`, with the GET's outcome as the input `resp`. */
  function CheckHealth(args: Args, resp: Transport<HealthMeta>): (v: Verdict)
    ensures v.perfdata == None
    ensures v.state == 0 || v.state == 3
    ensures resp.ConnectionError? ==>
      v == Verdict(3, Some(ConnectionProblem(StatusUri(args))), None)
    ensures resp.Response? && IsRedirect(resp.statusCode) ==>
      v == Verdict(3, Some(RedirectMessage(StatusUri(args))), None)
    ensures v.state == 0 <==>
      resp.Response? && !IsRedirect(resp.statusCode) && resp.body.up && resp.body.rc == "ok"
    ensures v.state == 0 ==> v.message == Some(HealthyMessage(resp.body.serverVersion))
    ensures resp.Response? && !IsRedirect(resp.statusCode) && v.state != 0 ==> v.message == None
  {
    var uri := StatusUri(args);
    match resp
    case ConnectionError => Verdict(3, Some(ConnectionProblem(uri)), None)
    case Response(code, meta) =>
      if IsRedirect(code) then Verdict(3, Some(RedirectMessage(uri)), None)
      else if meta.up && meta.rc == "ok" then Verdict(0, Some(HealthyMessage(meta.serverVersion)), None)
      else Verdict(3, None, None)
  }

  /**
   Among status codes of at most three digits the redirect test holds
   exactly for 300..309 (negative codes print with a minus sign, codes below
   100 have too few digits).
   */
  lemma RedirectBand(code: int)
    requires code < 1000
    ensures IsRedirect(code) <==> 300 <= code <= 309
  {
    if code >= 100 {
      ThreeDigits(code);
    } else if code >= 0 {
      FewDigits(code);
    }
  }

  /** The test looks at the leading digits only, so 3000 passes it too. */
  lemma LongCodeMatches()
    ensures IsRedirect(3000) && IsRedirect(30999)
  {
  }

  /** The URI names the protocol and the host: different settings, different URIs. */
  lemma StatusUriInjective(a: Args, b: Args)
    requires StatusUri(a) == StatusUri(b)
    ensures a.ssl == b.ssl && a.host == b.host
  {
    var u := StatusUri(a);
    var n := |Proto(a.ssl)| + 3;
    assert a.host == u[n..|u| - 7] == b.host;
  }
}
