/**
 What the checks share: the command-line settings they read, the outcome of
 one HTTP exchange, and the verdict record `{state, message, perfdata}` a
 check hands to the output formatter.
 */
module Probe {
  import opened Wrappers
  import opened Dicts

  /** The parsed command-line settings the checks read. */
  datatype Args = Args(host: string, ssl: bool, siteId: string, perfdata: bool)

  /**
   The outcome of one HTTP request: `requests` raised `ConnectionError`, or a
   response arrived with its status code and its decoded JSON body.
   */
  datatype Transport<B> = ConnectionError | Response(statusCode: int, body: B)

  /**
   The dictionary a check returns. `state` is the monitoring state 0..3,
   `message` may be Python's `None`, `perfdata` is `None` or a dictionary
   object (possibly shared with a decoded response record).
   */
  datatype Verdict = Verdict(state: int, message: Option<string>, perfdata: Option<Dict>)

  function Proto(ssl: bool): (r: string)
    ensures |r| >= 4 && r[..4] == "http"
    ensures |r| == 5 <==> ssl
    ensures ssl ==> r[4] == 's'
  {
    if ssl then "https" else "http"
  }

  function ConnectionProblem(uri: string): string {
    "There was a connection problem for: " + uri
  }

  /** The abstract value of a verdict's performance data. */
  function PerfEntries(p: Option<Dict>): Option<map<string, Values.Value>>
    reads if p.Some? then {p.value} else {}
  {
    match p
    case None => None
    case Some(d) => Some(d.entries)
  }
}
