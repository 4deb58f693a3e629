/**
 `fmt_output`: the verdict becomes one line of text and the process exit
 status. Printing is modelled as returning the line.
 */
module Output {
  import opened Wrappers
  import opened Values
  import opened Dicts
  import opened KeyOrder
  import opened Probe

  /** The line printed and the status the process exits with. */
  datatype Outcome = Outcome(line: string, exitCode: int)

  /** Keys that describe the site rather than measure it; dropped before rendering. */
  const Descriptive: set<string> := {"status", "subsystem"}

  /** The keys listed in a tuple of keys. */
  function Elements(s: seq<string>): set<string> {
    if s == [] then {} else Elements(s[..|s| - 1]) + {s[|s| - 1]}
  }

  /** The monitoring states, indexed by the exit status they go with. */
  const StateNames: seq<string> := ["OK", "WARNING", "CRITICAL", "UNKNOWN"]

  /** An f-string renders a missing message as "None". */
  function MessageText(msg: Option<string>): string {
    match msg
    case None => "None"
    case Some(s) => s
  }

  function Pair(key: string, v: Value): string {
    "'" + key + "'=" + Text(v)
  }

  /** `' '.join(f"'{key}'={val}" for key in ks)`: empty exactly when there are no keys. */
  function JoinPairs(ks: seq<string>, m: map<string, Value>): (r: string)
    requires forall k :: k in ks ==> k in m
    ensures r == "" <==> ks == []
  {
    if ks == [] then ""
    else if |ks| == 1 then Pair(ks[0], m[ks[0]])
    else Pair(ks[0], m[ks[0]]) + " " + JoinPairs(ks[1..], m)
  }

  function Head(state: int, msg: Option<string>): string
    requires 0 <= state <= 3
  {
    StateNames[state] + ": " + MessageText(msg)
  }

  /**
   The line printed for a verdict whose performance data holds `perf` on
   entry. A non-empty dictionary adds " | " and its pairs in ascending key
   order, once the descriptive keys are gone.
   */
  ghost function Report(state: int, msg: Option<string>, perf: Option<map<string, Value>>): (r: string)
    requires 0 <= state <= 3
    ensures |r| >= |Head(state, msg)| && r[..|Head(state, msg)|] == Head(state, msg)
    ensures |r| > |Head(state, msg)| <==> perf.Some? && perf.value != map[]
  {
    if perf.Some? && perf.value != map[] then
      var rest := perf.value - Descriptive;
      Head(state, msg) + " | " + JoinPairs(Ordered(rest.Keys), rest)
    else Head(state, msg)
  }

  /** The `for key in ('status', 'subsystem'): perfdata.pop(key, None)` loop. */
  method DropDescriptive(d: Dict)
    modifies d
    ensures d.entries == old(d.entries) - Descriptive
  {
    var dropped := ["status", "subsystem"];
    for i := 0 to |dropped|
      invariant d.entries == old(d.entries) - Elements(dropped[..i])
    {
      assert dropped[..i + 1][..i] == dropped[..i];
      var _ := d.Pop(dropped[i]);
    }
    assert dropped[..|dropped|] == dropped;
  }

  /** The pairs of a dictionary, sorted by key and joined by single spaces. */
  method RenderPairs(m: map<string, Value>) returns (s: string)
    ensures s == JoinPairs(Ordered(m.Keys), m)
  {
    var ks := SortKeys(m.Keys);
    s := JoinPairs(ks, m);
  }

  /** `fmt_output`: drops the descriptive keys in place, then renders. */
  method FmtOutput(v: Verdict) returns (out: Outcome)
    requires 0 <= v.state <= 3
    modifies if v.perfdata.Some? then {v.perfdata.value} else {}
    ensures out == Outcome(Report(v.state, v.message, old(PerfEntries(v.perfdata))), v.state)
    ensures v.perfdata.Some? ==>
      var before := old(v.perfdata.value.entries);
      v.perfdata.value.entries == if before == map[] then before else before - Descriptive
  {
    var head := StateNames[v.state] + ": " + MessageText(v.message);
    if v.perfdata.Some? && v.perfdata.value.entries != map[] {
      var d := v.perfdata.value;
      DropDescriptive(d);
      var pairs := RenderPairs(d.entries);
      out := Outcome(head + " | " + pairs, v.state);
    } else {
      out := Outcome(head, v.state);
    }
  }

  /** Joining two key lists is joining each and putting one space between. */
  lemma {:induction false} JoinPairsAppend(ks: seq<string>, more: seq<string>, m: map<string, Value>)
    requires forall k :: k in ks + more ==> k in m
    requires ks != [] && more != []
    ensures JoinPairs(ks + more, m) == JoinPairs(ks, m) + " " + JoinPairs(more, m)
    decreases |ks|
  {
    if |ks| == 1 {
      assert (ks + more)[1..] == more;
    } else {
      assert (ks + more)[1..] == ks[1..] + more;
      JoinPairsAppend(ks[1..], more, m);
    }
  }

  /**
   The emptiness test comes before the removal: a dictionary holding only
   descriptive keys still prints the separator, with nothing after it.
   */
  lemma DescriptiveOnly(state: int, msg: Option<string>, perf: map<string, Value>)
    requires 0 <= state <= 3
    requires perf != map[] && perf.Keys <= Descriptive
    ensures Report(state, msg, Some(perf)) == Head(state, msg) + " | "
  {
    assert (perf - Descriptive).Keys == {};
    OrderedUnique({}, []);
  }
}
