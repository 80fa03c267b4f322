/**
 * The abstract shape of a parsed sandbox report and of a directory listing.
 * Reading files and decoding JSON are not modelled: an entry carries the
 * value `get_json` would have returned, a report or nothing.
 */
module Reports {
  import opened Wrappers

  /** A call's `return_value`: the JSON field holds an integer or a string. */
  datatype Code = IntCode(n: int) | StrCode(s: string)

  /** One recorded call: its `api` name, its `status` flag and its `return_value`. */
  datatype Call = Call(api: string, status: int, returnValue: Code)

  /** One entry of `behavior.processes`: its list of calls. */
  datatype Process = Process(calls: seq<Call>)

  /** A parsed report: its processes and `info.score` (a number standing for the float). */
  datatype Report = Report(processes: seq<Process>, score: int)

  /** A directory entry: its file name and what parsing it gave. */
  datatype Entry = Entry(name: string, report: Option<Report>)

  /** The calls of all processes, process after process. */
  function AllCalls(ps: seq<Process>): seq<Call>
    decreases |ps|
  {
    if ps == [] then [] else AllCalls(ps[..|ps| - 1]) + ps[|ps| - 1].calls
  }

  /**
   * The running total of the processes' call-list lengths: the number of
   * calls the report holds.
   */
  function TotalCalls(ps: seq<Process>): (t: int)
    ensures t == |AllCalls(ps)|
    decreases |ps|
  {
    if ps == [] then 0 else TotalCalls(ps[..|ps| - 1]) + |ps[|ps| - 1].calls|
  }

  /** Flattening distributes over concatenation of process lists. */
  lemma {:induction false} AllCallsConcat(a: seq<Process>, b: seq<Process>)
    ensures AllCalls(a + b) == AllCalls(a) + AllCalls(b)
    decreases |b|
  {
    if b == [] {
      assert a + b == a;
    } else {
      var b' := b[..|b| - 1];
      assert (a + b)[..|a + b| - 1] == a + b';
      AllCallsConcat(a, b');
    }
  }

  /** How the calls of a process split around its k-th call. */
  lemma CallsSplit(done: seq<Call>, calls: seq<Call>, k: nat)
    requires k < |calls|
    ensures done + calls[..k + 1] == (done + calls[..k]) + [calls[k]]
    ensures done + calls == (done + calls[..k + 1]) + calls[k + 1..]
  {
    assert calls[..k + 1] == calls[..k] + [calls[k]];
    assert calls == calls[..k + 1] + calls[k + 1..];
  }

  /** `os.listdir` never yields the same name twice. */
  predicate DistinctNames(dir: seq<Entry>)
  {
    forall i, j :: 0 <= i < j < |dir| ==> dir[i].name != dir[j].name
  }
}
