/**
 * Pass 1 of the extraction script: scan the directory, drop the samples
 * with too few calls into the ignore list, count the rest, and collect
 * from them, in first-seen order and without duplicates, the APIs of
 * successful calls, the APIs of failed calls and the return codes.
 */
module VocabularyBuilder {
  import opened Wrappers
  import opened Reports
  import opened InsertionOrder

  /** The state pass 1 builds: the three vocabularies, the ignore list and `sample_num`. */
  datatype Vocab = Vocab(success: seq<string>, fail: seq<string>, codes: seq<Code>,
                         ignore: seq<string>, sampleNum: nat)

  const Initial: Vocab := Vocab([], [], [], [], 0)

  /** One call of a qualifying sample: status 1 goes to the success list, any other to the fail list. */
  function AddCall(v: Vocab, c: Call): (r: Vocab)
    ensures r.ignore == v.ignore && r.sampleNum == v.sampleNum
    ensures v.success <= r.success && v.fail <= r.fail && v.codes <= r.codes
    ensures c.status == 1 ==> c.api in r.success && r.fail == v.fail
    ensures c.status != 1 ==> c.api in r.fail && r.success == v.success
    ensures c.returnValue in r.codes
  {
    var v1 := if c.status == 1 then v.(success := AppendIfAbsent(v.success, c.api))
              else v.(fail := AppendIfAbsent(v.fail, c.api));
    v1.(codes := AppendIfAbsent(v1.codes, c.returnValue))
  }

  /** The calls of one qualifying sample, in order. */
  function AddCalls(v: Vocab, calls: seq<Call>): (r: Vocab)
    ensures r.ignore == v.ignore && r.sampleNum == v.sampleNum
    ensures v.success <= r.success && v.fail <= r.fail && v.codes <= r.codes
    decreases |calls|
  {
    if calls == [] then v else AddCall(AddCalls(v, calls[..|calls| - 1]), calls[|calls| - 1])
  }

  /** Adding one more call. */
  lemma AddCallsSnoc(v: Vocab, calls: seq<Call>, c: Call)
    ensures AddCalls(v, calls + [c]) == AddCall(AddCalls(v, calls), c)
  {
    assert (calls + [c])[..|calls|] == calls;
  }

  /** A sample that parsed and has at least minCalls calls. */
  predicate Qualifies(e: Entry, minCalls: int)
  {
    e.report.Some? && TotalCalls(e.report.value.processes) >= minCalls
  }

  /** A sample that parsed but has fewer than minCalls calls. */
  predicate BelowThreshold(e: Entry, minCalls: int)
  {
    e.report.Some? && TotalCalls(e.report.value.processes) < minCalls
  }

  /** One directory entry of pass 1. */
  function ScanEntry(v: Vocab, e: Entry, minCalls: int): (r: Vocab)
    ensures r.sampleNum == v.sampleNum + (if Qualifies(e, minCalls) then 1 else 0)
    ensures r.ignore == v.ignore + (if BelowThreshold(e, minCalls) then [e.name] else [])
    ensures v.success <= r.success && v.fail <= r.fail && v.codes <= r.codes
    ensures !Qualifies(e, minCalls) ==> r.success == v.success && r.fail == v.fail && r.codes == v.codes
  {
    match e.report
    case None => v
    case Some(r) =>
      if TotalCalls(r.processes) < minCalls then v.(ignore := v.ignore + [e.name])
      else AddCalls(v.(sampleNum := v.sampleNum + 1), AllCalls(r.processes))
  }

  /** The state after pass 1 has scanned dir. */
  function Pass1(dir: seq<Entry>, minCalls: int): (r: Vocab)
    ensures r.sampleNum == |Qualifying(dir, minCalls)|
    ensures r.ignore == IgnoredNames(dir, minCalls)
    decreases |dir|
  {
    if dir == [] then Initial
    else ScanEntry(Pass1(dir[..|dir| - 1], minCalls), dir[|dir| - 1], minCalls)
  }

  /** Scanning one more entry. */
  lemma Pass1Snoc(dir: seq<Entry>, i: nat, minCalls: int)
    requires i < |dir|
    ensures Pass1(dir[..i + 1], minCalls) == ScanEntry(Pass1(dir[..i], minCalls), dir[i], minCalls)
  {
    assert dir[..i + 1][..i] == dir[..i];
  }

  // Independent descriptions of what pass 1 collects.

  /** The APIs of the calls with status 1, in order. */
  function SuccessApis(calls: seq<Call>): seq<string>
    decreases |calls|
  {
    if calls == [] then []
    else var c := calls[|calls| - 1];
      SuccessApis(calls[..|calls| - 1]) + (if c.status == 1 then [c.api] else [])
  }

  /** The APIs of the calls with any other status, in order. */
  function FailApis(calls: seq<Call>): seq<string>
    decreases |calls|
  {
    if calls == [] then []
    else var c := calls[|calls| - 1];
      FailApis(calls[..|calls| - 1]) + (if c.status != 1 then [c.api] else [])
  }

  /** The return codes of the calls, in order. */
  function CodesOf(calls: seq<Call>): seq<Code>
    decreases |calls|
  {
    if calls == [] then [] else CodesOf(calls[..|calls| - 1]) + [calls[|calls| - 1].returnValue]
  }

  /** The qualifying samples of dir, in listing order. */
  function Qualifying(dir: seq<Entry>, minCalls: int): seq<Entry>
    decreases |dir|
  {
    if dir == [] then []
    else var e := dir[|dir| - 1];
      Qualifying(dir[..|dir| - 1], minCalls) + (if Qualifies(e, minCalls) then [e] else [])
  }

  /** The calls of the qualifying samples of dir, sample after sample. */
  function QualifyingCalls(dir: seq<Entry>, minCalls: int): seq<Call>
    decreases |dir|
  {
    if dir == [] then []
    else var e := dir[|dir| - 1];
      QualifyingCalls(dir[..|dir| - 1], minCalls)
      + (if Qualifies(e, minCalls) then AllCalls(e.report.value.processes) else [])
  }

  /** The names of the parsed samples of dir below the threshold, in listing order. */
  function IgnoredNames(dir: seq<Entry>, minCalls: int): seq<string>
    decreases |dir|
  {
    if dir == [] then []
    else var e := dir[|dir| - 1];
      IgnoredNames(dir[..|dir| - 1], minCalls) + (if BelowThreshold(e, minCalls) then [e.name] else [])
  }

  /** The calls of one sample extend each vocabulary by the matching stream, appended if absent. */
  lemma {:induction false} AddCallsInserts(v: Vocab, calls: seq<Call>)
    ensures AddCalls(v, calls) == v.(success := InsertAll(v.success, SuccessApis(calls)),
                                     fail := InsertAll(v.fail, FailApis(calls)),
                                     codes := InsertAll(v.codes, CodesOf(calls)))
    decreases |calls|
  {
    if calls != [] {
      var init := calls[..|calls| - 1];
      var c := calls[|calls| - 1];
      AddCallsInserts(v, init);
      if c.status == 1 {
        InsertAllConcat(v.success, SuccessApis(init), [c.api]);
        assert FailApis(calls) == FailApis(init) + [];
        assert FailApis(init) + [] == FailApis(init);
      } else {
        InsertAllConcat(v.fail, FailApis(init), [c.api]);
        assert SuccessApis(calls) == SuccessApis(init) + [];
        assert SuccessApis(init) + [] == SuccessApis(init);
      }
      InsertAllConcat(v.codes, CodesOf(init), [c.returnValue]);
    }
  }

  /** The streams of one more call. */
  lemma StreamsSnoc(calls: seq<Call>, c: Call)
    ensures SuccessApis(calls + [c]) == if c.status == 1 then SuccessApis(calls) + [c.api] else SuccessApis(calls)
    ensures FailApis(calls + [c]) == if c.status != 1 then FailApis(calls) + [c.api] else FailApis(calls)
    ensures CodesOf(calls + [c]) == CodesOf(calls) + [c.returnValue]
  {
    assert (calls + [c])[..|calls|] == calls;
    assert SuccessApis(calls) + [] == SuccessApis(calls);
    assert FailApis(calls) + [] == FailApis(calls);
  }

  /**
   * Regrouping a concatenation: StreamsConcat uses it to move the item one
   * more call adds to a stream from the whole stream onto its second part.
   * Kept as a lemma so that the solver sees only the one instance it needs.
   */
  lemma ConcatAssoc<T>(x: seq<T>, y: seq<T>, z: seq<T>)
    ensures (x + y) + z == x + (y + z)
  {
  }

  /** Streams of concatenated call lists are concatenated streams. */
  lemma {:induction false} StreamsConcat(a: seq<Call>, b: seq<Call>)
    ensures SuccessApis(a + b) == SuccessApis(a) + SuccessApis(b)
    ensures FailApis(a + b) == FailApis(a) + FailApis(b)
    ensures CodesOf(a + b) == CodesOf(a) + CodesOf(b)
    decreases |b|
  {
    if b == [] {
      assert a + b == a;
    } else {
      var b' := b[..|b| - 1];
      var c := b[|b| - 1];
      assert b == b' + [c] && a + b == (a + b') + [c];
      StreamsConcat(a, b');
      StreamsSnoc(a + b', c);
      StreamsSnoc(b', c);
      if c.status == 1 {
        ConcatAssoc(SuccessApis(a), SuccessApis(b'), [c.api]);
      } else {
        ConcatAssoc(FailApis(a), FailApis(b'), [c.api]);
      }
      ConcatAssoc(CodesOf(a), CodesOf(b'), [c.returnValue]);
    }
  }

  /**
   * What pass 1 computes: each vocabulary lists the distinct items of its
   * stream over the qualifying samples in first-seen order, the ignore list
   * names the parsed samples below the threshold in listing order, and
   * `sample_num` counts the qualifying samples.
   */
  lemma {:induction false} Pass1Characterization(dir: seq<Entry>, minCalls: int)
    ensures Pass1(dir, minCalls).success == Dedup(SuccessApis(QualifyingCalls(dir, minCalls)))
    ensures Pass1(dir, minCalls).fail == Dedup(FailApis(QualifyingCalls(dir, minCalls)))
    ensures Pass1(dir, minCalls).codes == Dedup(CodesOf(QualifyingCalls(dir, minCalls)))
    ensures Pass1(dir, minCalls).ignore == IgnoredNames(dir, minCalls)
    ensures Pass1(dir, minCalls).sampleNum == |Qualifying(dir, minCalls)|
    decreases |dir|
  {
    if dir != [] {
      var init := dir[..|dir| - 1];
      var e := dir[|dir| - 1];
      Pass1Characterization(init, minCalls);
      var before := QualifyingCalls(init, minCalls);
      if Qualifies(e, minCalls) {
        var v := Pass1(init, minCalls);
        var calls := AllCalls(e.report.value.processes);
        AddCallsInserts(v.(sampleNum := v.sampleNum + 1), calls);
        StreamsConcat(before, calls);
        InsertAllConcat([], SuccessApis(before), SuccessApis(calls));
        InsertAllConcat([], FailApis(before), FailApis(calls));
        InsertAllConcat([], CodesOf(before), CodesOf(calls));
      } else {
        assert QualifyingCalls(dir, minCalls) == before + [];
        assert before + [] == before;
      }
    }
  }

  /** After pass 1 no vocabulary holds a duplicate. */
  lemma Pass1NoDup(dir: seq<Entry>, minCalls: int)
    ensures NoDup(Pass1(dir, minCalls).success)
    ensures NoDup(Pass1(dir, minCalls).fail)
    ensures NoDup(Pass1(dir, minCalls).codes)
  {
    Pass1Characterization(dir, minCalls);
    var calls := QualifyingCalls(dir, minCalls);
    InsertAllNoDup([], SuccessApis(calls));
    InsertAllNoDup([], FailApis(calls));
    InsertAllNoDup([], CodesOf(calls));
  }

  /** Every item of d occurs in s, and d lists its items in the order of their first occurrence in s. */
  predicate FirstSeenOrdered<T(==)>(d: seq<T>, s: seq<T>)
  {
    && (forall i :: 0 <= i < |d| ==> d[i] in s)
    && (forall i, j :: 0 <= i < j < |d| ==> IndexOf(s, d[i]).value < IndexOf(s, d[j]).value)
  }

  /** A first-seen deduplication is ordered by first occurrence. */
  lemma DedupOrdered<T>(s: seq<T>)
    ensures FirstSeenOrdered(Dedup(s), s)
  {
    var d := Dedup(s);
    forall i | 0 <= i < |d| ensures d[i] in s {
      InsertAllMembers([], s, d[i]);
    }
    forall i, j | 0 <= i < j < |d| ensures IndexOf(s, d[i]).value < IndexOf(s, d[j]).value {
      DedupFirstSeenOrder(s, i, j);
    }
  }

  /**
   * Each vocabulary lists its items in the order they are first seen in its
   * stream over the qualifying samples' calls, in listing order.
   */
  lemma Pass1FirstSeenOrder(dir: seq<Entry>, minCalls: int)
    ensures FirstSeenOrdered(Pass1(dir, minCalls).success, SuccessApis(QualifyingCalls(dir, minCalls)))
    ensures FirstSeenOrdered(Pass1(dir, minCalls).fail, FailApis(QualifyingCalls(dir, minCalls)))
    ensures FirstSeenOrdered(Pass1(dir, minCalls).codes, CodesOf(QualifyingCalls(dir, minCalls)))
  {
    Pass1Characterization(dir, minCalls);
    var calls := QualifyingCalls(dir, minCalls);
    DedupOrdered(SuccessApis(calls));
    DedupOrdered(FailApis(calls));
    DedupOrdered(CodesOf(calls));
  }

  /** A sample below the threshold only extends the ignore list. */
  lemma BelowThresholdOnlyIgnored(v: Vocab, e: Entry, minCalls: int)
    requires BelowThreshold(e, minCalls)
    ensures ScanEntry(v, e, minCalls) == v.(ignore := v.ignore + [e.name])
  {
  }

  /** The loop that adds up the lengths of a report's call lists. */
  method CountCalls(procs: seq<Process>) returns (total: int)
    ensures total == TotalCalls(procs)
  {
    total := 0;
    var p := 0;
    while p < |procs|
      invariant 0 <= p <= |procs|
      invariant total == TotalCalls(procs[..p])
    {
      assert procs[..p + 1][..p] == procs[..p];
      total := total + |procs[p].calls|;
      p := p + 1;
    }
    assert procs[..p] == procs;
  }

  /** The loop over one process's calls, continuing pass 1 after the calls in done. */
  method AppendProcessCalls(success0: seq<string>, fail0: seq<string>, codes0: seq<Code>,
                            calls: seq<Call>, ghost start: Vocab, ghost done: seq<Call>)
    returns (successApis: seq<string>, failApis: seq<string>, returnCodes: seq<Code>)
    requires Vocab(success0, fail0, codes0, [], 0) == AddCalls(start, done)
    ensures Vocab(successApis, failApis, returnCodes, [], 0) == AddCalls(start, done + calls)
  {
    successApis, failApis, returnCodes := success0, fail0, codes0;
    ghost var seen := done;
    var k := 0;
    while k < |calls|
      invariant 0 <= k <= |calls|
      invariant seen == done + calls[..k]
      invariant Vocab(successApis, failApis, returnCodes, [], 0) == AddCalls(start, seen)
    {
      var c := calls[k];
      AddCallsSnoc(start, seen, c);
      CallsSplit(done, calls, k);
      if c.status == 1 {
        if c.api !in successApis {
          successApis := successApis + [c.api];
        }
      } else if c.api !in failApis {
        failApis := failApis + [c.api];
      }
      if c.returnValue !in returnCodes {
        returnCodes := returnCodes + [c.returnValue];
      }
      seen := seen + [c];
      k := k + 1;
    }
    assert calls[..k] == calls;
  }

  /**
   * The nested loops over the processes and calls of a qualifying sample,
   * appending absent APIs and return codes to the three lists.
   */
  method AppendCalls(success0: seq<string>, fail0: seq<string>, codes0: seq<Code>, procs: seq<Process>)
    returns (successApis: seq<string>, failApis: seq<string>, returnCodes: seq<Code>)
    ensures successApis == InsertAll(success0, SuccessApis(AllCalls(procs)))
    ensures failApis == InsertAll(fail0, FailApis(AllCalls(procs)))
    ensures returnCodes == InsertAll(codes0, CodesOf(AllCalls(procs)))
  {
    successApis, failApis, returnCodes := success0, fail0, codes0;
    ghost var start := Vocab(success0, fail0, codes0, [], 0);
    var p := 0;
    while p < |procs|
      invariant 0 <= p <= |procs|
      invariant Vocab(successApis, failApis, returnCodes, [], 0) == AddCalls(start, AllCalls(procs[..p]))
    {
      assert procs[..p + 1][..p] == procs[..p];
      successApis, failApis, returnCodes :=
        AppendProcessCalls(successApis, failApis, returnCodes, procs[p].calls, start, AllCalls(procs[..p]));
      p := p + 1;
    }
    assert procs[..p] == procs;
    AddCallsInserts(start, AllCalls(procs));
  }

  /**
   * One iteration of pass 1: skip a sample that did not parse, ignore one
   * with too few calls, and otherwise count it and append its calls' items
   * to the three lists.
   */
  method ScanSample(v0: Vocab, e: Entry, minCalls: int) returns (v: Vocab)
    ensures v == ScanEntry(v0, e, minCalls)
  {
    v := v0;
    if e.report.None? {
      return;
    }
    var procs := e.report.value.processes;
    var total := CountCalls(procs);
    if total < minCalls {
      v := v.(ignore := v.ignore + [e.name]);
      assert v == ScanEntry(v0, e, minCalls);
      return;
    }
    v := v.(sampleNum := v.sampleNum + 1);
    assert ScanEntry(v0, e, minCalls) == AddCalls(v, AllCalls(procs));
    AddCallsInserts(v, AllCalls(procs));
    var successApis, failApis, returnCodes := AppendCalls(v.success, v.fail, v.codes, procs);
    v := v.(success := successApis, fail := failApis, codes := returnCodes);
  }

  /** Pass 1 as the script runs it: the scan of every entry of the listing, in order. */
  method BuildVocabulary(dir: seq<Entry>, minCalls: int) returns (v: Vocab)
    ensures v == Pass1(dir, minCalls)
    ensures v.sampleNum == |Qualifying(dir, minCalls)| && v.ignore == IgnoredNames(dir, minCalls)
    ensures NoDup(v.success) && NoDup(v.fail) && NoDup(v.codes)
  {
    v := Initial;
    var i := 0;
    while i < |dir|
      invariant 0 <= i <= |dir|
      invariant v == Pass1(dir[..i], minCalls)
    {
      Pass1Snoc(dir, i, minCalls);
      v := ScanSample(v, dir[i], minCalls);
      i := i + 1;
    }
    assert dir[..i] == dir;
    Pass1Characterization(dir, minCalls);
    Pass1NoDup(dir, minCalls);
  }
}
