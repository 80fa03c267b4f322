// The whole script: pass 1 over the listing, the two zero matrices sized
// by its results, and pass 2 over the same listing; and what ties the two
// passes together — pass 2 picks exactly the samples pass 1 counted, and
// finds every call of them in the vocabularies when the statuses are 0 or 1.

module Extraction {
  import opened Wrappers
  import opened Reports
  import opened InsertionOrder
  import opened Filenames
  import opened VocabularyBuilder
  import opened Vectorizer

  // Pass 2 skips exactly the samples pass 1 did not count.

  /** A parsed sample below the threshold is in the ignore list. */
  lemma {:induction false} IgnoredNamesHas(dir: seq<Entry>, minCalls: int, k: nat)
    requires k < |dir| && BelowThreshold(dir[k], minCalls)
    ensures dir[k].name in IgnoredNames(dir, minCalls)
    decreases |dir|
  {
    var pre := dir[..|dir| - 1];
    if k < |dir| - 1 {
      assert pre[k] == dir[k];
      IgnoredNamesHas(pre, minCalls, k);
    }
  }

  /** A name that no entry below the threshold carries is not in the ignore list. */
  lemma {:induction false} IgnoredNamesOnlyBelow(dir: seq<Entry>, minCalls: int, x: string)
    requires forall i :: 0 <= i < |dir| && dir[i].name == x ==> !BelowThreshold(dir[i], minCalls)
    ensures x !in IgnoredNames(dir, minCalls)
    decreases |dir|
  {
    if dir != [] {
      var pre := dir[..|dir| - 1];
      assert forall i :: 0 <= i < |pre| ==> pre[i] == dir[i];
      IgnoredNamesOnlyBelow(pre, minCalls, x);
    }
  }

  /** With distinct names, an entry is picked by pass 2 exactly when it qualifies in pass 1. */
  lemma PickedIffQualifies(dir: seq<Entry>, minCalls: int, k: nat)
    requires DistinctNames(dir) && k < |dir|
    ensures Picked(dir[k], IgnoredNames(dir, minCalls)) <==> Qualifies(dir[k], minCalls)
  {
    if BelowThreshold(dir[k], minCalls) {
      IgnoredNamesHas(dir, minCalls, k);
    } else if Qualifies(dir[k], minCalls) {
      IgnoredNamesOnlyBelow(dir, minCalls, dir[k].name);
    }
  }

  /** The entries pass 2 selects from a prefix of the listing are the ones pass 1 counted there. */
  lemma {:induction false} SelectedPrefixIsQualifying(dir: seq<Entry>, minCalls: int, n: nat)
    requires DistinctNames(dir) && n <= |dir|
    ensures Selected(dir[..n], IgnoredNames(dir, minCalls)) == Qualifying(dir[..n], minCalls)
    decreases n
  {
    if n > 0 {
      var ignore := IgnoredNames(dir, minCalls);
      SelectedPrefixIsQualifying(dir, minCalls, n - 1);
      SelectedSnoc(dir, n - 1, ignore);
      assert dir[..n][..n - 1] == dir[..n - 1];
      PickedIffQualifies(dir, minCalls, n - 1);
    }
  }

  /**
   * Pass 2 fills a row for each sample pass 1 counted, in the same order, so
   * the `sample_num` rows of the matrices are exactly enough.
   */
  lemma SelectedIsQualifying(dir: seq<Entry>, minCalls: int)
    requires DistinctNames(dir)
    ensures Selected(dir, Pass1(dir, minCalls).ignore) == Qualifying(dir, minCalls)
    ensures |Selected(dir, Pass1(dir, minCalls).ignore)| == Pass1(dir, minCalls).sampleNum
  {
    Pass1Characterization(dir, minCalls);
    SelectedPrefixIsQualifying(dir, minCalls, |dir|);
    assert dir[..|dir|] == dir;
  }

  // Pass 2 finds the calls pass 1 collected.

  /** Each call contributes to the streams by its status. */
  lemma {:induction false} StreamMembers(calls: seq<Call>, c: Call)
    requires c in calls
    ensures c.status == 1 ==> c.api in SuccessApis(calls)
    ensures c.status != 1 ==> c.api in FailApis(calls)
    ensures c.returnValue in CodesOf(calls)
    decreases |calls|
  {
    var pre := calls[..|calls| - 1];
    assert calls == pre + [calls[|calls| - 1]];
    if c != calls[|calls| - 1] {
      StreamMembers(pre, c);
    }
  }

  /** The calls of a qualifying sample are among the calls pass 1 scans. */
  lemma {:induction false} QualifyingCallsCover(dir: seq<Entry>, minCalls: int, k: nat, c: Call)
    requires k < |dir| && Qualifies(dir[k], minCalls)
    requires c in AllCalls(dir[k].report.value.processes)
    ensures c in QualifyingCalls(dir, minCalls)
    decreases |dir|
  {
    var pre := dir[..|dir| - 1];
    if k < |dir| - 1 {
      assert pre[k] == dir[k];
      QualifyingCallsCover(pre, minCalls, k, c);
    }
  }

  /**
   * A call pass 1 scanned whose status is 0 or 1 is found by both of pass
   * 2's lookups: pass 1 files status 1 under the successes and pass 2 looks
   * a nonzero status up there, and likewise for 0.
   */
  lemma Pass1Resolves(dir: seq<Entry>, minCalls: int, c: Call)
    requires c in QualifyingCalls(dir, minCalls)
    requires c.status == 0 || c.status == 1
    ensures Resolvable(Pass1(dir, minCalls), c)
  {
    var calls := QualifyingCalls(dir, minCalls);
    Pass1Characterization(dir, minCalls);
    StreamMembers(calls, c);
    InsertAllMembers([], SuccessApis(calls), c.api);
    InsertAllMembers([], FailApis(calls), c.api);
    InsertAllMembers([], CodesOf(calls), c.returnValue);
  }

  /** A report whose every call has status 0 or 1. */
  predicate BinaryStatuses(r: Report)
  {
    forall c :: c in AllCalls(r.processes) ==> c.status == 0 || c.status == 1
  }

  /** Every sample pass 1 counts has binary statuses and a name whose second field converts. */
  predicate WellFormed(dir: seq<Entry>, minCalls: int)
  {
    forall k :: 0 <= k < |dir| && Qualifies(dir[k], minCalls) ==>
      BinaryStatuses(dir[k].report.value) && SampleId(dir[k].name).Some?
  }

  /** Such a sample fills its rows without raising. */
  lemma SampleSucceeds(dir: seq<Entry>, minCalls: int, k: nat)
    requires k < |dir| && Qualifies(dir[k], minCalls)
    requires BinaryStatuses(dir[k].report.value) && SampleId(dir[k].name).Some?
    ensures SampleEffect(Pass1(dir, minCalls), dir[k].name, dir[k].report.value).fault.None?
  {
    var v := Pass1(dir, minCalls);
    var r := dir[k].report.value;
    forall c | c in AllCalls(r.processes) ensures Resolvable(v, c) {
      QualifyingCallsCover(dir, minCalls, k, c);
      Pass1Resolves(dir, minCalls, c);
    }
    Pass1NoDup(dir, minCalls);
    SampleFault(v, dir[k].name, r);
  }

  /** In a well-formed listing, no counted sample makes pass 2 raise. */
  lemma WellFormedSucceeds(dir: seq<Entry>, minCalls: int, k: nat)
    requires WellFormed(dir, minCalls) && k < |dir| && Picked(dir[k], Pass1(dir, minCalls).ignore)
    requires DistinctNames(dir)
    ensures SampleEffect(Pass1(dir, minCalls), dir[k].name, dir[k].report.value).fault.None?
  {
    Pass1Characterization(dir, minCalls);
    PickedIffQualifies(dir, minCalls, k);
    SampleSucceeds(dir, minCalls, k);
  }

  /**
   * A completed row of the matrices: the API-outcome region and the
   * return-code region of the feature row each sum to the sample's call
   * total, and the label column holds the family label, the same value as
   * score column 2.
   */
  lemma DoneRowFacts(m: array2<int>, sc: array2<int>, i: nat, v: Vocab, e: Entry)
    requires m.Length1 == Width(v) && RowDone(m, sc, i, v, e)
    ensures Sum(RowOf(m, i)[..ApiEnd(v)]) == TotalCalls(e.report.value.processes)
    ensures Sum(RowOf(m, i)[ApiEnd(v)..CodeEnd(v)]) == TotalCalls(e.report.value.processes)
    ensures m[i, Width(v) - 1] == sc[i, 2] == LabelOf(FamilyPrefix(e.name))
  {
    var r := e.report.value;
    SampleNoFaultResolved(v, e.name, r);
    SampleRowSums(v, e.name, r);
    SampleLabel(v, e.name, r);
    SampleScores(v, e.name, r);
    assert RowOf(m, i) == SampleEffect(v, e.name, r).row;
  }

  /**
   * The script: pass 1, `numpy.zeros` of sample_num rows for both matrices,
   * and pass 2 over the same listing. On failure, the entry at index k raised
   * fault f after its counts were written, and the rows after it are zero.
   */
  method Extract(dir: seq<Entry>, minCalls: int)
    returns (v: Vocab, m: array2<int>, sc: array2<int>, ids: nat, failure: Option<(nat, Fault)>)
    requires DistinctNames(dir)
    ensures v == Pass1(dir, minCalls) && v.sampleNum == |Qualifying(dir, minCalls)|
    ensures m.Length0 == v.sampleNum == sc.Length0 && m.Length1 == Width(v) && sc.Length1 == 3
    ensures ids <= v.sampleNum
    ensures forall i :: 0 <= i < ids ==> RowDone(m, sc, i, v, Qualifying(dir, minCalls)[i])
    ensures forall i :: 0 <= i < ids ==>
      && Qualifying(dir, minCalls)[i].report.Some?
      && var calls := TotalCalls(Qualifying(dir, minCalls)[i].report.value.processes);
      && Sum(RowOf(m, i)[..ApiEnd(v)]) == calls
      && Sum(RowOf(m, i)[ApiEnd(v)..CodeEnd(v)]) == calls
      && m[i, Width(v) - 1] == sc[i, 2] == LabelOf(FamilyPrefix(Qualifying(dir, minCalls)[i].name))
    ensures failure.None? <==> ids == v.sampleNum
    ensures failure.Some? ==>
      var (k, f) := failure.value;
      && k < |dir| && Qualifies(dir[k], minCalls)
      && Qualifying(dir, minCalls)[ids] == dir[k] && ids == |Qualifying(dir[..k], minCalls)|
      && StoppedAt(m, sc, ids, v, dir[k], f)
    ensures WellFormed(dir, minCalls) ==> failure.None?
  {
    v := BuildVocabulary(dir, minCalls);
    m := new int[v.sampleNum, Width(v)]((_, _) => 0);
    sc := new int[v.sampleNum, 3]((_, _) => 0);
    SelectedIsQualifying(dir, minCalls);
    Pass1Characterization(dir, minCalls);
    ghost var sel := Selected(dir, v.ignore);
    ghost var want := seq(|sel|, i requires 0 <= i < |sel| => Effect(v, sel[i]));
    ids, failure := FillMatrices(dir, v, m, sc, want);
    HeldRowsDone(m, sc, v, sel, want, ids);
    forall i | 0 <= i < ids
      ensures var e := Qualifying(dir, minCalls)[i];
        && Sum(RowOf(m, i)[..ApiEnd(v)]) == TotalCalls(e.report.value.processes)
        && Sum(RowOf(m, i)[ApiEnd(v)..CodeEnd(v)]) == TotalCalls(e.report.value.processes)
        && m[i, Width(v) - 1] == sc[i, 2] == LabelOf(FamilyPrefix(e.name))
    {
      DoneRowFacts(m, sc, i, v, Qualifying(dir, minCalls)[i]);
    }
    if failure.Some? {
      var (k, f) := failure.value;
      assert want[ids] == Effect(v, dir[k]);
      PickedIffQualifies(dir, minCalls, k);
      SelectedPrefixIsQualifying(dir, minCalls, k);
      if WellFormed(dir, minCalls) {
        WellFormedSucceeds(dir, minCalls, k);
      }
    }
  }

  // The worked example: one file `benign-001.json` with two processes, the
  // first calling A (status 1, code 0) then B (status 0, code 1), the second
  // calling A again, under threshold 1. The lemmas below take the two API
  // names as parameters x and y; BenignScenario fixes them to "A" and "B".

  function ScenarioReport(x: string, y: string, score: int): Report
  {
    Report([Process([Call(x, 1, IntCode(0)), Call(y, 0, IntCode(1))]),
            Process([Call(x, 1, IntCode(0))])], score)
  }

  function ScenarioVocab(x: string, y: string): Vocab
  {
    Vocab([x], [y], [IntCode(0), IntCode(1)], [], 1)
  }

  /** The example report's calls, process after process. */
  lemma ScenarioCalls(x: string, y: string, score: int)
    ensures AllCalls(ScenarioReport(x, y, score).processes)
         == [Call(x, 1, IntCode(0)), Call(y, 0, IntCode(1)), Call(x, 1, IntCode(0))]
  {
    var r := ScenarioReport(x, y, score);
    assert r.processes[..1] == [r.processes[0]] && r.processes[..1][..0] == [];
    assert AllCalls(r.processes[..1]) == r.processes[0].calls;
  }

  /** Pass 1 adds the example's three calls one at a time. */
  lemma ScenarioAdds(x: string, y: string)
    ensures AddCalls(Initial.(sampleNum := 1), [Call(x, 1, IntCode(0)), Call(y, 0, IntCode(1)), Call(x, 1, IntCode(0))])
         == ScenarioVocab(x, y)
  {
    var a := Call(x, 1, IntCode(0));
    var b := Call(y, 0, IntCode(1));
    var v1 := Initial.(sampleNum := 1);
    AddCallsSnoc(v1, [], a);
    AddCallsSnoc(v1, [a], b);
    AddCallsSnoc(v1, [a, b], a);
    assert [] + [a] == [a] && [a] + [b] == [a, b] && [a, b] + [a] == [a, b, a];
    ScenarioAddSteps(x, y);
  }

  /** The vocabulary after each of the example's calls. */
  lemma ScenarioAddSteps(x: string, y: string)
    ensures AddCall(Initial.(sampleNum := 1), Call(x, 1, IntCode(0))) == Vocab([x], [], [IntCode(0)], [], 1)
    ensures AddCall(Vocab([x], [], [IntCode(0)], [], 1), Call(y, 0, IntCode(1))) == ScenarioVocab(x, y)
    ensures AddCall(ScenarioVocab(x, y), Call(x, 1, IntCode(0))) == ScenarioVocab(x, y)
  {
    assert AppendIfAbsent([IntCode(0)], IntCode(1)) == [IntCode(0), IntCode(1)];
  }

  /** Pass 1 over the example finds success APIs [x], fail APIs [y] and codes [0, 1]. */
  lemma ScenarioVocabulary(name: string, x: string, y: string, score: int)
    ensures Pass1([Entry(name, Some(ScenarioReport(x, y, score)))], 1) == ScenarioVocab(x, y)
  {
    var r := ScenarioReport(x, y, score);
    var dir := [Entry(name, Some(r))];
    ScenarioCalls(x, y, score);
    assert dir[..0] == [];
    assert Pass1(dir, 1) == ScanEntry(Initial, dir[0], 1);
    ScenarioAdds(x, y);
  }

  /** The lookups of the example's calls in its vocabulary. */
  lemma ScenarioCells(x: string, y: string)
    ensures var v := ScenarioVocab(x, y);
      && ApiCell(v, Call(x, 1, IntCode(0))) == Some(0) && CodeCell(v, Call(x, 1, IntCode(0))) == Some(2)
      && ApiCell(v, Call(y, 0, IntCode(1))) == Some(1) && CodeCell(v, Call(y, 0, IntCode(1))) == Some(3)
  {
    var codes := [IntCode(0), IntCode(1)];
    IndexOfNoDup([x], 0);
    IndexOfNoDup([y], 0);
    IndexOfNoDup(codes, 0);
    IndexOfNoDup(codes, 1);
  }

  /** Each of the three calls adds one to its API cell and one to its code cell. */
  lemma ScenarioSteps(x: string, y: string)
    ensures var v := ScenarioVocab(x, y);
      && StepCall([0, 0, 0, 0, 0], v, Call(x, 1, IntCode(0))) == RowFill([1, 0, 1, 0, 0], None)
      && StepCall([1, 0, 1, 0, 0], v, Call(y, 0, IntCode(1))) == RowFill([1, 1, 1, 1, 0], None)
      && StepCall([1, 1, 1, 1, 0], v, Call(x, 1, IntCode(0))) == RowFill([2, 1, 2, 1, 0], None)
  {
    ScenarioCells(x, y);
  }

  /** The three calls count into the row [2, 1, 2, 1, 0] before the label. */
  lemma ScenarioCounts(x: string, y: string, score: int)
    ensures FillCalls(Zeros(5), ScenarioVocab(x, y), AllCalls(ScenarioReport(x, y, score).processes))
         == RowFill([2, 1, 2, 1, 0], None)
  {
    var a := Call(x, 1, IntCode(0));
    var b := Call(y, 0, IntCode(1));
    var v := ScenarioVocab(x, y);
    var z := Zeros(5);
    ScenarioCalls(x, y, score);
    ScenarioSteps(x, y);
    assert z == [0, 0, 0, 0, 0];
    assert [] + [a] == [a] && [a] + [b] == [a, b] && [a, b] + [a] == [a, b, a];
    FillSnoc(z, v, [], a);
    assert FillCalls(z, v, [a]) == RowFill([1, 0, 1, 0, 0], None);
    FillSnoc(z, v, [a], b);
    assert FillCalls(z, v, [a, b]) == RowFill([1, 1, 1, 1, 0], None);
    FillSnoc(z, v, [a, b], a);
  }

  /** Labelling and scoring the example's counts as family 1 with id n. */
  lemma ScenarioFinish(name: string, n: nat, score: int)
    ensures Finish(RowFill([2, 1, 2, 1, 0], None), 1, Some(n), name, score)
         == SampleRows([2, 1, 2, 1, 1], [n, score, 1], None)
  {
    var f := RowFill([2, 1, 2, 1, 0], None);
    FinishUnfaulted(f, 1, Some(n), name, score);
    var s := Finish(f, 1, Some(n), name, score);
    assert s.row == s.row[..4] + [s.row[4]];
  }

  /** The example's report under any benign name with id n. */
  lemma ScenarioRows(name: string, n: nat, x: string, y: string, score: int)
    requires FamilyPrefix(name) == "benign" && SampleId(name) == Some(n)
    ensures SampleEffect(ScenarioVocab(x, y), name, ScenarioReport(x, y, score))
         == SampleRows([2, 1, 2, 1, 1], [n, score, 1], None)
  {
    ScenarioCounts(x, y, score);
    assert LabelOf("benign") == 1;
    ScenarioFinish(name, n, score);
  }

  /** The example's name splits into the family benign, the digits 001 and the extension. */
  lemma ScenarioNameParts()
    ensures "benign-001.json" == "benign" + ['-'] + "001" + ".json"
    ensures '-' !in "benign" && '.' !in "benign"
  {
  }

  /** The digits 001 denote 1. */
  lemma ScenarioDigits()
    ensures AllDigits("001") && DecimalValue("001") == 1
  {
    assert forall i :: 0 <= i < |"001"| ==> IsDigit("001"[i]);
    assert "001"[..2] == "00" && "00"[..1] == "0" && "0"[..0] == [];
  }

  /** The example's name is of the family benign and has id 1. */
  lemma ScenarioName()
    ensures FamilyPrefix("benign-001.json") == "benign"
    ensures SampleId("benign-001.json") == Some(1)
  {
    ScenarioNameParts();
    ScenarioDigits();
    ConventionalName("benign", "001", ".json");
  }

  /**
   * The worked example end to end: pass 1 finds [A], [B] and [0, 1], and
   * pass 2 fills the row [2, 1, 2, 1, 1] and the scores [1, score, 1].
   */
  lemma BenignScenario(score: int)
    ensures var r := ScenarioReport("A", "B", score);
      && Pass1([Entry("benign-001.json", Some(r))], 1) == Vocab(["A"], ["B"], [IntCode(0), IntCode(1)], [], 1)
      && SampleEffect(Pass1([Entry("benign-001.json", Some(r))], 1), "benign-001.json", r)
         == SampleRows([2, 1, 2, 1, 1], [1, score, 1], None)
  {
    ScenarioVocabulary("benign-001.json", "A", "B", score);
    ScenarioName();
    ScenarioRows("benign-001.json", 1, "A", "B", score);
  }
}
