/**
 * Pass 2 of the extraction script: for every sample that is neither
 * ignored nor unparsable, count each call into one API-outcome cell and one
 * return-code cell of its feature row, write the family label into the last
 * column and the id, score and label into its score row.
 */
module Vectorizer {
  import opened Wrappers
  import opened Reports
  import opened InsertionOrder
  import opened Filenames
  import opened VocabularyBuilder

  /** `data_length`: the success APIs, the fail APIs, the return codes and the label column. */
  function Width(v: Vocab): (w: nat)
    ensures ApiEnd(v) <= CodeEnd(v) && w - 1 == CodeEnd(v)
  {
    |v.success| + |v.fail| + |v.codes| + 1
  }

  /** Where the API-outcome region ends and the return-code region starts. */
  function ApiEnd(v: Vocab): nat
  {
    |v.success| + |v.fail|
  }

  /** Where the return-code region ends; the label column follows. */
  function CodeEnd(v: Vocab): nat
  {
    |v.success| + |v.fail| + |v.codes|
  }

  /** Why pass 2 stops: a `list.index` that raises, or an id field that does not convert. */
  datatype Fault = UnknownApi(api: string) | UnknownCode(code: Code) | BadId(name: string)

  /**
   * The API-outcome cell of a call: a truthy status looks the api up in the
   * success APIs, a zero status in the fail APIs after them; None where the
   * lookup raises.
   */
  function ApiCell(v: Vocab, c: Call): (r: Option<nat>)
    ensures r.None? <==> (if c.status != 0 then c.api !in v.success else c.api !in v.fail)
    ensures r.Some? && c.status != 0 ==> r.value < |v.success| && v.success[r.value] == c.api
    ensures r.Some? && c.status == 0 ==>
              |v.success| <= r.value < ApiEnd(v) && v.fail[r.value - |v.success|] == c.api
  {
    if c.status != 0 then IndexOf(v.success, c.api)
    else match IndexOf(v.fail, c.api)
      case None => None
      case Some(i) => Some(|v.success| + i)
  }

  /** The return-code cell of a call, after both API lists; None where the lookup raises. */
  function CodeCell(v: Vocab, c: Call): (r: Option<nat>)
    ensures r.None? <==> c.returnValue !in v.codes
    ensures r.Some? ==> ApiEnd(v) <= r.value < CodeEnd(v) && v.codes[r.value - ApiEnd(v)] == c.returnValue
  {
    match IndexOf(v.codes, c.returnValue)
    case None => None
    case Some(i) => Some(ApiEnd(v) + i)
  }

  /** Both lookups of a call succeed. */
  predicate Resolvable(v: Vocab, c: Call)
  {
    ApiCell(v, c).Some? && CodeCell(v, c).Some?
  }

  /** A row being filled, and the fault that stopped the filling if any. */
  datatype RowFill = RowFill(row: seq<int>, fault: Option<Fault>)

  /** One call: increment its API-outcome cell, then its return-code cell. */
  function StepCall(row: seq<int>, v: Vocab, c: Call): (r: RowFill)
    requires |row| == Width(v)
    ensures |r.row| == |row|
    ensures r.fault.None? <==> Resolvable(v, c)
    ensures r.row[CodeEnd(v)] == row[CodeEnd(v)]
  {
    match ApiCell(v, c)
    case None => RowFill(row, Some(UnknownApi(c.api)))
    case Some(a) =>
      var row1 := row[a := row[a] + 1];
      match CodeCell(v, c)
      case None => RowFill(row1, Some(UnknownCode(c.returnValue)))
      case Some(b) => RowFill(row1[b := row1[b] + 1], None)
  }

  /** The calls in order, stopping at the first fault. */
  function FillCalls(row: seq<int>, v: Vocab, calls: seq<Call>): (r: RowFill)
    requires |row| == Width(v)
    ensures |r.row| == |row|
    ensures r.row[CodeEnd(v)] == row[CodeEnd(v)]
    decreases |calls|
  {
    if calls == [] then RowFill(row, None)
    else
      var prev := FillCalls(row, v, calls[..|calls| - 1]);
      if prev.fault.Some? then prev else StepCall(prev.row, v, calls[|calls| - 1])
  }

  /** A row of `numpy.zeros`. */
  function Zeros(n: nat): (z: seq<int>)
    ensures |z| == n && forall i :: 0 <= i < n ==> z[i] == 0
  {
    seq(n, _ => 0)
  }

  /** The feature row and the score row of one sample, and the fault that ended the run if any. */
  datatype SampleRows = SampleRows(row: seq<int>, scores: seq<int>, fault: Option<Fault>)

  /** The last cell of a row set to a nonzero label; a zero label writes nothing. */
  function WithLabel(row: seq<int>, family: int): (r: seq<int>)
    requires |row| > 0
    ensures |r| == |row| && r[..|row| - 1] == row[..|row| - 1]
    ensures r[|row| - 1] == if family != 0 then family else row[|row| - 1]
  {
    if family != 0 then row[|row| - 1 := family] else row
  }

  /**
   * What pass 2 writes after the calls of a sample: nothing more if a
   * lookup raised; otherwise the label, if nonzero, into the last feature
   * column and score column 2, then the id into score column 0 and the
   * score into column 1, unless the id does not convert.
   */
  function Finish(f: RowFill, family: int, id: Option<nat>, name: string, score: int): (s: SampleRows)
    requires |f.row| > 0
    ensures |s.row| == |f.row| && |s.scores| == 3
  {
    if f.fault.Some? then SampleRows(f.row, Zeros(3), f.fault)
    else
      var row := WithLabel(f.row, family);
      var scores := WithLabel(Zeros(3), family);
      match id
      case None => SampleRows(row, scores, Some(BadId(name)))
      case Some(n) => SampleRows(row, scores[0 := n][1 := score], None)
  }

  /** What pass 2 writes for one sample into its zero rows. */
  function SampleEffect(v: Vocab, name: string, r: Report): (s: SampleRows)
    ensures |s.row| == Width(v) && |s.scores| == 3
  {
    Finish(FillCalls(Zeros(Width(v)), v, AllCalls(r.processes)), LabelOf(FamilyPrefix(name)), SampleId(name), name, r.score)
  }

  // Independent descriptions of a row's cells.

  /** The number of calls with a truthy status to api. */
  function CountSuccess(calls: seq<Call>, api: string): nat
    decreases |calls|
  {
    if calls == [] then 0
    else var c := calls[|calls| - 1];
      CountSuccess(calls[..|calls| - 1], api) + (if c.status != 0 && c.api == api then 1 else 0)
  }

  /** The number of calls with a zero status to api. */
  function CountFail(calls: seq<Call>, api: string): nat
    decreases |calls|
  {
    if calls == [] then 0
    else var c := calls[|calls| - 1];
      CountFail(calls[..|calls| - 1], api) + (if c.status == 0 && c.api == api then 1 else 0)
  }

  /** The number of calls returning code. */
  function CountCode(calls: seq<Call>, code: Code): nat
    decreases |calls|
  {
    if calls == [] then 0
    else var c := calls[|calls| - 1];
      CountCode(calls[..|calls| - 1], code) + (if c.returnValue == code then 1 else 0)
  }

  /** Filling one more call. */
  lemma FillSnoc(row: seq<int>, v: Vocab, calls: seq<Call>, c: Call)
    requires |row| == Width(v)
    ensures FillCalls(row, v, calls + [c])
         == (var prev := FillCalls(row, v, calls);
             if prev.fault.Some? then prev else StepCall(prev.row, v, c))
  {
    assert (calls + [c])[..|calls|] == calls;
  }

  /** Once a fault has occurred, later calls change nothing. */
  lemma {:induction false} FaultSticks(row: seq<int>, v: Vocab, pre: seq<Call>, rest: seq<Call>)
    requires |row| == Width(v)
    requires FillCalls(row, v, pre).fault.Some?
    ensures FillCalls(row, v, pre + rest) == FillCalls(row, v, pre)
    decreases |rest|
  {
    if rest == [] {
      assert pre + rest == pre;
    } else {
      var init := rest[..|rest| - 1];
      assert pre + rest == (pre + init) + [rest[|rest| - 1]];
      FaultSticks(row, v, pre, init);
      FillSnoc(row, v, pre + init, rest[|rest| - 1]);
    }
  }

  /** The counts of one more call. */
  lemma CountsSnoc(calls: seq<Call>, c: Call, api: string, code: Code)
    ensures CountSuccess(calls + [c], api) == CountSuccess(calls, api) + (if c.status != 0 && c.api == api then 1 else 0)
    ensures CountFail(calls + [c], api) == CountFail(calls, api) + (if c.status == 0 && c.api == api then 1 else 0)
    ensures CountCode(calls + [c], code) == CountCode(calls, code) + (if c.returnValue == code then 1 else 0)
  {
    assert (calls + [c])[..|calls|] == calls;
  }

  /**
   * One resolvable call raises exactly the success or fail cell of its api
   * and the cell of its return code, by one each.
   */
  lemma StepCounts(prev: seq<int>, v: Vocab, c: Call)
    requires |prev| == Width(v) && Resolvable(v, c)
    requires NoDup(v.success) && NoDup(v.fail) && NoDup(v.codes)
    ensures StepCall(prev, v, c).fault.None?
    ensures var next := StepCall(prev, v, c).row;
      && (forall j :: 0 <= j < |v.success| ==>
            next[j] == prev[j] + (if c.status != 0 && c.api == v.success[j] then 1 else 0))
      && (forall j :: 0 <= j < |v.fail| ==>
            next[|v.success| + j] == prev[|v.success| + j] + (if c.status == 0 && c.api == v.fail[j] then 1 else 0))
      && (forall j :: 0 <= j < |v.codes| ==>
            next[ApiEnd(v) + j] == prev[ApiEnd(v) + j] + (if c.returnValue == v.codes[j] then 1 else 0))
      && next[CodeEnd(v)] == prev[CodeEnd(v)]
  {
    var a := ApiCell(v, c).value;
    var b := CodeCell(v, c).value;
    var next := StepCall(prev, v, c).row;
    assert next == prev[a := prev[a] + 1][b := prev[a := prev[a] + 1][b] + 1];
    forall j | 0 <= j < |v.success| && c.status != 0 && c.api == v.success[j]
      ensures j == a
    {
      IndexOfNoDup(v.success, j);
    }
    forall j | 0 <= j < |v.fail| && c.status == 0 && c.api == v.fail[j]
      ensures |v.success| + j == a
    {
      IndexOfNoDup(v.fail, j);
    }
    forall j | 0 <= j < |v.codes| && c.returnValue == v.codes[j]
      ensures ApiEnd(v) + j == b
    {
      IndexOfNoDup(v.codes, j);
    }
  }

  /**
   * With duplicate-free vocabularies and every lookup succeeding, filling
   * never faults, success cell j counts the truthy calls to success_apis[j],
   * fail cell |S| + j the zero-status calls to fail_apis[j], code cell
   * |S| + |F| + j the calls returning return_codes[j], and the label column
   * is left alone.
   */
  lemma {:induction false} FillCallsCounts(row: seq<int>, v: Vocab, calls: seq<Call>)
    requires |row| == Width(v)
    requires NoDup(v.success) && NoDup(v.fail) && NoDup(v.codes)
    requires forall c :: c in calls ==> Resolvable(v, c)
    ensures FillCalls(row, v, calls).fault.None?
    ensures forall j :: 0 <= j < |v.success| ==>
      FillCalls(row, v, calls).row[j] == row[j] + CountSuccess(calls, v.success[j])
    ensures forall j :: 0 <= j < |v.fail| ==>
      FillCalls(row, v, calls).row[|v.success| + j] == row[|v.success| + j] + CountFail(calls, v.fail[j])
    ensures forall j :: 0 <= j < |v.codes| ==>
      FillCalls(row, v, calls).row[ApiEnd(v) + j] == row[ApiEnd(v) + j] + CountCode(calls, v.codes[j])
    ensures FillCalls(row, v, calls).row[CodeEnd(v)] == row[CodeEnd(v)]
    decreases |calls|
  {
    if calls != [] {
      var init := calls[..|calls| - 1];
      var c := calls[|calls| - 1];
      assert c in calls;
      assert forall x :: x in init ==> x in calls;
      FillCallsCounts(row, v, init);
      StepCounts(FillCalls(row, v, init).row, v, c);
    }
  }

  /** A resolvable call adds one to each region's sum. */
  lemma StepSums(prev: seq<int>, v: Vocab, c: Call)
    requires |prev| == Width(v) && Resolvable(v, c)
    ensures StepCall(prev, v, c).fault.None?
    ensures Sum(StepCall(prev, v, c).row[..ApiEnd(v)]) == Sum(prev[..ApiEnd(v)]) + 1
    ensures Sum(StepCall(prev, v, c).row[ApiEnd(v)..CodeEnd(v)]) == Sum(prev[ApiEnd(v)..CodeEnd(v)]) + 1
  {
    var a := ApiCell(v, c).value;
    var b := CodeCell(v, c).value;
    var mid := prev[a := prev[a] + 1];
    assert StepCall(prev, v, c).row == mid[b := mid[b] + 1];
    SliceSumIncrement(prev, a, 0, ApiEnd(v));
    SliceSumIncrement(prev, a, ApiEnd(v), CodeEnd(v));
    SliceSumIncrement(mid, b, 0, ApiEnd(v));
    SliceSumIncrement(mid, b, ApiEnd(v), CodeEnd(v));
  }

  /**
   * When every lookup succeeds, each call adds one to the API-outcome region
   * and one to the return-code region.
   */
  lemma {:induction false} FillCallsRegionSums(row: seq<int>, v: Vocab, calls: seq<Call>)
    requires |row| == Width(v)
    requires forall c :: c in calls ==> Resolvable(v, c)
    ensures FillCalls(row, v, calls).fault.None?
    ensures Sum(FillCalls(row, v, calls).row[..ApiEnd(v)]) == Sum(row[..ApiEnd(v)]) + |calls|
    ensures Sum(FillCalls(row, v, calls).row[ApiEnd(v)..CodeEnd(v)])
         == Sum(row[ApiEnd(v)..CodeEnd(v)]) + |calls|
    decreases |calls|
  {
    if calls != [] {
      var init := calls[..|calls| - 1];
      var c := calls[|calls| - 1];
      assert c in calls;
      assert forall x :: x in init ==> x in calls;
      FillCallsRegionSums(row, v, init);
      StepSums(FillCalls(row, v, init).row, v, c);
    }
  }

  /** Each cell of the first three regions of row counts the calls its vocabulary entry names. */
  predicate CountsRow(v: Vocab, calls: seq<Call>, row: seq<int>)
    requires |row| == Width(v)
  {
    && (forall j :: 0 <= j < |v.success| ==> row[j] == CountSuccess(calls, v.success[j]))
    && (forall j :: 0 <= j < |v.fail| ==> row[|v.success| + j] == CountFail(calls, v.fail[j]))
    && (forall j :: 0 <= j < |v.codes| ==> row[ApiEnd(v) + j] == CountCode(calls, v.codes[j]))
  }

  /** When every lookup succeeds, filling does not fault. */
  lemma {:induction false} FillResolvedNoFault(row: seq<int>, v: Vocab, calls: seq<Call>)
    requires |row| == Width(v)
    requires forall c :: c in calls ==> Resolvable(v, c)
    ensures FillCalls(row, v, calls).fault.None?
    decreases |calls|
  {
    if calls != [] {
      var init := calls[..|calls| - 1];
      assert calls[|calls| - 1] in calls;
      assert forall x :: x in init ==> x in calls;
      FillResolvedNoFault(row, v, init);
    }
  }

  /** A fill that raised nothing found every call in the vocabularies. */
  lemma {:induction false} FillNoFaultResolved(row: seq<int>, v: Vocab, calls: seq<Call>)
    requires |row| == Width(v)
    requires FillCalls(row, v, calls).fault.None?
    ensures forall c :: c in calls ==> Resolvable(v, c)
    decreases |calls|
  {
    if calls != [] {
      var init := calls[..|calls| - 1];
      assert calls == init + [calls[|calls| - 1]];
      FillNoFaultResolved(row, v, init);
    }
  }

  /** A sample whose writes raised nothing has every call resolvable. */
  lemma SampleNoFaultResolved(v: Vocab, name: string, r: Report)
    requires SampleEffect(v, name, r).fault.None?
    ensures forall c :: c in AllCalls(r.processes) ==> Resolvable(v, c)
  {
    FillNoFaultResolved(Zeros(Width(v)), v, AllCalls(r.processes));
  }

  /** After calls that raised nothing, the rest of pass 2's writes. */
  lemma FinishUnfaulted(f: RowFill, family: int, id: Option<nat>, name: string, score: int)
    requires |f.row| > 0 && f.fault.None?
    ensures var s := Finish(f, family, id, name, score);
      && s.row[..|f.row| - 1] == f.row[..|f.row| - 1]
      && s.row[|f.row| - 1] == (if family != 0 then family else f.row[|f.row| - 1])
      && s.scores == (match id case Some(n) => [n, score, family] case None => [0, 0, family])
      && s.fault == if id.None? then Some(BadId(name)) else None
  {
    assert WithLabel(Zeros(3), family) == [0, 0, family];
  }

  /** On a row whose label cell is still zero, the label cell ends up holding the label. */
  lemma FinishLabel(f: RowFill, family: int, id: Option<nat>, name: string, score: int)
    requires |f.row| > 0 && f.fault.None? && f.row[|f.row| - 1] == 0
    ensures Finish(f, family, id, name, score).row[|f.row| - 1] == family
  {
  }

  /** With resolvable calls, a sample ends the run only when its id does not convert. */
  lemma SampleFault(v: Vocab, name: string, r: Report)
    requires forall c :: c in AllCalls(r.processes) ==> Resolvable(v, c)
    ensures SampleEffect(v, name, r).fault == if SampleId(name).None? then Some(BadId(name)) else None
  {
    var f := FillCalls(Zeros(Width(v)), v, AllCalls(r.processes));
    FillResolvedNoFault(Zeros(Width(v)), v, AllCalls(r.processes));
    FinishUnfaulted(f, LabelOf(FamilyPrefix(name)), SampleId(name), name, r.score);
  }

  /** With resolvable calls, the family label goes into the last feature column. */
  lemma SampleLabel(v: Vocab, name: string, r: Report)
    requires forall c :: c in AllCalls(r.processes) ==> Resolvable(v, c)
    ensures SampleEffect(v, name, r).row[Width(v) - 1] == LabelOf(FamilyPrefix(name))
  {
    var zeros := Zeros(Width(v));
    var f := FillCalls(zeros, v, AllCalls(r.processes));
    assert f.fault.None? by {
      FillResolvedNoFault(zeros, v, AllCalls(r.processes));
    }
    assert f.row[|f.row| - 1] == 0 by {
      assert zeros[CodeEnd(v)] == 0 && |f.row| - 1 == CodeEnd(v);
    }
    var family := LabelOf(FamilyPrefix(name));
    assert SampleEffect(v, name, r) == Finish(f, family, SampleId(name), name, r.score);
    FinishLabel(f, family, SampleId(name), name, r.score);
  }

  /**
   * With resolvable calls, the score row is [id, score, label], its first
   * two cells left zero when the id does not convert.
   */
  lemma SampleScores(v: Vocab, name: string, r: Report)
    requires forall c :: c in AllCalls(r.processes) ==> Resolvable(v, c)
    ensures SampleEffect(v, name, r).scores
         == match SampleId(name)
            case Some(id) => [id, r.score, LabelOf(FamilyPrefix(name))]
            case None => [0, 0, LabelOf(FamilyPrefix(name))]
  {
    var f := FillCalls(Zeros(Width(v)), v, AllCalls(r.processes));
    FillResolvedNoFault(Zeros(Width(v)), v, AllCalls(r.processes));
    FinishUnfaulted(f, LabelOf(FamilyPrefix(name)), SampleId(name), name, r.score);
  }

  /**
   * The feature row of a sample whose lookups succeed: each cell counts the
   * calls that its vocabulary entry names.
   */
  lemma SampleRowCounts(v: Vocab, name: string, r: Report)
    requires NoDup(v.success) && NoDup(v.fail) && NoDup(v.codes)
    requires forall c :: c in AllCalls(r.processes) ==> Resolvable(v, c)
    ensures CountsRow(v, AllCalls(r.processes), SampleEffect(v, name, r).row)
  {
    var calls := AllCalls(r.processes);
    var zeros := Zeros(Width(v));
    var f := FillCalls(zeros, v, calls);
    FillCallsCounts(zeros, v, calls);
    ZeroCounts(v, calls, f.row);
    FinishUnfaulted(f, LabelOf(FamilyPrefix(name)), SampleId(name), name, r.score);
    CountsRowPrefix(v, calls, f.row, SampleEffect(v, name, r).row);
  }

  /** Counts added to a zero row are the counts. */
  lemma ZeroCounts(v: Vocab, calls: seq<Call>, row: seq<int>)
    requires |row| == Width(v)
    requires forall j :: 0 <= j < |v.success| ==> row[j] == Zeros(Width(v))[j] + CountSuccess(calls, v.success[j])
    requires forall j :: 0 <= j < |v.fail| ==>
      row[|v.success| + j] == Zeros(Width(v))[|v.success| + j] + CountFail(calls, v.fail[j])
    requires forall j :: 0 <= j < |v.codes| ==>
      row[ApiEnd(v) + j] == Zeros(Width(v))[ApiEnd(v) + j] + CountCode(calls, v.codes[j])
    ensures CountsRow(v, calls, row)
  {
  }

  /** A row that agrees with a counting row on the counted cells counts too. */
  lemma CountsRowPrefix(v: Vocab, calls: seq<Call>, a: seq<int>, b: seq<int>)
    requires |a| == |b| == Width(v) && a[..CodeEnd(v)] == b[..CodeEnd(v)]
    requires CountsRow(v, calls, a)
    ensures CountsRow(v, calls, b)
  {
    forall j | 0 <= j < CodeEnd(v) ensures a[j] == b[j] {
      assert a[j] == a[..CodeEnd(v)][j];
    }
  }

  /**
   * The API-outcome region and the return-code region of a sample whose
   * lookups succeed each sum to the sample's total call count.
   */
  lemma SampleRowSums(v: Vocab, name: string, r: Report)
    requires forall c :: c in AllCalls(r.processes) ==> Resolvable(v, c)
    ensures var row := SampleEffect(v, name, r).row;
      && Sum(row[..ApiEnd(v)]) == TotalCalls(r.processes)
      && Sum(row[ApiEnd(v)..CodeEnd(v)]) == TotalCalls(r.processes)
  {
    var zeros := Zeros(Width(v));
    var calls := AllCalls(r.processes);
    var f := FillCalls(zeros, v, calls);
    FillCallsRegionSums(zeros, v, calls);
    ZeroRegionSums(v);
    FinishUnfaulted(f, LabelOf(FamilyPrefix(name)), SampleId(name), name, r.score);
    RegionsAgree(v, f.row, SampleEffect(v, name, r).row);
  }

  /** Both counting regions of a zero row sum to zero. */
  lemma ZeroRegionSums(v: Vocab)
    ensures Sum(Zeros(Width(v))[..ApiEnd(v)]) == 0
    ensures Sum(Zeros(Width(v))[ApiEnd(v)..CodeEnd(v)]) == 0
  {
    var zeros := Zeros(Width(v));
    assert zeros[..ApiEnd(v)] == Zeros(ApiEnd(v));
    assert zeros[ApiEnd(v)..CodeEnd(v)] == Zeros(|v.codes|);
    ZerosSum(ApiEnd(v));
    ZerosSum(|v.codes|);
  }

  /** Rows that agree before the label column agree on both counting regions. */
  lemma RegionsAgree(v: Vocab, a: seq<int>, b: seq<int>)
    requires |a| == |b| == Width(v) && a[..CodeEnd(v)] == b[..CodeEnd(v)]
    ensures a[..ApiEnd(v)] == b[..ApiEnd(v)]
    ensures a[ApiEnd(v)..CodeEnd(v)] == b[ApiEnd(v)..CodeEnd(v)]
  {
    assert a[..ApiEnd(v)] == a[..CodeEnd(v)][..ApiEnd(v)];
    assert b[..ApiEnd(v)] == b[..CodeEnd(v)][..ApiEnd(v)];
    assert a[ApiEnd(v)..CodeEnd(v)] == a[..CodeEnd(v)][ApiEnd(v)..];
    assert b[ApiEnd(v)..CodeEnd(v)] == b[..CodeEnd(v)][ApiEnd(v)..];
  }

  /** A zero row sums to zero. */
  lemma {:induction false} ZerosSum(n: nat)
    ensures Sum(Zeros(n)) == 0
    decreases n
  {
    if n > 0 {
      assert Zeros(n)[..n - 1] == Zeros(n - 1);
      ZerosSum(n - 1);
    }
  }

  /**
   * Pass 1 tests `status == 1` and pass 2 tests truthiness: a call with
   * status 2 is filed as a failed call, then looked up among the successful
   * ones, and the lookup raises.
   */
  lemma StatusTwoFaults()
    ensures var c := Call("A", 2, IntCode(0));
      var v := AddCall(Initial, c);
      v.success == [] && v.fail == ["A"]
      && FillCalls(Zeros(Width(v)), v, [c]).fault == Some(UnknownApi("A"))
  {
    var c := Call("A", 2, IntCode(0));
    var v := AddCall(Initial, c);
    FillSnoc(Zeros(Width(v)), v, [], c);
    assert [] + [c] == [c];
  }

  // The matrices and the pass itself.

  /** Row i of m holds exactly s. */
  ghost predicate RowIs(m: array2<int>, i: nat, s: seq<int>)
    reads m
  {
    i < m.Length0 && |s| == m.Length1 && forall j :: 0 <= j < m.Length1 ==> m[i, j] == s[j]
  }

  /** Row i of m as a sequence. */
  ghost function RowOf(m: array2<int>, i: nat): (s: seq<int>)
    requires i < m.Length0
    reads m
    ensures |s| == m.Length1 && forall j :: 0 <= j < m.Length1 ==> s[j] == m[i, j]
  {
    seq(m.Length1, j reads m requires 0 <= j < m.Length1 => m[i, j])
  }

  /** Every row from lo on is still all zero. */
  ghost predicate ZeroFrom(m: array2<int>, lo: nat)
    reads m
  {
    forall i, j :: lo <= i < m.Length0 && 0 <= j < m.Length1 ==> m[i, j] == 0
  }

  /** Row i of the two matrices holds the rows of a sample that completed. */
  ghost predicate RowHolds(m: array2<int>, sc: array2<int>, i: nat, s: SampleRows)
    reads m, sc
  {
    s.fault.None? && RowIs(m, i, s.row) && RowIs(sc, i, s.scores)
  }

  /** Row i of the two matrices holds what pass 2 writes for entry e, which completed. */
  ghost predicate RowDone(m: array2<int>, sc: array2<int>, i: nat, v: Vocab, e: Entry)
    reads m, sc
  {
    e.report.Some? && RowHolds(m, sc, i, SampleEffect(v, e.name, e.report.value))
  }

  /**
   * Pass 2 stopped at row ids on entry e with fault f: the row holds the
   * counts written before the lookup raised, and the rows after it are zero.
   */
  ghost predicate StoppedAt(m: array2<int>, sc: array2<int>, ids: nat, v: Vocab, e: Entry, f: Fault)
    reads m, sc
  {
    e.report.Some?
    && var s := SampleEffect(v, e.name, e.report.value);
    && s.fault == Some(f) && RowIs(m, ids, s.row) && RowIs(sc, ids, s.scores)
    && ZeroFrom(m, ids + 1) && ZeroFrom(sc, ids + 1)
  }

  /** Pass 2 has filled n rows: the first n rows hold want and the rest are zero. */
  ghost predicate Progress(m: array2<int>, sc: array2<int>, want: seq<SampleRows>, n: nat)
    reads m, sc
  {
    && n <= |want|
    && (forall i :: 0 <= i < n ==> RowHolds(m, sc, i, want[i]))
    && ZeroFrom(m, n) && ZeroFrom(sc, n)
  }

  /**
   * Pass 2 stopped on row n with fault f: the rows before it hold want, row n
   * holds what was written before the lookup raised, and the rest are zero.
   */
  ghost predicate Halted(m: array2<int>, sc: array2<int>, want: seq<SampleRows>, n: nat, f: Fault)
    reads m, sc
  {
    && n < |want|
    && (forall i :: 0 <= i < n ==> RowHolds(m, sc, i, want[i]))
    && want[n].fault == Some(f) && RowIs(m, n, want[n].row) && RowIs(sc, n, want[n].scores)
    && ZeroFrom(m, n + 1) && ZeroFrom(sc, n + 1)
  }

  /** An entry pass 2 vectorizes: not in the ignore list, and parsed. */
  predicate Picked(e: Entry, ignore: seq<string>)
  {
    e.name !in ignore && e.report.Some?
  }

  /** The entries pass 2 vectorizes, in listing order; row i belongs to the i-th. */
  function Selected(dir: seq<Entry>, ignore: seq<string>): (r: seq<Entry>)
    ensures |r| <= |dir|
    ensures forall i :: 0 <= i < |r| ==> Picked(r[i], ignore)
    decreases |dir|
  {
    if dir == [] then []
    else var e := dir[|dir| - 1];
      Selected(dir[..|dir| - 1], ignore) + (if Picked(e, ignore) then [e] else [])
  }

  /** Selecting from one more entry. */
  lemma SelectedSnoc(dir: seq<Entry>, k: nat, ignore: seq<string>)
    requires k < |dir|
    ensures Selected(dir[..k + 1], ignore)
         == Selected(dir[..k], ignore) + (if Picked(dir[k], ignore) then [dir[k]] else [])
  {
    assert dir[..k + 1][..k] == dir[..k];
  }

  /** Selecting from a prefix of the listing selects a prefix. */
  lemma {:induction false} SelectedPrefix(dir: seq<Entry>, k: nat, ignore: seq<string>)
    requires k <= |dir|
    ensures Selected(dir[..k], ignore) <= Selected(dir, ignore)
    decreases |dir| - k
  {
    if k < |dir| {
      SelectedPrefix(dir, k + 1, ignore);
      SelectedSnoc(dir, k, ignore);
    } else {
      assert dir[..k] == dir;
    }
  }

  /** What pass 2 writes for one parsed entry; an unparsed one writes nothing. */
  ghost function Effect(v: Vocab, e: Entry): SampleRows
  {
    if e.report.Some? then SampleEffect(v, e.name, e.report.value) else SampleRows([], [], None)
  }

  /** want[i] is what pass 2 writes for the entry sel[i]. */
  ghost predicate Matches(v: Vocab, sel: seq<Entry>, want: seq<SampleRows>, i: nat)
  {
    i < |sel| && i < |want| && want[i] == Effect(v, sel[i])
  }

  /** Row i of the matrices holds want[i], the rows of entry sel[i], for each i < n: those rows are done. */
  lemma HeldRowsDone(m: array2<int>, sc: array2<int>, v: Vocab, sel: seq<Entry>, want: seq<SampleRows>, n: nat)
    requires n <= |sel| == |want|
    requires forall i :: 0 <= i < |sel| ==> sel[i].report.Some? && Matches(v, sel, want, i)
    requires forall i :: 0 <= i < n ==> RowHolds(m, sc, i, want[i])
    ensures forall i :: 0 <= i < n ==> RowDone(m, sc, i, v, sel[i])
  {
  }

  /**
   * One more entry of the listing: the selection grows by it exactly when it
   * is picked, and then it is the next selected entry.
   */
  lemma SelectedStep(dir: seq<Entry>, k: nat, ignore: seq<string>)
    requires k < |dir|
    ensures var n := |Selected(dir[..k], ignore)|;
      && |Selected(dir[..k + 1], ignore)| == (if Picked(dir[k], ignore) then n + 1 else n)
      && |Selected(dir[..k + 1], ignore)| <= |Selected(dir, ignore)|
      && (Picked(dir[k], ignore) ==> Selected(dir, ignore)[n] == dir[k])
  {
    SelectedSnoc(dir, k, ignore);
    SelectedPrefix(dir, k + 1, ignore);
    if Picked(dir[k], ignore) {
      var n := |Selected(dir[..k], ignore)|;
      assert Selected(dir[..k + 1], ignore)[n] == dir[k];
    }
  }

  /**
   * One call on row ids of the feature matrix: look its api up by its status
   * and increment that cell, then look its return code up and increment that
   * cell; a lookup that raises stops here.
   */
  method CountCall(m: array2<int>, ids: nat, v: Vocab, c: Call, ghost prev: seq<int>)
    returns (fault: Option<Fault>)
    requires m.Length1 == Width(v) && RowIs(m, ids, prev)
    modifies m
    ensures RowIs(m, ids, StepCall(prev, v, c).row)
    ensures fault == StepCall(prev, v, c).fault
    ensures forall i, j :: 0 <= i < m.Length0 && i != ids && 0 <= j < m.Length1 ==> m[i, j] == old(m[i, j])
  {
    var index: nat;
    if c.status != 0 {
      var found := IndexOf(v.success, c.api);
      if found.None? {
        return Some(UnknownApi(c.api));
      }
      index := found.value;
    } else {
      var offset := |v.success|;
      var found := IndexOf(v.fail, c.api);
      if found.None? {
        return Some(UnknownApi(c.api));
      }
      index := offset + found.value;
    }
    m[ids, index] := m[ids, index] + 1;
    var offset := |v.success| + |v.fail|;
    var found := IndexOf(v.codes, c.returnValue);
    if found.None? {
      return Some(UnknownCode(c.returnValue));
    }
    m[ids, offset + found.value] := m[ids, offset + found.value] + 1;
    fault := None;
  }

  /** The loop over one process's calls, continuing the fill of row ids after the calls in done. */
  method FillProcessCalls(m: array2<int>, ids: nat, v: Vocab, calls: seq<Call>, ghost done: seq<Call>)
    returns (fault: Option<Fault>)
    requires m.Length1 == Width(v)
    requires FillCalls(Zeros(Width(v)), v, done).fault.None?
    requires RowIs(m, ids, FillCalls(Zeros(Width(v)), v, done).row)
    modifies m
    ensures RowIs(m, ids, FillCalls(Zeros(Width(v)), v, done + calls).row)
    ensures fault == FillCalls(Zeros(Width(v)), v, done + calls).fault
    ensures forall i, j :: 0 <= i < m.Length0 && i != ids && 0 <= j < m.Length1 ==> m[i, j] == old(m[i, j])
  {
    ghost var zeros := Zeros(Width(v));
    ghost var seen := done;
    var k := 0;
    while k < |calls|
      invariant 0 <= k <= |calls|
      invariant seen == done + calls[..k]
      invariant FillCalls(zeros, v, seen).fault.None?
      invariant RowIs(m, ids, FillCalls(zeros, v, seen).row)
      invariant forall i, j :: 0 <= i < m.Length0 && i != ids && 0 <= j < m.Length1 ==> m[i, j] == old(m[i, j])
    {
      var c := calls[k];
      FillSnoc(zeros, v, seen, c);
      CallsSplit(done, calls, k);
      fault := CountCall(m, ids, v, c, FillCalls(zeros, v, seen).row);
      if fault.Some? {
        FaultSticks(zeros, v, seen + [c], calls[k + 1..]);
        return;
      }
      seen := seen + [c];
      k := k + 1;
    }
    assert calls[..k] == calls;
    fault := None;
  }

  /**
   * The nested loops over a sample's processes and calls on row ids of the
   * feature matrix, stopping at a lookup that raises.
   */
  method FillCallsInto(m: array2<int>, ids: nat, v: Vocab, procs: seq<Process>)
    returns (fault: Option<Fault>)
    requires m.Length1 == Width(v) && RowIs(m, ids, Zeros(Width(v)))
    modifies m
    ensures RowIs(m, ids, FillCalls(Zeros(Width(v)), v, AllCalls(procs)).row)
    ensures fault == FillCalls(Zeros(Width(v)), v, AllCalls(procs)).fault
    ensures forall i, j :: 0 <= i < m.Length0 && i != ids && 0 <= j < m.Length1 ==> m[i, j] == old(m[i, j])
  {
    ghost var zeros := Zeros(Width(v));
    var p := 0;
    while p < |procs|
      invariant 0 <= p <= |procs|
      invariant FillCalls(zeros, v, AllCalls(procs[..p])).fault.None?
      invariant RowIs(m, ids, FillCalls(zeros, v, AllCalls(procs[..p])).row)
      invariant forall i, j :: 0 <= i < m.Length0 && i != ids && 0 <= j < m.Length1 ==> m[i, j] == old(m[i, j])
    {
      assert procs[..p + 1][..p] == procs[..p];
      fault := FillProcessCalls(m, ids, v, procs[p].calls, AllCalls(procs[..p]));
      if fault.Some? {
        assert procs == procs[..p + 1] + procs[p + 1..];
        AllCallsConcat(procs[..p + 1], procs[p + 1..]);
        FaultSticks(zeros, v, AllCalls(procs[..p + 1]), AllCalls(procs[p + 1..]));
        return;
      }
      p := p + 1;
    }
    assert procs[..p] == procs;
    fault := None;
  }

  /** The label chain's write into the last column of row ids, when the label is nonzero. */
  method WriteLabel(m: array2<int>, ids: nat, family: int, ghost row: seq<int>)
    requires m.Length1 > 0 && RowIs(m, ids, row)
    modifies m
    ensures RowIs(m, ids, WithLabel(row, family))
    ensures forall i, j :: 0 <= i < m.Length0 && i != ids && 0 <= j < m.Length1 ==> m[i, j] == old(m[i, j])
  {
    if family != 0 {
      m[ids, m.Length1 - 1] := family;
    }
  }

  /** The id into column 0 and the score into column 1 of row ids of the score matrix. */
  method WriteIdScore(sc: array2<int>, ids: nat, id: nat, score: int, ghost scores: seq<int>)
    requires sc.Length1 == 3 && RowIs(sc, ids, scores)
    modifies sc
    ensures RowIs(sc, ids, scores[0 := id][1 := score])
    ensures forall i, j :: 0 <= i < sc.Length0 && i != ids && 0 <= j < sc.Length1 ==> sc[i, j] == old(sc[i, j])
  {
    sc[ids, 0] := id;
    sc[ids, 1] := score;
  }

  /**
   * All pass 2 does for one sample on row ids of both matrices: the call
   * counts, the label chain, and the id and score assignments.
   */
  method FillSample(m: array2<int>, sc: array2<int>, ids: nat, v: Vocab, name: string, r: Report)
    returns (fault: Option<Fault>)
    requires m != sc
    requires m.Length1 == Width(v) && sc.Length1 == 3
    requires RowIs(m, ids, Zeros(Width(v))) && RowIs(sc, ids, Zeros(3))
    modifies m, sc
    ensures RowIs(m, ids, SampleEffect(v, name, r).row)
    ensures RowIs(sc, ids, SampleEffect(v, name, r).scores)
    ensures fault == SampleEffect(v, name, r).fault
    ensures forall i, j :: 0 <= i < m.Length0 && i != ids && 0 <= j < m.Length1 ==> m[i, j] == old(m[i, j])
    ensures forall i, j :: 0 <= i < sc.Length0 && i != ids && 0 <= j < sc.Length1 ==> sc[i, j] == old(sc[i, j])
  {
    ghost var f := FillCalls(Zeros(Width(v)), v, AllCalls(r.processes));
    fault := FillCallsInto(m, ids, v, r.processes);
    if fault.Some? {
      return;
    }
    var family := LabelOf(FamilyPrefix(name));
    WriteLabel(m, ids, family, f.row);
    WriteLabel(sc, ids, family, Zeros(3));
    var id := SampleId(name);
    if id.None? {
      return Some(BadId(name));
    }
    WriteIdScore(sc, ids, id.value, r.score, WithLabel(Zeros(3), family));
  }

  /**
   * One iteration of pass 2 at row ids: skip an ignored or unparsable
   * entry, and otherwise fill row ids of both matrices for it. The rows
   * before ids hold want, and want[ids] is what this entry writes.
   */
  method FillEntry(m: array2<int>, sc: array2<int>, ids: nat, v: Vocab, e: Entry,
                   ghost sel: seq<Entry>, ghost want: seq<SampleRows>)
    returns (next: nat, fault: Option<Fault>)
    requires m != sc
    requires m.Length1 == Width(v) && sc.Length1 == 3
    requires |sel| == |want| && forall i :: 0 <= i < |want| ==> Matches(v, sel, want, i)
    requires Picked(e, v.ignore) ==> ids < |sel| && sel[ids] == e && ids < m.Length0 && ids < sc.Length0
    requires Progress(m, sc, want, ids)
    modifies m, sc
    ensures next == if Picked(e, v.ignore) then ids + 1 else ids
    ensures fault.None? ==> Progress(m, sc, want, next)
    ensures fault.Some? ==> Picked(e, v.ignore) && Halted(m, sc, want, ids, fault.value)
  {
    if e.name in v.ignore {
      return ids, None;
    }
    if e.report.None? {
      return ids, None;
    }
    next := ids + 1;
    fault := FillPicked(m, sc, ids, v, e.name, e.report.value, sel, want);
  }

  /** Fill row ids for the picked entry sel[ids], named name with report r. */
  method FillPicked(m: array2<int>, sc: array2<int>, ids: nat, v: Vocab, name: string, r: Report,
                    ghost sel: seq<Entry>, ghost want: seq<SampleRows>)
    returns (fault: Option<Fault>)
    requires m != sc
    requires m.Length1 == Width(v) && sc.Length1 == 3
    requires |sel| == |want| && forall i :: 0 <= i < |want| ==> Matches(v, sel, want, i)
    requires ids < |sel| && sel[ids] == Entry(name, Some(r)) && ids < m.Length0 && ids < sc.Length0
    requires Progress(m, sc, want, ids)
    modifies m, sc
    ensures fault.None? ==> Progress(m, sc, want, ids + 1)
    ensures fault.Some? ==> Halted(m, sc, want, ids, fault.value)
  {
    assert Matches(v, sel, want, ids);
    assert RowIs(m, ids, Zeros(Width(v))) && RowIs(sc, ids, Zeros(3));
    fault := FillSample(m, sc, ids, v, name, r);
    forall i | 0 <= i < ids ensures RowHolds(m, sc, i, want[i]) {
      assert old(RowHolds(m, sc, i, want[i]));
    }
  }

  /**
   * Pass 2: walk the listing in order, skip the entries pass 1 put on the
   * ignore list and those that do not parse, and fill row ids for each of
   * the others, ids counting the rows filled. It stops at the first fault,
   * which the script does not catch. want[i] is what row i ends up holding.
   */
  method FillMatrices(dir: seq<Entry>, v: Vocab, m: array2<int>, sc: array2<int>, ghost want: seq<SampleRows>)
    returns (ids: nat, failure: Option<(nat, Fault)>)
    requires m != sc
    requires m.Length1 == Width(v) && sc.Length1 == 3
    requires m.Length0 == |Selected(dir, v.ignore)| == sc.Length0 == |want|
    requires forall i :: 0 <= i < |want| ==> Matches(v, Selected(dir, v.ignore), want, i)
    requires Progress(m, sc, want, 0)
    modifies m, sc
    ensures failure.None? ==> ids == |want| && Progress(m, sc, want, ids)
    ensures failure.Some? ==>
      var (k, f) := failure.value;
      && k < |dir| && Picked(dir[k], v.ignore)
      && ids < |want| && Selected(dir, v.ignore)[ids] == dir[k]
      && ids == |Selected(dir[..k], v.ignore)| && Halted(m, sc, want, ids, f)
  {
    ghost var sel := Selected(dir, v.ignore);
    ids, failure := 0, None;
    var k := 0;
    while k < |dir|
      invariant 0 <= k <= |dir|
      invariant ids == |Selected(dir[..k], v.ignore)| <= |sel|
      invariant Progress(m, sc, want, ids)
    {
      var e := dir[k];
      SelectedStep(dir, k, v.ignore);
      var next, fault := FillEntry(m, sc, ids, v, e, sel, want);
      if fault.Some? {
        return ids, Some((k, fault.value));
      }
      ids, k := next, k + 1;
    }
    assert dir[..k] == dir;
  }
}
