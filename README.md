# Two-pass feature vectorizer for sandbox reports

A model of the feature-extraction script of a malware-classification
project (`extraction-formatting/extract-data_with_scores.py`). The script
reads a directory of sandbox behaviour reports twice:

- **Pass 1** builds three insertion-ordered, duplicate-free vocabularies.
  They hold the API names of successful calls, the API names of failed calls,
  and the return codes. The pass also puts samples with fewer than `min_calls`
  calls on an ignore list and counts the remaining samples (`sample_num`).
- **Sizing** allocates two zero matrices. The feature matrix is
  `sample_num × (|S| + |F| + |R| + 1)`. The score matrix is `sample_num × 3`.
- **Pass 2** fills one row per qualifying sample, in listing order. Each call
  increments one API-outcome cell and one return-code cell. The family label,
  taken from the file name's prefix, goes into the last feature column and
  into score column 2. The numeric id from the file name goes into score
  column 0 and the report's score into column 1.

Files:

- `wrappers.dfy` has `Option`.
- `reports.dfy` holds the abstract report.
  A report is a sequence of processes, each a sequence of calls `(api, status, return_value)`, plus a score.
  A directory is a sequence of `(name, Option<Report>)`.
- `insertion_order.dfy` holds append-if-absent, `list.index`, first-seen deduplication and sums.
- `filenames.dfy` holds the file-name fields and the closed family-name → label table.
- `vocabulary.dfy` holds pass 1.
  It has a specification function `Pass1`, independent reference descriptions (deduplicated call streams), and the loops as methods proved against `Pass1`.
- `vectorizer.dfy` holds pass 2.
  It has the row specification `SampleEffect`, independent per-cell counts and region sums, and the loops writing into `array2<int>` matrices.
- `extraction.dfy` holds the whole script and the facts that tie the two passes together.
  Pass 2 picks exactly the samples pass 1 counted, and every lookup succeeds when statuses are 0 or 1.
  It also holds the one-file worked example (`benign-001.json`).

Modelling choices:

- `status` is an `int`. Pass 1 files a call as successful when `status == 1`.
  Pass 2 looks a call up among the successes when `status` is truthy (non-zero).
  The model keeps both tests as written (see "Findings").
- Python's `list.index` raises `ValueError` when the item is absent, and `matrix_scores[ids][0] = …` raises when the id field is missing or does not convert.
  The script does not catch these. Its `finally` block still writes the partially filled matrices.
  `FillMatrices` and `Extract` therefore return the index of the entry that raised, the fault, and the exact partial contents.
- Both passes see the same listing, in the same order, and the same parse result for each entry. The script lists the directory twice (lines 81 and 140) and parses each file twice; the model lists once and parses once, so a directory that changes between the passes is not modelled.
- Directory names are distinct, as `os.listdir` guarantees (`DistinctNames`).
  The ignore list holds names, not joined paths. Both passes join the same directory, so the two are equivalent.
- Matrix cells are integers. The score is an integer stand-in for the float `info.score`.

## Model

| member | source | states |
|---|---|---|
| `InsertionOrder.IndexOf` | extraction-formatting/extract-data_with_scores.py:165-177 | `list.index`: None exactly when the item is absent; otherwise the first position holding it |
| `InsertionOrder.AppendIfAbsent` | extraction-formatting/extract-data_with_scores.py:112-119 | append-if-absent: the old list is a prefix of the result, the item is in the result, nothing else is added, and an item already present leaves the list unchanged |
| `InsertionOrder.IndexOfNoDup` | extraction-formatting/extract-data_with_scores.py:167-177 | in a duplicate-free list, the lookup of the item at position i returns i (a unique position) |
| `InsertionOrder.InsertAllExtends` | extraction-formatting/extract-data_with_scores.py:112-119 | appending-if-absent keeps the old list as a prefix, so an item's index never changes |
| `InsertionOrder.InsertAllMembers` | extraction-formatting/extract-data_with_scores.py:112-119 | the resulting list holds exactly the old items and the inserted ones |
| `InsertionOrder.InsertAllNoDup` | extraction-formatting/extract-data_with_scores.py:112-119 | appending-if-absent to a duplicate-free list never creates a duplicate |
| `InsertionOrder.InsertAllConcat` | extraction-formatting/extract-data_with_scores.py:107-119 | inserting two streams in turn equals inserting their concatenation |
| `InsertionOrder.DedupFirstSeenOrder` | extraction-formatting/extract-data_with_scores.py:107-119 | an item placed earlier in a deduplicated list was first seen earlier in the stream |
| `InsertionOrder.SliceSumIncrement` | extraction-formatting/extract-data_with_scores.py:168-178 | incrementing one cell adds one to the sum of a region exactly when the cell lies in that region |
| `Reports.TotalCalls` | extraction-formatting/extract-data_with_scores.py:95-98 | the running total of the processes' call-list lengths equals the number of calls in the report |
| `VocabularyBuilder.CountCalls` | extraction-formatting/extract-data_with_scores.py:95-98 | the loop's total is the report's call total |
| `VocabularyBuilder.AddCall` | extraction-formatting/extract-data_with_scores.py:110-119 | one call of a qualifying sample: status 1 puts its api in the success list, any other status in the fail list (the other list unchanged); its return code ends up in the code list; every list keeps its old items as a prefix; ignore list and count unchanged |
| `VocabularyBuilder.AddCalls` | extraction-formatting/extract-data_with_scores.py:107-119 | the calls of one sample in order: each list keeps its old items as a prefix; ignore list and count unchanged |
| `VocabularyBuilder.ScanEntry` | extraction-formatting/extract-data_with_scores.py:83-119 | one entry of pass 1: the count grows by one exactly when the sample qualifies, the ignore list grows by its name exactly when it parsed and is below threshold, and a sample that does not qualify leaves the vocabularies unchanged |
| `VocabularyBuilder.Pass1` | extraction-formatting/extract-data_with_scores.py:81-119 | pass 1 over the listing: `sample_num` is the number of qualifying samples and the ignore list names the below-threshold samples in listing order |
| `VocabularyBuilder.AppendProcessCalls` | extraction-formatting/extract-data_with_scores.py:109-119 | the loop over one process's calls leaves the three lists as pass 1's specification says |
| `VocabularyBuilder.AppendCalls` | extraction-formatting/extract-data_with_scores.py:107-119 | each list becomes the old one with the sample's success-API, fail-API or return-code stream appended-if-absent |
| `VocabularyBuilder.ScanSample` | extraction-formatting/extract-data_with_scores.py:83-119 | one iteration: skip a parse failure, ignore a sample below threshold, otherwise count it and extend the vocabularies |
| `VocabularyBuilder.BuildVocabulary` | extraction-formatting/extract-data_with_scores.py:74-119 | pass 1's loop gives `Pass1`: a qualifying-sample count, the ignore list of below-threshold names, and three duplicate-free vocabularies |
| `VocabularyBuilder.AddCallsInserts` | extraction-formatting/extract-data_with_scores.py:107-119 | a sample's calls insert its success-API, fail-API and return-code streams into the matching lists |
| `VocabularyBuilder.StreamsConcat` | extraction-formatting/extract-data_with_scores.py:107-119 | the streams of concatenated call lists are the concatenated streams |
| `VocabularyBuilder.Pass1Characterization` | extraction-formatting/extract-data_with_scores.py:81-119 | each vocabulary is the first-seen deduplication of its stream over the qualifying samples; the ignore list names the below-threshold samples in order; `sample_num` is the number of qualifying samples |
| `VocabularyBuilder.Pass1NoDup` | extraction-formatting/extract-data_with_scores.py:112-119 | after pass 1 no vocabulary holds a duplicate |
| `VocabularyBuilder.DedupOrdered` | extraction-formatting/extract-data_with_scores.py:112-119 | a first-seen deduplication holds only items of its stream, ordered by their first occurrence |
| `VocabularyBuilder.Pass1FirstSeenOrder` | extraction-formatting/extract-data_with_scores.py:107-119 | success APIs, fail APIs and return codes are each listed in the order they are first seen among the qualifying samples' calls |
| `VocabularyBuilder.BelowThresholdOnlyIgnored` | extraction-formatting/extract-data_with_scores.py:99-103 | a parsed sample below threshold only extends the ignore list: no vocabulary item, no count |
| `Filenames.BeforeFirst` | extraction-formatting/extract-data_with_scores.py:181 | the first split field is a separator-free prefix of the name, ended by a separator or by the end of the name |
| `Filenames.FamilyPrefix` | extraction-formatting/extract-data_with_scores.py:181 | the family token is a prefix of the name holding no `-`, ended by the first `-` or by the end of the name |
| `Filenames.SecondField` | extraction-formatting/extract-data_with_scores.py:213 | the second split field is missing (IndexError) exactly when the separator does not occur |
| `Filenames.IdField` | extraction-formatting/extract-data_with_scores.py:213 | the id token: missing (IndexError) exactly when the name before its first `.` holds no `-`; otherwise it holds no `-` |
| `Filenames.ParseId` | extraction-formatting/extract-data_with_scores.py:213 | the id field converts exactly when it is a non-empty string of decimal digits |
| `Filenames.SampleId` | extraction-formatting/extract-data_with_scores.py:213 | the sample id exists exactly when the id token exists and is a non-empty string of decimal digits |
| `Filenames.LabelOf` | extraction-formatting/extract-data_with_scores.py:181-210 | the label is 0 exactly when the prefix is not one of the ten family names; otherwise it is that family's position in the table plus one |
| `Filenames.LabelOfTable` | extraction-formatting/extract-data_with_scores.py:181-210 | benign→1, dridex→2, …, ctblocker→10 |
| `Filenames.ConventionalName` | extraction-formatting/extract-data_with_scores.py:181-213 | a name `<family>-<digits>` followed by an extension or another `-` field yields that family prefix and the digits' value as id |
| `Vectorizer.Zeros` | extraction-formatting/extract-data_with_scores.py:132-133 | matrix rows start all zero |
| `Vectorizer.Width` | extraction-formatting/extract-data_with_scores.py:129 | `data_length`: the label column is the last one, right after the API-outcome region and the return-code region |
| `Vectorizer.ApiCell` | extraction-formatting/extract-data_with_scores.py:165-173 | a truthy status locates the api in `success_apis` at offset 0; a zero status locates it in `fail_apis` at offset len(S); a missing api is a fault |
| `Vectorizer.CodeCell` | extraction-formatting/extract-data_with_scores.py:175-177 | the return code is located in `return_codes` at offset len(S)+len(F), inside the return-code region; a missing code is a fault |
| `Vectorizer.StepCall` | extraction-formatting/extract-data_with_scores.py:161-178 | one call on a row: it raises nothing exactly when both lookups succeed; the row keeps its width and its label cell |
| `Vectorizer.WithLabel` | extraction-formatting/extract-data_with_scores.py:181-210 | a non-zero label overwrites the last cell only; label 0 leaves the row as it is |
| `Vectorizer.Finish` | extraction-formatting/extract-data_with_scores.py:181-214 | what follows the calls of a sample: the label, then the id and the score, or the fault; the feature row keeps its width and the score row has 3 cells (contents in FinishUnfaulted) |
| `Vectorizer.SampleEffect` | extraction-formatting/extract-data_with_scores.py:155-214 | all pass 2 writes for one sample into zero rows: a feature row of `data_length` cells and a score row of 3 cells (contents in SampleRowCounts, SampleRowSums, SampleLabel, SampleScores) |
| `Vectorizer.StepCounts` | extraction-formatting/extract-data_with_scores.py:161-178 | a call whose lookups succeed adds one to exactly its success or fail cell and one to exactly its return-code cell; the label column is unchanged |
| `Vectorizer.FillCallsCounts` | extraction-formatting/extract-data_with_scores.py:157-178 | after a sample's calls, success cell j counts truthy calls to `success_apis[j]`, fail cell len(S)+j counts zero-status calls to `fail_apis[j]`, and code cell len(S)+len(F)+j counts calls returning `return_codes[j]` |
| `Vectorizer.StepSums` | extraction-formatting/extract-data_with_scores.py:161-178 | one call adds one to the API-outcome region's sum and one to the return-code region's sum |
| `Vectorizer.FillCallsRegionSums` | extraction-formatting/extract-data_with_scores.py:157-178 | each region's sum grows by the number of calls |
| `Vectorizer.FaultSticks` | extraction-formatting/extract-data_with_scores.py:139-178 | once a lookup raises, no later call changes the row |
| `Vectorizer.FillCalls` | extraction-formatting/extract-data_with_scores.py:157-178 | the calls of a sample in order, each incrementing its two cells, stopping at the first raising lookup; the row keeps its width and counting never writes the label column |
| `Vectorizer.FillResolvedNoFault` | extraction-formatting/extract-data_with_scores.py:165-177 | when every lookup succeeds, filling does not raise |
| `Vectorizer.FinishUnfaulted` | extraction-formatting/extract-data_with_scores.py:181-214 | after the counts, the label goes into the last column and score column 2; then the id goes into column 0 and the score into column 1, or a BadId fault is raised with both left zero |
| `Vectorizer.SampleFault` | extraction-formatting/extract-data_with_scores.py:157-214 | with resolvable calls, a sample raises only when its id field does not convert |
| `Vectorizer.SampleLabel` | extraction-formatting/extract-data_with_scores.py:181-210 | with resolvable calls, the last feature column holds the family label (0 for an unknown prefix) |
| `Vectorizer.SampleScores` | extraction-formatting/extract-data_with_scores.py:181-214 | with resolvable calls, the score row is [id, score, label], the same label as the feature row |
| `Vectorizer.SampleRowCounts` | extraction-formatting/extract-data_with_scores.py:157-178 | a sample's feature row counts, cell by cell, the calls its vocabulary entries name |
| `Vectorizer.SampleRowSums` | extraction-formatting/extract-data_with_scores.py:157-178 | the API-outcome region and the return-code region of a sample's row each sum to its total call count |
| `Vectorizer.StatusTwoFaults` | extraction-formatting/extract-data_with_scores.py:111-116 | status 2 is filed under failed calls by pass 1 and looked up among successes by pass 2, where the lookup raises |
| `Vectorizer.CountCall` | extraction-formatting/extract-data_with_scores.py:161-178 | one call's increments on row `ids` as the row specification says; other rows are unchanged |
| `Vectorizer.FillProcessCalls` | extraction-formatting/extract-data_with_scores.py:159-178 | the loop over a process's calls on row `ids`, stopping at the first raising lookup; other rows are unchanged |
| `Vectorizer.FillCallsInto` | extraction-formatting/extract-data_with_scores.py:157-178 | the nested loops over processes and calls fill row `ids` with the counts; other rows are unchanged |
| `Vectorizer.WriteLabel` | extraction-formatting/extract-data_with_scores.py:181-210 | the label chain writes the last column of row `ids` only |
| `Vectorizer.WriteIdScore` | extraction-formatting/extract-data_with_scores.py:213-214 | the id goes to score column 0 and the score to column 1 of row `ids` only |
| `Vectorizer.FillSample` | extraction-formatting/extract-data_with_scores.py:155-214 | all writes for one sample land on row `ids` of both matrices and equal `SampleEffect`; other rows are unchanged |
| `Vectorizer.FillPicked` | extraction-formatting/extract-data_with_scores.py:155-217 | filling the picked entry's row keeps the earlier rows and extends the progress by one row, or halts on that row |
| `Vectorizer.FillEntry` | extraction-formatting/extract-data_with_scores.py:140-217 | an ignored or unparsable entry is skipped and `ids` stays; otherwise its row is filled and `ids` advances by one |
| `Vectorizer.SelectedStep` | extraction-formatting/extract-data_with_scores.py:144-153 | `ids` is the number of entries picked so far, and the next picked entry owns row `ids` |
| `Vectorizer.Picked` | extraction-formatting/extract-data_with_scores.py:144-153 | an entry pass 2 vectorizes: its name is not on the ignore list and it parsed |
| `Vectorizer.Selected` | extraction-formatting/extract-data_with_scores.py:140-153 | the entries pass 2 vectorizes, in listing order: no more than the listing holds, every one of them picked |
| `Vectorizer.FillMatrices` | extraction-formatting/extract-data_with_scores.py:137-217 | pass 2 fills row i with the i-th picked entry's rows, and ends with `ids` equal to the row count; or it stops on the first raising entry and leaves later rows zero |
| `Extraction.PickedIffQualifies` | extraction-formatting/extract-data_with_scores.py:99-106 | pass 2 picks an entry exactly when pass 1 counted it |
| `Extraction.SelectedIsQualifying` | extraction-formatting/extract-data_with_scores.py:137-153 | the entries pass 2 fills are the qualifying samples in listing order, `sample_num` of them |
| `Extraction.Pass1Resolves` | extraction-formatting/extract-data_with_scores.py:111-119 | a call pass 1 scanned with status 0 or 1 is found by both of pass 2's lookups |
| `Extraction.SampleSucceeds` | extraction-formatting/extract-data_with_scores.py:165-214 | a qualifying sample with 0/1 statuses and a convertible id fills its rows without raising |
| `Extraction.WellFormedSucceeds` | extraction-formatting/extract-data_with_scores.py:140-217 | in a well-formed listing no picked entry makes pass 2 raise |
| `Extraction.Extract` | extraction-formatting/extract-data_with_scores.py:74-217 | the script yields matrices of `sample_num × (len(S)+len(F)+len(R)+1)` and `sample_num × 3`; row i holds the i-th qualifying sample's rows; `ids` ends at `sample_num` unless an entry raised; a well-formed listing never raises; for each completed row, both counting regions sum to the sample's call total and the label column equals score column 2 |
| `Extraction.DoneRowFacts` | extraction-formatting/extract-data_with_scores.py:157-214 | in a completed row, the API-outcome region and the return-code region each sum to the sample's call total, and the label column equals score column 2, both the family label |
| `Vectorizer.FillNoFaultResolved` | extraction-formatting/extract-data_with_scores.py:165-177 | a fill that raised nothing found every call's api and return code in the vocabularies |
| `Vectorizer.SampleNoFaultResolved` | extraction-formatting/extract-data_with_scores.py:157-214 | a sample whose writes raised nothing has every call resolvable |
| `Extraction.BenignScenario` | extraction-formatting/extract-data_with_scores.py:81-217 | for `benign-001.json` with calls A/1/0, B/0/1 and A/1/0, the vocabularies are [A], [B] and [0, 1], the feature row is [2, 1, 2, 1, 1] and the score row is [1, score, 1] |

## Findings

| source | as written | input that shows it | evidently intended | confidence | as-written member | corrected member |
|---|---|---|---|---|---|---|
| extraction-formatting/extract-data_with_scores.py:111-165 | pass 1 files a call under the successful APIs only when `status == 1`, while pass 2 looks it up among the successful APIs whenever `status` is truthy | one qualifying sample with a single call `api "A", status 2, return_value 0`: pass 1 puts "A" among the failed APIs, pass 2 looks it up among the successful ones and `list.index` raises | both passes classify a call the same way, so every lookup of pass 2 succeeds (the case of reports whose statuses are 0 or 1) | not executed | `Vectorizer.StatusTwoFaults` | `Extraction.WellFormedSucceeds` |

## Left out

- Reading the directory, `os.path.isfile`, file reading and `json.loads` are not modelled (lines 13-33, 81, 140). A directory entry carries the report `get_json` returns, or None.
  `get_json` tests the global `file_path` rather than its own `filepath` parameter. At both call sites the two are equal, so the model does not show the difference.
- Reports are well-shaped by construction. A report missing `behavior`, `processes`, `calls`, `api`, `status`, `return_value` or `info.score` would raise `KeyError` in the script; the model does not include that case.
- Logging setup and every log call are not modelled (lines 36-52 and throughout). They are diagnostics only.
- The `MemoryError` handler and `sys.exit(1)` are not modelled (lines 121-123). The model has no resource limits.
- Reading `min_calls` from `sys.argv`, with its default of 1, is not modelled (lines 67-72). `min_calls` is a parameter.
- The `finally` block's timestamped file names, `numpy.savetxt` CSV writing and the script-directory fallback are I/O and are not modelled (lines 219-237). `Extract` returns the matrices that block would write, including partial contents after a fault.
- The float storage of the matrices is not modelled. Cells are integers.
- Filenames.ParseId: accepts only non-empty decimal digits. The float conversion numpy applies under Python 2 also accepts a sign, surrounding whitespace, an exponent, `inf` and `nan`, and produces a float. Those names count as faults in the model.
- Reports.Report: `info.score` is an integer stand-in for the float score, copied unchanged into score column 1.
- Extraction.Extract: requires distinct names in the listing. `os.listdir` guarantees this, and it makes the ignore-list check by name agree with pass 1's counting.
- converter.py is not part of this model. It loads a NumPy array and packs IEEE doubles into a file, so it is I/O and float serialisation only.
