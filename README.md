# airflow-metrics: a Dafny model of the sampling-and-publication cycle

This project models the core of a small Prometheus exporter for Airflow
workers. Every cycle it walks the process table, keeps the Airflow task
processes (`airflow run ... --raw ...`), extracts each one's dag id, task id
(`operator`) and execution date from its command line with a fixed regular
expression, reads its memory and CPU figures, derives a label set, and
republishes twelve gauge vectors: all vectors are reset first, then one value
per record is written to each.

Part of the code exists twice. `metrics/collector.go` repeats these
declarations of `server.go` without the logging: the pattern `cmdR`,
`AirflowPythonProcesses`, the `AirflowProcess` struct, `GetLabels`, `getName`
and `findStringSubmatchMap`. Only `server.go` has `readMetrics`,
`getConstLabels`, `createMetricsFields`, the flags and `main`. The model
states each duplicated function once. The table below cites whichever copy a
member's property is listed against.

Modules, one per component:

- `Strings` (`strings.dfy`): Go's `strings.Contains`, `strings.Join` and
  `strings.Split` over character sequences.
- `Matcher` (`matcher.dfy`): the pattern `cmdR`, matched by a hand-written
  scanner proved equal to a declarative reading of the pattern. Go's
  leftmost-match semantics are modelled, and so is `findStringSubmatchMap`.
- `Sampler` (`sampler.dfy`): the candidate filter, the record literal and
  the loop of `AirflowPythonProcesses`.
- `Labels` (`labels.dfy`): `getName` and `GetLabels`.
- `ConstLabels` (`constlabels.dfy`): `getConstLabels`.
- `Publish` (`publish.dfy`): the twelve gauge vectors, as a class holding
  one map per vector. One iteration of `readMetrics` is modelled.
- `Wrappers` (`wrappers.dfy`): an `Option` type.

Notes on the source as written:

- The data vector is fed the virtual-memory figure and the CPU-percent vector
  the user CPU time; the `MemData` and `CPUPercent` record fields are never
  published. The model keeps this routing (`DuplicatedVectors`,
  `UnpublishedFields`).
- `host_hostname` holds the raw file contents; nothing trims them.
- The variable label names are `name`, `dag`, `operator`, `exec_date`.
- `AirflowPythonProcesses` always returns a nil error, so the error branch of
  `readMetrics` cannot run.
- The errors of the process-library calls are discarded. The results are
  then dereferenced (memory-map entry 0 unchecked). Readings are therefore
  never defaulted to zero by this code.

## Model

| member | source | states |
|---|---|---|
| `Strings.JoinSplit` | server.go:150 | Splitting a string at a separator and joining the pieces with it gives the string back |
| `Strings.SplitPieces` | server.go:150 | No piece of a split contains the separator; there is one piece more than separators |
| `Strings.ContainsEmpty` | server.go:233 | Every string contains the empty string (why a blank dag id is always "contained") |
| `Matcher.WordEndIsRun` | server.go:160 | A `\w+` group ends at the first non-word character: every character before it is a word character, the one at it is not |
| `Matcher.MatchAtCorrect` | server.go:160 | The scanner reports groups `c` at position `i` if and only if the pattern matches there with those groups, so a match at a position is unique |
| `Matcher.FindSubmatchIsLeftmost` | metrics/collector.go:96 | `FindStringSubmatch` reports groups `c` if and only if the leftmost match of the pattern has those groups |
| `Matcher.FindSubmatchNone` | server.go:245-248 | No match is reported exactly when the pattern matches at no position |
| `Matcher.FindStringSubmatch` | server.go:245 | `nil` exactly when the pattern matches nowhere. Otherwise four strings: the whole text of a leftmost match (`airflow run `, the dag, a space, the task, a space, the date), found at its start position, then its `dag`, `operator` and `execDate` groups |
| `Matcher.FindStringSubmatchMap` | server.go:242-258 | The loop over the group names builds the empty map when nothing matches, else one entry per named group from the leftmost match |
| `Matcher.SubmatchMapShape` | metrics/collector.go:93-109 | The capture map is empty iff nothing matches. Otherwise its keys are exactly `dag`, `operator`, `execDate`. Its values are the leftmost match's groups: two word tokens and a `dddd-dd-ddTdd:dd:dd` date |
| `Matcher.MatchAtStart` | server.go:160 | A command line that begins with a match yields that match's groups |
| `Matcher.ExampleCommandLine` | server.go:160 | `airflow run my_dag extract_op 2024-01-02T03:04:05 --raw ` (with the trailing space of the ` --raw ` marker) yields `my_dag`, `extract_op`, `2024-01-02T03:04:05` |
| `Matcher.NoMatchAtFirstMarker` | server.go:160 | In `airflow run x airflow run ...` no match starts at the first marker |
| `Matcher.LeftmostNotFirstMarker` | metrics/collector.go:12 | The reported match can start after the first occurrence of `airflow run`: there the match at 14 is reported |
| `Sampler.AddU64` | server.go:188 | The USS sum is uint64 addition: exact below 2^64, wrapped by 2^64 above |
| `Sampler.AirflowPythonProcesses` | server.go:163-199 | The loop returns exactly the records of the table (one per candidate, in order) and a nil error |
| `Sampler.ExampleIsCandidate` | server.go:169 | The example command line of `Matcher.ExampleCommandLine` contains both `airflow run` and ` --raw `, so the filter keeps it |
| `Sampler.CandidateIndicesExact` | server.go:169-171 | The candidate positions are exactly the processes whose command line contains both `airflow run` and ` --raw `, in increasing order |
| `Sampler.RecordsFollowCandidates` | metrics/collector.go:15-50 | A process yields a record iff it is a candidate: the k-th record is the sample of the k-th candidate, one record per candidate |
| `Sampler.NewRecord` | server.go:178-194 | The identity fields are the capture map's entries, `""` for a missing key. USS is the uint64 sum of private clean and dirty of memory-map entry 0, wrapped by 2^64. PSS and swap are entry 0's `Pss` and `Swap`. RSS, VMS, shared, text, data and lib are the process's memory-info readings of the same names. CPU user and system are the process's user and system times. CPU percent stays zero |
| `Sampler.Sample` | server.go:172-181 | With no match reported the identity fields are all `""` and the record is still produced; otherwise they are the reported groups |
| `Sampler.SampleIdentity` | metrics/collector.go:23-32 | With no match the identity fields are all `""` and the record is still produced; otherwise they are the groups of the leftmost match |
| `Sampler.RecordIsSample` | server.go:168-197 | Every record returned is the sample of a candidate process of the table |
| `Sampler.CandidateIsSampled` | server.go:168-197 | Every candidate process of the table has its sample among the records |
| `Sampler.FirstMapEntryOnly` | metrics/collector.go:25-41 | Memory-map entries after the first never influence the record (USS, PSS and swap come from entry 0) |
| `Sampler.MatchImpliesRunMarker` | server.go:169-172 | A command line the pattern matches always contains `airflow run`; only ` --raw ` is an extra condition |
| `Labels.GetLabels` | server.go:221-228 | The label map's keys are exactly the variable label names of the gauge vectors |
| `Labels.NameCases` | metrics/collector.go:81-91 | Name is `operator_execDate` when the operator contains the dag id, `operator.dag_execDate` otherwise |
| `Labels.GetName` | server.go:230-240 | The name begins with the operator and ends with `_` and the execution date, and is longer than the two together |
| `Labels.BlankIdentityName` | server.go:233-239 | A record with blank identity is named `_` |
| `Labels.NameNotUnique` | server.go:230-240 | Two records with different dag ids (and different label maps) can share a name |
| `Labels.LabelsIdentify` | metrics/collector.go:72-79 | Two records get the same label map iff they agree on dag, operator and execution date |
| `Labels.NameExampleQualified` | server.go:236-239 | `extract_op` with dag `my_dag` is named `extract_op.my_dag_2024-01-02T03:04:05` |
| `Labels.NameExampleContained` | server.go:233-234 | `my_dag_extract` with dag `my_dag` is named `my_dag_extract_2024-01-02T03:04:05` |
| `ConstLabels.CustomLabelNames` | server.go:149-150 | An empty flag gives no names. Otherwise there is one name more than commas in the flag, no name contains a comma, and the names joined with commas give back the flag |
| `ConstLabels.MarkTrueShape` | server.go:150-152 | Writing the custom names adds exactly them as keys, each mapped to `"true"`, and leaves other keys alone |
| `ConstLabels.GetConstLabels` | server.go:133-157 | `hostname` is always present (`""` on error). `host_hostname` is present iff a path is given and the read succeeds, holding the raw contents. Each custom name maps to `"true"`, overriding the two others |
| `Publish.WithLabels` | server.go:110-111 | The label map of a record has exactly the vector's label names, so `With` selects the series of the record's name, dag, operator and date |
| `Publish.MetricsFields.constructor` | server.go:59-87 | Twelve empty vectors sharing the constant labels |
| `Publish.MetricsFields.ResetAll` | server.go:92-103 | Every vector is emptied |
| `Publish.MetricsFields.SetMemoryInfo` | server.go:111-116 | The RSS, VMS, shared, text, data and lib vectors get the record's series set (data gets VMS); the other series are unchanged |
| `Publish.MetricsFields.SetMemoryMap` | server.go:117-119 | The USS, PSS and swap vectors get the record's series set; the other series are unchanged |
| `Publish.MetricsFields.SetCpuTimes` | server.go:120-122 | The three CPU vectors get the record's series set (CPU percent gets user time); the other series are unchanged |
| `Publish.MetricsFields.SetAll` | server.go:110-122 | Each vector gets the record's series set to its routed field (data gets VMS, CPU percent gets user time); the other series are unchanged |
| `Publish.MetricsFields.ReadMetrics` | server.go:89-131 | After one pass every vector equals the gauge of the current records, whatever it held before |
| `Publish.Published` | server.go:111-122 | Every vector is fed one of ten record fields: all the readings except `MemData` and `CPUPercent` |
| `Publish.WrittenInGauge` | server.go:110-122 | Every record written to a vector leaves its series there |
| `Publish.GaugeOnlyWritten` | server.go:110-122 | Every series in a vector was written by some record |
| `Publish.GaugeKeys` | server.go:106-123 | A vector holds exactly one series per distinct label tuple among the records written |
| `Publish.GaugeLastWriteWins` | server.go:110-122 | Records with equal labels collapse into one series whose value is that of the last such record |
| `Publish.NoStaleSeries` | server.go:92-123 | After a pass, each vector's series are exactly those of the candidates in the current table; none from an earlier pass survives |
| `Publish.DuplicatedVectors` | server.go:112-121 | The data vector equals the virtual-memory vector and the CPU-percent vector equals the user-CPU vector |
| `Publish.UnpublishedFields` | server.go:111-122 | The `MemData` and `CPUPercent` record fields never reach a vector |
| `Publish.MetricNamesDistinct` | server.go:72-86 | The twelve metric names are pairwise distinct |

## Left out

- The HTTP server, the `promhttp` handler and `main`: network I/O.
- Flag parsing. The flag values are method parameters instead.
- `os.Hostname` and `ioutil.ReadFile` are parameters: their result, or `None` for an error.
- The process library (`Processes`, `Cmdline`, `MemoryInfoEx`, `MemoryMaps`,
  `Times`) is not part of this model. A process is the value of its answers.
  What the source does when one of these calls fails depends on that
  library, because the source discards the error and dereferences the
  result.
- `Sampler.AirflowPythonProcesses`: requires every candidate to have a
  memory-map entry, because the source indexes entry 0 without a check.
- The Prometheus registry, `GaugeVec` internals and the text exposition: each
  vector is a map from label values to value. Registration checks beyond
  distinct metric names are not modelled, for example a constant label that
  clashes with a variable one.
- `Publish.MetricsFields.ReadMetrics`: models one iteration of the loop. The
  goroutine, `time.Sleep`, the endless loop and concurrent scrapes are not
  modelled. The unreachable error branch of `readMetrics` is not modelled.
- Floating point: gauge values are only copied. A `uint64` reading is kept as
  that integer, which stands for its `float64` conversion; rounding above
  2^53 is not modelled.
- Logging (`Printf`, `Println`) and the verbose flag.
- Strings are character sequences: Go's byte-level `strings` functions and
  rune-level regular expressions agree with the model on valid UTF-8 only.
