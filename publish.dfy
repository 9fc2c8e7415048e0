/**
 * The gauge vectors and one pass of the publishing loop `readMetrics`.
 *
 * Each of the twelve gauge vectors is modelled by what it stores: a map from
 * the values of its four variable labels to the gauge value. `Reset` empties
 * that map and `With(labels).Set(v)` writes one entry.
 */
module Publish {
  import opened Sampler
  import opened Labels

  /** The values of the variable labels `name`, `dag`, `operator`, `exec_date` of one series. */
  datatype LabelValues = LabelValues(name: string, dag: string, operator: string, execDate: string)

  /** The contents of one gauge vector. */
  type Series = map<LabelValues, Reading>

  /**
   * The series `GaugeVec.With(labels)` selects. The vector panics unless the
   * label names are exactly its variable labels, hence the precondition.
   */
  function With(labels: map<string, string>): LabelValues
    requires labels.Keys == set n | n in LabelNames
  {
    assert LabelNames[0] in labels && LabelNames[1] in labels && LabelNames[2] in labels && LabelNames[3] in labels;
    LabelValues(labels[LabelNames[0]], labels[LabelNames[1]], labels[LabelNames[2]], labels[LabelNames[3]])
  }

  /** The series a record is written to: its name and identity fields. */
  function Key(p: AirflowProcess): LabelValues
  {
    LabelValues(GetName(p), p.dag, p.operator, p.execDate)
  }

  /** `With(GetLabels(p))` selects the series `Key(p)`: the label map never makes the vector panic. */
  lemma WithLabels(p: AirflowProcess)
    ensures GetLabels(p).Keys == set n | n in LabelNames
    ensures With(GetLabels(p)) == Key(p)
  {
  }

  /** The twelve resource dimensions, one gauge vector each. */
  datatype Dimension =
    | MemRSS | MemVMS | MemShared | MemText | MemData | MemLib
    | MemUSS | MemPSS | MemSwap | CpuPercent | CpuUser | CpuSystem

  /** The registered metric name of each gauge vector. */
  function MetricName(d: Dimension): string
  {
    match d
    case MemRSS => "airflow_process_mem_rss"
    case MemVMS => "airflow_process_mem_vms"
    case MemShared => "airflow_process_mem_shared"
    case MemText => "airflow_process_mem_text"
    case MemData => "airflow_process_mem_data"
    case MemLib => "airflow_process_mem_lib"
    case MemUSS => "airflow_process_mem_uss"
    case MemPSS => "airflow_process_mem_pss"
    case MemSwap => "airflow_process_mem_swap"
    case CpuPercent => "airflow_process_cpu_percent"
    case CpuUser => "airflow_process_cpu_times_user"
    case CpuSystem => "airflow_process_cpu_times_system"
  }

  /**
   * The record field `readMetrics` writes into each vector, as written: the
   * data vector receives the virtual-memory figure and the CPU-percent vector
   * the user CPU time.
   */
  function Published(d: Dimension, p: AirflowProcess): (v: Reading)
    ensures v in [p.memRSS, p.memVMS, p.memShared, p.memText, p.memLib,
                  p.memUSS, p.memPSS, p.memSwap, p.cpuUser, p.cpuSystem]
  {
    match d
    case MemRSS => p.memRSS
    case MemVMS => p.memVMS
    case MemShared => p.memShared
    case MemText => p.memText
    case MemData => p.memVMS
    case MemLib => p.memLib
    case MemUSS => p.memUSS
    case MemPSS => p.memPSS
    case MemSwap => p.memSwap
    case CpuPercent => p.cpuUser
    case CpuUser => p.cpuUser
    case CpuSystem => p.cpuSystem
  }

  /** The contents of vector `d` after a reset followed by one write per record, in order. */
  function Gauge(records: seq<AirflowProcess>, d: Dimension): Series
  {
    if records == [] then map[]
    else
      var last := records[|records| - 1];
      Gauge(records[..|records| - 1], d)[Key(last) := Published(d, last)]
  }

  /** Every record written to a vector leaves its series there. */
  lemma {:induction false} WrittenInGauge(records: seq<AirflowProcess>, d: Dimension, k: nat)
    requires k < |records|
    ensures Key(records[k]) in Gauge(records, d)
  {
    var init := records[..|records| - 1];
    if k < |init| {
      assert init[k] == records[k];
      WrittenInGauge(init, d, k);
    }
  }

  /** Every series in a vector was written by some record. */
  lemma {:induction false} GaugeOnlyWritten(records: seq<AirflowProcess>, d: Dimension, x: LabelValues)
    requires x in Gauge(records, d)
    ensures exists k :: 0 <= k < |records| && Key(records[k]) == x
  {
    var init := records[..|records| - 1];
    var last := |records| - 1;
    if x != Key(records[last]) {
      GaugeOnlyWritten(init, d, x);
      var k :| 0 <= k < |init| && Key(init[k]) == x;
      assert records[k] == init[k];
    }
  }

  /** A vector holds exactly one series per distinct label tuple among the records written to it. */
  lemma {:induction false} GaugeKeys(records: seq<AirflowProcess>, d: Dimension)
    ensures Gauge(records, d).Keys == set k | 0 <= k < |records| :: Key(records[k])
  {
    var written := set k | 0 <= k < |records| :: Key(records[k]);
    forall x | x in Gauge(records, d)
      ensures x in written
    {
      GaugeOnlyWritten(records, d, x);
    }
    forall x | x in written
      ensures x in Gauge(records, d)
    {
      var k :| 0 <= k < |records| && Key(records[k]) == x;
      WrittenInGauge(records, d, k);
    }
  }

  /**
   * Records with the same labels collapse into one series, and the last
   * write wins: the value of a series is that of the last record written to it.
   */
  lemma {:induction false} GaugeLastWriteWins(records: seq<AirflowProcess>, d: Dimension, j: nat)
    requires j < |records|
    requires forall k :: j < k < |records| ==> Key(records[k]) != Key(records[j])
    ensures Key(records[j]) in Gauge(records, d)
    ensures Gauge(records, d)[Key(records[j])] == Published(d, records[j])
  {
    var init := records[..|records| - 1];
    if j < |records| - 1 {
      assert forall k :: j < k < |init| ==> init[k] == records[k];
      GaugeLastWriteWins(init, d, j);
    }
  }

  /**
   * No stale series: after one pass the series of every vector are exactly
   * those of the candidate processes in the current table, whatever the
   * vectors held before.
   */
  lemma NoStaleSeries(ps: seq<Process>, d: Dimension)
    requires MapsPresent(ps)
    ensures Gauge(Records(ps), d).Keys ==
      set i | 0 <= i < |ps| && IsCandidate(ps[i].cmdline) :: Key(Sample(ps[i]))
  {
    var rs := Records(ps);
    GaugeKeys(rs, d);
    var lhs := set k | 0 <= k < |rs| :: Key(rs[k]);
    var rhs := set i | 0 <= i < |ps| && IsCandidate(ps[i].cmdline) :: Key(Sample(ps[i]));
    forall x | x in lhs
      ensures x in rhs
    {
      var k :| 0 <= k < |rs| && x == Key(rs[k]);
      RecordIsSample(ps, k);
      var i :| 0 <= i < |ps| && IsCandidate(ps[i].cmdline) && rs[k] == Sample(ps[i]);
    }
    forall x | x in rhs
      ensures x in lhs
    {
      var i :| 0 <= i < |ps| && IsCandidate(ps[i].cmdline) && x == Key(Sample(ps[i]));
      CandidateIsSampled(ps, i);
      var k :| 0 <= k < |rs| && rs[k] == Sample(ps[i]);
    }
  }

  /**
   * The data vector repeats the virtual-memory vector and the CPU-percent
   * vector repeats the user-CPU vector, series for series.
   */
  lemma {:induction false} DuplicatedVectors(records: seq<AirflowProcess>)
    ensures Gauge(records, MemData) == Gauge(records, MemVMS)
    ensures Gauge(records, CpuPercent) == Gauge(records, CpuUser)
  {
    if records != [] {
      DuplicatedVectors(records[..|records| - 1]);
    }
  }

  /**
   * The `MemData` and `CPUPercent` fields of a record never reach a vector:
   * records that differ only there publish the same series.
   */
  lemma {:induction false} UnpublishedFields(records: seq<AirflowProcess>, others: seq<AirflowProcess>, d: Dimension)
    requires |others| == |records|
    requires forall k :: 0 <= k < |records| ==>
      others[k] == records[k].(memData := others[k].memData, cpuPercent := others[k].cpuPercent)
    ensures Gauge(others, d) == Gauge(records, d)
  {
    if records != [] {
      var n := |records| - 1;
      UnpublishedFields(records[..n], others[..n], d);
      assert Key(others[n]) == Key(records[n]);
    }
  }

  /** The twelve metric names are pairwise distinct, so all twelve vectors can be registered together. */
  lemma MetricNamesDistinct(d: Dimension, e: Dimension)
    requires d != e
    ensures MetricName(d) != MetricName(e)
  {
  }

  /** The twelve gauge vectors of the exporter, all with the same constant labels. */
  class MetricsFields {
    const constLabels: map<string, string>
    var memRSS: Series
    var memVMS: Series
    var memShared: Series
    var memText: Series
    var memData: Series
    var memLib: Series
    var memUSS: Series
    var memPSS: Series
    var memSwap: Series
    var cpuPercent: Series
    var cpuUser: Series
    var cpuSystem: Series

    /** The contents of the vector for dimension `d`. */
    function Vec(d: Dimension): Series
      reads this
    {
      match d
      case MemRSS => memRSS
      case MemVMS => memVMS
      case MemShared => memShared
      case MemText => memText
      case MemData => memData
      case MemLib => memLib
      case MemUSS => memUSS
      case MemPSS => memPSS
      case MemSwap => memSwap
      case CpuPercent => cpuPercent
      case CpuUser => cpuUser
      case CpuSystem => cpuSystem
    }

    /** `createMetricsFields`: twelve empty vectors sharing `constLabels`. */
    constructor (constLabels: map<string, string>)
      ensures this.constLabels == constLabels
      ensures forall d :: Vec(d) == map[]
    {
      this.constLabels := constLabels;
      memRSS, memVMS, memShared, memText, memData, memLib := map[], map[], map[], map[], map[], map[];
      memUSS, memPSS, memSwap, cpuPercent, cpuUser, cpuSystem := map[], map[], map[], map[], map[], map[];
    }

    /** `Reset` on every vector. */
    method ResetAll()
      modifies this
      ensures memRSS == map[] && memVMS == map[] && memShared == map[] && memText == map[]
      ensures memData == map[] && memLib == map[] && memUSS == map[] && memPSS == map[]
      ensures memSwap == map[] && cpuPercent == map[] && cpuUser == map[] && cpuSystem == map[]
    {
      memRSS := map[];
      memVMS := map[];
      memShared := map[];
      memText := map[];
      memData := map[];
      memLib := map[];
      memUSS := map[];
      memPSS := map[];
      memSwap := map[];
      cpuPercent := map[];
      cpuUser := map[];
      cpuSystem := map[];
    }

    /** `With(labels).Set` on the six vectors fed from the memory figures; the data vector gets VMS. */
    method SetMemoryInfo(labels: map<string, string>, process: AirflowProcess)
      requires labels == GetLabels(process)
      modifies this`memRSS, this`memVMS, this`memShared, this`memText, this`memData, this`memLib
      ensures memRSS == old(memRSS)[Key(process) := process.memRSS]
      ensures memVMS == old(memVMS)[Key(process) := process.memVMS]
      ensures memShared == old(memShared)[Key(process) := process.memShared]
      ensures memText == old(memText)[Key(process) := process.memText]
      ensures memData == old(memData)[Key(process) := process.memVMS]
      ensures memLib == old(memLib)[Key(process) := process.memLib]
    {
      WithLabels(process);
      var key := With(labels);
      memRSS := memRSS[key := process.memRSS];
      memVMS := memVMS[key := process.memVMS];
      memShared := memShared[key := process.memShared];
      memText := memText[key := process.memText];
      memData := memData[key := process.memVMS];
      memLib := memLib[key := process.memLib];
    }

    /** `With(labels).Set` on the three vectors fed from the first memory-map entry. */
    method SetMemoryMap(labels: map<string, string>, process: AirflowProcess)
      requires labels == GetLabels(process)
      modifies this`memUSS, this`memPSS, this`memSwap
      ensures memUSS == old(memUSS)[Key(process) := process.memUSS]
      ensures memPSS == old(memPSS)[Key(process) := process.memPSS]
      ensures memSwap == old(memSwap)[Key(process) := process.memSwap]
    {
      WithLabels(process);
      var key := With(labels);
      memUSS := memUSS[key := process.memUSS];
      memPSS := memPSS[key := process.memPSS];
      memSwap := memSwap[key := process.memSwap];
    }

    /** `With(labels).Set` on the three CPU vectors; the CPU-percent vector gets the user time. */
    method SetCpuTimes(labels: map<string, string>, process: AirflowProcess)
      requires labels == GetLabels(process)
      modifies this`cpuPercent, this`cpuUser, this`cpuSystem
      ensures cpuPercent == old(cpuPercent)[Key(process) := process.cpuUser]
      ensures cpuUser == old(cpuUser)[Key(process) := process.cpuUser]
      ensures cpuSystem == old(cpuSystem)[Key(process) := process.cpuSystem]
    {
      WithLabels(process);
      var key := With(labels);
      cpuPercent := cpuPercent[key := process.cpuUser];
      cpuUser := cpuUser[key := process.cpuUser];
      cpuSystem := cpuSystem[key := process.cpuSystem];
    }

    /** `With(labels).Set` on every vector for one record. */
    method SetAll(labels: map<string, string>, process: AirflowProcess)
      requires labels == GetLabels(process)
      modifies this
      ensures memRSS == old(memRSS)[Key(process) := process.memRSS]
      ensures memVMS == old(memVMS)[Key(process) := process.memVMS]
      ensures memShared == old(memShared)[Key(process) := process.memShared]
      ensures memText == old(memText)[Key(process) := process.memText]
      ensures memData == old(memData)[Key(process) := process.memVMS]
      ensures memLib == old(memLib)[Key(process) := process.memLib]
      ensures memUSS == old(memUSS)[Key(process) := process.memUSS]
      ensures memPSS == old(memPSS)[Key(process) := process.memPSS]
      ensures memSwap == old(memSwap)[Key(process) := process.memSwap]
      ensures cpuPercent == old(cpuPercent)[Key(process) := process.cpuUser]
      ensures cpuUser == old(cpuUser)[Key(process) := process.cpuUser]
      ensures cpuSystem == old(cpuSystem)[Key(process) := process.cpuSystem]
    {
      SetMemoryInfo(labels, process);
      SetMemoryMap(labels, process);
      SetCpuTimes(labels, process);
    }

    /**
     * One pass of `readMetrics`: reset every vector, sample the process table,
     * then write every record into every vector. What the vectors hold
     * afterwards depends on the current table alone.
     */
    method ReadMetrics(processes: seq<Process>)
      requires MapsPresent(processes)
      modifies this
      ensures forall d :: Vec(d) == Gauge(Records(processes), d)
    {
      ResetAll();
      assert forall d :: Vec(d) == map[] by {
        forall d | true
          ensures Vec(d) == map[]
        {
          match d
          case MemRSS => case MemVMS => case MemShared => case MemText => case MemData => case MemLib =>
          case MemUSS => case MemPSS => case MemSwap => case CpuPercent => case CpuUser => case CpuSystem =>
        }
      }

      var airflowProcesses, err := AirflowPythonProcesses(processes);
      for i := 0 to |airflowProcesses|
        invariant forall d :: Vec(d) == Gauge(airflowProcesses[..i], d)
      {
        var process := airflowProcesses[i];
        var labels := GetLabels(process);
        label BeforeSet:
        SetAll(labels, process);
        forall d | true
          ensures Vec(d) == Gauge(airflowProcesses[..i + 1], d)
        {
          assert airflowProcesses[..i + 1][..i] == airflowProcesses[..i];
          assert Vec(d) == old@BeforeSet(Vec(d))[Key(process) := Published(d, process)] by {
            match d
            case MemRSS => case MemVMS => case MemShared => case MemText => case MemData => case MemLib =>
            case MemUSS => case MemPSS => case MemSwap => case CpuPercent => case CpuUser => case CpuSystem =>
          }
        }
      }
      assert airflowProcesses[..|airflowProcesses|] == airflowProcesses;
    }
  }
}
