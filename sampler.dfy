/**
 * Discovery and sampling of Airflow task processes: the candidate filter,
 * the construction of one `AirflowProcess` record per candidate, and the loop
 * of `AirflowPythonProcesses` over the process table.
 *
 * The process table and the per-process readings come from the process
 * library; here each process is the value of what that library returned.
 */
module Sampler {
  import opened Wrappers
  import opened Strings
  import opened Matcher

  const Two64: int := 0x1_0000_0000_0000_0000

  /** Go's `uint64`. */
  newtype u64 = x: int | 0 <= x < 0x1_0000_0000_0000_0000

  /** Go's `+` on `uint64`, which wraps around modulo 2^64. */
  function AddU64(a: u64, b: u64): (r: u64)
    ensures a as int + b as int < Two64 ==> r as int == a as int + b as int
    ensures a as int + b as int >= Two64 ==> r as int == a as int + b as int - Two64
  {
    ((a as int + b as int) % Two64) as u64
  }

  /**
   * A gauge value, a Go `float64`. Memory figures are `uint64` byte counts
   * converted with `float64(...)`; CPU times arrive as seconds. The exporter
   * only copies these values, so each keeps the form it was read in.
   */
  datatype Reading = Count(bytes: u64) | Seconds(time: real)

  /** The fields of the library's extended memory information that the exporter reads. */
  datatype MemoryInfoEx = MemoryInfoEx(rss: u64, vms: u64, shared: u64, text: u64, lib: u64, data: u64)

  /** The fields of one memory-map entry that the exporter reads. */
  datatype MemoryMap = MemoryMap(pss: u64, privateClean: u64, privateDirty: u64, swap: u64)

  /** CPU times in seconds. */
  datatype Times = Times(user: real, system: real)

  /** One entry of the process table, with the answers the process library gives for it. */
  datatype Process = Process(cmdline: string, memInfo: MemoryInfoEx, memMaps: seq<MemoryMap>, times: Times)

  /** The record built for one Airflow task process. */
  datatype AirflowProcess = AirflowProcess(
    dag: string,
    operator: string,
    execDate: string,
    memRSS: Reading,
    memVMS: Reading,
    memShared: Reading,
    memText: Reading,
    memData: Reading,
    memLib: Reading,
    memUSS: Reading,
    memPSS: Reading,
    memSwap: Reading,
    cpuPercent: Reading,
    cpuUser: Reading,
    cpuSystem: Reading)

  /** A process is a candidate when its command line holds both markers. */
  predicate IsCandidate(cmdline: string)
  {
    Contains(cmdline, "airflow run") && Contains(cmdline, " --raw ")
  }

  /** The example command line of `Matcher.ExampleCommandLine` passes the filter. */
  lemma ExampleIsCandidate()
    ensures IsCandidate("airflow run " + "my_dag" + " " + "extract_op" + " " + "2024-01-02T03:04:05" + " --raw ")
  {
    var s := "airflow run " + "my_dag" + " " + "extract_op" + " " + "2024-01-02T03:04:05" + " --raw ";
    assert OccursAt(s, "airflow run", 0) by {
      assert s[0..11] == "airflow run";
    }
    assert OccursAt(s, " --raw ", 49) by {
      assert s[49..56] == " --raw ";
    }
  }

  /** Go's map index: the value under `k`, or the zero string when `k` is absent. */
  function Lookup(m: map<string, string>, k: string): string
  {
    if k in m then m[k] else ""
  }

  /**
   * The record literal built for process `p` from its capture map.
   * Only the first memory-map entry is read; `CPUPercent` is left at zero.
   */
  function NewRecord(p: Process, cmdArgs: map<string, string>): (r: AirflowProcess)
    requires |p.memMaps| > 0
    ensures "dag" !in cmdArgs ==> r.dag == ""
    ensures "operator" !in cmdArgs ==> r.operator == ""
    ensures "execDate" !in cmdArgs ==> r.execDate == ""
    ensures "dag" in cmdArgs ==> r.dag == cmdArgs["dag"]
    ensures "operator" in cmdArgs ==> r.operator == cmdArgs["operator"]
    ensures "execDate" in cmdArgs ==> r.execDate == cmdArgs["execDate"]
    ensures r.memUSS.Count?
    ensures r.memUSS.bytes as int == (p.memMaps[0].privateClean as int + p.memMaps[0].privateDirty as int) % Two64
    ensures r.cpuPercent == Seconds(0.0)
    ensures r.memRSS == Count(p.memInfo.rss) && r.memVMS == Count(p.memInfo.vms) && r.memShared == Count(p.memInfo.shared)
    ensures r.memText == Count(p.memInfo.text) && r.memData == Count(p.memInfo.data) && r.memLib == Count(p.memInfo.lib)
    ensures r.memPSS == Count(p.memMaps[0].pss) && r.memSwap == Count(p.memMaps[0].swap)
    ensures r.cpuUser == Seconds(p.times.user) && r.cpuSystem == Seconds(p.times.system)
  {
    var memMap := p.memMaps[0];
    AirflowProcess(
      dag := Lookup(cmdArgs, "dag"),
      operator := Lookup(cmdArgs, "operator"),
      execDate := Lookup(cmdArgs, "execDate"),
      memRSS := Count(p.memInfo.rss),
      memVMS := Count(p.memInfo.vms),
      memShared := Count(p.memInfo.shared),
      memText := Count(p.memInfo.text),
      memData := Count(p.memInfo.data),
      memLib := Count(p.memInfo.lib),
      memUSS := Count(AddU64(memMap.privateClean, memMap.privateDirty)),
      memPSS := Count(memMap.pss),
      memSwap := Count(memMap.swap),
      cpuPercent := Seconds(0.0),
      cpuUser := Seconds(p.times.user),
      cpuSystem := Seconds(p.times.system))
  }

  /**
   * The record a candidate process yields. Its identity fields are all blank
   * when the pattern finds no match in the command line (the record is still
   * produced), otherwise the groups of the match `FindSubmatch` reports.
   */
  function Sample(p: Process): (r: AirflowProcess)
    requires |p.memMaps| > 0
    ensures FindSubmatch(p.cmdline).None? ==> r.dag == "" && r.operator == "" && r.execDate == ""
    ensures FindSubmatch(p.cmdline).Some? ==>
      Captures(r.dag, r.operator, r.execDate) == FindSubmatch(p.cmdline).value
  {
    var s := p.cmdline;
    var r := NewRecord(p, SubmatchMap(s));
    if FindSubmatch(s).Some? then
      assert SubmatchMap(s) == CaptureMap(FindSubmatch(s).value);
      r
    else
      r
  }

  /**
   * The identity of a record, read through the pattern: blank when nothing in
   * the command line matches, otherwise the groups of the leftmost match.
   */
  lemma SampleIdentity(p: Process)
    requires |p.memMaps| > 0
    ensures (forall i: nat, c: Captures :: !MatchesAt(p.cmdline, i, c)) ==>
      Sample(p).dag == "" && Sample(p).operator == "" && Sample(p).execDate == ""
    ensures (exists i: nat, c: Captures :: MatchesAt(p.cmdline, i, c)) ==>
      exists i: nat :: IsLeftmostMatch(p.cmdline, i, Captures(Sample(p).dag, Sample(p).operator, Sample(p).execDate))
  {
    var s := p.cmdline;
    var r := Sample(p);
    FindSubmatchNone(s);
    if FindSubmatch(s).Some? {
      var c := FindSubmatch(s).value;
      assert Captures(r.dag, r.operator, r.execDate) == c;
      FindSubmatchIsLeftmost(s, c);
    }
  }

  /** Every candidate has at least one memory-map entry (the source indexes entry 0 unchecked). */
  predicate MapsPresent(ps: seq<Process>)
  {
    forall i :: 0 <= i < |ps| && IsCandidate(ps[i].cmdline) ==> |ps[i].memMaps| > 0
  }

  /** The records for the process table `ps`: one per candidate, in table order. */
  function Records(ps: seq<Process>): seq<AirflowProcess>
    requires MapsPresent(ps)
  {
    if ps == [] then []
    else
      var last := ps[|ps| - 1];
      Records(ps[..|ps| - 1]) + (if IsCandidate(last.cmdline) then [Sample(last)] else [])
  }

  /** The indices of the candidates in `ps`, in table order. */
  ghost function CandidateIndices(ps: seq<Process>): seq<nat>
  {
    if ps == [] then []
    else
      CandidateIndices(ps[..|ps| - 1]) + (if IsCandidate(ps[|ps| - 1].cmdline) then [|ps| - 1] else [])
  }

  /** `AirflowPythonProcesses`: filters the process table and samples each candidate. */
  method AirflowPythonProcesses(processes: seq<Process>) returns (out: seq<AirflowProcess>, err: Option<string>)
    requires MapsPresent(processes)
    ensures out == Records(processes)
    ensures err == None
  {
    out := [];
    for i := 0 to |processes|
      invariant out == Records(processes[..i])
    {
      assert processes[..i + 1][..i] == processes[..i];
      var process := processes[i];
      var cmdline := process.cmdline;
      if !Contains(cmdline, "airflow run") || !Contains(cmdline, " --raw ") {
        continue;
      }
      var cmdArgs := FindStringSubmatchMap(cmdline);
      var airflowp := NewRecord(process, cmdArgs);
      out := out + [airflowp];
    }
    assert processes[..|processes|] == processes;
    err := None;
  }

  /**
   * The candidate indices are exactly the positions of candidates in the
   * table, listed in strictly increasing order.
   */
  lemma {:induction false} CandidateIndicesExact(ps: seq<Process>)
    ensures forall i :: i in CandidateIndices(ps) <==> 0 <= i < |ps| && IsCandidate(ps[i].cmdline)
    ensures forall a, b :: 0 <= a < b < |CandidateIndices(ps)| ==> CandidateIndices(ps)[a] < CandidateIndices(ps)[b]
  {
    if ps != [] {
      var n := |ps| - 1;
      var init := ps[..n];
      CandidateIndicesExact(init);
      assert forall i :: 0 <= i < n ==> init[i] == ps[i];
      var ci := CandidateIndices(init);
      assert forall a :: 0 <= a < |ci| ==> ci[a] in ci;
      if IsCandidate(ps[n].cmdline) {
        assert CandidateIndices(ps) == ci + [n];
      } else {
        assert CandidateIndices(ps) == ci;
      }
    }
  }

  /**
   * A process yields a record if and only if it is a candidate: the k-th
   * record is the sample of the k-th candidate, and there is one record per
   * candidate.
   */
  lemma {:induction false} RecordsFollowCandidates(ps: seq<Process>)
    requires MapsPresent(ps)
    ensures |Records(ps)| == |CandidateIndices(ps)|
    ensures forall k :: 0 <= k < |Records(ps)| ==>
      && CandidateIndices(ps)[k] < |ps|
      && IsCandidate(ps[CandidateIndices(ps)[k]].cmdline)
      && Records(ps)[k] == Sample(ps[CandidateIndices(ps)[k]])
  {
    CandidateIndicesExact(ps);
    if ps != [] {
      var init := ps[..|ps| - 1];
      assert MapsPresent(init) by {
        assert forall i :: 0 <= i < |init| ==> init[i] == ps[i];
      }
      RecordsFollowCandidates(init);
      CandidateIndicesExact(init);
      assert forall i :: 0 <= i < |init| ==> init[i] == ps[i];
    }
  }

  /** The table without its last process still has the memory maps the filter needs. */
  lemma MapsPresentInit(ps: seq<Process>)
    requires ps != [] && MapsPresent(ps)
    ensures MapsPresent(ps[..|ps| - 1])
  {
  }

  /** Every record is the sample of a candidate process. */
  lemma {:induction false} RecordIsSample(ps: seq<Process>, k: nat)
    requires MapsPresent(ps) && k < |Records(ps)|
    ensures exists i :: 0 <= i < |ps| && IsCandidate(ps[i].cmdline) && Records(ps)[k] == Sample(ps[i])
  {
    var init := ps[..|ps| - 1];
    var last := |ps| - 1;
    MapsPresentInit(ps);
    var ri := Records(init);
    if k < |ri| {
      RecordIsSample(init, k);
      var i :| 0 <= i < |init| && IsCandidate(init[i].cmdline) && ri[k] == Sample(init[i]);
      assert init[i] == ps[i];
      assert Records(ps)[k] == Sample(ps[i]);
    } else {
      assert Records(ps)[k] == Sample(ps[last]);
    }
  }

  /** The sample of every candidate process is among the records. */
  lemma {:induction false} CandidateIsSampled(ps: seq<Process>, i: nat)
    requires MapsPresent(ps) && i < |ps| && IsCandidate(ps[i].cmdline)
    ensures exists k :: 0 <= k < |Records(ps)| && Records(ps)[k] == Sample(ps[i])
  {
    var init := ps[..|ps| - 1];
    MapsPresentInit(ps);
    var ri := Records(init);
    if i < |ps| - 1 {
      assert init[i] == ps[i];
      CandidateIsSampled(init, i);
      var k :| 0 <= k < |ri| && ri[k] == Sample(init[i]);
      assert Records(ps)[k] == Sample(ps[i]);
    } else {
      assert Records(ps)[|ri|] == Sample(ps[i]);
    }
  }

  /** Entries of the memory map after the first never influence the record. */
  lemma FirstMapEntryOnly(p: Process, q: Process)
    requires |p.memMaps| > 0 && |q.memMaps| > 0
    requires q == p.(memMaps := q.memMaps) && q.memMaps[0] == p.memMaps[0]
    ensures Sample(q) == Sample(p)
  {
  }

  /** A match of the pattern implies the first candidate marker; the second, " --raw ", is independent of it. */
  lemma MatchImpliesRunMarker(s: string, i: nat, c: Captures)
    requires MatchesAt(s, i, c)
    ensures Contains(s, "airflow run")
  {
    WholeMatchParts(s, i, c);
    assert s[i..i + |Lead|][..11] == "airflow run";
    assert OccursAt(s[i..i + |Lead|], "airflow run", 0);
    ContainsInSlice(s, "airflow run", i, i + |Lead|);
  }
}
