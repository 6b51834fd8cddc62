/** The data-dependent lower bound (calcular_ddlb) and the ratio the
    solver reports against it. The bound is the larger of a workload term,
    the total of processing time plus least setup of every job spread over
    the machines, and a critical-path term, the largest ready time plus
    processing time plus least setup of a single job. The source takes the
    least setup OUT of each job, while a schedule charges each job the setup
    INTO it. Both directions are modelled. The bound is proved to hold for
    every partition when the data are non-negative and the start row
    dominates every incoming setup (as the loader's does,
    LoadedStartDominates): with the incoming direction in general, and with
    the outgoing one when setups are also symmetric. */
module LowerBound {
  import opened Util
  import opened Instances
  import opened Timing
  import opened Partitions
  import opened Loader

  /** Which setups of a job the bound takes the least of. */
  datatype Direction = Outgoing | Incoming

  /** The setup between job j and another job o: from j to o when
      outgoing, from o to j when incoming. */
  function Between(inst: Instance, dir: Direction, j: Job, o: Job): real
    requires inst.Valid() && inst.IsJob(j) && inst.IsJob(o)
  {
    if dir == Outgoing then inst.setup[(After(j), o)] else inst.setup[(After(o), j)]
  }

  /** Some job of 1..k other than j exists. */
  predicate HasOther(j: Job, k: nat) {
    k >= 2 || (k == 1 && j != 1)
  }

  /** The least setup between job j and the other jobs among 1..k (the
      `min` over a generator that skips j itself). */
  function LeastSetup(inst: Instance, dir: Direction, j: Job, k: nat): real
    requires inst.Valid() && inst.IsJob(j) && k <= inst.nJobs && HasOther(j, k)
    decreases k
  {
    if k == 1 then Between(inst, dir, j, 1)
    else if k == j then LeastSetup(inst, dir, j, k - 1)
    else if k == 2 && j == 1 then Between(inst, dir, j, 2)
    else Min(LeastSetup(inst, dir, j, k - 1), Between(inst, dir, j, k))
  }

  /** LeastSetup is at most the setup between j and every other job of
      1..k, and equal to one of them. */
  lemma {:induction false} LeastSetupIsLeast(inst: Instance, dir: Direction, j: Job, k: nat)
    requires inst.Valid() && inst.IsJob(j) && k <= inst.nJobs && HasOther(j, k)
    ensures forall o :: 1 <= o <= k && o != j ==> LeastSetup(inst, dir, j, k) <= Between(inst, dir, j, o)
    ensures exists o :: 1 <= o <= k && o != j && LeastSetup(inst, dir, j, k) == Between(inst, dir, j, o)
    decreases k
  {
    if k == 1 {
      assert LeastSetup(inst, dir, j, k) == Between(inst, dir, j, 1);
    } else if k == j {
      LeastSetupIsLeast(inst, dir, j, k - 1);
    } else if k == 2 && j == 1 {
      assert LeastSetup(inst, dir, j, k) == Between(inst, dir, j, 2);
    } else {
      LeastSetupIsLeast(inst, dir, j, k - 1);
    }
  }

  /** Job j's share of the workload term. */
  function Load(inst: Instance, dir: Direction, j: Job): real
    requires inst.Valid() && inst.IsJob(j) && inst.nJobs != 1
  {
    inst.proc[j] + LeastSetup(inst, dir, j, inst.nJobs)
  }

  /** Job j's critical path: it cannot finish before its ready time plus
      its processing time plus its least setup. */
  function Path(inst: Instance, dir: Direction, j: Job): real
    requires inst.Valid() && inst.IsJob(j) && inst.nJobs != 1
  {
    inst.ready[j] + inst.proc[j] + LeastSetup(inst, dir, j, inst.nJobs)
  }

  /** The loads of the jobs of s, added up from the left. */
  function LoadSum(inst: Instance, dir: Direction, s: seq<Job>): real
    requires inst.Valid() && Known(inst, s) && inst.nJobs != 1
    decreases |s|
  {
    if s == [] then 0.0 else LoadSum(inst, dir, s[..|s| - 1]) + Load(inst, dir, s[|s| - 1])
  }

  /** The jobs 1..k in increasing order. */
  function Range(k: nat): (r: seq<Job>)
    ensures |r| == k && forall i :: 0 <= i < k ==> r[i] == i + 1
  {
    if k == 0 then [] else Range(k - 1) + [k]
  }

  /** The largest critical path among jobs 1..k, starting from 0. */
  function CriticalPath(inst: Instance, dir: Direction, k: nat): real
    requires inst.Valid() && k <= inst.nJobs && inst.nJobs != 1
  {
    if k == 0 then 0.0 else Max(CriticalPath(inst, dir, k - 1), Path(inst, dir, k))
  }

  /** The bound: the larger of the workload and the critical-path terms. */
  function Bound(inst: Instance, dir: Direction): real
    requires inst.Valid() && inst.nJobs != 1 && inst.nMachines >= 1
  {
    Max(LoadSum(inst, dir, Range(inst.nJobs)) / (inst.nMachines as real), CriticalPath(inst, dir, inst.nJobs))
  }

  /** The bound is never below the workload term, any job's critical path,
      or 0. */
  lemma BoundIsLargest(inst: Instance, dir: Direction)
    requires inst.Valid() && inst.nJobs != 1 && inst.nMachines >= 1
    ensures Bound(inst, dir) >= LoadSum(inst, dir, Range(inst.nJobs)) / (inst.nMachines as real)
    ensures Bound(inst, dir) >= 0.0
    ensures forall j :: inst.IsJob(j) ==> Bound(inst, dir) >= Path(inst, dir, j)
  {
    CriticalPathIsLargest(inst, dir, inst.nJobs);
  }

  lemma {:induction false} CriticalPathIsLargest(inst: Instance, dir: Direction, k: nat)
    requires inst.Valid() && k <= inst.nJobs && inst.nJobs != 1
    ensures CriticalPath(inst, dir, k) >= 0.0
    ensures forall j :: 1 <= j <= k ==> CriticalPath(inst, dir, k) >= Path(inst, dir, j)
    decreases k
  {
    if k > 0 {
      CriticalPathIsLargest(inst, dir, k - 1);
    }
  }

  /** The workload loop of the source: the total of processing time plus
      least setup over the jobs 1..n. */
  method SumMinimumWork(inst: Instance, dir: Direction) returns (minimumWork: real)
    requires inst.Valid() && inst.nJobs != 1
    ensures minimumWork == LoadSum(inst, dir, Range(inst.nJobs))
  {
    var nJobs := inst.nJobs;
    minimumWork := 0.0;
    for i := 1 to nJobs + 1
      invariant minimumWork == LoadSum(inst, dir, Range(i - 1))
    {
      var minSetup := LeastSetup(inst, dir, i, nJobs);
      assert Range(i)[..i - 1] == Range(i - 1);
      minimumWork := minimumWork + (inst.proc[i] + minSetup);
    }
  }

  /** The critical-path loop of the source: the running maximum of the
      jobs' paths, from 0. */
  method MaxCriticalPath(inst: Instance, dir: Direction) returns (criticalPath: real)
    requires inst.Valid() && inst.nJobs != 1
    ensures criticalPath == CriticalPath(inst, dir, inst.nJobs)
  {
    var nJobs := inst.nJobs;
    criticalPath := 0.0;
    for i := 1 to nJobs + 1
      invariant criticalPath == CriticalPath(inst, dir, i - 1)
    {
      var minSetup := LeastSetup(inst, dir, i, nJobs);
      var path := inst.ready[i] + inst.proc[i] + minSetup;
      criticalPath := Max(criticalPath, path);
    }
  }

  /** Both loops, for either direction, the division of the workload by
      the number of machines and the maximum of the two terms. */
  method ComputeBound(inst: Instance, dir: Direction) returns (ddlb: real)
    requires inst.Valid() && inst.nMachines >= 1 && inst.nJobs != 1
    ensures ddlb == Bound(inst, dir)
  {
    var minimumWork := SumMinimumWork(inst, dir);
    var workloadBound := minimumWork / (inst.nMachines as real);
    var criticalPath := MaxCriticalPath(inst, dir);
    ddlb := Max(workloadBound, criticalPath);
  }

  /** The bound as the source computes it, from the least setups OUT of
      each job. */
  method CalcularDdlb(inst: Instance) returns (ddlb: real)
    requires inst.Valid() && inst.nMachines >= 1 && inst.nJobs != 1
    ensures ddlb == Bound(inst, Outgoing)
  {
    ddlb := ComputeBound(inst, Outgoing);
  }

  /** The corrected bound, from the least setups INTO each job: on data
      with no negative time and a start row that dominates the setups into
      each job (as the loader builds it), no schedule of the jobs on the
      machines finishes before it. */
  method CorrectedDdlb(inst: Instance) returns (ddlb: real)
    requires inst.Valid() && inst.nMachines >= 1 && inst.nJobs != 1
    ensures ddlb == Bound(inst, Incoming)
    ensures inst.NonNegative() && StartDominates(inst) ==>
      forall sol :: IsPartition(sol, inst.nJobs) && |sol| == inst.nMachines && AllKnown(inst, sol) ==>
        ddlb <= Makespan(inst, sol)
  {
    ddlb := ComputeBound(inst, Incoming);
    if inst.NonNegative() && StartDominates(inst) {
      forall sol | IsPartition(sol, inst.nJobs) && |sol| == inst.nMachines && AllKnown(inst, sol)
        ensures ddlb <= Makespan(inst, sol)
      {
        CorrectedBoundHolds(inst, sol);
      }
    }
  }

  /** The ratio of a makespan to the bound, 0 when the bound is not positive. */
  function Ratio(makespan: real, ddlb: real): (r: real)
    ensures ddlb > 0.0 ==> r * ddlb == makespan
    ensures ddlb <= 0.0 ==> r == 0.0
  {
    if ddlb > 0.0 then makespan / ddlb else 0.0
  }

  // When the bound is a lower bound.

  /** The start row is the loader's: at least every setup into the job. */
  ghost predicate StartDominates(inst: Instance)
    requires inst.Valid()
  {
    forall i, j :: inst.IsJob(i) && inst.IsJob(j) && i != j ==> inst.setup[(Start, j)] >= inst.setup[(After(i), j)]
  }

  ghost predicate Symmetric(inst: Instance)
    requires inst.Valid()
  {
    forall i, j :: inst.IsJob(i) && inst.IsJob(j) ==> inst.setup[(After(i), j)] == inst.setup[(After(j), i)]
  }

  /** The start row built by the loader dominates every setup into a job. */
  lemma LoadedStartDominates(inst: Instance)
    requires inst.Valid()
    requires forall j :: inst.IsJob(j) ==> inst.setup[(Start, j)] == MaxSetupInto(inst.setup, j, inst.nJobs)
    ensures StartDominates(inst)
  {
  }

  /** Every setup a schedule can charge job j, from the machine start or
      from another job, is at least the least setup the bound uses. */
  ghost predicate Floor(inst: Instance, dir: Direction)
    requires inst.Valid() && inst.nJobs != 1
  {
    forall j :: inst.IsJob(j) ==>
      && inst.setup[(Start, j)] >= LeastSetup(inst, dir, j, inst.nJobs)
      && forall i :: inst.IsJob(i) && i != j ==> inst.setup[(After(i), j)] >= LeastSetup(inst, dir, j, inst.nJobs)
  }

  /** The least incoming setup is a floor when the start row dominates. */
  lemma IncomingFloor(inst: Instance)
    requires inst.Valid() && inst.nJobs != 1 && StartDominates(inst)
    ensures Floor(inst, Incoming)
  {
    forall j | inst.IsJob(j) ensures inst.setup[(Start, j)] >= LeastSetup(inst, Incoming, j, inst.nJobs) {
      StartAboveLeast(inst, Incoming, j);
    }
    forall j, i | inst.IsJob(j) && inst.IsJob(i) && i != j
      ensures inst.setup[(After(i), j)] >= LeastSetup(inst, Incoming, j, inst.nJobs)
    {
      LeastSetupIsLeast(inst, Incoming, j, inst.nJobs);
      assert Between(inst, Incoming, j, i) == inst.setup[(After(i), j)];
    }
  }

  /** The start setup of j is at least some setup between j and another job. */
  lemma StartAboveLeast(inst: Instance, dir: Direction, j: Job)
    requires inst.Valid() && inst.nJobs != 1 && StartDominates(inst) && inst.IsJob(j)
    ensures exists o :: inst.IsJob(o) && o != j && inst.setup[(Start, j)] >= inst.setup[(After(o), j)] &&
                        LeastSetup(inst, dir, j, inst.nJobs) == Between(inst, dir, j, o)
  {
    LeastSetupIsLeast(inst, dir, j, inst.nJobs);
    var o :| 1 <= o <= inst.nJobs && o != j && LeastSetup(inst, dir, j, inst.nJobs) == Between(inst, dir, j, o);
    assert inst.setup[(Start, j)] >= inst.setup[(After(o), j)];
  }

  /** With symmetric setups the source's outgoing choice is a floor too. */
  lemma OutgoingFloorWhenSymmetric(inst: Instance)
    requires inst.Valid() && inst.nJobs != 1 && StartDominates(inst) && Symmetric(inst)
    ensures Floor(inst, Outgoing)
  {
    forall j | inst.IsJob(j) ensures inst.setup[(Start, j)] >= LeastSetup(inst, Outgoing, j, inst.nJobs) {
      StartAboveLeast(inst, Outgoing, j);
      var o :| inst.IsJob(o) && o != j && inst.setup[(Start, j)] >= inst.setup[(After(o), j)] &&
        LeastSetup(inst, Outgoing, j, inst.nJobs) == Between(inst, Outgoing, j, o);
      assert inst.setup[(After(j), o)] == inst.setup[(After(o), j)];
    }
    forall j, i | inst.IsJob(j) && inst.IsJob(i) && i != j
      ensures inst.setup[(After(i), j)] >= LeastSetup(inst, Outgoing, j, inst.nJobs)
    {
      LeastSetupIsLeast(inst, Outgoing, j, inst.nJobs);
      assert inst.setup[(After(i), j)] == inst.setup[(After(j), i)];
      assert Between(inst, Outgoing, j, i) == inst.setup[(After(j), i)];
    }
  }

  /** A job that occurs once in s differs from its predecessor. */
  lemma AdjacentDistinct(s: seq<Job>, p: nat)
    requires 0 < p < |s| && multiset(s)[s[p]] <= 1
    ensures s[p - 1] != s[p]
  {
    assert s == s[..p - 1] + [s[p - 1], s[p]] + s[p + 1..];
    assert multiset(s) == multiset(s[..p - 1]) + multiset{s[p - 1], s[p]} + multiset(s[p + 1..]);
  }

  /** The setup paid at position p is at least the floor of its job. */
  lemma SetupAtFloor(inst: Instance, dir: Direction, s: seq<Job>, p: nat)
    requires inst.Valid() && inst.nJobs != 1 && Floor(inst, dir) && Known(inst, s) && p < |s|
    requires p > 0 ==> s[p - 1] != s[p]
    ensures SetupAt(inst, s, p) >= LeastSetup(inst, dir, s[p], inst.nJobs)
  {
    if p > 0 {
      assert s[..p][p - 1] == s[p - 1];
    }
  }

  /** A schedule finishes no earlier than any job's critical path. */
  lemma PathBelowMakespan(inst: Instance, dir: Direction, sol: Solution, j: Job)
    requires inst.Valid() && inst.NonNegative() && inst.nJobs != 1 && Floor(inst, dir)
    requires IsPartition(sol, inst.nJobs) && inst.IsJob(j)
    ensures AllKnown(inst, sol) && Path(inst, dir, j) <= Makespan(inst, sol)
  {
    PartitionIsKnown(inst, sol);
    PartitionExactlyOnce(sol, inst.nJobs, j);
    var k :| 0 <= k < |sol| && multiset(sol[k])[j] == 1 &&
      forall k' :: 0 <= k' < |sol| && k' != k ==> j !in sol[k'];
    assert j in multiset(sol[k]);
    var p :| 0 <= p < |sol[k]| && sol[k][p] == j;
    if p > 0 {
      AdjacentDistinct(sol[k], p);
    }
    SetupAtFloor(inst, dir, sol[k], p);
    CompletionAtLeastEachJob(inst, sol[k], p);
    MakespanIsLargest(inst, sol);
  }

  lemma {:induction false} CriticalPathBelowMakespan(inst: Instance, dir: Direction, sol: Solution, k: nat)
    requires inst.Valid() && inst.NonNegative() && inst.nJobs != 1 && Floor(inst, dir)
    requires IsPartition(sol, inst.nJobs) && sol != [] && k <= inst.nJobs
    ensures AllKnown(inst, sol) && CriticalPath(inst, dir, k) <= Makespan(inst, sol)
    decreases k
  {
    PartitionIsKnown(inst, sol);
    if k == 0 {
      MakespanNonNegative(inst, sol);
    } else {
      CriticalPathBelowMakespan(inst, dir, sol, k - 1);
      PathBelowMakespan(inst, dir, sol, k);
    }
  }

  lemma MakespanNonNegative(inst: Instance, sol: Solution)
    requires inst.Valid() && inst.NonNegative() && AllKnown(inst, sol) && sol != []
    ensures Makespan(inst, sol) >= 0.0
  {
    MakespanIsLargest(inst, sol);
    if sol[0] != [] {
      CompletionAtLeastLastJob(inst, sol[0]);
    }
  }

  // The workload term.

  /** A machine is busy at least the loads of its jobs. */
  lemma {:induction false} BusyAtLeastLoads(inst: Instance, dir: Direction, s: seq<Job>)
    requires inst.Valid() && inst.nJobs != 1 && Floor(inst, dir) && Known(inst, s)
    requires forall p :: 0 < p < |s| ==> s[p - 1] != s[p]
    ensures Busy(inst, s) >= LoadSum(inst, dir, s)
    decreases |s|
  {
    if s != [] {
      var init := s[..|s| - 1];
      BusyAtLeastLoads(inst, dir, init);
      SetupAtFloor(inst, dir, s, |s| - 1);
    }
  }

  lemma {:induction false} LoadSumAppend(inst: Instance, dir: Direction, s: seq<Job>, t: seq<Job>)
    requires inst.Valid() && inst.nJobs != 1 && Known(inst, s) && Known(inst, t)
    ensures Known(inst, s + t) && LoadSum(inst, dir, s + t) == LoadSum(inst, dir, s) + LoadSum(inst, dir, t)
    decreases |t|
  {
    if t == [] {
      assert s + t == s;
    } else {
      var init := t[..|t| - 1];
      LoadSumAppend(inst, dir, s, init);
      assert (s + t)[..|s + t| - 1] == s + init;
    }
  }

  /** Taking the job at position i out of t removes its load. */
  lemma LoadSumRemove(inst: Instance, dir: Direction, t: seq<Job>, i: nat)
    requires inst.Valid() && inst.nJobs != 1 && Known(inst, t) && i < |t|
    ensures Known(inst, t[..i] + t[i + 1..])
    ensures LoadSum(inst, dir, t) == LoadSum(inst, dir, t[..i] + t[i + 1..]) + Load(inst, dir, t[i])
  {
    var before, x, after := t[..i], t[i], t[i + 1..];
    assert t == before + [x] + after;
    LoadSumAppend(inst, dir, before, after);
    LoadSumAppend(inst, dir, before, [x]);
    LoadSumAppend(inst, dir, before + [x], after);
    assert [x][..0] == [];
  }

  /** The total load does not depend on the order of the jobs. */
  lemma {:induction false} LoadSumPermutation(inst: Instance, dir: Direction, s: seq<Job>, t: seq<Job>)
    requires inst.Valid() && inst.nJobs != 1 && Known(inst, s) && Known(inst, t)
    requires multiset(s) == multiset(t)
    ensures LoadSum(inst, dir, s) == LoadSum(inst, dir, t)
    decreases |s|
  {
    if s != [] {
      var init, x := s[..|s| - 1], s[|s| - 1];
      assert s == init + [x];
      assert x in multiset(t);
      var i :| 0 <= i < |t| && t[i] == x;
      var rest := t[..i] + t[i + 1..];
      LoadSumRemove(inst, dir, t, i);
      assert t == t[..i] + [x] + t[i + 1..];
      assert multiset(t) == multiset(rest) + multiset{x} by {
        assert multiset(t) == multiset(t[..i]) + multiset{x} + multiset(t[i + 1..]);
      }
      Cancel(multiset(init), multiset(rest), multiset{x});
      LoadSumPermutation(inst, dir, init, rest);
    }
  }

  /** The loads of the machines, machine by machine. */
  function MachineLoads(inst: Instance, dir: Direction, sol: Solution): real
    requires inst.Valid() && inst.nJobs != 1 && AllKnown(inst, sol)
    decreases |sol|
  {
    if sol == [] then 0.0
    else
      var init := sol[..|sol| - 1];
      assert forall k :: 0 <= k < |init| ==> init[k] == sol[k];
      MachineLoads(inst, dir, init) + LoadSum(inst, dir, sol[|sol| - 1])
  }

  function Flatten(sol: Solution): seq<Job>
    decreases |sol|
  {
    if sol == [] then [] else Flatten(sol[..|sol| - 1]) + sol[|sol| - 1]
  }

  lemma {:induction false} FlattenLoads(inst: Instance, dir: Direction, sol: Solution)
    requires inst.Valid() && inst.nJobs != 1 && AllKnown(inst, sol)
    ensures Known(inst, Flatten(sol)) && multiset(Flatten(sol)) == Bag(sol)
    ensures MachineLoads(inst, dir, sol) == LoadSum(inst, dir, Flatten(sol))
    decreases |sol|
  {
    if sol != [] {
      var init := sol[..|sol| - 1];
      assert forall k :: 0 <= k < |init| ==> init[k] == sol[k];
      FlattenLoads(inst, dir, init);
      LoadSumAppend(inst, dir, Flatten(init), sol[|sol| - 1]);
    }
  }

  lemma {:induction false} RangeJobs(n: nat)
    ensures multiset(Range(n)) == AllJobs(n)
  {
    if n > 0 {
      RangeJobs(n - 1);
    }
  }

  /** Over a partition the machine loads add up to the workload term. */
  lemma PartitionLoads(inst: Instance, dir: Direction, sol: Solution)
    requires inst.Valid() && inst.nJobs != 1 && IsPartition(sol, inst.nJobs)
    ensures AllKnown(inst, sol) && Known(inst, Range(inst.nJobs))
    ensures MachineLoads(inst, dir, sol) == LoadSum(inst, dir, Range(inst.nJobs))
  {
    PartitionIsKnown(inst, sol);
    FlattenLoads(inst, dir, sol);
    RangeJobs(inst.nJobs);
    LoadSumPermutation(inst, dir, Flatten(sol), Range(inst.nJobs));
  }

  /** Each machine's load is at most the makespan, so all of them together
      are at most the number of machines times the makespan. */
  lemma {:induction false} MachineLoadsBelow(inst: Instance, dir: Direction, sol: Solution, bound: real)
    requires inst.Valid() && inst.nJobs != 1 && AllKnown(inst, sol)
    requires forall k :: 0 <= k < |sol| ==> LoadSum(inst, dir, sol[k]) <= bound
    ensures MachineLoads(inst, dir, sol) <= Repeat(|sol|, bound)
    decreases |sol|
  {
    if sol != [] {
      var init := sol[..|sol| - 1];
      assert forall k :: 0 <= k < |init| ==> init[k] == sol[k];
      MachineLoadsBelow(inst, dir, init, bound);
      assert MachineLoads(inst, dir, sol) == MachineLoads(inst, dir, init) + LoadSum(inst, dir, sol[|sol| - 1]);
      assert |init| + 1 == |sol|;
    }
  }

  /** One machine of a partition: its load is at most its completion time. */
  lemma MachineLoadBelow(inst: Instance, dir: Direction, sol: Solution, k: nat)
    requires inst.Valid() && inst.nJobs != 1 && Floor(inst, dir)
    requires IsPartition(sol, inst.nJobs) && k < |sol| && AllKnown(inst, sol)
    ensures LoadSum(inst, dir, sol[k]) <= Completion(inst, sol[k])
  {
    var s := sol[k];
    BagHasMachine(sol, k);
    forall p | 0 < p < |s| ensures s[p - 1] != s[p] {
      assert multiset(s)[s[p]] <= Bag(sol)[s[p]];
      AdjacentDistinct(s, p);
    }
    BusyAtLeastLoads(inst, dir, s);
    CompletionAtLeastBusy(inst, s);
  }

  lemma WorkloadBelowMakespan(inst: Instance, dir: Direction, sol: Solution)
    requires inst.Valid() && inst.NonNegative() && inst.nJobs != 1 && Floor(inst, dir)
    requires IsPartition(sol, inst.nJobs) && |sol| == inst.nMachines >= 1
    ensures AllKnown(inst, sol) && Known(inst, Range(inst.nJobs))
    ensures LoadSum(inst, dir, Range(inst.nJobs)) / (inst.nMachines as real) <= Makespan(inst, sol)
  {
    PartitionLoads(inst, dir, sol);
    MakespanIsLargest(inst, sol);
    var makespan := Makespan(inst, sol);
    forall k | 0 <= k < |sol| ensures LoadSum(inst, dir, sol[k]) <= makespan {
      MachineLoadBelow(inst, dir, sol, k);
    }
    MachineLoadsBelow(inst, dir, sol, makespan);
    RepeatDivide(LoadSum(inst, dir, Range(inst.nJobs)), |sol|, makespan);
  }

  /** b added up n times. */
  function Repeat(n: nat, b: real): real {
    if n == 0 then 0.0 else Repeat(n - 1, b) + b
  }

  lemma {:induction false} RepeatIsProduct(n: nat, b: real)
    ensures Repeat(n, b) == (n as real) * b
  {
    if n > 0 {
      RepeatIsProduct(n - 1, b);
      assert ((n - 1) as real) * b + b == (n as real) * b;
    }
  }

  lemma DivideAtLeastOne(m: real, b: real)
    requires b > 0.0 && m >= b
    ensures m / b >= 1.0
  {
  }

  lemma RepeatDivide(w: real, n: nat, x: real)
    requires n > 0 && w <= Repeat(n, x)
    ensures w / (n as real) <= x
  {
    RepeatIsProduct(n, x);
  }

  /** The bound holds for every schedule whose setups respect the floor. */
  lemma BoundHolds(inst: Instance, dir: Direction, sol: Solution)
    requires inst.Valid() && inst.NonNegative() && inst.nJobs != 1 && Floor(inst, dir)
    requires IsPartition(sol, inst.nJobs) && |sol| == inst.nMachines >= 1
    ensures AllKnown(inst, sol) && Bound(inst, dir) <= Makespan(inst, sol)
  {
    WorkloadBelowMakespan(inst, dir, sol);
    CriticalPathBelowMakespan(inst, dir, sol, inst.nJobs);
  }

  /** The corrected bound, with least INCOMING setups, is a lower bound on
      the makespan of every schedule of a loaded instance with
      nonnegative data. */
  lemma CorrectedBoundHolds(inst: Instance, sol: Solution)
    requires inst.Valid() && inst.NonNegative() && inst.nJobs != 1 && StartDominates(inst)
    requires IsPartition(sol, inst.nJobs) && |sol| == inst.nMachines >= 1
    ensures AllKnown(inst, sol) && Bound(inst, Incoming) <= Makespan(inst, sol)
  {
    IncomingFloor(inst);
    BoundHolds(inst, Incoming, sol);
  }

  /** With symmetric setups the source's bound is a lower bound as well. */
  lemma SourceBoundHoldsWhenSymmetric(inst: Instance, sol: Solution)
    requires inst.Valid() && inst.NonNegative() && inst.nJobs != 1 && StartDominates(inst) && Symmetric(inst)
    requires IsPartition(sol, inst.nJobs) && |sol| == inst.nMachines >= 1
    ensures AllKnown(inst, sol) && Bound(inst, Outgoing) <= Makespan(inst, sol)
  {
    OutgoingFloorWhenSymmetric(inst);
    BoundHolds(inst, Outgoing, sol);
  }

  /** Against the corrected bound, every schedule's ratio is at least 1
      whenever the bound is positive. */
  lemma RatioAtLeastOne(inst: Instance, sol: Solution)
    requires inst.Valid() && inst.NonNegative() && inst.nJobs != 1 && StartDominates(inst)
    requires IsPartition(sol, inst.nJobs) && |sol| == inst.nMachines >= 1
    ensures AllKnown(inst, sol)
    ensures Bound(inst, Incoming) > 0.0 ==> Ratio(Makespan(inst, sol), Bound(inst, Incoming)) >= 1.0
  {
    CorrectedBoundHolds(inst, sol);
    var b, m := Bound(inst, Incoming), Makespan(inst, sol);
    if b > 0.0 {
      DivideAtLeastOne(m, b);
    }
  }

  // The source's bound is not a lower bound in general.

  /** Three jobs on two machines. Job 1 is ready at 1000; jobs 2 and 3 at 0.
      Every job takes 1. Setups out of job 1 cost 100, every other setup
      between distinct jobs costs 1; the start row is the loader's maximum
      of the setups into each job. */
  function Counterexample(): Instance {
    Instance(3, 2,
      map[1 := 1.0, 2 := 1.0, 3 := 1.0],
      map[1 := 1000.0, 2 := 0.0, 3 := 0.0],
      map key | key in CounterexampleKeys() :: CounterexampleSetup(key))
  }

  function CounterexampleKeys(): set<(Prev, Job)> {
    {(Start, 1), (Start, 2), (Start, 3),
     (After(1), 1), (After(1), 2), (After(1), 3),
     (After(2), 1), (After(2), 2), (After(2), 3),
     (After(3), 1), (After(3), 2), (After(3), 3)}
  }

  function CounterexampleSetup(key: (Prev, Job)): real {
    match key.0
    case Start => if key.1 == 1 then 1.0 else 100.0
    case After(i) => if i == key.1 then 0.0 else if i == 1 then 100.0 else 1.0
  }

  lemma CounterexampleKnown(inst: Instance, j: Job, i: Job)
    requires inst == Counterexample()
    requires 1 <= j <= 3 && 1 <= i <= 3
    ensures j in inst.proc && j in inst.ready
    ensures (Start, j) in inst.setup && (After(i), j) in inst.setup
    ensures inst.proc[j] == 1.0 && inst.ready[j] >= 0.0
    ensures inst.setup[(Start, j)] == (if j == 1 then 1.0 else 100.0)
    ensures inst.setup[(After(i), j)] == (if i == j then 0.0 else if i == 1 then 100.0 else 1.0)
  {
    assert (Start, j) in CounterexampleKeys();
    assert (After(i), j) in CounterexampleKeys();
  }

  lemma CounterexampleValid()
    ensures Counterexample().Valid() && Counterexample().NonNegative()
  {
    var inst := Counterexample();
    forall j | inst.IsJob(j)
      ensures && j in inst.proc && j in inst.ready && (Start, j) in inst.setup
              && forall i :: inst.IsJob(i) ==> (After(i), j) in inst.setup
    {
      forall i | inst.IsJob(i) ensures (After(i), j) in inst.setup {
        CounterexampleKnown(inst, j, i);
      }
      CounterexampleKnown(inst, j, 1);
    }
    assert inst.Valid();
    forall j | inst.IsJob(j)
      ensures && inst.proc[j] >= 0.0 && inst.ready[j] >= 0.0 && inst.setup[(Start, j)] >= 0.0
              && forall i :: inst.IsJob(i) ==> inst.setup[(After(i), j)] >= 0.0
    {
      forall i | inst.IsJob(i) ensures inst.setup[(After(i), j)] >= 0.0 {
        CounterexampleKnown(inst, j, i);
      }
      CounterexampleKnown(inst, j, 1);
    }
  }

  /** The start row of the counterexample is what the loader would build. */
  lemma CounterexampleLoaded()
    ensures Counterexample().Valid()
    ensures var inst := Counterexample();
      forall j :: inst.IsJob(j) ==> inst.setup[(Start, j)] == MaxSetupInto(inst.setup, j, inst.nJobs)
  {
    CounterexampleValid();
    var inst := Counterexample();
    forall j | inst.IsJob(j)
      ensures inst.setup[(Start, j)] == MaxSetupInto(inst.setup, j, inst.nJobs)
    {
      CounterexampleKnown(inst, j, 1);
      CounterexampleKnown(inst, j, 2);
      CounterexampleKnown(inst, j, 3);
      assert MaxSetupInto(inst.setup, j, 0) == 0.0;
    }
  }

  lemma CounterexampleCompletions(inst: Instance)
    requires inst == Counterexample() && inst.Valid()
    ensures Known(inst, [1]) && Known(inst, [2, 3])
    ensures Completion(inst, [1]) == 1002.0 && Completion(inst, [2, 3]) == 103.0
  {
    CounterexampleKnown(inst, 1, 1);
    CounterexampleKnown(inst, 2, 1);
    CounterexampleKnown(inst, 3, 2);
    assert [1][..0] == [];
    assert [2, 3][..1] == [2] && [2][..0] == [];
    assert Completion(inst, [2]) == 101.0;
  }

  lemma CounterexamplePartition(sol: Solution)
    requires sol == [[1], [2, 3]]
    ensures IsPartition(sol, 3) && AllKnown(Counterexample(), sol)
  {
    assert sol[..1] == [[1]] && |sol[..1][..0]| == 0;
    assert Bag(sol[..1]) == multiset{1};
    assert multiset(sol[1]) == multiset{2, 3};
    assert Bag(sol) == multiset{1, 2, 3};
    assert AllJobs(3) == multiset{1, 2, 3};
  }

  lemma CounterexampleSchedule()
    ensures Counterexample().Valid()
    ensures var inst, sol := Counterexample(), [[1], [2, 3]];
      && IsPartition(sol, inst.nJobs) && |sol| == inst.nMachines && AllKnown(inst, sol)
      && Makespan(inst, sol) == 1002.0
  {
    CounterexampleValid();
    var inst := Counterexample();
    var sol: Solution := [[1], [2, 3]];
    CounterexamplePartition(sol);
    CounterexampleCompletions(inst);
    assert sol[..1] == [[1]];
    assert Makespan(inst, sol) == Max(Completion(inst, [1]), Completion(inst, [2, 3]));
  }

  /** The least outgoing setup of each job of the counterexample. */
  lemma CounterexampleLeast(inst: Instance)
    requires inst == Counterexample() && inst.Valid()
    ensures LeastSetup(inst, Outgoing, 1, 3) == 100.0
    ensures LeastSetup(inst, Outgoing, 2, 3) == 1.0
    ensures LeastSetup(inst, Outgoing, 3, 3) == 1.0
  {
    CounterexampleKnown(inst, 2, 1);
    CounterexampleKnown(inst, 3, 1);
    CounterexampleKnown(inst, 1, 2);
    CounterexampleKnown(inst, 3, 2);
    CounterexampleKnown(inst, 1, 3);
    CounterexampleKnown(inst, 2, 3);
    assert LeastSetup(inst, Outgoing, 1, 2) == 100.0;
    assert LeastSetup(inst, Outgoing, 2, 2) == 1.0;
    assert LeastSetup(inst, Outgoing, 3, 2) == 1.0;
  }

  lemma CounterexampleBound()
    ensures Counterexample().Valid()
    ensures Bound(Counterexample(), Outgoing) == 1101.0
  {
    CounterexampleValid();
    var inst := Counterexample();
    CounterexampleLeast(inst);
    CounterexampleKnown(inst, 1, 1);
    CounterexampleKnown(inst, 2, 1);
    CounterexampleKnown(inst, 3, 1);
    assert Load(inst, Outgoing, 1) == 101.0;
    assert Load(inst, Outgoing, 2) == 2.0;
    assert Load(inst, Outgoing, 3) == 2.0;
    assert Range(3)[..2] == Range(2) && Range(2)[..1] == Range(1) && Range(1)[..0] == [];
    assert LoadSum(inst, Outgoing, Range(1)) == 101.0;
    assert LoadSum(inst, Outgoing, Range(2)) == 103.0;
    assert LoadSum(inst, Outgoing, Range(3)) == 105.0;
    assert Path(inst, Outgoing, 1) == 1101.0;
    assert Path(inst, Outgoing, 2) == 2.0;
    assert Path(inst, Outgoing, 3) == 2.0;
    assert CriticalPath(inst, Outgoing, 1) == 1101.0;
    assert CriticalPath(inst, Outgoing, 3) == 1101.0;
  }

  /** On that instance, job 1 alone on one machine and jobs 2, 3 on the
      other finish at 1002, while the source's bound is 1101: its critical
      path for job 1 adds the least setup OUT of job 1 (100), but job 1,
      first on its machine, pays only its start setup (1). */
  lemma SourceBoundExceedsMakespan()
    ensures var inst, sol := Counterexample(), [[1], [2, 3]];
      && inst.Valid() && inst.NonNegative()
      && (forall j :: inst.IsJob(j) ==> inst.setup[(Start, j)] == MaxSetupInto(inst.setup, j, inst.nJobs))
      && IsPartition(sol, inst.nJobs) && |sol| == inst.nMachines && AllKnown(inst, sol)
      && Bound(inst, Outgoing) > Makespan(inst, sol)
  {
    CounterexampleValid();
    CounterexampleLoaded();
    CounterexampleSchedule();
    CounterexampleBound();
  }
}
