/** Solutions: one job sequence per machine (machine id m is index m - 1),
    the partition invariant that every job of 1..n is scheduled exactly
    once, and the makespan, the largest machine completion time. */
module Partitions {
  import opened Util
  import opened Instances
  import opened Timing

  type Solution = seq<seq<Job>>

  /** All jobs of a solution, counted with multiplicity. */
  function Bag(sol: Solution): multiset<Job> {
    if sol == [] then multiset{} else Bag(sol[..|sol| - 1]) + multiset(sol[|sol| - 1])
  }

  /** Every job 1..n exactly once. */
  function AllJobs(n: nat): (m: multiset<Job>)
    ensures forall j :: m[j] == if 1 <= j <= n then 1 else 0
  {
    if n == 0 then multiset{} else AllJobs(n - 1) + multiset{n}
  }

  /** The solution schedules every job of 1..n exactly once and nothing else. */
  ghost predicate IsPartition(sol: Solution, n: nat) {
    Bag(sol) == AllJobs(n)
  }

  /** Every job the solution mentions is a job of the instance. */
  ghost predicate AllKnown(inst: Instance, sol: Solution) {
    forall k :: 0 <= k < |sol| ==> Known(inst, sol[k])
  }

  lemma {:induction false} BagHasMachine(sol: Solution, k: nat)
    requires k < |sol|
    ensures multiset(sol[k]) <= Bag(sol)
    decreases |sol|
  {
    if k < |sol| - 1 {
      assert sol[..|sol| - 1][k] == sol[k];
      BagHasMachine(sol[..|sol| - 1], k);
    }
  }

  lemma {:induction false} BagHasTwoMachines(sol: Solution, k1: nat, k2: nat)
    requires k1 < k2 < |sol|
    ensures multiset(sol[k1]) + multiset(sol[k2]) <= Bag(sol)
    decreases |sol|
  {
    var init := sol[..|sol| - 1];
    if k2 < |sol| - 1 {
      assert init[k1] == sol[k1] && init[k2] == sol[k2];
      BagHasTwoMachines(init, k1, k2);
    } else {
      assert init[k1] == sol[k1];
      BagHasMachine(init, k1);
    }
  }

  lemma {:induction false} BagMember(sol: Solution, x: Job)
    requires x in Bag(sol)
    ensures exists k :: 0 <= k < |sol| && x in sol[k]
    decreases |sol|
  {
    var init := sol[..|sol| - 1];
    if x !in multiset(sol[|sol| - 1]) {
      BagMember(init, x);
      var k :| 0 <= k < |init| && x in init[k];
      assert sol[k] == init[k];
    }
  }

  /** A partition mentions only jobs of the instance. */
  lemma PartitionIsKnown(inst: Instance, sol: Solution)
    requires IsPartition(sol, inst.nJobs)
    ensures AllKnown(inst, sol)
  {
    forall k, i | 0 <= k < |sol| && 0 <= i < |sol[k]| ensures inst.IsJob(sol[k][i]) {
      BagHasMachine(sol, k);
      assert sol[k][i] in multiset(sol[k]);
    }
  }

  /** The partition property stated job by job: each job of 1..n sits on
      exactly one machine, exactly once, and no other value appears. */
  lemma PartitionExactlyOnce(sol: Solution, n: nat, j: Job)
    requires IsPartition(sol, n)
    ensures 1 <= j <= n ==>
      exists k :: 0 <= k < |sol| && multiset(sol[k])[j] == 1 &&
        forall k' :: 0 <= k' < |sol| && k' != k ==> j !in sol[k']
    ensures !(1 <= j <= n) ==> forall k :: 0 <= k < |sol| ==> j !in sol[k]
  {
    if 1 <= j <= n {
      assert j in Bag(sol);
      BagMember(sol, j);
      var k :| 0 <= k < |sol| && j in sol[k];
      BagHasMachine(sol, k);
      forall k' | 0 <= k' < |sol| && k' != k ensures multiset(sol[k'])[j] == 0 {
        if k < k' { BagHasTwoMachines(sol, k, k'); } else { BagHasTwoMachines(sol, k', k); }
      }
    } else {
      forall k | 0 <= k < |sol| ensures multiset(sol[k])[j] == 0 {
        BagHasMachine(sol, k);
      }
    }
  }

  /** Largest completion time over the machines; 0 when there is none
      (MakespanIsLargest states it). */
  function Makespan(inst: Instance, sol: Solution): real
    requires inst.Valid() && AllKnown(inst, sol)
    decreases |sol|
  {
    if |sol| == 0 then 0.0
    else if |sol| == 1 then Completion(inst, sol[0])
    else Max(Makespan(inst, sol[..|sol| - 1]), Completion(inst, sol[|sol| - 1]))
  }

  /** The makespan bounds every machine's completion time and is reached by
      one of them; it is 0 for a solution without machines. */
  lemma {:induction false} MakespanIsLargest(inst: Instance, sol: Solution)
    requires inst.Valid() && AllKnown(inst, sol)
    ensures forall k :: 0 <= k < |sol| ==> Completion(inst, sol[k]) <= Makespan(inst, sol)
    ensures sol == [] ==> Makespan(inst, sol) == 0.0
    ensures sol != [] ==> exists k :: 0 <= k < |sol| && Makespan(inst, sol) == Completion(inst, sol[k])
    decreases |sol|
  {
    if |sol| > 1 {
      var init := sol[..|sol| - 1];
      assert AllKnown(inst, init) by {
        forall k | 0 <= k < |init| ensures Known(inst, init[k]) { assert init[k] == sol[k]; }
      }
      MakespanIsLargest(inst, init);
      forall k | 0 <= k < |sol| ensures Completion(inst, sol[k]) <= Makespan(inst, sol) {
        if k < |sol| - 1 { assert init[k] == sol[k]; }
      }
      if Makespan(inst, sol) != Completion(inst, sol[|sol| - 1]) {
        var k :| 0 <= k < |init| && Makespan(inst, init) == Completion(inst, init[k]);
        assert sol[k] == init[k];
      }
    }
  }

  /** Computes every machine's completion time and takes the largest. */
  method EvaluateMakespan(inst: Instance, sol: Solution) returns (makespan: real)
    requires inst.Valid() && AllKnown(inst, sol)
    ensures makespan == Makespan(inst, sol)
  {
    if |sol| == 0 {
      return 0.0;
    }
    makespan := CalculateSequenceTime(inst, sol[0]);
    for k := 1 to |sol|
      invariant makespan == Makespan(inst, sol[..k])
    {
      var time := CalculateSequenceTime(inst, sol[k]);
      assert sol[..k + 1][..k] == sol[..k];
      makespan := Max(makespan, time);
    }
    assert sol[..|sol|] == sol;
  }

  /** Multiset addition cancels. */
  lemma Cancel(a: multiset<Job>, b: multiset<Job>, c: multiset<Job>)
    requires a + c == b + c
    ensures a == b
  {
    forall x ensures a[x] == b[x] {
      assert (a + c)[x] == (b + c)[x];
    }
  }

  /** Replacing one machine's sequence swaps its jobs in the bag. */
  lemma {:induction false} BagUpdate(sol: Solution, k: nat, s: seq<Job>)
    requires k < |sol|
    ensures Bag(sol[k := s]) + multiset(sol[k]) == Bag(sol) + multiset(s)
    decreases |sol|
  {
    var init := sol[..|sol| - 1];
    if k == |sol| - 1 {
      assert sol[k := s][..|sol| - 1] == init;
      assert Bag(sol[k := s]) == Bag(init) + multiset(s);
    } else {
      BagUpdate(init, k, s);
      var upd := sol[k := s];
      assert upd[..|upd| - 1] == init[k := s];
      assert upd[|upd| - 1] == sol[|sol| - 1];
      assert Bag(upd) == Bag(init[k := s]) + multiset(sol[|sol| - 1]);
      assert init[k] == sol[k];
      assert Bag(sol) == Bag(init) + multiset(sol[|sol| - 1]);
      assert Bag(init[k := s]) + multiset(sol[k]) == Bag(init) + multiset(s);
      calc {
        Bag(upd) + multiset(sol[k]);
        Bag(init[k := s]) + multiset(sol[|sol| - 1]) + multiset(sol[k]);
        Bag(init[k := s]) + multiset(sol[k]) + multiset(sol[|sol| - 1]);
        Bag(init) + multiset(s) + multiset(sol[|sol| - 1]);
        Bag(sol) + multiset(s);
      }
    }
  }
}
