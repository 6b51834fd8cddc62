/** The finite space of candidate solutions over n jobs and m machines,
    used to show that a search which strictly lowers the makespan at every
    step cannot go on forever. */
module SolutionSpace {
  import opened Instances
  import opened Timing
  import opened Partitions

  /** Every job sequence of length at most `len` over the jobs 1..n. */
  ghost function Words(n: nat, len: nat): set<seq<Job>>
  {
    if len == 0 then {[]}
    else Words(n, len - 1) + set w, j | w in Words(n, len - 1) && 1 <= j <= n :: w + [j]
  }

  /** Every sequence of m machine sequences drawn from Words(n, n). */
  ghost function Layouts(n: nat, m: nat): set<Solution>
  {
    if m == 0 then {[]}
    else set s, w | s in Layouts(n, m - 1) && w in Words(n, n) :: s + [w]
  }

  lemma {:induction false} WordIn(n: nat, len: nat, w: seq<Job>)
    requires |w| <= len && forall i :: 0 <= i < |w| ==> 1 <= w[i] <= n
    ensures w in Words(n, len)
    decreases len
  {
    if |w| == 0 {
      if len > 0 { WordIn(n, len - 1, w); }
    } else if |w| < len {
      WordIn(n, len - 1, w);
    } else {
      var init := w[..|w| - 1];
      WordIn(n, len - 1, init);
      assert w == init + [w[|w| - 1]];
    }
  }

  lemma {:induction false} LayoutIn(n: nat, sol: Solution)
    requires forall k :: 0 <= k < |sol| ==> sol[k] in Words(n, n)
    ensures sol in Layouts(n, |sol|)
    decreases |sol|
  {
    if |sol| > 0 {
      var init := sol[..|sol| - 1];
      LayoutIn(n, init);
      assert sol == init + [sol[|sol| - 1]];
    }
  }

  lemma {:induction false} AllJobsSize(n: nat)
    ensures |AllJobs(n)| == n
  {
    if n > 0 {
      AllJobsSize(n - 1);
      assert AllJobs(n) == AllJobs(n - 1) + multiset{n};
    }
  }

  /** A partition of 1..n lies in the space: no machine holds more than n
      jobs, and every job is one of 1..n. */
  lemma PartitionInSpace(inst: Instance, sol: Solution)
    requires IsPartition(sol, inst.nJobs)
    ensures sol in Layouts(inst.nJobs, |sol|)
  {
    var n := inst.nJobs;
    PartitionIsKnown(inst, sol);
    AllJobsSize(n);
    forall k | 0 <= k < |sol| ensures sol[k] in Words(n, n) {
      BagHasMachine(sol, k);
      var a, b := multiset(sol[k]), Bag(sol);
      assert b == a + (b - a);
      assert |sol[k]| == |a| <= |b| == n;
      assert Known(inst, sol[k]);
      WordIn(n, n, sol[k]);
    }
    LayoutIn(n, sol);
  }

  /** The solutions of the space, with m machines, whose makespan is below
      `bound`. */
  ghost function Improving(inst: Instance, m: nat, bound: real): set<Solution>
    requires inst.Valid()
  {
    set s | s in Layouts(inst.nJobs, m) && AllKnown(inst, s) && Makespan(inst, s) < bound
  }

  /** Moving to a partition with a strictly smaller makespan strictly
      shrinks the set of solutions that are still better. */
  lemma ImprovingShrinks(inst: Instance, next: Solution, current: real)
    requires inst.Valid() && IsPartition(next, inst.nJobs)
    requires AllKnown(inst, next) && Makespan(inst, next) < current
    ensures |Improving(inst, |next|, Makespan(inst, next))| < |Improving(inst, |next|, current)|
  {
    var a := Improving(inst, |next|, Makespan(inst, next));
    var b := Improving(inst, |next|, current);
    PartitionInSpace(inst, next);
    assert next in b && next !in a;
    var c := b - a;
    assert b == a + c;
    assert a * c == {};
    assert next in c;
  }
}
