/** The constructive heuristic (solve_with_ffd): jobs sorted by decreasing
    processing time are taken one by one, and each is appended to the
    machine on which it would complete earliest. */
module Greedy {
  import opened Util
  import opened Instances
  import opened Timing
  import opened Partitions

  /** The order of a stable sort on processing time, descending: longer
      jobs first, equal times in increasing job number. */
  predicate Precedes(inst: Instance, a: Job, b: Job)
    requires inst.Valid() && inst.IsJob(a) && inst.IsJob(b)
  {
    inst.proc[a] > inst.proc[b] || (inst.proc[a] == inst.proc[b] && a < b)
  }

  ghost predicate Ordered(inst: Instance, s: seq<Job>)
    requires inst.Valid() && Known(inst, s)
  {
    forall i, j :: 0 <= i < j < |s| ==> Precedes(inst, s[i], s[j])
  }

  /** Inserts x into a sequence sorted by Precedes. */
  function Insert(inst: Instance, x: Job, s: seq<Job>): (r: seq<Job>)
    requires inst.Valid() && inst.IsJob(x) && Known(inst, s)
    ensures multiset(r) == multiset(s) + multiset{x}
    ensures Known(inst, r)
    decreases |s|
  {
    if s == [] then [x]
    else if Precedes(inst, x, s[0]) then [x] + s
    else
      assert s == [s[0]] + s[1..];
      [s[0]] + Insert(inst, x, s[1..])
  }

  /** Inserting a new job into a sorted sequence keeps it sorted. */
  lemma {:induction false} InsertOrdered(inst: Instance, x: Job, s: seq<Job>)
    requires inst.Valid() && inst.IsJob(x) && Known(inst, s)
    requires Ordered(inst, s) && x !in s
    ensures Ordered(inst, Insert(inst, x, s))
    decreases |s|
  {
    if s != [] && !Precedes(inst, x, s[0]) {
      var rest := Insert(inst, x, s[1..]);
      InsertOrdered(inst, x, s[1..]);
      forall k | 0 <= k < |rest| ensures Precedes(inst, s[0], rest[k]) {
        assert rest[k] in multiset(rest);
        if rest[k] != x {
          assert rest[k] in multiset(s[1..]);
          var m :| 0 <= m < |s[1..]| && s[1..][m] == rest[k];
          assert s[m + 1] == rest[k];
        }
      }
    }
  }

  /** The jobs 1..k in sorted order. */
  function SortedTasks(inst: Instance, k: nat): (r: seq<Job>)
    requires inst.Valid() && k <= inst.nJobs
    ensures multiset(r) == AllJobs(k)
    ensures Known(inst, r) && Ordered(inst, r)
  {
    if k == 0 then [] else
      var s := SortedTasks(inst, k - 1);
      assert k !in multiset(s);
      InsertOrdered(inst, k, s);
      Insert(inst, k, s)
  }

  /** The first index of a smallest value: Python's min over the machine
      dictionary, which returns the first key reaching the minimum. */
  function FirstMinimum(times: seq<real>): (b: nat)
    requires |times| > 0
    ensures b < |times|
    ensures forall k :: 0 <= k < |times| ==> times[b] <= times[k]
    ensures forall k :: 0 <= k < b ==> times[b] < times[k]
    decreases |times|
  {
    if |times| == 1 then 0
    else
      var b := FirstMinimum(times[..|times| - 1]);
      if times[|times| - 1] < times[b] then |times| - 1 else b
  }

  /** The completion time of each machine if job t were appended to it. */
  function Potential(inst: Instance, machines: Solution, t: Job): (r: seq<real>)
    requires inst.Valid() && AllKnown(inst, machines) && inst.IsJob(t)
    ensures |r| == |machines|
    decreases |machines|
  {
    if machines == [] then []
    else
      var init := machines[..|machines| - 1];
      assert forall k :: 0 <= k < |init| ==> init[k] == machines[k];
      AppendKnown(inst, machines[|machines| - 1], t);
      Potential(inst, init, t) + [Completion(inst, machines[|machines| - 1] + [t])]
  }

  lemma AppendKnown(inst: Instance, s: seq<Job>, t: Job)
    requires Known(inst, s) && inst.IsJob(t)
    ensures Known(inst, s + [t])
  {
  }

  lemma {:induction false} PotentialValues(inst: Instance, machines: Solution, t: Job)
    requires inst.Valid() && AllKnown(inst, machines) && inst.IsJob(t)
    ensures forall k :: 0 <= k < |machines| ==>
      Known(inst, machines[k] + [t]) && Potential(inst, machines, t)[k] == Completion(inst, machines[k] + [t])
    decreases |machines|
  {
    if machines != [] {
      var init := machines[..|machines| - 1];
      assert forall k :: 0 <= k < |init| ==> init[k] == machines[k];
      PotentialValues(inst, init, t);
    }
  }

  /** The machine that receives job t. */
  function Target(inst: Instance, machines: Solution, t: Job): nat
    requires inst.Valid() && AllKnown(inst, machines) && inst.IsJob(t) && |machines| > 0
  {
    FirstMinimum(Potential(inst, machines, t))
  }

  /** Appends t to the machine where it would complete earliest. */
  function Place(inst: Instance, machines: Solution, t: Job): Solution
    requires inst.Valid() && AllKnown(inst, machines) && inst.IsJob(t) && |machines| > 0
  {
    var b := Target(inst, machines, t);
    machines[b := machines[b] + [t]]
  }

  /** Placing a job changes only the target machine, which gets the job at
      its end; no machine would complete the job earlier, and every machine
      before the target would complete it strictly later (the first
      minimum). */
  lemma PlaceIsGreedy(inst: Instance, machines: Solution, t: Job)
    requires inst.Valid() && AllKnown(inst, machines) && inst.IsJob(t) && |machines| > 0
    ensures var b, r := Target(inst, machines, t), Place(inst, machines, t);
      && b < |machines| && r == machines[b := machines[b] + [t]]
      && (forall k :: 0 <= k < |machines| ==> Completion(inst, r[b]) <= Completion(inst, machines[k] + [t]))
      && (forall k :: 0 <= k < b ==> Completion(inst, r[b]) < Completion(inst, machines[k] + [t]))
  {
    PotentialValues(inst, machines, t);
  }

  /** Placing a job adds exactly that job to the solution. */
  lemma PlaceAdds(inst: Instance, machines: Solution, t: Job)
    requires inst.Valid() && AllKnown(inst, machines) && inst.IsJob(t) && |machines| > 0
    ensures |Place(inst, machines, t)| == |machines| && AllKnown(inst, Place(inst, machines, t))
    ensures Bag(Place(inst, machines, t)) == Bag(machines) + multiset{t}
  {
    var b := Target(inst, machines, t);
    var r := Place(inst, machines, t);
    BagUpdate(machines, b, machines[b] + [t]);
    assert multiset(machines[b] + [t]) == multiset(machines[b]) + multiset{t};
    assert Bag(r) + multiset(machines[b]) == (Bag(machines) + multiset{t}) + multiset(machines[b]);
    Cancel(Bag(r), Bag(machines) + multiset{t}, multiset(machines[b]));
    forall k | 0 <= k < |r| ensures Known(inst, r[k]) {
      if k != b { assert r[k] == machines[k]; } else { assert Known(inst, machines[b]); }
    }
  }

  /** Places the jobs one by one, in order. */
  function Assign(inst: Instance, machines: Solution, tasks: seq<Job>): (r: Solution)
    requires inst.Valid() && AllKnown(inst, machines) && Known(inst, tasks) && |machines| > 0
    ensures |r| == |machines| && AllKnown(inst, r)
    decreases |tasks|
  {
    if tasks == [] then machines
    else
      var before := Assign(inst, machines, tasks[..|tasks| - 1]);
      var t := tasks[|tasks| - 1];
      PlaceAdds(inst, before, t);
      Place(inst, before, t)
  }

  /** Assigning tasks adds exactly those tasks to the solution. */
  lemma {:induction false} AssignAdds(inst: Instance, machines: Solution, tasks: seq<Job>)
    requires inst.Valid() && AllKnown(inst, machines) && Known(inst, tasks) && |machines| > 0
    ensures Bag(Assign(inst, machines, tasks)) == Bag(machines) + multiset(tasks)
    decreases |tasks|
  {
    if tasks != [] {
      var init, t := tasks[..|tasks| - 1], tasks[|tasks| - 1];
      assert Known(inst, init) by {
        forall k | 0 <= k < |init| ensures inst.IsJob(init[k]) { assert init[k] == tasks[k]; }
      }
      var before := Assign(inst, machines, init);
      AssignAdds(inst, machines, init);
      PlaceAdds(inst, before, t);
      assert Assign(inst, machines, tasks) == Place(inst, before, t);
      assert tasks == init + [t];
      assert multiset(tasks) == multiset(init) + multiset{t};
    }
  }

  /** m machines without jobs. */
  function Idle(m: nat): (r: Solution)
    ensures |r| == m && forall k :: 0 <= k < m ==> r[k] == []
  {
    seq(m, _ => [])
  }

  lemma {:induction false} IdleBag(m: nat)
    ensures Bag(Idle(m)) == multiset{}
  {
    if m > 0 {
      assert Idle(m)[..m - 1] == Idle(m - 1);
      IdleBag(m - 1);
    }
  }

  /** The solution the heuristic builds. */
  ghost function Ffd(inst: Instance): Solution
    requires inst.Valid() && inst.nMachines > 0
  {
    Assign(inst, Idle(inst.nMachines), SortedTasks(inst, inst.nJobs))
  }

  /** The heuristic schedules every job exactly once, on the given machines. */
  lemma FfdIsPartition(inst: Instance)
    requires inst.Valid() && inst.nMachines > 0
    ensures |Ffd(inst)| == inst.nMachines && IsPartition(Ffd(inst), inst.nJobs)
  {
    IdleBag(inst.nMachines);
    AssignAdds(inst, Idle(inst.nMachines), SortedTasks(inst, inst.nJobs));
  }

  method SolveWithFfd(inst: Instance) returns (machines: Solution)
    requires inst.Valid() && inst.nMachines > 0
    ensures machines == Ffd(inst)
    ensures |machines| == inst.nMachines && IsPartition(machines, inst.nJobs)
  {
    var sortedTasks := SortedTasks(inst, inst.nJobs);
    machines := Idle(inst.nMachines);
    for idx := 0 to |sortedTasks|
      invariant Known(inst, sortedTasks[..idx])
      invariant machines == Assign(inst, Idle(inst.nMachines), sortedTasks[..idx])
    {
      var task := sortedTasks[idx];
      var potentialTimes := EvaluatePotential(inst, machines, task);
      var bestMachine := FirstMinimum(potentialTimes);
      NextPlacement(inst, sortedTasks, idx);
      machines := machines[bestMachine := machines[bestMachine] + [task]];
    }
    assert sortedTasks[..|sortedTasks|] == sortedTasks;
    FfdIsPartition(inst);
  }

  /** The completion time of a job appended to each machine, machine by machine. */
  method EvaluatePotential(inst: Instance, machines: Solution, task: Job) returns (potentialTimes: seq<real>)
    requires inst.Valid() && AllKnown(inst, machines) && inst.IsJob(task)
    ensures potentialTimes == Potential(inst, machines, task)
  {
    potentialTimes := [];
    for m := 0 to |machines|
      invariant |potentialTimes| == m
      invariant forall k :: 0 <= k < m ==> potentialTimes[k] == Completion(inst, machines[k] + [task])
    {
      AppendKnown(inst, machines[m], task);
      var time := CalculateSequenceTime(inst, machines[m] + [task]);
      potentialTimes := potentialTimes + [time];
    }
    PotentialValues(inst, machines, task);
  }

  /** Assigning one more task of the list places it on the solution so far. */
  lemma NextPlacement(inst: Instance, tasks: seq<Job>, idx: nat)
    requires inst.Valid() && inst.nMachines > 0 && Known(inst, tasks) && idx < |tasks|
    ensures Known(inst, tasks[..idx]) && Known(inst, tasks[..idx + 1])
    ensures Assign(inst, Idle(inst.nMachines), tasks[..idx + 1])
         == Place(inst, Assign(inst, Idle(inst.nMachines), tasks[..idx]), tasks[idx])
  {
    assert tasks[..idx + 1][..idx] == tasks[..idx];
  }
}
