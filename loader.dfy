/** The pure-data part of loading a persisted instance
    (carregar_instancia_de_json): 0-indexed lists become maps keyed 1..n,
    null matrix entries become 0, and the machine-start row of the setup
    table is synthesised from the rest of the table. */
module Loader {
  import opened Util
  import opened Factors
  import opened Instances

  /** A persisted matrix entry as the loader reads it: null counts as 0. */
  function EntryValue(e: Option<real>): real {
    if e.None? then 0.0 else e.value
  }

  /** The start setup of job j, looking at predecessors 1..k: the running
      maximum of the loader, which starts at 0 and skips i == j. */
  function MaxSetupInto(setup: map<(Prev, Job), real>, j: Job, k: nat): (r: real)
    requires forall i :: 1 <= i <= k ==> (After(i), j) in setup
    ensures r >= 0.0
    ensures forall i :: 1 <= i <= k && i != j ==> setup[(After(i), j)] <= r
    ensures r == 0.0 || exists i :: 1 <= i <= k && i != j && r == setup[(After(i), j)]
  {
    if k == 0 then 0.0
    else if k == j then MaxSetupInto(setup, j, k - 1)
    else Max(MaxSetupInto(setup, j, k - 1), setup[(After(k), j)])
  }

  /** The keys of the loaded setup table: a row per job and the start row,
      each with a column per job. */
  ghost predicate SetupKeys(setup: map<(Prev, Job), real>, n: nat) {
    && (forall i: Job, j: Job :: (After(i), j) in setup <==> 1 <= i <= n && 1 <= j <= n)
    && (forall j :: (Start, j) in setup <==> 1 <= j <= n)
  }

  /** A 0-indexed list as a map keyed 1..|xs| (the dictionary
      comprehensions over `enumerate`). */
  function Indexed(xs: seq<real>): (m: map<Job, real>)
    ensures forall j :: j in m <==> 1 <= j <= |xs|
    ensures forall j :: 1 <= j <= |xs| ==> m[j] == xs[j - 1]
  {
    if xs == [] then map[]
    else Indexed(xs[..|xs| - 1])[|xs| := xs[|xs| - 1]]
  }

  /** The job rows of the setup table: entry (i, j) of the persisted
      matrix, null read as 0, under key (After(i + 1), j + 1). */
  method JobRows(matrix: seq<seq<Option<real>>>, n: nat) returns (setup: map<(Prev, Job), real>)
    requires |matrix| >= n && forall i :: 0 <= i < n ==> |matrix[i]| >= n
    ensures forall a: Job, b: Job :: (After(a), b) in setup <==> 1 <= a <= n && 1 <= b <= n
    ensures forall b :: (Start, b) !in setup
    ensures forall a, b :: 1 <= a <= n && 1 <= b <= n ==>
      setup[(After(a), b)] == EntryValue(matrix[a - 1][b - 1])
  {
    setup := map[];
    for i := 0 to n
      invariant forall a: Job, b: Job :: (After(a), b) in setup <==> 1 <= a <= i && 1 <= b <= n
      invariant forall b :: (Start, b) !in setup
      invariant forall a, b :: 1 <= a <= i && 1 <= b <= n ==>
        setup[(After(a), b)] == EntryValue(matrix[a - 1][b - 1])
    {
      for j := 0 to n
        invariant forall a: Job, b: Job :: (After(a), b) in setup <==>
          (1 <= a <= i && 1 <= b <= n) || (a == i + 1 && 1 <= b <= j)
        invariant forall b :: (Start, b) !in setup
        invariant forall a, b :: ((1 <= a <= i && 1 <= b <= n) || (a == i + 1 && 1 <= b <= j)) ==>
          setup[(After(a), b)] == EntryValue(matrix[a - 1][b - 1])
      {
        setup := setup[(After(i + 1), j + 1) := EntryValue(matrix[i][j])];
      }
    }
  }

  /** Adds the start row: for every job j, the largest setup any other job
      would need before j (0 when there is no other job). */
  method AddStartRow(rows: map<(Prev, Job), real>, n: nat) returns (setup: map<(Prev, Job), real>)
    requires forall i: Job, j: Job :: (After(i), j) in rows <==> 1 <= i <= n && 1 <= j <= n
    requires forall j :: (Start, j) !in rows
    ensures SetupKeys(setup, n)
    ensures forall a, b :: 1 <= a <= n && 1 <= b <= n ==> setup[(After(a), b)] == rows[(After(a), b)]
    ensures forall j :: 1 <= j <= n ==> setup[(Start, j)] == MaxSetupInto(rows, j, n)
  {
    setup := rows;
    for j := 1 to n + 1
      invariant forall a: Job, b: Job :: (After(a), b) in setup <==> 1 <= a <= n && 1 <= b <= n
      invariant forall b :: (Start, b) in setup <==> 1 <= b < j
      invariant forall a, b :: 1 <= a <= n && 1 <= b <= n ==> setup[(After(a), b)] == rows[(After(a), b)]
      invariant forall b :: 1 <= b < j ==> setup[(Start, b)] == MaxSetupInto(rows, b, n)
    {
      var maxSetupToJ := 0.0;
      for i := 1 to n + 1
        invariant maxSetupToJ == MaxSetupInto(rows, j, i - 1)
      {
        if i == j {
          continue;
        }
        maxSetupToJ := Max(maxSetupToJ, setup[(After(i), j)]);
      }
      setup := setup[(Start, j) := maxSetupToJ];
    }
  }

  method LoadInstance(stored: StoredInstance) returns (inst: Instance)
    requires var n := stored.config.jobs;
      |stored.setupMatrix| >= n && forall i :: 0 <= i < n ==> |stored.setupMatrix[i]| >= n
    ensures inst.nJobs == stored.config.jobs && inst.nMachines == stored.config.machines
    ensures forall j :: j in inst.proc <==> 1 <= j <= |stored.processingTimes|
    ensures forall j :: 1 <= j <= |stored.processingTimes| ==> inst.proc[j] == stored.processingTimes[j - 1]
    ensures forall j :: j in inst.ready <==> 1 <= j <= |stored.readyTimes|
    ensures forall j :: 1 <= j <= |stored.readyTimes| ==> inst.ready[j] == stored.readyTimes[j - 1]
    ensures SetupKeys(inst.setup, inst.nJobs)
    ensures forall i, j :: 1 <= i <= inst.nJobs && 1 <= j <= inst.nJobs ==>
      inst.setup[(After(i), j)] == EntryValue(stored.setupMatrix[i - 1][j - 1])
    ensures forall j :: 1 <= j <= inst.nJobs ==>
      inst.setup[(Start, j)] == MaxSetupInto(inst.setup, j, inst.nJobs)
    ensures |stored.processingTimes| >= inst.nJobs && |stored.readyTimes| >= inst.nJobs ==> inst.Valid()
  {
    var n := stored.config.jobs;
    var rows := JobRows(stored.setupMatrix, n);
    var setup := AddStartRow(rows, n);
    inst := Instance(n, stored.config.machines, Indexed(stored.processingTimes), Indexed(stored.readyTimes), setup);
    forall j | 1 <= j <= n ensures MaxSetupInto(rows, j, n) == MaxSetupInto(setup, j, n) {
      MaxSetupIntoAgrees(rows, setup, j, n);
    }
  }

  /** The start row depends only on the job rows it is computed from. */
  lemma {:induction false} MaxSetupIntoAgrees(a: map<(Prev, Job), real>, b: map<(Prev, Job), real>, j: Job, k: nat)
    requires forall i :: 1 <= i <= k ==> (After(i), j) in a && (After(i), j) in b && a[(After(i), j)] == b[(After(i), j)]
    ensures MaxSetupInto(a, j, k) == MaxSetupInto(b, j, k)
  {
    if k > 0 {
      MaxSetupIntoAgrees(a, b, j, k - 1);
    }
  }
}
