/** Best-improvement hill climbing (local_search): each pass evaluates
    every transfer, inter-machine swap and intra-machine swap of the current
    solution, keeps the first neighbour (in enumeration order) with the
    smallest makespan if that makespan is strictly below the current one,
    and stops at the first pass that finds none. */
module LocalSearch {
  import opened Util
  import opened Instances
  import opened Timing
  import opened Partitions
  import opened Moves
  import opened SolutionSpace

  /** The makespan of the neighbour a move produces. */
  function Cost(inst: Instance, sol: Solution, mv: Move): real
    requires inst.Valid() && IsPartition(sol, inst.nJobs) && ValidMove(sol, mv)
  {
    ApplyKeepsPartition(sol, inst.nJobs, mv);
    PartitionIsKnown(inst, Apply(sol, mv));
    Makespan(inst, Apply(sol, mv))
  }

  /** The enumeration order of the source: all transfers by (from, to,
      position), then all inter-machine swaps by (m1, m2, i, j), then all
      intra-machine swaps by (machine, i, j). */
  function Key(mv: Move): (nat, nat, nat, nat, nat) {
    match mv
    case Transfer(f, t, p) => (0, f, t, p, 0)
    case InterSwap(a, b, i, j) => (1, a, b, i, j)
    case IntraSwap(m, i, j) => (2, m, i, j, 0)
  }

  predicate Before(a: Move, b: Move) {
    var x, y := Key(a), Key(b);
    x.0 < y.0 || (x.0 == y.0 &&
    (x.1 < y.1 || (x.1 == y.1 &&
    (x.2 < y.2 || (x.2 == y.2 &&
    (x.3 < y.3 || (x.3 == y.3 && x.4 < y.4)))))))
  }

  /** The state of one pass once every move before `cursor` has been
      evaluated: `best` is the smallest neighbour makespan seen, if it is
      below `current`; then `move` is the first move reaching it and
      `neighbour` its result. */
  ghost predicate Scanned(inst: Instance, sol: Solution, current: real,
                          best: real, neighbour: Option<Solution>, move: Option<Move>, cursor: Move)
    requires inst.Valid() && IsPartition(sol, inst.nJobs)
  {
    && best <= current
    && (forall mv :: ValidMove(sol, mv) && Before(mv, cursor) ==> best <= Cost(inst, sol, mv))
    && (neighbour.Some? <==> move.Some?)
    && (move.None? ==> best == current)
    && (move.Some? ==>
          && ValidMove(sol, move.value)
          && Before(move.value, cursor)
          && neighbour.value == Apply(sol, move.value)
          && Cost(inst, sol, move.value) == best < current
          && forall mv :: ValidMove(sol, mv) && Before(mv, move.value) ==> best < Cost(inst, sol, mv))
  }

  /** Evaluating the move at the cursor and moving the cursor past it. */
  lemma Step(inst: Instance, sol: Solution, current: real,
             best: real, neighbour: Option<Solution>, move: Option<Move>, cursor: Move, next: Move)
    requires inst.Valid() && IsPartition(sol, inst.nJobs) && ValidMove(sol, cursor)
    requires Scanned(inst, sol, current, best, neighbour, move, cursor)
    requires forall mv :: Before(mv, next) <==> Before(mv, cursor) || mv == cursor
    ensures var c := Cost(inst, sol, cursor);
      if c < best then Scanned(inst, sol, current, c, Some(Apply(sol, cursor)), Some(cursor), next)
      else Scanned(inst, sol, current, best, neighbour, move, next)
  {
    var c := Cost(inst, sol, cursor);
    if c < best {
      forall mv | ValidMove(sol, mv) && Before(mv, cursor) ensures c < Cost(inst, sol, mv) { }
    }
  }

  /** Keeps the candidate at the cursor if its makespan is strictly below
      the best so far (the `<` of the source: ties keep the earlier one). */
  method Consider(inst: Instance, sol: Solution, current: real,
                  best0: real, neighbour0: Option<Solution>, ghost move0: Option<Move>,
                  ghost cursor: Move, ghost next: Move, candidate: Solution, candidateMakespan: real)
    returns (best: real, neighbour: Option<Solution>, ghost move: Option<Move>)
    requires inst.Valid() && IsPartition(sol, inst.nJobs) && ValidMove(sol, cursor)
    requires Scanned(inst, sol, current, best0, neighbour0, move0, cursor)
    requires forall mv :: Before(mv, next) <==> Before(mv, cursor) || mv == cursor
    requires candidate == Apply(sol, cursor) && candidateMakespan == Cost(inst, sol, cursor)
    ensures Scanned(inst, sol, current, best, neighbour, move, next)
  {
    Step(inst, sol, current, best0, neighbour0, move0, cursor, next);
    if candidateMakespan < best0 {
      best, neighbour, move := candidateMakespan, Some(candidate), Some(cursor);
    } else {
      best, neighbour, move := best0, neighbour0, move0;
    }
  }

  /** The neighbour of a transfer, built as the source does: pop position i
      of `from`, append the job to `to`; and its makespan. */
  method EvaluateTransfer(inst: Instance, sol: Solution, from: nat, to: nat, i: nat)
    returns (candidate: Solution, candidateMakespan: real)
    requires inst.Valid() && IsPartition(sol, inst.nJobs) && ValidMove(sol, Transfer(from, to, i))
    ensures candidate == Apply(sol, Transfer(from, to, i))
    ensures candidateMakespan == Cost(inst, sol, Transfer(from, to, i))
  {
    candidate := sol;
    var taskToMove := candidate[from][i];
    candidate := candidate[from := candidate[from][..i] + candidate[from][i + 1..]];
    candidate := candidate[to := candidate[to] + [taskToMove]];
    ApplyKeepsPartition(sol, inst.nJobs, Transfer(from, to, i));
    PartitionIsKnown(inst, candidate);
    candidateMakespan := EvaluateMakespan(inst, candidate);
  }

  /** The neighbour of an inter-machine swap and its makespan. */
  method EvaluateInterSwap(inst: Instance, sol: Solution, m1: nat, m2: nat, i: nat, j: nat)
    returns (candidate: Solution, candidateMakespan: real)
    requires inst.Valid() && IsPartition(sol, inst.nJobs) && ValidMove(sol, InterSwap(m1, m2, i, j))
    ensures candidate == Apply(sol, InterSwap(m1, m2, i, j))
    ensures candidateMakespan == Cost(inst, sol, InterSwap(m1, m2, i, j))
  {
    candidate := sol;
    var a, b := candidate[m1][i], candidate[m2][j];
    candidate := candidate[m1 := candidate[m1][i := b]];
    candidate := candidate[m2 := candidate[m2][j := a]];
    ApplyKeepsPartition(sol, inst.nJobs, InterSwap(m1, m2, i, j));
    PartitionIsKnown(inst, candidate);
    candidateMakespan := EvaluateMakespan(inst, candidate);
  }

  /** The neighbour of an intra-machine swap and its makespan. */
  method EvaluateIntraSwap(inst: Instance, sol: Solution, m: nat, i: nat, j: nat)
    returns (candidate: Solution, candidateMakespan: real)
    requires inst.Valid() && IsPartition(sol, inst.nJobs) && ValidMove(sol, IntraSwap(m, i, j))
    ensures candidate == Apply(sol, IntraSwap(m, i, j))
    ensures candidateMakespan == Cost(inst, sol, IntraSwap(m, i, j))
  {
    candidate := sol;
    var a, b := candidate[m][i], candidate[m][j];
    candidate := candidate[m := candidate[m][i := b][j := a]];
    ApplyKeepsPartition(sol, inst.nJobs, IntraSwap(m, i, j));
    PartitionIsKnown(inst, candidate);
    candidateMakespan := EvaluateMakespan(inst, candidate);
  }

  // The cursor moves of the three scans: each says which moves lie between
  // two cursors, so that Step or Skip applies.

  lemma NextTransfer(f: nat, t: nat, i: nat)
    ensures forall mv :: Before(mv, Transfer(f, t, i + 1)) <==> Before(mv, Transfer(f, t, i)) || mv == Transfer(f, t, i)
  {
  }

  lemma NextInterSwap(a: nat, b: nat, i: nat, j: nat)
    ensures forall mv :: Before(mv, InterSwap(a, b, i, j + 1)) <==> Before(mv, InterSwap(a, b, i, j)) || mv == InterSwap(a, b, i, j)
  {
  }

  lemma NextIntraSwap(m: nat, i: nat, j: nat)
    ensures forall mv :: Before(mv, IntraSwap(m, i, j + 1)) <==> Before(mv, IntraSwap(m, i, j)) || mv == IntraSwap(m, i, j)
  {
  }

  /** No valid move lies from `cursor` (included) up to `next` (excluded). */
  ghost predicate Gap(sol: Solution, cursor: Move, next: Move) {
    && Before(cursor, next)
    && forall mv :: Before(mv, next) && !Before(mv, cursor) ==> !ValidMove(sol, mv)
  }

  /** Skipping moves that are not valid keeps the scan state. */
  lemma SkipInvalid(inst: Instance, sol: Solution, current: real,
                    best: real, neighbour: Option<Solution>, move: Option<Move>, cursor: Move, next: Move)
    requires inst.Valid() && IsPartition(sol, inst.nJobs)
    requires Scanned(inst, sol, current, best, neighbour, move, cursor)
    requires Gap(sol, cursor, next)
    ensures Scanned(inst, sol, current, best, neighbour, move, next)
  {
  }

  // The stretches of the enumeration that hold no valid move: the end of a
  // row of positions, a machine paired with itself, a machine with fewer than
  // two jobs, and the ends of whole neighbourhoods.

  lemma TransferRowEnd(sol: Solution, f: nat, t: nat)
    requires f < |sol|
    ensures Gap(sol, Transfer(f, t, |sol[f]|), Transfer(f, t + 1, 0))
  {
  }

  lemma TransferToSelf(sol: Solution, f: nat)
    ensures Gap(sol, Transfer(f, f, 0), Transfer(f, f + 1, 0))
  {
  }

  lemma TransferFromEnd(sol: Solution, f: nat)
    ensures Gap(sol, Transfer(f, |sol|, 0), Transfer(f + 1, 0, 0))
  {
  }

  lemma TransfersEnd(sol: Solution)
    ensures Gap(sol, Transfer(|sol|, 0, 0), InterSwap(0, 0, 0, 0))
  {
  }

  lemma InterRowEnd(sol: Solution, m1: nat, m2: nat, i: nat)
    requires m2 < |sol|
    ensures Gap(sol, InterSwap(m1, m2, i, |sol[m2]|), InterSwap(m1, m2, i + 1, 0))
  {
  }

  lemma InterPairEnd(sol: Solution, m1: nat, m2: nat)
    requires m1 < |sol|
    ensures Gap(sol, InterSwap(m1, m2, |sol[m1]|, 0), InterSwap(m1, m2 + 1, 0, 0))
  {
  }

  lemma InterFromStart(sol: Solution, m1: nat)
    ensures Gap(sol, InterSwap(m1, 0, 0, 0), InterSwap(m1, m1 + 1, 0, 0))
  {
  }

  lemma InterFromEnd(sol: Solution, m1: nat)
    ensures Gap(sol, InterSwap(m1, |sol|, 0, 0), InterSwap(m1 + 1, 0, 0, 0))
  {
  }

  lemma InterSwapsEnd(sol: Solution)
    ensures Gap(sol, InterSwap(|sol|, 0, 0, 0), IntraSwap(0, 0, 0))
  {
  }

  lemma IntraRowStart(sol: Solution, m: nat, i: nat)
    ensures Gap(sol, IntraSwap(m, i, 0), IntraSwap(m, i, i + 1))
  {
  }

  lemma IntraRowEnd(sol: Solution, m: nat, i: nat)
    requires m < |sol|
    ensures Gap(sol, IntraSwap(m, i, |sol[m]|), IntraSwap(m, i + 1, 0))
  {
  }

  lemma SkipIntraRowEnd(inst: Instance, sol: Solution, current: real,
                        best: real, neighbour: Option<Solution>, move: Option<Move>, m: nat, i: nat)
    requires inst.Valid() && IsPartition(sol, inst.nJobs) && m < |sol|
    requires Scanned(inst, sol, current, best, neighbour, move, IntraSwap(m, i, |sol[m]|))
    ensures Scanned(inst, sol, current, best, neighbour, move, IntraSwap(m, i + 1, 0))
  {
    IntraRowEnd(sol, m, i);
    SkipInvalid(inst, sol, current, best, neighbour, move, IntraSwap(m, i, |sol[m]|), IntraSwap(m, i + 1, 0));
  }

  lemma IntraMachineEnd(sol: Solution, m: nat)
    requires m < |sol|
    ensures Gap(sol, IntraSwap(m, |sol[m]|, 0), IntraSwap(m + 1, 0, 0))
  {
  }

  lemma IntraShortMachine(sol: Solution, m: nat)
    requires m < |sol| && |sol[m]| < 2
    ensures Gap(sol, IntraSwap(m, 0, 0), IntraSwap(m + 1, 0, 0))
  {
  }

  /** Transfers of position 0.. of machine `from` to machine `to`. */
  method ScanTransferPositions(inst: Instance, sol: Solution, current: real,
                               best0: real, neighbour0: Option<Solution>, ghost move0: Option<Move>,
                               from: nat, to: nat)
    returns (best: real, neighbour: Option<Solution>, ghost move: Option<Move>)
    requires inst.Valid() && IsPartition(sol, inst.nJobs) && from < |sol| && to < |sol| && from != to
    requires Scanned(inst, sol, current, best0, neighbour0, move0, Transfer(from, to, 0))
    ensures Scanned(inst, sol, current, best, neighbour, move, Transfer(from, to + 1, 0))
  {
    best, neighbour, move := best0, neighbour0, move0;
    for i := 0 to |sol[from]|
      invariant Scanned(inst, sol, current, best, neighbour, move, Transfer(from, to, i))
    {
      var candidate, candidateMakespan := EvaluateTransfer(inst, sol, from, to, i);
      NextTransfer(from, to, i);
      best, neighbour, move := Consider(inst, sol, current, best, neighbour, move,
        Transfer(from, to, i), Transfer(from, to, i + 1), candidate, candidateMakespan);
    }
    TransferRowEnd(sol, from, to);
    SkipInvalid(inst, sol, current, best, neighbour, move, Transfer(from, to, |sol[from]|), Transfer(from, to + 1, 0));
  }

  /** Transfers out of machine `from`, to every other machine. */
  method ScanTransfersFrom(inst: Instance, sol: Solution, current: real,
                           best0: real, neighbour0: Option<Solution>, ghost move0: Option<Move>,
                           from: nat)
    returns (best: real, neighbour: Option<Solution>, ghost move: Option<Move>)
    requires inst.Valid() && IsPartition(sol, inst.nJobs) && from < |sol|
    requires Scanned(inst, sol, current, best0, neighbour0, move0, Transfer(from, 0, 0))
    ensures Scanned(inst, sol, current, best, neighbour, move, Transfer(from + 1, 0, 0))
  {
    best, neighbour, move := best0, neighbour0, move0;
    var n := |sol|;
    for to := 0 to n
      invariant Scanned(inst, sol, current, best, neighbour, move, Transfer(from, to, 0))
    {
      if from == to {
        TransferToSelf(sol, from);
        SkipInvalid(inst, sol, current, best, neighbour, move, Transfer(from, to, 0), Transfer(from, to + 1, 0));
        continue;
      }
      best, neighbour, move := ScanTransferPositions(inst, sol, current, best, neighbour, move, from, to);
    }
    TransferFromEnd(sol, from);
    SkipInvalid(inst, sol, current, best, neighbour, move, Transfer(from, n, 0), Transfer(from + 1, 0, 0));
  }

  /** Neighbourhood 1: every job of every machine moved to the end of every
      other machine. */
  method ScanTransfers(inst: Instance, sol: Solution, current: real,
                       best0: real, neighbour0: Option<Solution>, ghost move0: Option<Move>)
    returns (best: real, neighbour: Option<Solution>, ghost move: Option<Move>)
    requires inst.Valid() && IsPartition(sol, inst.nJobs)
    requires Scanned(inst, sol, current, best0, neighbour0, move0, Transfer(0, 0, 0))
    ensures Scanned(inst, sol, current, best, neighbour, move, InterSwap(0, 0, 0, 0))
  {
    best, neighbour, move := best0, neighbour0, move0;
    var n := |sol|;
    for from := 0 to n
      invariant Scanned(inst, sol, current, best, neighbour, move, Transfer(from, 0, 0))
    {
      best, neighbour, move := ScanTransfersFrom(inst, sol, current, best, neighbour, move, from);
    }
    TransfersEnd(sol);
    SkipInvalid(inst, sol, current, best, neighbour, move, Transfer(n, 0, 0), InterSwap(0, 0, 0, 0));
  }

  /** Swaps of position i of machine m1 with every position of machine m2. */
  method ScanInterSwapPositions(inst: Instance, sol: Solution, current: real,
                                best0: real, neighbour0: Option<Solution>, ghost move0: Option<Move>,
                                m1: nat, m2: nat, i: nat)
    returns (best: real, neighbour: Option<Solution>, ghost move: Option<Move>)
    requires inst.Valid() && IsPartition(sol, inst.nJobs) && m1 < m2 < |sol| && i < |sol[m1]|
    requires Scanned(inst, sol, current, best0, neighbour0, move0, InterSwap(m1, m2, i, 0))
    ensures Scanned(inst, sol, current, best, neighbour, move, InterSwap(m1, m2, i + 1, 0))
  {
    best, neighbour, move := best0, neighbour0, move0;
    for j := 0 to |sol[m2]|
      invariant Scanned(inst, sol, current, best, neighbour, move, InterSwap(m1, m2, i, j))
    {
      var candidate, candidateMakespan := EvaluateInterSwap(inst, sol, m1, m2, i, j);
      NextInterSwap(m1, m2, i, j);
      best, neighbour, move := Consider(inst, sol, current, best, neighbour, move,
        InterSwap(m1, m2, i, j), InterSwap(m1, m2, i, j + 1), candidate, candidateMakespan);
    }
    InterRowEnd(sol, m1, m2, i);
    SkipInvalid(inst, sol, current, best, neighbour, move, InterSwap(m1, m2, i, |sol[m2]|), InterSwap(m1, m2, i + 1, 0));
  }

  /** Swaps between machines m1 and m2. */
  method ScanInterSwapPair(inst: Instance, sol: Solution, current: real,
                           best0: real, neighbour0: Option<Solution>, ghost move0: Option<Move>,
                           m1: nat, m2: nat)
    returns (best: real, neighbour: Option<Solution>, ghost move: Option<Move>)
    requires inst.Valid() && IsPartition(sol, inst.nJobs) && m1 < m2 < |sol|
    requires Scanned(inst, sol, current, best0, neighbour0, move0, InterSwap(m1, m2, 0, 0))
    ensures Scanned(inst, sol, current, best, neighbour, move, InterSwap(m1, m2 + 1, 0, 0))
  {
    best, neighbour, move := best0, neighbour0, move0;
    for i := 0 to |sol[m1]|
      invariant Scanned(inst, sol, current, best, neighbour, move, InterSwap(m1, m2, i, 0))
    {
      best, neighbour, move := ScanInterSwapPositions(inst, sol, current, best, neighbour, move, m1, m2, i);
    }
    InterPairEnd(sol, m1, m2);
    SkipInvalid(inst, sol, current, best, neighbour, move, InterSwap(m1, m2, |sol[m1]|, 0), InterSwap(m1, m2 + 1, 0, 0));
  }

  /** Swaps between machine m1 and every later machine. */
  method ScanInterSwapsFrom(inst: Instance, sol: Solution, current: real,
                            best0: real, neighbour0: Option<Solution>, ghost move0: Option<Move>,
                            m1: nat)
    returns (best: real, neighbour: Option<Solution>, ghost move: Option<Move>)
    requires inst.Valid() && IsPartition(sol, inst.nJobs) && m1 < |sol|
    requires Scanned(inst, sol, current, best0, neighbour0, move0, InterSwap(m1, 0, 0, 0))
    ensures Scanned(inst, sol, current, best, neighbour, move, InterSwap(m1 + 1, 0, 0, 0))
  {
    best, neighbour, move := best0, neighbour0, move0;
    var n := |sol|;
    InterFromStart(sol, m1);
    SkipInvalid(inst, sol, current, best, neighbour, move, InterSwap(m1, 0, 0, 0), InterSwap(m1, m1 + 1, 0, 0));
    for m2 := m1 + 1 to n
      invariant Scanned(inst, sol, current, best, neighbour, move, InterSwap(m1, m2, 0, 0))
    {
      best, neighbour, move := ScanInterSwapPair(inst, sol, current, best, neighbour, move, m1, m2);
    }
    InterFromEnd(sol, m1);
    SkipInvalid(inst, sol, current, best, neighbour, move, InterSwap(m1, n, 0, 0), InterSwap(m1 + 1, 0, 0, 0));
  }

  /** Neighbourhood 2: every position of machine m1 exchanged with every
      position of every later machine m2. */
  method ScanInterSwaps(inst: Instance, sol: Solution, current: real,
                        best0: real, neighbour0: Option<Solution>, ghost move0: Option<Move>)
    returns (best: real, neighbour: Option<Solution>, ghost move: Option<Move>)
    requires inst.Valid() && IsPartition(sol, inst.nJobs)
    requires Scanned(inst, sol, current, best0, neighbour0, move0, InterSwap(0, 0, 0, 0))
    ensures Scanned(inst, sol, current, best, neighbour, move, IntraSwap(0, 0, 0))
  {
    best, neighbour, move := best0, neighbour0, move0;
    var n := |sol|;
    for m1 := 0 to n
      invariant Scanned(inst, sol, current, best, neighbour, move, InterSwap(m1, 0, 0, 0))
    {
      best, neighbour, move := ScanInterSwapsFrom(inst, sol, current, best, neighbour, move, m1);
    }
    InterSwapsEnd(sol);
    SkipInvalid(inst, sol, current, best, neighbour, move, InterSwap(n, 0, 0, 0), IntraSwap(0, 0, 0));
  }

  /** Swaps of position i of machine m with every later position j > i. */
  method ScanIntraSwapPositions(inst: Instance, sol: Solution, current: real,
                                best0: real, neighbour0: Option<Solution>, ghost move0: Option<Move>,
                                m: nat, i: nat)
    returns (best: real, neighbour: Option<Solution>, ghost move: Option<Move>)
    requires inst.Valid() && IsPartition(sol, inst.nJobs) && m < |sol| && i < |sol[m]|
    requires Scanned(inst, sol, current, best0, neighbour0, move0, IntraSwap(m, i, i + 1))
    ensures Scanned(inst, sol, current, best, neighbour, move, IntraSwap(m, i + 1, 0))
  {
    best, neighbour, move := best0, neighbour0, move0;
    var seqLen := |sol[m]|;
    for j := i + 1 to seqLen
      invariant Scanned(inst, sol, current, best, neighbour, move, IntraSwap(m, i, j))
    {
      var candidate, candidateMakespan := EvaluateIntraSwap(inst, sol, m, i, j);
      NextIntraSwap(m, i, j);
      best, neighbour, move := Consider(inst, sol, current, best, neighbour, move,
        IntraSwap(m, i, j), IntraSwap(m, i, j + 1), candidate, candidateMakespan);
    }
    SkipIntraRowEnd(inst, sol, current, best, neighbour, move, m, i);
  }

  /** The intra-machine swaps of one machine with at least two jobs. */
  method ScanIntraSwapsOn(inst: Instance, sol: Solution, current: real,
                          best0: real, neighbour0: Option<Solution>, ghost move0: Option<Move>,
                          m: nat)
    returns (best: real, neighbour: Option<Solution>, ghost move: Option<Move>)
    requires inst.Valid() && IsPartition(sol, inst.nJobs) && m < |sol|
    requires Scanned(inst, sol, current, best0, neighbour0, move0, IntraSwap(m, 0, 0))
    ensures Scanned(inst, sol, current, best, neighbour, move, IntraSwap(m + 1, 0, 0))
  {
    best, neighbour, move := best0, neighbour0, move0;
    var seqLen := |sol[m]|;
    for i := 0 to seqLen
      invariant Scanned(inst, sol, current, best, neighbour, move, IntraSwap(m, i, 0))
    {
      IntraRowStart(sol, m, i);
      SkipInvalid(inst, sol, current, best, neighbour, move, IntraSwap(m, i, 0), IntraSwap(m, i, i + 1));
      best, neighbour, move := ScanIntraSwapPositions(inst, sol, current, best, neighbour, move, m, i);
    }
    IntraMachineEnd(sol, m);
    SkipInvalid(inst, sol, current, best, neighbour, move, IntraSwap(m, seqLen, 0), IntraSwap(m + 1, 0, 0));
  }

  /** Neighbourhood 3: every pair of positions i < j of every machine with
      at least two jobs exchanged. */
  method ScanIntraSwaps(inst: Instance, sol: Solution, current: real,
                        best0: real, neighbour0: Option<Solution>, ghost move0: Option<Move>)
    returns (best: real, neighbour: Option<Solution>, ghost move: Option<Move>)
    requires inst.Valid() && IsPartition(sol, inst.nJobs)
    requires Scanned(inst, sol, current, best0, neighbour0, move0, IntraSwap(0, 0, 0))
    ensures Scanned(inst, sol, current, best, neighbour, move, IntraSwap(|sol|, 0, 0))
  {
    best, neighbour, move := best0, neighbour0, move0;
    var n := |sol|;
    for m := 0 to n
      invariant Scanned(inst, sol, current, best, neighbour, move, IntraSwap(m, 0, 0))
    {
      if |sol[m]| < 2 {
        IntraShortMachine(sol, m);
        SkipInvalid(inst, sol, current, best, neighbour, move, IntraSwap(m, 0, 0), IntraSwap(m + 1, 0, 0));
        continue;
      }
      best, neighbour, move := ScanIntraSwapsOn(inst, sol, current, best, neighbour, move, m);
    }
  }

  /** Every valid move comes before the cursor that ends the third scan. */
  lemma AllMovesScanned(sol: Solution)
    ensures forall mv :: ValidMove(sol, mv) ==> Before(mv, IntraSwap(|sol|, 0, 0))
  {
  }

  /** No move of the solution lowers the makespan below `makespan`. */
  ghost predicate LocalOptimum(inst: Instance, sol: Solution, makespan: real)
    requires inst.Valid() && IsPartition(sol, inst.nJobs)
  {
    forall mv :: ValidMove(sol, mv) ==> makespan <= Cost(inst, sol, mv)
  }

  /** One pass over the three neighbourhoods: either no neighbour is
      strictly better than `current` (a local optimum), or the neighbour
      returned is one with the smallest makespan, strictly below `current`,
      and the first such in enumeration order. */
  method BestNeighbour(inst: Instance, sol: Solution, current: real)
    returns (best: real, neighbour: Option<Solution>, ghost move: Option<Move>)
    requires inst.Valid() && IsPartition(sol, inst.nJobs)
    ensures neighbour.None? ==> best == current && LocalOptimum(inst, sol, current)
    ensures neighbour.Some? ==>
      && move.Some? && ValidMove(sol, move.value)
      && neighbour.value == Apply(sol, move.value)
      && best == Cost(inst, sol, move.value) < current
      && (forall mv :: ValidMove(sol, mv) ==> best <= Cost(inst, sol, mv))
      && (forall mv :: ValidMove(sol, mv) && Before(mv, move.value) ==> best < Cost(inst, sol, mv))
  {
    best, neighbour, move := current, None, None;
    best, neighbour, move := ScanTransfers(inst, sol, current, best, neighbour, move);
    best, neighbour, move := ScanInterSwaps(inst, sol, current, best, neighbour, move);
    best, neighbour, move := ScanIntraSwaps(inst, sol, current, best, neighbour, move);
    AllMovesScanned(sol);
  }

  /** The search loop: repeat passes, moving to the best neighbour while it
      is strictly better, and stop at the first pass without one. Returns
      the final solution, its makespan and the number of passes. */
  method Search(inst: Instance, initial: Solution) returns (solution: Solution, makespan: real, iterations: nat)
    requires inst.Valid() && IsPartition(initial, inst.nJobs) && |initial| == inst.nMachines
    ensures IsPartition(solution, inst.nJobs) && |solution| == inst.nMachines
    ensures AllKnown(inst, solution) && makespan == Makespan(inst, solution)
    ensures LocalOptimum(inst, solution, makespan)
    ensures AllKnown(inst, initial) && makespan <= Makespan(inst, initial)
    ensures iterations >= 1
    ensures iterations == 1 ==> solution == initial
    ensures iterations > 1 ==> makespan < Makespan(inst, initial)
  {
    solution := initial;
    PartitionIsKnown(inst, solution);
    makespan := EvaluateMakespan(inst, solution);
    iterations := 0;
    while true
      invariant IsPartition(solution, inst.nJobs) && |solution| == inst.nMachines
      invariant AllKnown(inst, solution) && makespan == Makespan(inst, solution)
      invariant makespan <= Makespan(inst, initial)
      invariant iterations == 0 ==> solution == initial
      invariant iterations > 0 ==> makespan < Makespan(inst, initial)
      decreases |Improving(inst, inst.nMachines, makespan)|
    {
      iterations := iterations + 1;
      var best, neighbour, move := BestNeighbour(inst, solution, makespan);
      if neighbour.None? {
        break;
      }
      ghost var previous := makespan;
      ApplyKeepsPartition(solution, inst.nJobs, move.value);
      solution := neighbour.value;
      makespan := best;
      PartitionIsKnown(inst, solution);
      ImprovingShrinks(inst, solution, previous);
    }
  }
}
