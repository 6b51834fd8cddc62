/** Completion time of one machine's job sequence (calculate_sequence_time):
    a forward simulation from the machine start, where each job starts when
    both the machine and the job are ready, then pays the setup from its
    predecessor and its own processing time. */
module Timing {
  import opened Util
  import opened Instances

  /** Every job of the sequence is a job of the instance. */
  ghost predicate Known(inst: Instance, s: seq<Job>) {
    forall k :: 0 <= k < |s| ==> inst.IsJob(s[k])
  }

  /** What the next job appended to `s` would follow. */
  function Prior(s: seq<Job>): Prev {
    if s == [] then Start else After(s[|s| - 1])
  }

  /** The setup paid by the job at position k of s. */
  function SetupAt(inst: Instance, s: seq<Job>, k: nat): real
    requires inst.Valid() && Known(inst, s) && k < |s|
  {
    inst.setup[(Prior(s[..k]), s[k])]
  }

  /** The left fold of the source, written on the last element: the
      completion time of `s` is that of all but its last job, advanced to the
      last job's ready time, plus that job's setup and processing time. */
  function Completion(inst: Instance, s: seq<Job>): real
    requires inst.Valid() && Known(inst, s)
    decreases |s|
  {
    if s == [] then 0.0
    else
      var init, j := s[..|s| - 1], s[|s| - 1];
      Max(Completion(inst, init), inst.ready[j]) + inst.setup[(Prior(init), j)] + inst.proc[j]
  }

  /** The time the machine spends busy on `s`: setups plus processing. */
  function Busy(inst: Instance, s: seq<Job>): real
    requires inst.Valid() && Known(inst, s)
    decreases |s|
  {
    if s == [] then 0.0
    else Busy(inst, s[..|s| - 1]) + SetupAt(inst, s, |s| - 1) + inst.proc[s[|s| - 1]]
  }

  method CalculateSequenceTime(inst: Instance, sequence: seq<Job>) returns (completionTime: real)
    requires inst.Valid() && Known(inst, sequence)
    ensures completionTime == Completion(inst, sequence)
  {
    completionTime := 0.0;
    var lastTask := Start;
    if |sequence| == 0 {
      return 0.0;
    }
    for k := 0 to |sequence|
      invariant completionTime == Completion(inst, sequence[..k])
      invariant lastTask == Prior(sequence[..k])
    {
      var taskId := sequence[k];
      assert sequence[..k + 1][..k] == sequence[..k];
      var startTime := Max(completionTime, inst.ready[taskId]);
      var setupTime := inst.setup[(lastTask, taskId)];
      var procTime := inst.proc[taskId];
      completionTime := startTime + setupTime + procTime;
      lastTask := After(taskId);
    }
    assert sequence[..|sequence|] == sequence;
  }

  /** The machine is never done before its last job is ready and processed. */
  lemma CompletionAtLeastLastJob(inst: Instance, s: seq<Job>)
    requires inst.Valid() && inst.NonNegative() && Known(inst, s) && s != []
    ensures Completion(inst, s) >= inst.ready[s[|s| - 1]] + inst.proc[s[|s| - 1]]
  {
    var init := s[..|s| - 1];
    assert inst.IsJob(s[|s| - 1]);
    assert Prior(init) == Start || inst.IsJob(Prior(init).job);
  }

  /** Appending a job never lowers the completion time. */
  lemma CompletionAppend(inst: Instance, s: seq<Job>, j: Job)
    requires inst.Valid() && inst.NonNegative() && Known(inst, s) && inst.IsJob(j)
    ensures Known(inst, s + [j])
    ensures Completion(inst, s + [j]) >= Completion(inst, s)
  {
    assert (s + [j])[..|s|] == s;
    assert Prior(s) == Start || inst.IsJob(Prior(s).job);
  }

  /** Completion time of a prefix never exceeds that of the whole sequence. */
  lemma {:induction false} CompletionPrefix(inst: Instance, s: seq<Job>, k: nat)
    requires inst.Valid() && inst.NonNegative() && Known(inst, s) && k <= |s|
    ensures Completion(inst, s[..k]) <= Completion(inst, s)
    decreases |s| - k
  {
    if k < |s| {
      var t := s[..k + 1];
      assert t == s[..k] + [s[k]];
      CompletionAppend(inst, s[..k], s[k]);
      assert s[..k + 1][..k + 1] == s[..k + 1];
      CompletionPrefix(inst, s, k + 1);
    } else {
      assert s[..k] == s;
    }
  }

  /** Waiting for ready times only adds to the busy time. */
  lemma {:induction false} CompletionAtLeastBusy(inst: Instance, s: seq<Job>)
    requires inst.Valid() && Known(inst, s)
    ensures Completion(inst, s) >= Busy(inst, s)
    decreases |s|
  {
    if s != [] {
      var init := s[..|s| - 1];
      CompletionAtLeastBusy(inst, init);
      assert s[..|s| - 1] == init;
    }
  }

  /** Every job on the machine finishes, and so does the machine, no earlier
      than its ready time plus the setup it pays plus its processing time. */
  lemma CompletionAtLeastEachJob(inst: Instance, s: seq<Job>, k: nat)
    requires inst.Valid() && inst.NonNegative() && Known(inst, s) && k < |s|
    ensures Completion(inst, s) >= inst.ready[s[k]] + SetupAt(inst, s, k) + inst.proc[s[k]]
  {
    var t := s[..k + 1];
    assert t[..|t| - 1] == s[..k];
    assert t[|t| - 1] == s[k];
    CompletionPrefix(inst, s, k + 1);
  }
}
