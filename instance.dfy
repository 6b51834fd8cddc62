/** A scheduling instance as the solver sees it after loading: jobs are the
    integers 1..nJobs, processing and ready times are maps keyed by job, and
    the setup table is keyed by (predecessor, successor), where the
    predecessor is either a real job or the machine-start marker (the string
    key '0' of the loaded setup dictionary). */
module Instances {

  type Job = nat

  /** What precedes a job on a machine: nothing yet, or another job. */
  datatype Prev = Start | After(job: Job)

  datatype Instance = Instance(
    nJobs: nat,
    nMachines: nat,
    proc: map<Job, real>,
    ready: map<Job, real>,
    setup: map<(Prev, Job), real>)
  {
    predicate IsJob(j: Job) {
      1 <= j <= nJobs
    }

    /** Every job has a processing time, a ready time, a start setup and a
        setup after every job (the loaded dictionaries are total on 1..n). */
    ghost predicate Valid() {
      forall j :: IsJob(j) ==>
        && j in proc
        && j in ready
        && (Start, j) in setup
        && forall i :: IsJob(i) ==> (After(i), j) in setup
    }

    /** The data the generator produces: no negative time anywhere. */
    ghost predicate NonNegative()
      requires Valid()
    {
      forall j :: IsJob(j) ==>
        && proc[j] >= 0.0
        && ready[j] >= 0.0
        && setup[(Start, j)] >= 0.0
        && forall i :: IsJob(i) ==> setup[(After(i), j)] >= 0.0
    }
  }
}
