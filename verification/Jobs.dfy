/** The job table the server and the edge agents share. */
module Jobs {

  datatype JobStatus = JobPending | JobRunning | JobSuccess | JobFailed

  /** A row of the job table; its id is its position. `claimed` is whether `claimed_at` is set,
      `succeeded` records that the status has been success at some time. */
  datatype Job = Job(plan: int, agent: int, run: nat, step: nat, action: string, status: JobStatus,
                     claimed: bool, succeeded: bool)

  predicate Open(j: Job) {
    j.status.JobPending? || j.status.JobRunning?
  }

  function Rank(s: JobStatus): nat {
    match s case JobPending => 0 case JobRunning => 1 case _ => 2
  }

  /** `InternalUpdate` of the status column: unguarded. */
  function SetStatus(jobs: seq<Job>, id: nat, s: JobStatus): seq<Job>
    requires id < |jobs|
  {
    jobs[id := jobs[id].(status := s, succeeded := jobs[id].succeeded || s.JobSuccess?)]
  }

  predicate PendingFor(j: Job, agent: int) {
    j.agent == agent && j.status.JobPending?
  }

  /** The first id from `from` on that is pending for the agent, or the table size. */
  function NextPending(jobs: seq<Job>, agent: int, from: nat): (r: nat)
    requires from <= |jobs|
    ensures from <= r <= |jobs| && (r < |jobs| ==> PendingFor(jobs[r], agent))
    ensures forall k :: from <= k < r ==> !PendingFor(jobs[k], agent)
    decreases |jobs| - from
  {
    if from == |jobs| || PendingFor(jobs[from], agent) then from else NextPending(jobs, agent, from + 1)
  }

  function Claimed(jobs: seq<Job>, id: nat): seq<Job>
    requires id < |jobs|
  {
    jobs[id := jobs[id].(status := JobRunning, claimed := true)]
  }
}
