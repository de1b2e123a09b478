/** The in-memory job registry of the API server: a map from job id to
    `JobStatus`. The lock only serialises calls, so every operation is a
    sequential state transition. */
module Jobs {
  import opened Wrappers
  import opened Time

  /** `status` is a free string; nothing constrains how it changes. */
  datatype JobStatus = JobStatus(
    jobId: string,
    status: string,
    total: Option<int>,
    processed: int,
    newCount: int,
    error: Option<string>,
    startedAt: Timestamp,
    finishedAt: Option<Timestamp>)

  type Registry = map<string, JobStatus>

  /** The `**updates` keyword arguments of `update_job`: a field is named when
      its entry is `Some(v)`, and `v` is then its new value. There is no
      `jobId` entry: `job_id` is already the positional parameter, so Python
      rejects a call that also passes it as a keyword. */
  datatype JobUpdate = JobUpdate(
    status: Option<string>,
    total: Option<Option<int>>,
    processed: Option<int>,
    newCount: Option<int>,
    error: Option<Option<string>>,
    startedAt: Option<Timestamp>,
    finishedAt: Option<Option<Timestamp>>)

  const NoJobUpdate: JobUpdate := JobUpdate(None, None, None, None, None, None, None)

  /** `job.model_copy(update=updates)`. */
  function ApplyUpdate(job: JobStatus, u: JobUpdate): (r: JobStatus)
    ensures r.jobId == job.jobId
    ensures u.status.None? ==> r.status == job.status
    ensures u.total.None? ==> r.total == job.total
    ensures u.processed.None? ==> r.processed == job.processed
    ensures u.newCount.None? ==> r.newCount == job.newCount
    ensures u.error.None? ==> r.error == job.error
    ensures u.startedAt.None? ==> r.startedAt == job.startedAt
    ensures u.finishedAt.None? ==> r.finishedAt == job.finishedAt
    ensures u.status.Some? ==> r.status == u.status.value
    ensures u.total.Some? ==> r.total == u.total.value
    ensures u.processed.Some? ==> r.processed == u.processed.value
    ensures u.newCount.Some? ==> r.newCount == u.newCount.value
    ensures u.error.Some? ==> r.error == u.error.value
    ensures u.startedAt.Some? ==> r.startedAt == u.startedAt.value
    ensures u.finishedAt.Some? ==> r.finishedAt == u.finishedAt.value
  {
    JobStatus(
      job.jobId,
      u.status.GetOr(job.status),
      u.total.GetOr(job.total),
      u.processed.GetOr(job.processed),
      u.newCount.GetOr(job.newCount),
      u.error.GetOr(job.error),
      u.startedAt.GetOr(job.startedAt),
      u.finishedAt.GetOr(job.finishedAt))
  }

  /** Later keyword arguments laid over earlier ones. */
  function MergeUpdates(u: JobUpdate, v: JobUpdate): JobUpdate {
    JobUpdate(
      if v.status.Some? then v.status else u.status,
      if v.total.Some? then v.total else u.total,
      if v.processed.Some? then v.processed else u.processed,
      if v.newCount.Some? then v.newCount else u.newCount,
      if v.error.Some? then v.error else u.error,
      if v.startedAt.Some? then v.startedAt else u.startedAt,
      if v.finishedAt.Some? then v.finishedAt else u.finishedAt)
  }

  datatype Created = Created(registry: Registry, job: JobStatus)

  /** `create_job`. The random `uuid4().hex` and the clock reading are
      parameters; `create_job` does not check that the id is unused. */
  function CreateJob(reg: Registry, freshId: string, now: Timestamp): (c: Created)
    ensures c.job.jobId == freshId && c.job.status == "pending" && c.job.startedAt == now
    ensures c.job.processed == 0 && c.job.newCount == 0
    ensures c.job.total == None && c.job.error == None && c.job.finishedAt == None
    ensures c.registry.Keys == reg.Keys + {freshId}
    ensures c.registry[freshId] == c.job
    ensures forall id :: id in reg && id != freshId ==> c.registry[id] == reg[id]
    ensures freshId !in reg ==> |c.registry| == |reg| + 1
  {
    var job := JobStatus(freshId, "pending", None, 0, 0, None, now, None);
    Created(reg[freshId := job], job)
  }

  /** `get_job`. */
  function GetJob(reg: Registry, id: string): (r: Option<JobStatus>)
    ensures r.Some? <==> id in reg
    ensures r.Some? ==> r.value == reg[id]
  {
    if id in reg then Some(reg[id]) else None
  }

  datatype Updated = Updated(registry: Registry, job: Option<JobStatus>)

  /** `update_job`: `None` and no change for an unknown id; otherwise the
      overlaid job, stored back under the same key. */
  function UpdateJob(reg: Registry, id: string, u: JobUpdate): (r: Updated)
    ensures id !in reg ==> r.job == None && r.registry == reg
    ensures id in reg ==> r.job == Some(ApplyUpdate(reg[id], u))
    ensures id in reg ==> id in r.registry && r.registry[id] == r.job.value
    ensures id in reg ==> r.registry[id].jobId == reg[id].jobId
    ensures r.registry.Keys == reg.Keys
    ensures forall other :: other in reg && other != id ==> r.registry[other] == reg[other]
  {
    match GetJob(reg, id)
    case None => Updated(reg, None)
    case Some(job) =>
      var job' := ApplyUpdate(job, u);
      Updated(reg[id := job'], Some(job'))
  }

  /** A created job is found under its own id. */
  lemma CreateThenGet(reg: Registry, freshId: string, now: Timestamp)
    ensures GetJob(CreateJob(reg, freshId, now).registry, freshId) == Some(CreateJob(reg, freshId, now).job)
  {
  }

  /** Two updates of one job amount to one update with the later values winning. */
  lemma UpdatesCompose(reg: Registry, id: string, u: JobUpdate, v: JobUpdate)
    ensures UpdateJob(UpdateJob(reg, id, u).registry, id, v).registry
         == UpdateJob(reg, id, MergeUpdates(u, v)).registry
  {
  }

  /** An update naming no field stores the job back unchanged. */
  lemma EmptyUpdateChangesNothing(reg: Registry, id: string)
    ensures UpdateJob(reg, id, NoJobUpdate).registry == reg
  {
  }

  /** No status lifecycle is enforced: any job can be moved to any status,
      backwards included, and its counters can go down. */
  lemma StatusIsUnconstrained(reg: Registry, id: string, status: string, processed: int)
    requires id in reg
    ensures var r := UpdateJob(reg, id, NoJobUpdate.(status := Some(status), processed := Some(processed)));
      r.job.Some? && r.registry[id].status == status && r.registry[id].processed == processed
  {
  }

  /** Every job is stored under its own id. */
  predicate KeysMatchIds(reg: Registry) {
    forall id :: id in reg ==> reg[id].jobId == id
  }

  /** Creating and updating both keep every job under its own id. */
  lemma KeysMatchIdsPreserved(reg: Registry, freshId: string, now: Timestamp, id: string, u: JobUpdate)
    requires KeysMatchIds(reg)
    ensures KeysMatchIds(CreateJob(reg, freshId, now).registry)
    ensures KeysMatchIds(UpdateJob(reg, id, u).registry)
  {
  }

  /** One call on the registry. */
  datatype JobOp = Create(freshId: string, now: Timestamp) | Get(id: string) | Update(id: string, u: JobUpdate)

  function Apply(reg: Registry, op: JobOp): Registry {
    match op
    case Create(freshId, now) => CreateJob(reg, freshId, now).registry
    case Get(_) => reg
    case Update(id, u) => UpdateJob(reg, id, u).registry
  }

  function Run(reg: Registry, ops: seq<JobOp>): Registry
    decreases |ops|
  {
    if ops == [] then reg else Run(Apply(reg, ops[0]), ops[1..])
  }

  /** The ids `ops` creates. */
  function CreatedIds(ops: seq<JobOp>): set<string>
    decreases |ops|
  {
    if ops == [] then {}
    else (if ops[0].Create? then {ops[0].freshId} else {}) + CreatedIds(ops[1..])
  }

  /** Nothing removes a job: after any sequence of calls the registry holds
      exactly the jobs it held before plus those created. */
  lemma {:induction false} KeysOnlyGrow(reg: Registry, ops: seq<JobOp>)
    ensures Run(reg, ops).Keys == reg.Keys + CreatedIds(ops)
    decreases |ops|
  {
    if ops != [] {
      KeysOnlyGrow(Apply(reg, ops[0]), ops[1..]);
    }
  }

  /** After any sequence of calls every job is still stored under its own id. */
  lemma {:induction false} RunKeepsKeysMatchIds(reg: Registry, ops: seq<JobOp>)
    requires KeysMatchIds(reg)
    ensures KeysMatchIds(Run(reg, ops))
    decreases |ops|
  {
    if ops != [] {
      match ops[0] {
        case Create(freshId, now) => KeysMatchIdsPreserved(reg, freshId, now, "", NoJobUpdate);
        case Get(_) =>
        case Update(id, u) => KeysMatchIdsPreserved(reg, "", 0, id, u);
      }
      RunKeepsKeysMatchIds(Apply(reg, ops[0]), ops[1..]);
    }
  }
}
