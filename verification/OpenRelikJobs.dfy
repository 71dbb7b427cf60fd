/**
 The OpenRelik job table and the four adapter operations on it.

 `Contract` holds what the model does not look into: the request schema, the printed digest
 behind the idempotency key, and which principal names are blank.
 */
module OpenRelikJobs {
  import opened Text
  import IdempotencyKeys

  datatype Contract = Contract(schemaAccepts: Request -> bool, digest: IdempotencyKeys.Digest, blank: string -> bool,
                               maxAttempts: nat)

  /** The parts of a request the adapter reads; `rest` is everything else in it. */
  datatype Request = Request(requestId: string, tenant: string, caseId: string, asset: string, evidence: string,
                             sha256: string, acquisition: string, toolProfile: string, key: string, rest: string)

  type Outputs = seq<string>

  datatype Job = Job(jobId: string, tenant: string, caseId: string, analyst: string, evidence: string, asset: string,
                     key: string, workflow: Option<string>, task: Option<string>, status: string, review: string,
                     attempts: nat, error: Option<string>, outputs: Outputs, request: Request)
  {
    /** Python truth of `workflow_id`: neither None nor empty. */
    predicate Bound() { workflow.Some? && workflow.value != "" }
  }

  type Table = map<string, Job>

  datatype Principal = Principal(tenant: string, analyst: string)

  predicate Terminal(status: string) { status == "succeeded" || status == "failed" || status == "quarantined" }

  function KeyFor(c: Contract, r: Request): string
  {
    IdempotencyKeys.Key(c.digest,
                        IdempotencyKeys.OpenRelikJob(r.tenant, r.caseId, r.evidence, r.sha256,
                                                     r.toolProfile).Components())
  }

  predicate ValidRequest(c: Contract, r: Request)
  {
    && c.schemaAccepts(r)
    && IdempotencyKeys.SafeId(r.tenant) && IdempotencyKeys.SafeId(r.caseId) && IdempotencyKeys.SafeId(r.asset)
    && IdempotencyKeys.SafeId(r.evidence) && IdempotencyKeys.SafeId(r.acquisition)
  }

  /** What a call to the transport comes to; `Silent` also covers a process that dies before the answer is stored. */
  datatype TransportReply = Silent | Answer(workflow: WorkflowField, task: Option<string>, status: string)

  /** The `workflow_id` of an answer: no such key, an explicit null, or a string. */
  datatype WorkflowField = Absent | Null | Id(id: string)
  {
    predicate Names() { Id? && id != "" }

    /** The column it is written to. */
    function Column(): Option<string> { if Id? then Some(id) else None }
  }

  datatype StatusReply = NoReport | Report(status: string, outputs: Outputs, error: Option<string>)

  /** The statuses the result schema admits. */
  predicate ReportableStatus(s: string) { s == "queued" || s == "running" || Terminal(s) }

  // ------------------------------------------------------- rows as functions

  function NewJob(r: Request, analyst: string, key: string): Job
  {
    Job(r.requestId, r.tenant, r.caseId, analyst, r.evidence, r.asset, key, None, None, "queued", "unreviewed", 0, None,
        [], r)
  }

  ghost predicate KeyTaken(t: Table, key: string) { exists id :: id in t && t[id].key == key }

  ghost function HolderOf(t: Table, key: string): string
    requires KeyTaken(t, key)
    ensures HolderOf(t, key) in t && t[HolderOf(t, key)].key == key
  {
    var id :| id in t && t[id].key == key; id
  }

  /** `create`: insert, or answer with the row that holds the key if its stored request is the same. */
  ghost function Inserted(t: Table, r: Request, analyst: string, key: string): (Table, Result<Job, string>)
  {
    if r.requestId !in t && !KeyTaken(t, key) then
      var job := NewJob(r, analyst, key);
      (t[r.requestId := job], Ok(job))
    else if !KeyTaken(t, key) then (t, Err("IntegrityError"))
    else
      var held := t[HolderOf(t, key)];
      if held.request != r then (t, Err("IDEMPOTENCY_CONFLICT")) else (t, Ok(held))
  }

  /** The answer of the transport, written into a row. */
  function Bind(job: Job, reply: TransportReply): Job
    requires reply.Answer?
  {
    job.(workflow := reply.workflow.Column(), task := reply.task, status := reply.status, attempts := job.attempts + 1)
  }

  /** The part of `submit` before the table is touched. */
  function AdmitSubmit(c: Contract, p: Principal, r: Request): Result<string, string>
  {
    if c.blank(p.tenant) || c.blank(p.analyst) then Err("PermissionError")
    else if !ValidRequest(c, r) then Err("ContractValidationError")
    else if r.tenant != p.tenant then Err("PermissionError")
    else if r.key != KeyFor(c, r) then Err("idempotency key mismatch")
    else Ok(r.key)
  }

  datatype Submitted = Submitted(table: Table, reply: Result<Job, string>, called: bool)

  ghost function Submit(c: Contract, t: Table, p: Principal, r: Request, reply: TransportReply): Submitted
  {
    match AdmitSubmit(c, p, r)
    case Err(code) => Submitted(t, Err(code), false)
    case Ok(key) =>
      var (t1, created) := Inserted(t, r, p.analyst, key);
      match created
      case Err(code) => Submitted(t1, Err(code), false)
      case Ok(job) =>
        if job.Bound() then Submitted(t1, Ok(job), false)
        else if reply.Silent? then Submitted(t1, Err("transport"), true)
        else if !reply.workflow.Names() then
          Submitted(t1, Err("transport returned no workflow_id"), true)
        else Submitted(t1[job.jobId := Bind(job, reply)], Ok(Bind(job, reply)), true)
  }

  /** `_get`: the row, if it is of the principal's tenant and the given case. */
  function Scoped(c: Contract, t: Table, p: Principal, jobId: string, caseId: string): Result<Job, string>
  {
    if c.blank(p.tenant) || c.blank(p.analyst) then Err("PermissionError")
    else if jobId !in t || t[jobId].tenant != p.tenant || t[jobId].caseId != caseId then Err("job not found")
    else Ok(t[jobId])
  }

  function Poll(c: Contract, t: Table, p: Principal, jobId: string, caseId: string, report: StatusReply):
    (Table, Result<Job, string>)
  {
    match Scoped(c, t, p, jobId, caseId)
    case Err(code) => (t, Err(code))
    case Ok(job) =>
      if !job.Bound() || Terminal(job.status) then (t, Ok(job))
      else if report.NoReport? || !ReportableStatus(report.status) then (t, Err("ContractValidationError"))
      else
        var polled := job.(status := report.status, outputs := report.outputs, error := report.error);
        (t[jobId := polled], Ok(polled))
  }

  /** The row a retry sends again. */
  predicate Resendable(c: Contract, job: Job) { !job.Bound() && !Terminal(job.status) && job.attempts < c.maxAttempts }

  function Retry(c: Contract, t: Table, p: Principal, jobId: string, caseId: string, reply: TransportReply):
    (Table, Result<Job, string>)
  {
    match Scoped(c, t, p, jobId, caseId)
    case Err(code) => (t, Err(code))
    case Ok(job) =>
      if !Resendable(c, job) then (t, Ok(job))
      else if reply.Silent? || reply.workflow.Absent? then (t, Err("transport"))
      else (t[jobId := Bind(job, reply)], Ok(Bind(job, reply)))
  }

  function Approve(c: Contract, t: Table, p: Principal, jobId: string, caseId: string): (Table, Result<Job, string>)
  {
    match Scoped(c, t, p, jobId, caseId)
    case Err(code) => (t, Err(code))
    case Ok(job) =>
      var approved := job.(review := "approved");
      (t[jobId := approved], Ok(approved))
  }

  function WithOutputs(t: Table, jobId: string, tenant: string, caseId: string, outputs: Outputs):
    (Table, Result<Job, string>)
  {
    if jobId !in t || t[jobId].tenant != tenant || t[jobId].caseId != caseId then (t, Err("job not found"))
    else
      var job := t[jobId].(status := "succeeded", outputs := outputs);
      (t[jobId := job], Ok(job))
  }

  // ------------------------------------------------------------- the table itself

  /** Primary key `job_id`, `idempotency_key` unique. */
  ghost predicate Unique(t: Table)
  {
    && (forall id :: id in t ==> t[id].jobId == id)
    && (forall a, b :: a in t && b in t && t[a].key == t[b].key ==> a == b)
  }

  class JobStore {
    var rows: Table

    constructor ()
      ensures rows == map[]
    {
      rows := map[];
    }

    method Create(r: Request, analyst: string, key: string) returns (reply: Result<Job, string>)
      requires Unique(rows)
      modifies this
      ensures (rows, reply) == old(Inserted(rows, r, analyst, key))
    {
      var holder := ByKey(key);
      if r.requestId !in rows && holder.None? {
        var job := NewJob(r, analyst, key);
        rows := rows[r.requestId := job];
        return Ok(job);
      }
      if holder.None? {
        return Err("IntegrityError");
      }
      if holder.value.request != r {
        return Err("IDEMPOTENCY_CONFLICT");
      }
      return Ok(holder.value);
    }

    /** SELECT by key: a scan of the table. */
    method ByKey(key: string) returns (found: Option<Job>)
      requires Unique(rows)
      ensures found == if KeyTaken(rows, key) then Some(rows[HolderOf(rows, key)]) else None
    {
      var todo := rows.Keys;
      while todo != {}
        invariant todo <= rows.Keys
        invariant forall id :: id in rows && id !in todo ==> rows[id].key != key
        decreases todo
      {
        var id :| id in todo;
        if rows[id].key == key {
          return Some(rows[id]);
        }
        todo := todo - {id};
      }
      return None;
    }

    method Put(job: Job)
      modifies this
      ensures rows == old(rows)[job.jobId := job]
    {
      rows := rows[job.jobId := job];
    }

    method AddOutputs(jobId: string, tenant: string, caseId: string, outputs: Outputs)
      returns (reply: Result<Job, string>)
      modifies this
      ensures (rows, reply) == old(WithOutputs(rows, jobId, tenant, caseId, outputs))
    {
      if jobId !in rows || rows[jobId].tenant != tenant || rows[jobId].caseId != caseId {
        return Err("job not found");
      }
      var job := rows[jobId].(status := "succeeded", outputs := outputs);
      rows := rows[jobId := job];
      return Ok(job);
    }
  }

  class OpenRelikAdapter {
    const contract: Contract
    const store: JobStore
    /** Every request handed to the transport, in order. */
    var submissions: seq<Request>

    constructor (contract: Contract, store: JobStore)
      ensures this.contract == contract && this.store == store && submissions == []
    {
      this.contract, this.store, submissions := contract, store, [];
    }

    method SubmitJob(p: Principal, r: Request, reply: TransportReply) returns (result: Result<Job, string>)
      requires Unique(store.rows)
      modifies this, store
      ensures var s := old(Submit(contract, store.rows, p, r, reply));
              && store.rows == s.table && result == s.reply
              && submissions == old(submissions) + (if s.called then [r] else [])
    {
      var admitted := AdmitSubmit(contract, p, r);
      if admitted.Err? {
        return Err(admitted.error);
      }
      var created := store.Create(r, p.analyst, admitted.value);
      if created.Err? {
        return Err(created.error);
      }
      var job := created.value;
      if job.Bound() {
        return Ok(job);
      }
      submissions := submissions + [r];
      if reply.Silent? {
        return Err("transport");
      }
      if !reply.workflow.Names() {
        return Err("transport returned no workflow_id");
      }
      store.Put(Bind(job, reply));
      return Ok(Bind(job, reply));
    }

    method PollJob(p: Principal, jobId: string, caseId: string, report: StatusReply)
      returns (result: Result<Job, string>)
      requires Unique(store.rows)
      modifies store
      ensures (store.rows, result) == old(Poll(contract, store.rows, p, jobId, caseId, report))
    {
      var scoped := Scoped(contract, store.rows, p, jobId, caseId);
      if scoped.Err? || !scoped.value.Bound() || Terminal(scoped.value.status) {
        return scoped;
      }
      if report.NoReport? || !ReportableStatus(report.status) {
        return Err("ContractValidationError");
      }
      var polled := scoped.value.(status := report.status, outputs := report.outputs, error := report.error);
      store.Put(polled);
      return Ok(polled);
    }

    method RetryJob(p: Principal, jobId: string, caseId: string, reply: TransportReply)
      returns (result: Result<Job, string>)
      requires Unique(store.rows)
      modifies this, store
      ensures (store.rows, result) == old(Retry(contract, store.rows, p, jobId, caseId, reply))
      ensures var scoped := old(Scoped(contract, store.rows, p, jobId, caseId));
              submissions == old(submissions)
                + (if scoped.Ok? && Resendable(contract, scoped.value) then [scoped.value.request] else [])
    {
      var scoped := Scoped(contract, store.rows, p, jobId, caseId);
      if scoped.Err? {
        return scoped;
      }
      var job := scoped.value;
      if job.Bound() || Terminal(job.status) || job.attempts >= contract.maxAttempts {
        return Ok(job);
      }
      submissions := submissions + [job.request];
      if reply.Silent? || reply.workflow.Absent? {
        return Err("transport");
      }
      store.Put(Bind(job, reply));
      return Ok(Bind(job, reply));
    }

    method ApproveJob(p: Principal, jobId: string, caseId: string) returns (result: Result<Job, string>)
      requires Unique(store.rows)
      modifies store
      ensures (store.rows, result) == old(Approve(contract, store.rows, p, jobId, caseId))
    {
      var scoped := Scoped(contract, store.rows, p, jobId, caseId);
      if scoped.Ok? {
        store.Put(scoped.value.(review := "approved"));
        return Ok(scoped.value.(review := "approved"));
      }
      return scoped;
    }
  }

  // ----------------------------------------------------------------------- runs

  datatype Operation =
    | DoSubmit(principal: Principal, request: Request, reply: TransportReply)
    | DoPoll(principal: Principal, jobId: string, caseId: string, report: StatusReply)
    | DoRetry(principal: Principal, jobId: string, caseId: string, reply: TransportReply)
    | DoApprove(principal: Principal, jobId: string, caseId: string)

  ghost function Execute(c: Contract, t: Table, op: Operation): Table
  {
    match op
    case DoSubmit(p, r, reply) => Submit(c, t, p, r, reply).table
    case DoPoll(p, id, caseId, report) => Poll(c, t, p, id, caseId, report).0
    case DoRetry(p, id, caseId, reply) => Retry(c, t, p, id, caseId, reply).0
    case DoApprove(p, id, caseId) => Approve(c, t, p, id, caseId).0
  }

  ghost function Run(c: Contract, t: Table, ops: seq<Operation>): Table
  {
    if ops == [] then t else Execute(c, Run(c, t, ops[..|ops| - 1]), ops[|ops| - 1])
  }

  /** A retry whose answer names no workflow but reports the end of one: it is stored all the same. */
  predicate Undoes(c: Contract, t: Table, op: Operation)
  {
    && op.DoRetry?
    && var scoped := Scoped(c, t, op.principal, op.jobId, op.caseId);
       && scoped.Ok? && Resendable(c, scoped.value)
       && op.reply.Answer? && !op.reply.workflow.Absent? && !op.reply.workflow.Names() && Terminal(op.reply.status)
  }

  /** Every column that identifies the row is the one computed from its stored request, and a row
      not yet bound to a workflow has no result. */
  ghost predicate Consistent(c: Contract, id: string, job: Job)
  {
    && job.jobId == id == job.request.requestId
    && job.tenant == job.request.tenant && job.caseId == job.request.caseId
    && job.evidence == job.request.evidence && job.asset == job.request.asset
    && job.key == KeyFor(c, job.request)
    && (!job.Bound() ==> !Terminal(job.status) && job.outputs == [] && job.error == None)
  }

  ghost predicate TableInv(c: Contract, t: Table)
  {
    Unique(t) && forall id :: id in t ==> Consistent(c, id, t[id])
  }

  /** How a row may change: its workflow is written once and a terminal row keeps its result. */
  ghost predicate Evolves(a: Job, b: Job)
  {
    && a.jobId == b.jobId && a.tenant == b.tenant && a.caseId == b.caseId && a.analyst == b.analyst
    && a.key == b.key && a.request == b.request
    && (a.Bound() ==> b.workflow == a.workflow && b.task == a.task)
    && (Terminal(a.status) ==>
        b.status == a.status && b.outputs == a.outputs && b.error == a.error && b.attempts == a.attempts)
    && a.attempts <= b.attempts
  }

  /** What one operation may do to one row; None stands for a row that is not there. */
  ghost predicate RowStep(op: Operation, a: Option<Job>, b: Option<Job>)
  {
    match (a, b)
    case (None, None) => true
    case (Some(_), None) => false
    case (None, Some(y)) => y.tenant == op.principal.tenant && y.review == "unreviewed"
    case (Some(x), Some(y)) =>
      && Evolves(x, y)
      && (x.tenant != op.principal.tenant ==> y == x)
      && (y.review != x.review ==> op.DoApprove? && op.jobId == x.jobId && op.caseId == x.caseId)
  }

  function Row(t: Table, id: string): Option<Job> { if id in t then Some(t[id]) else None }

  ghost predicate RowsStep(t: Table, op: Operation, t': Table)
  {
    forall id :: RowStep(op, Row(t, id), Row(t', id))
  }

  /** Replacing one consistent row by an evolved consistent one. */
  lemma PutKeepsTable(c: Contract, t: Table, job: Job)
    requires TableInv(c, t) && job.jobId in t && Consistent(c, job.jobId, job) && job.key == t[job.jobId].key
    ensures TableInv(c, t[job.jobId := job])
  {
    var t' := t[job.jobId := job];
    assert forall id :: id in t' ==> id in t && t'[id].key == t[id].key && (id != job.jobId ==> t'[id] == t[id]);
  }

  lemma PutStepsRows(t: Table, op: Operation, job: Job)
    requires job.jobId in t && RowStep(op, Some(t[job.jobId]), Some(job))
    ensures RowsStep(t, op, t[job.jobId := job])
  {
  }

  lemma NewRowKeepsTable(c: Contract, t: Table, job: Job)
    requires TableInv(c, t) && job.jobId !in t && Consistent(c, job.jobId, job) && !KeyTaken(t, job.key)
    ensures TableInv(c, t[job.jobId := job])
  {
    var t' := t[job.jobId := job];
    assert forall id :: id in t ==> t'[id] == t[id] && t[id].key != job.key;
  }

  lemma NewJobIsConsistent(c: Contract, r: Request, analyst: string)
    requires r.key == KeyFor(c, r)
    ensures Consistent(c, r.requestId, NewJob(r, analyst, r.key))
  {
    hide KeyFor;
  }

  lemma InsertedKeeps(c: Contract, t: Table, op: Operation, r: Request)
    requires TableInv(c, t) && op.principal.tenant == r.tenant && r.key == KeyFor(c, r)
    ensures TableInv(c, Inserted(t, r, op.principal.analyst, r.key).0)
    ensures RowsStep(t, op, Inserted(t, r, op.principal.analyst, r.key).0)
  {
    var job := NewJob(r, op.principal.analyst, r.key);
    NewJobIsConsistent(c, r, op.principal.analyst);
    hide Consistent, KeyFor, Terminal, TableInv;
    SameRowsStep(t, op);
    if r.requestId !in t && !KeyTaken(t, r.key) {
      NewRowKeepsTable(c, t, job);
    }
  }

  /** The row `create` answers with is the stored one, for exactly this request. */
  lemma InsertedAnswers(c: Contract, t: Table, r: Request, analyst: string)
    requires Unique(t)
    ensures var (t1, created) := Inserted(t, r, analyst, r.key);
            created.Ok? ==> created.value.jobId in t1 && t1[created.value.jobId] == created.value
                            && created.value.request == r
    ensures var (t1, created) := Inserted(t, r, analyst, r.key);
            created.Ok? && TableInv(c, t) ==> created.value.tenant == r.tenant
  {
    if TableInv(c, t) && KeyTaken(t, r.key) {
      assert Consistent(c, HolderOf(t, r.key), t[HolderOf(t, r.key)]);
    }
  }

  lemma SubmitAnswersStoredRow(c: Contract, t: Table, p: Principal, r: Request, reply: TransportReply)
    requires Unique(t)
    ensures var s := Submit(c, t, p, r, reply);
            s.reply.Ok? ==> s.reply.value.jobId in s.table && s.table[s.reply.value.jobId] == s.reply.value
  {
    if AdmitSubmit(c, p, r).Ok? {
      InsertedAnswers(c, t, r, p.analyst);
    }
  }

  /** The row of a request that was just accepted: its columns are those of the request and of who sent it. */
  ghost predicate Fresh(row: Job, p: Principal, r: Request)
  {
    && row.jobId == r.requestId && row.request == r && row.key == r.key && row.analyst == p.analyst
    && row.tenant == r.tenant && row.caseId == r.caseId && row.evidence == r.evidence && row.asset == r.asset
    && row.review == "unreviewed" && row.error == None && row.outputs == []
  }

  /** The row holds what the transport answered. */
  ghost predicate Bears(row: Job, reply: TransportReply)
  {
    && reply.Answer? && row.status == reply.status && row.task == reply.task
    && row.workflow == (if reply.workflow.Id? then Some(reply.workflow.id) else None)
  }

  /** A request not seen before adds at most its own row, without outputs; an answer is a bound row. */
  lemma FirstSubmit(c: Contract, t: Table, p: Principal, r: Request, reply: TransportReply)
    requires r.requestId !in t && !KeyTaken(t, r.key)
    ensures var s := Submit(c, t, p, r, reply);
            && (s.table == t || (r.requestId in s.table && s.table == t[r.requestId := s.table[r.requestId]]
                                 && s.table[r.requestId].request == r && s.table[r.requestId].outputs == []))
            && (s.reply.Ok? ==> r.requestId in s.table && s.reply.value == s.table[r.requestId]
                                && s.reply.value.Bound())
            && (s.reply.Ok? <==> AdmitSubmit(c, p, r).Ok? && reply.Answer? && reply.workflow.Names())
            && (AdmitSubmit(c, p, r).Ok? ==> s.table != t && s.called)
            && (s.table != t ==> Fresh(s.table[r.requestId], p, r))
            && (s.reply.Ok? ==> Bears(s.reply.value, reply) && s.reply.value.attempts == 1)
            && (s.table != t && s.reply.Err? ==>
                  var row := s.table[r.requestId]; !row.Bound() && row.status == "queued" && row.attempts == 0)
  {
    if AdmitSubmit(c, p, r).Ok? {
      var job := NewJob(r, p.analyst, r.key);
      assert !job.Bound();
      assert t[r.requestId := job][r.requestId := Bind(job, if reply.Answer? then reply else Answer(Absent, None, ""))]
          == t[r.requestId := Bind(job, if reply.Answer? then reply else Answer(Absent, None, ""))];
    }
  }

  /** The same request again: a bound row is answered as it is and nothing is sent; an unbound one
      is sent again and may be bound. */
  lemma RepeatedSubmit(c: Contract, t: Table, p: Principal, r: Request, reply: TransportReply)
    requires Unique(t) && r.requestId in t && t[r.requestId].request == r && t[r.requestId].key == r.key
    ensures var s := Submit(c, t, p, r, reply);
            && (s.table == t || (reply.Answer? && s.table == t[r.requestId := Bind(t[r.requestId], reply)]))
            && (t[r.requestId].Bound() ==> s.table == t && !s.called)
            && (s.called <==> AdmitSubmit(c, p, r).Ok? && !t[r.requestId].Bound())
            && (s.table != t ==> Bears(s.table[r.requestId], reply)
                                 && s.table[r.requestId].attempts == t[r.requestId].attempts + 1)
            && (s.reply.Ok? ==> s.reply.value == s.table[r.requestId] && s.reply.value.Bound())
            && (s.reply.Ok? <==> AdmitSubmit(c, p, r).Ok?
                                 && (t[r.requestId].Bound() || (reply.Answer? && reply.workflow.Names())))
  {
    assert KeyTaken(t, r.key) && HolderOf(t, r.key) == r.requestId;
  }

  lemma RowsStepCompose(t: Table, op: Operation, t1: Table, t2: Table)
    requires op.DoSubmit? && RowsStep(t, op, t1) && RowsStep(t1, op, t2)
    ensures RowsStep(t, op, t2)
  {
    forall id ensures RowStep(op, Row(t, id), Row(t2, id)) {
      assert RowStep(op, Row(t, id), Row(t1, id)) && RowStep(op, Row(t1, id), Row(t2, id));
    }
  }

  /** Binding an unbound row of the principal's tenant. */
  lemma BindKeeps(c: Contract, t: Table, op: Operation, id: string, reply: TransportReply)
    requires TableInv(c, t) && id in t && !t[id].Bound() && t[id].tenant == op.principal.tenant
    requires reply.Answer? && (reply.workflow.Names() || !Terminal(reply.status))
    ensures TableInv(c, t[id := Bind(t[id], reply)]) && RowsStep(t, op, t[id := Bind(t[id], reply)])
  {
    assert Consistent(c, id, t[id]);
    PutKeeps(c, t, op, Bind(t[id], reply));
    hide *;
  }

  lemma SubmitKeeps(c: Contract, t: Table, op: Operation)
    requires TableInv(c, t) && op.DoSubmit?
    ensures TableInv(c, Execute(c, t, op)) && RowsStep(t, op, Execute(c, t, op))
  {
    hide KeyFor, ValidRequest, Consistent, Unique, RowStep, Terminal, NewJob;
    var s := Submit(c, t, op.principal, op.request, op.reply);
    if AdmitSubmit(c, op.principal, op.request).Ok? {
      InsertedKeeps(c, t, op, op.request);
      InsertedAnswers(c, t, op.request, op.principal.analyst);
      var (t1, created) := Inserted(t, op.request, op.principal.analyst, op.request.key);
      hide Inserted;
      if s.table != t1 {
        BindKeeps(c, t1, op, created.value.jobId, op.reply);
        RowsStepCompose(t, op, t1, s.table);
      }
    } else {
      SameRowsStep(t, op);
    }
  }

  lemma SameRowsStep(t: Table, op: Operation)
    ensures RowsStep(t, op, t)
  {
  }

  lemma PutKeeps(c: Contract, t: Table, op: Operation, job: Job)
    requires TableInv(c, t) && job.jobId in t && Consistent(c, job.jobId, job)
    requires RowStep(op, Some(t[job.jobId]), Some(job))
    ensures TableInv(c, t[job.jobId := job]) && RowsStep(t, op, t[job.jobId := job])
  {
    PutKeepsTable(c, t, job);
    PutStepsRows(t, op, job);
  }

  lemma PollKeeps(c: Contract, t: Table, op: Operation)
    requires TableInv(c, t) && op.DoPoll?
    ensures TableInv(c, Execute(c, t, op)) && RowsStep(t, op, Execute(c, t, op))
  {
    if Execute(c, t, op) != t {
      assert Consistent(c, op.jobId, t[op.jobId]);
      PutKeeps(c, t, op, Poll(c, t, op.principal, op.jobId, op.caseId, op.report).1.value);
    }
  }

  lemma RetryKeeps(c: Contract, t: Table, op: Operation)
    requires TableInv(c, t) && op.DoRetry? && !Undoes(c, t, op)
    ensures TableInv(c, Execute(c, t, op)) && RowsStep(t, op, Execute(c, t, op))
  {
    hide Terminal, Consistent, RowStep, Unique;
    if Execute(c, t, op) != t {
      BindKeeps(c, t, op, op.jobId, op.reply);
    } else {
      SameRowsStep(t, op);
    }
  }

  lemma ApproveKeeps(c: Contract, t: Table, op: Operation)
    requires TableInv(c, t) && op.DoApprove?
    ensures TableInv(c, Execute(c, t, op)) && RowsStep(t, op, Execute(c, t, op))
  {
    if Execute(c, t, op) != t {
      assert Consistent(c, op.jobId, t[op.jobId]);
      PutKeeps(c, t, op, t[op.jobId].(review := "approved"));
    }
  }

  lemma StepKeeps(c: Contract, t: Table, op: Operation)
    requires TableInv(c, t) && !Undoes(c, t, op)
    ensures TableInv(c, Execute(c, t, op)) && RowsStep(t, op, Execute(c, t, op))
  {
    match op
    case DoSubmit(_, _, _) => SubmitKeeps(c, t, op);
    case DoPoll(_, _, _, _) => PollKeeps(c, t, op);
    case DoRetry(_, _, _, _) => RetryKeeps(c, t, op);
    case DoApprove(_, _, _) => ApproveKeeps(c, t, op);
  }

  /** The one way to break the table: exactly a retry that undoes. */
  lemma StepKeepsExactly(c: Contract, t: Table, op: Operation)
    requires TableInv(c, t)
    ensures TableInv(c, Execute(c, t, op)) <==> !Undoes(c, t, op)
  {
    if Undoes(c, t, op) {
      assert !Consistent(c, op.jobId, Execute(c, t, op)[op.jobId]);
    } else {
      StepKeeps(c, t, op);
      hide *;
    }
  }

  /** No operation of the run is a retry that undoes. */
  ghost predicate NothingUndone(c: Contract, t: Table, ops: seq<Operation>)
  {
    forall i :: 0 <= i < |ops| ==> !Undoes(c, Run(c, t, ops[..i]), ops[i])
  }

  lemma NothingUndoneBefore(c: Contract, t: Table, ops: seq<Operation>)
    requires ops != [] && NothingUndone(c, t, ops)
    ensures NothingUndone(c, t, ops[..|ops| - 1]) && !Undoes(c, Run(c, t, ops[..|ops| - 1]), ops[|ops| - 1])
  {
    hide Undoes, Run;
    var init := ops[..|ops| - 1];
    assert forall i :: 0 <= i < |init| ==> init[..i] == ops[..i] && init[i] == ops[i];
  }

  /** Every run keeps every row: identified by its request, bound to at most one workflow, terminal
      results final; and its review state is moved only by an approval of that very job. */
  lemma {:induction false} RunsKeepRows(c: Contract, t: Table, ops: seq<Operation>, id: string)
    requires TableInv(c, t) && NothingUndone(c, t, ops)
    ensures TableInv(c, Run(c, t, ops))
    ensures id in t ==> id in Run(c, t, ops) && Evolves(t[id], Run(c, t, ops)[id])
    ensures id in t && (forall i :: 0 <= i < |ops| ==> ops[i].principal.tenant != t[id].tenant) ==>
            Run(c, t, ops)[id] == t[id]
    ensures id in t && (forall i :: 0 <= i < |ops| && ops[i].DoApprove? ==> ops[i].jobId != id) ==>
              Run(c, t, ops)[id].review == t[id].review
  {
    if ops != [] {
      hide TableInv, NothingUndone, Undoes, Execute;
      var init, op := ops[..|ops| - 1], ops[|ops| - 1];
      NothingUndoneBefore(c, t, ops);
      RunsKeepRows(c, t, init, id);
      assert forall i :: 0 <= i < |init| ==> init[i] == ops[i];
      StepKeeps(c, Run(c, t, init), op);
      assert RowStep(op, Row(Run(c, t, init), id), Row(Run(c, t, ops), id));
    }
  }

  /** The table is in order all along a run exactly when nothing is undone in it. */
  lemma {:induction false} RunsStayInOrderExactly(c: Contract, t: Table, ops: seq<Operation>)
    requires TableInv(c, t)
    ensures (forall i :: 0 <= i <= |ops| ==> TableInv(c, Run(c, t, ops[..i]))) <==> NothingUndone(c, t, ops)
  {
    hide TableInv, Undoes, Execute;
    if NothingUndone(c, t, ops) {
      forall i | 0 <= i <= |ops| ensures TableInv(c, Run(c, t, ops[..i])) {
        var part := ops[..i];
        assert forall j :: 0 <= j < i ==> part[..j] == ops[..j] && part[j] == ops[j];
        RunsKeepRows(c, t, part, "");
      }
    } else {
      var i :| 0 <= i < |ops| && Undoes(c, Run(c, t, ops[..i]), ops[i]);
      assert ops[..i + 1][..i] == ops[..i];
      if TableInv(c, Run(c, t, ops[..i])) {
        StepKeepsExactly(c, Run(c, t, ops[..i]), ops[i]);
        assert !TableInv(c, Run(c, t, ops[..i + 1]));
      }
    }
  }

  // ------------------------------------------------- what each operation comes to

  /** Who may submit what: a principal with names, a request the schema and the id pattern accept, of the
      principal's own tenant, under the key computed from its own components. */
  lemma AdmittedExactly(c: Contract, p: Principal, r: Request)
    ensures AdmitSubmit(c, p, r).Ok? <==>
              && !c.blank(p.tenant) && !c.blank(p.analyst) && r.tenant == p.tenant
              && c.schemaAccepts(r)
              && (forall id :: id in [r.tenant, r.caseId, r.asset, r.evidence, r.acquisition] ==>
                    IdempotencyKeys.SafeId(id))
              && r.key == "v1:" + c.digest(Join('|', [r.tenant, r.caseId, r.evidence, r.sha256, r.toolProfile]))
  {
    hide IdempotencyKeys.SafeId;
    var ids := [r.tenant, r.caseId, r.asset, r.evidence, r.acquisition];
    assert ids[0] in ids && ids[1] in ids && ids[2] in ids && ids[3] in ids && ids[4] in ids;
  }

  /** A submission that is not admitted neither stores nor sends anything. */
  lemma NotAdmittedChangesNothing(c: Contract, t: Table, p: Principal, r: Request, reply: TransportReply)
    requires AdmitSubmit(c, p, r).Err?
    ensures var s := Submit(c, t, p, r, reply);
            s.table == t && !s.called && s.reply.Err?
    ensures !c.blank(p.tenant) && !c.blank(p.analyst) && ValidRequest(c, r) && r.tenant != p.tenant ==>
              Submit(c, t, p, r, reply).reply.error == "PermissionError"
  {
    hide IdempotencyKeys.SafeId, KeyFor;
  }

  /** The requests whose key names one piece of work: two accepted requests have one key exactly when
      tenant, case, evidence, digest and workflow agree, unless the digest collides. */
  lemma KeyNamesTheWork(c: Contract, r: Request, s: Request)
    requires ValidRequest(c, r) && ValidRequest(c, s)
    requires IdempotencyKeys.SchemaSha(r.sha256) && IdempotencyKeys.SchemaSha(s.sha256)
    requires r.toolProfile != "" && s.toolProfile != ""
    requires IdempotencyKeys.NoCollision(c.digest, [r.tenant, r.caseId, r.evidence, r.sha256, r.toolProfile],
                                         [s.tenant, s.caseId, s.evidence, s.sha256, s.toolProfile])
    ensures KeyFor(c, r) == KeyFor(c, s) <==>
              && r.tenant == s.tenant && r.caseId == s.caseId && r.evidence == s.evidence
              && r.sha256 == s.sha256 && r.toolProfile == s.toolProfile
  {
    hide IdempotencyKeys.SafeId, IdempotencyKeys.SchemaSha, IdempotencyKeys.NoCollision, IdempotencyKeys.Key;
    IdempotencyKeys.OpenRelikKeyIsInjective(
      c.digest,
      IdempotencyKeys.OpenRelikJob(r.tenant, r.caseId, r.evidence, r.sha256, r.toolProfile),
      IdempotencyKeys.OpenRelikJob(s.tenant, s.caseId, s.evidence, s.sha256, s.toolProfile));
  }

  /** The row is there for this caller: of the principal's tenant, of the given case, to a principal with names. */
  ghost predicate Visible(c: Contract, t: Table, p: Principal, jobId: string, caseId: string)
  {
    && !c.blank(p.tenant) && !c.blank(p.analyst)
    && jobId in t && t[jobId].tenant == p.tenant && t[jobId].caseId == caseId
  }

  /** Inserting a row: a new id under a free key is inserted; a taken key answers its row for the same request and a
      conflict for any other; an id taken under another key is an integrity error. Only the first changes anything. */
  lemma InsertedExactly(t: Table, r: Request, analyst: string)
    requires Unique(t)
    ensures var (t', reply) := Inserted(t, r, analyst, r.key);
            && ((forall id :: id in t ==> t[id].key != r.key) && r.requestId !in t ==>
                  && t'.Keys == t.Keys + {r.requestId} && reply == Ok(t'[r.requestId])
                  && (forall id :: id in t ==> t'[id] == t[id])
                  && Fresh(t'[r.requestId], Principal(r.tenant, analyst), r)
                  && t'[r.requestId].attempts == 0 && t'[r.requestId].status == "queued"
                  && t'[r.requestId].workflow.None? && t'[r.requestId].task.None?)
            && ((forall id :: id in t ==> t[id].key != r.key) && r.requestId in t ==>
                  t' == t && reply == Err("IntegrityError"))
            && (forall id :: id in t && t[id].key == r.key ==>
                  t' == t && reply == if t[id].request == r then Ok(t[id]) else Err("IDEMPOTENCY_CONFLICT"))
  {
  }

  /** Poll, retry and approve of a row that is not there for the caller fail and change nothing; of one that
      is, they change no other row. */
  lemma OnlyVisibleRowsChange(c: Contract, t: Table, op: Operation)
    requires !op.DoSubmit?
    ensures !Visible(c, t, op.principal, op.jobId, op.caseId) ==> Execute(c, t, op) == t
    ensures forall id :: id in t && id != op.jobId ==> id in Execute(c, t, op) && Execute(c, t, op)[id] == t[id]
    ensures Execute(c, t, op).Keys == t.Keys
  {
  }

  /** The result columns of a row. */
  datatype Told = Told(status: string, outputs: Outputs, error: Option<string>)

  function ResultOf(job: Job): Told { Told(job.status, job.outputs, job.error) }

  /** The poll reaches the row: visible, bound, not terminal, and the report is admissible. */
  ghost predicate Reaches(c: Contract, t: Table, op: Operation, id: string)
  {
    && op.DoPoll? && op.jobId == id && Visible(c, t, op.principal, id, op.caseId)
    && t[id].workflow.Some? && t[id].workflow.value != "" && t[id].status !in ["succeeded", "failed", "quarantined"]
    && op.report.Report? && op.report.status in ["queued", "running", "succeeded", "failed", "quarantined"]
  }

  /** A poll that reaches the row leaves exactly the status, outputs and error of the report and answers with
      the row; any other poll changes nothing. */
  lemma PollExactly(c: Contract, t: Table, op: Operation)
    requires op.DoPoll?
    ensures var (t', reply) := Poll(c, t, op.principal, op.jobId, op.caseId, op.report);
            if Reaches(c, t, op, op.jobId) then
              && t'.Keys == t.Keys && reply == Ok(t'[op.jobId])
              && t'[op.jobId].status == op.report.status && t'[op.jobId].outputs == op.report.outputs
              && t'[op.jobId].error == op.report.error
              && t'[op.jobId].(status := t[op.jobId].status, outputs := t[op.jobId].outputs, error := t[op.jobId].error)
                 == t[op.jobId]
            else t' == t && (reply.Ok? ==>
                             Visible(c, t, op.principal, op.jobId, op.caseId) && reply.value == t[op.jobId])
  {
    if Visible(c, t, op.principal, op.jobId, op.caseId) {
      TerminalExactly(t[op.jobId].status);
      if op.report.Report? {
        ReportableExactly(op.report.status);
      }
    }
    hide Terminal, ReportableStatus;
  }

  lemma TerminalExactly(s: string)
    ensures Terminal(s) <==> s in ["succeeded", "failed", "quarantined"]
  {
  }

  lemma ReportableExactly(s: string)
    ensures ReportableStatus(s) <==> s in ["queued", "running", "succeeded", "failed", "quarantined"]
  {
  }

  /** A retry that sends the request stores what the transport answered, and one attempt more; any other retry
      changes nothing. */
  lemma RetryExactly(c: Contract, t: Table, op: Operation)
    requires op.DoRetry?
    ensures var (t', reply) := Retry(c, t, op.principal, op.jobId, op.caseId, op.reply);
            var sent := Visible(c, t, op.principal, op.jobId, op.caseId) && Resendable(c, t[op.jobId]);
            if sent && op.reply.Answer? && !op.reply.workflow.Absent? then
              && t'.Keys == t.Keys && reply == Ok(t'[op.jobId]) && Bears(t'[op.jobId], op.reply)
              && t'[op.jobId].attempts == t[op.jobId].attempts + 1
              && t'[op.jobId].(workflow := t[op.jobId].workflow, task := t[op.jobId].task, status := t[op.jobId].status,
                               attempts := t[op.jobId].attempts) == t[op.jobId]
            else t' == t && (reply.Ok? ==> !sent && reply == Ok(t[op.jobId]))
  {
    hide Resendable;
  }

  lemma ResendableExactly(c: Contract, job: Job)
    ensures Resendable(c, job) <==>
              && (job.workflow.None? || job.workflow.value == "")
              && job.status !in ["succeeded", "failed", "quarantined"] && job.attempts < c.maxAttempts
  {
    TerminalExactly(job.status);
    hide Terminal;
  }

  /** An approval marks a visible row as approved and changes nothing else. */
  lemma ApproveExactly(c: Contract, t: Table, op: Operation)
    requires op.DoApprove?
    ensures var (t', reply) := Approve(c, t, op.principal, op.jobId, op.caseId);
            if Visible(c, t, op.principal, op.jobId, op.caseId) then
              && t'.Keys == t.Keys && reply == Ok(t'[op.jobId]) && t'[op.jobId].review == "approved"
              && t'[op.jobId].(review := t[op.jobId].review) == t[op.jobId]
            else t' == t && reply.Err?
  {
  }

  /** Storing outputs marks a row of the right tenant and case as succeeded and changes nothing else. */
  lemma OutputsExactly(t: Table, jobId: string, tenant: string, caseId: string, outputs: Outputs)
    ensures var (t', reply) := WithOutputs(t, jobId, tenant, caseId, outputs);
            if jobId in t && t[jobId].tenant == tenant && t[jobId].caseId == caseId then
              && t'.Keys == t.Keys && reply == Ok(t'[jobId])
              && (forall id :: id in t && id != jobId ==> t'[id] == t[id])
              && t'[jobId].outputs == outputs && t'[jobId].status == "succeeded"
              && t'[jobId].(outputs := t[jobId].outputs, status := t[jobId].status) == t[jobId]
            else t' == t && reply.Err?
  {
  }

  /** What a row was last told: by the last report that reached it, or by its binding if none did since. */
  ghost function LastTold(c: Contract, t: Table, ops: seq<Operation>, id: string): Told
  {
    if ops == [] then (if id in t then ResultOf(t[id]) else Told("", [], None))
    else
      var init, op := ops[..|ops| - 1], ops[|ops| - 1];
      var before, after := Run(c, t, init), Run(c, t, ops);
      if Reaches(c, before, op, id) then Told(op.report.status, op.report.outputs, op.report.error)
      else if BoundAt(after, id) && !BoundAt(before, id) && (op.DoSubmit? || op.DoRetry?) && op.reply.Answer? then
        Told(op.reply.status, [], None)
      else LastTold(c, t, init, id)
  }

  ghost predicate BoundAt(t: Table, id: string) { id in t && t[id].Bound() }

  /** One operation tells a bound row something only by a report that reaches it or by binding it. */
  lemma StepTells(c: Contract, t: Table, op: Operation, id: string)
    requires TableInv(c, t) && BoundAt(Execute(c, t, op), id)
    ensures var after := ResultOf(Execute(c, t, op)[id]);
            if Reaches(c, t, op, id) then after == Told(op.report.status, op.report.outputs, op.report.error)
            else if !BoundAt(t, id) then
              (op.DoSubmit? || op.DoRetry?) && op.reply.Answer? && after == Told(op.reply.status, [], None)
            else after == ResultOf(t[id])
  {
    hide TableInv;
    if op.DoPoll? {
      PollExactly(c, t, op);
      OnlyVisibleRowsChange(c, t, op);
      hide Poll, Reaches, Visible;
    } else if op.DoApprove? {
      ApproveExactly(c, t, op);
      OnlyVisibleRowsChange(c, t, op);
      hide Approve, Visible;
    } else if op.DoRetry? {
      RetryTells(c, t, op, id);
    } else {
      SubmitTells(c, t, op, id);
    }
  }

  lemma RetryTells(c: Contract, t: Table, op: Operation, id: string)
    requires TableInv(c, t) && op.DoRetry? && BoundAt(Execute(c, t, op), id)
    ensures var after := ResultOf(Execute(c, t, op)[id]);
            if BoundAt(t, id) then after == ResultOf(t[id])
            else op.reply.Answer? && after == Told(op.reply.status, [], None)
  {
    assert op.jobId in t ==> Consistent(c, op.jobId, t[op.jobId]);
    hide Terminal, TableInv;
  }

  lemma InsertedTells(t: Table, r: Request, analyst: string)
    ensures var t1 := Inserted(t, r, analyst, r.key).0;
            && (forall id :: id in t ==> id in t1 && t1[id] == t[id])
            && (forall id :: id in t1 && id !in t ==> !t1[id].Bound())
  {
  }

  lemma BindTells(c: Contract, t: Table, id: string, reply: TransportReply)
    requires TableInv(c, t) && id in t && !t[id].Bound() && reply.Answer?
    ensures ResultOf(Bind(t[id], reply)) == Told(reply.status, [], None) && t[id].jobId == id
  {
    assert Consistent(c, id, t[id]);
    hide Terminal;
  }

  lemma SubmitTells(c: Contract, t: Table, op: Operation, id: string)
    requires TableInv(c, t) && op.DoSubmit? && BoundAt(Execute(c, t, op), id)
    ensures var after := ResultOf(Execute(c, t, op)[id]);
            if BoundAt(t, id) then after == ResultOf(t[id])
            else op.reply.Answer? && after == Told(op.reply.status, [], None)
  {
    hide TableInv, KeyFor, ValidRequest, Unique, Terminal, Inserted, Bind;
    var r := op.request;
    var s := Submit(c, t, op.principal, r, op.reply);
    if AdmitSubmit(c, op.principal, r).Ok? {
      InsertedTells(t, r, op.principal.analyst);
      InsertedInOrder(c, t, op);
      var (t1, created) := Inserted(t, r, op.principal.analyst, r.key);
      if s.table != t1 {
        BindTells(c, t1, created.value.jobId, op.reply);
      }
    }
  }

  lemma InsertedInOrder(c: Contract, t: Table, op: Operation)
    requires TableInv(c, t) && op.DoSubmit? && AdmitSubmit(c, op.principal, op.request).Ok?
    ensures var (t1, created) := Inserted(t, op.request, op.principal.analyst, op.request.key);
            && TableInv(c, t1)
            && (created.Ok? ==> created.value.jobId in t1 && t1[created.value.jobId] == created.value)
  {
    InsertedKeeps(c, t, op, op.request);
    InsertedAnswers(c, t, op.request, op.principal.analyst);
    hide Inserted, Consistent, KeyFor, ValidRequest, RowsStep;
  }

  /** In every run in order, status, outputs and error of a bound row are what it was last told. */
  lemma {:induction false} RowsHoldWhatTheyWereTold(c: Contract, t: Table, ops: seq<Operation>, id: string)
    requires TableInv(c, t) && NothingUndone(c, t, ops) && BoundAt(Run(c, t, ops), id)
    ensures ResultOf(Run(c, t, ops)[id]) == LastTold(c, t, ops, id)
  {
    hide TableInv, NothingUndone, Execute, Reaches;
    if ops != [] {
      var init := ops[..|ops| - 1];
      NothingUndoneBefore(c, t, ops);
      RunsKeepRows(c, t, init, id);
      StepTells(c, Run(c, t, init), ops[|init|], id);
      if BoundAt(Run(c, t, init), id) {
        RowsHoldWhatTheyWereTold(c, t, init, id);
      }
    }
  }

  /** A changed request under an existing key is rejected and nothing is stored or sent. */
  lemma ChangedRequestIsRejected(c: Contract, t: Table, p: Principal, r: Request, reply: TransportReply, id: string)
    requires TableInv(c, t) && id in t && t[id].key == KeyFor(c, r) && t[id].request != r
    ensures var s := Submit(c, t, p, r, reply); s.table == t && s.reply.Err? && !s.called
  {
    assert KeyTaken(t, KeyFor(c, r));
    assert HolderOf(t, KeyFor(c, r)) == id;
  }

  /** What such a retry leads to, in any table and for any unbound row below its attempts: the row has a
      terminal status, and submitting its own request again gives it any workflow and any status. */
  lemma EmptyWorkflowIdUndoesTerminalStatus(c: Contract, t: Table, retry: Operation, p: Principal,
                                            again: TransportReply)
    requires TableInv(c, t) && Undoes(c, t, retry)
    requires AdmitSubmit(c, p, t[retry.jobId].request).Ok? && again.Answer? && again.workflow.Names()
    ensures var id := retry.jobId;
            var t1 := Execute(c, t, retry);
            var t2 := Execute(c, t1, DoSubmit(p, t[id].request, again));
            && id in t1 && Terminal(t1[id].status) && t1[id].status == retry.reply.status
            && id in t2 && t2[id].status == again.status && t2[id].workflow == Some(again.workflow.id)
  {
    var id := retry.jobId;
    var t1 := Execute(c, t, retry);
    var r := t[id].request;
    assert Consistent(c, id, t[id]);
    assert forall i :: i in t1 ==> i in t && t1[i].key == t[i].key;
    assert KeyTaken(t1, r.key) by {
      assert t1[id].key == r.key;
    }
    assert HolderOf(t1, r.key) == id;
    hide Terminal, Consistent, KeyFor, ValidRequest;
  }
}
