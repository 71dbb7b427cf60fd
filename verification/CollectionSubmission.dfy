/**
 The resumable submission of a collection: one job row, one evidence object, and a call that may
 die at any boundary between its steps and be repeated.
 */
module CollectionSubmission {
  import opened Text
  import Jobs = OpenRelikJobs
  import Store = EvidenceStorage
  import Runs = EvidenceRuns

  datatype Config = Config(contract: Jobs.Contract, sha: Store.Sha, scope: Store.Scope, withStore: bool, maxUpload: nat)

  /** The arguments of `submit_collection`; a source of None is not a regular file. */
  datatype Call = Call(principal: Option<Jobs.Principal>, tenant: string, caseId: string, asset: string,
                       evidence: string, expected: Option<string>, workflow: string,
                       source: Option<Store.Bytes>)

  /** What the surroundings contribute to one call. The call dies before the first step whose number
      exceeds `reach`: 1 staging, 2 promotion, 3 collection, 4 outputs, 5 attempt count, 6 return; and
      inside staging or promotion when that needs more writes than `stageWrites` or `promoteWrites`. */
  datatype Attempt = Attempt(hashInTime: bool, inTime: bool, archiveValid: bool, reply: Jobs.TransportReply,
                             reach: nat, found: Option<Store.SlotMeta>, quarantineId: string, stageWrites: nat,
                             promoteWrites: nat, now: int, collected: Result<Jobs.Outputs, string>,
                             collectedInTime: bool)

  datatype World = World(jobs: Jobs.Table, tree: Store.Tree, log: seq<Jobs.Request>)

  datatype Answer = Answer(job: Jobs.Job, outputs: Jobs.Outputs)

  function Who(call: Call): Jobs.Principal
  {
    if call.principal.Some? then call.principal.value else Jobs.Principal(call.tenant, "local-analyst")
  }

  /** `key[3:19]` */
  function Cut(key: string): string
  {
    if |key| <= 3 then "" else if |key| <= 19 then key[3..] else key[3..19]
  }

  /** `_request`: only the named fields vary from call to call. */
  function RequestOf(cfg: Config, call: Call, digest: string): Jobs.Request
  {
    var unkeyed := Jobs.Request("", call.tenant, call.caseId, call.asset, call.evidence, digest, "", call.workflow, "",
                                "");
    var key := Jobs.KeyFor(cfg.contract, unkeyed);
    unkeyed.(requestId := "req-" + Cut(key), acquisition := "acq-" + Cut(key), key := key)
  }

  function Precheck(cfg: Config, call: Call, a: Attempt): Option<string>
  {
    if call.source.None? then Some("source must be a regular non-symlink collection archive")
    else if |call.source.value| > cfg.maxUpload then Some("UPLOAD_LIMIT_EXCEEDED")
    else if !a.hashInTime then Some("TIMEOUT")
    else if call.expected.Some? && cfg.sha(call.source.value) != call.expected.value then Some("CHECKSUM_MISMATCH")
    else if !a.inTime then Some("TIMEOUT")
    else if !a.archiveValid then Some("COLLECTION_INVALID")
    else if cfg.withStore && (call.principal.None? || call.principal.value.tenant != call.tenant) then
      Some("TENANT_SCOPE_MISMATCH")
    else None
  }

  const DIED := "interrupted"

  /** `_quarantine_for_retry`: reuse a staged copy, or stage a new one. */
  function Stage(cfg: Config, source: Store.Bytes, tree: Store.Tree, a: Attempt):
    (Store.Tree, Result<Store.SlotMeta, string>)
  {
    if a.found.Some? then (tree, Ok(a.found.value))
    else
      var p := Store.PlanIngest(cfg.sha, tree, cfg.scope, a.quarantineId, Some(source), a.now);
      if p.reply.Err? then (tree, Err(p.reply.error))
      else if a.stageWrites < |p.writes| then (Store.After(tree, p.writes, a.stageWrites), Err(DIED))
      else (Store.Done(tree, p), Ok(p.reply.value.meta))
  }

  /** Staging and promotion. */
  function Secure(cfg: Config, call: Call, tree: Store.Tree, a: Attempt): (Store.Tree, Result<(), string>)
    requires call.source.Some?
  {
    if a.reach < 1 then (tree, Err(DIED))
    else
      var (staged, meta) := Stage(cfg, call.source.value, tree, a);
      if meta.Err? then (staged, Err(meta.error))
      else if a.reach < 2 then (staged, Err(DIED))
      else Promoted(cfg, call, staged, meta.value.quarantineId, a)
  }

  function Promoted(cfg: Config, call: Call, tree: Store.Tree, quarantineId: string, a: Attempt):
    (Store.Tree, Result<(), string>)
    requires call.source.Some?
  {
    var p := Promotion(cfg, call, tree, quarantineId, a.now);
    if p.reply.Err? then (tree, Err(p.reply.error))
    else if a.promoteWrites < |p.writes| then (Store.After(tree, p.writes, a.promoteWrites), Err(DIED))
    else (Store.Done(tree, p), Ok(()))
  }

  function Promotion(cfg: Config, call: Call, tree: Store.Tree, quarantineId: string, now: int): Store.Plan
    requires call.source.Some?
  {
    Store.PlanPromote(cfg.sha, tree, cfg.scope, call.caseId, call.evidence, quarantineId, cfg.sha(call.source.value),
                      None, now)
  }

  /** Collection, outputs and attempt count. */
  function Finish(call: Call, w: World, jobId: string, a: Attempt): (World, Result<Answer, string>)
  {
    if a.reach < 3 then (w, Err(DIED))
    else if a.collected.Err? then (w, Err(a.collected.error))
    else if !a.collectedInTime then (w, Err("TIMEOUT"))
    else if a.reach < 4 then (w, Err(DIED))
    else
      var (jobs, stored) := Jobs.WithOutputs(w.jobs, jobId, call.tenant, call.caseId, a.collected.value);
      if stored.Err? then (w, Err(stored.error))
      else if a.reach < 5 then (w.(jobs := jobs), Err(DIED))
      else
        var job := stored.value.(attempts := stored.value.attempts + 1);
        var done := w.(jobs := jobs[jobId := job]);
        if a.reach < 6 then (done, Err(DIED)) else (done, Ok(Answer(job, a.collected.value)))
  }

  function Resume(cfg: Config, call: Call, w: World, jobId: string, a: Attempt): (World, Result<Answer, string>)
    requires call.source.Some?
  {
    if !cfg.withStore then Finish(call, w, jobId, a)
    else
      var (tree, secured) := Secure(cfg, call, w.tree, a);
      if secured.Err? then (w.(tree := tree), Err(secured.error)) else Finish(call, w.(tree := tree), jobId, a)
  }

  predicate Reusable(job: Jobs.Job) { job.status == "succeeded" && job.outputs != [] }

  ghost function Attempted(cfg: Config, call: Call, w: World, a: Attempt): (World, Result<Answer, string>)
  {
    match Precheck(cfg, call, a)
    case Some(code) => (w, Err(code))
    case None =>
      var request := RequestOf(cfg, call, cfg.sha(call.source.value));
      var s := Jobs.Submit(cfg.contract, w.jobs, Who(call), request, a.reply);
      var w1 := World(s.table, w.tree, w.log + (if s.called then [request] else []));
      match s.reply
      case Err(code) => (w1, Err(code))
      case Ok(job) => if Reusable(job) then (w1, Ok(Answer(job, job.outputs))) else Resume(cfg, call, w1, job.jobId, a)
  }

  /** What a call must meet before anything is stored or sent. */
  predicate Acceptable(cfg: Config, call: Call, a: Attempt)
  {
    && call.source.Some? && |call.source.value| <= cfg.maxUpload
    && (call.expected.None? || call.expected == Some(cfg.sha(call.source.value)))
    && a.hashInTime && a.inTime && a.archiveValid
    && (cfg.withStore ==> call.principal.Some? && call.principal.value.tenant == call.tenant)
  }

  /** A call that is answered had a source within the upload limit with the declared digest, in time, that
      is a valid archive; and with a store, a principal of the tenant it is for. */
  lemma AnsweredMeansChecked(cfg: Config, call: Call, w: World, a: Attempt)
    requires Attempted(cfg, call, w, a).1.Ok?
    ensures call.source.Some? && |call.source.value| <= cfg.maxUpload
    ensures call.expected.Some? ==> call.expected.value == cfg.sha(call.source.value)
    ensures a.hashInTime && a.inTime && a.archiveValid
    ensures cfg.withStore ==> call.principal.Some? && call.principal.value.tenant == call.tenant
  {
  }

  /** A call that fails a check changes nothing in any store and sends nothing; it says which check was
      the first to fail. */
  lemma RefusedCallChangesNothing(cfg: Config, call: Call, w: World, a: Attempt)
    requires !Acceptable(cfg, call, a)
    ensures Attempted(cfg, call, w, a).0 == w && Attempted(cfg, call, w, a).1.Err?
    ensures var code := Attempted(cfg, call, w, a).1.error;
            if call.source.None? then code == "source must be a regular non-symlink collection archive"
            else
              var large := |call.source.value| > cfg.maxUpload;
              var mismatch := call.expected.Some? && call.expected.value != cfg.sha(call.source.value);
              && (code == "UPLOAD_LIMIT_EXCEEDED" <==> large)
              && (code == "TIMEOUT" <==> !large && (!a.hashInTime || (!mismatch && !a.inTime)))
              && (code == "CHECKSUM_MISMATCH" <==> !large && a.hashInTime && mismatch)
              && (code == "COLLECTION_INVALID" <==>
                    !large && a.hashInTime && !mismatch && a.inTime && !a.archiveValid)
              && (code == "TENANT_SCOPE_MISMATCH" <==>
                    !large && a.hashInTime && !mismatch && a.inTime && a.archiveValid)
  {
    CodesDiffer();
  }

  lemma CodesDiffer()
    ensures |"UPLOAD_LIMIT_EXCEEDED"| == 21 && |"TIMEOUT"| == 7 && |"CHECKSUM_MISMATCH"| == 17
    ensures |"COLLECTION_INVALID"| == 18 && |"TENANT_SCOPE_MISMATCH"| == 21
    ensures "UPLOAD_LIMIT_EXCEEDED"[0] != "TENANT_SCOPE_MISMATCH"[0]
  {
  }

  /** An acceptable call is submitted. */
  lemma AcceptableCallIsSubmitted(cfg: Config, call: Call, a: Attempt)
    ensures Precheck(cfg, call, a).None? <==> Acceptable(cfg, call, a)
  {
  }

  /** The request carries the arguments of the call, and under its key no others: the key is the digest of
      tenant, case, evidence, source digest and workflow. */
  lemma RequestOfTheCall(cfg: Config, call: Call, digest: string)
    ensures var r := RequestOf(cfg, call, digest);
            && r.tenant == call.tenant && r.caseId == call.caseId && r.asset == call.asset
            && r.evidence == call.evidence && r.sha256 == digest && r.toolProfile == call.workflow
            && r.key == "v1:" + cfg.contract.digest(Join('|',
                                                         [call.tenant, call.caseId, call.evidence, digest,
                                                          call.workflow]))
            && (|r.key| >= 19 ==> r.requestId == "req-" + r.key[3..19] && r.acquisition == "acq-" + r.key[3..19])
  {
  }

  lemma SourceChecked(cfg: Config, call: Call, a: Attempt)
    ensures Precheck(cfg, call, a).None? ==> call.source.Some?
    ensures forall found :: Precheck(cfg, call, a.(found := found)) == Precheck(cfg, call, a)
  {
  }

  /** A call without a principal is made for its own tenant by the local analyst. */
  lemma CallerExactly(call: Call)
    ensures call.principal.Some? ==> Who(call) == call.principal.value
    ensures call.principal.None? ==> Who(call).tenant == call.tenant && Who(call).analyst == "local-analyst"
  {
  }

  lemma PromotedIgnoresSearch(cfg: Config, call: Call, tree: Store.Tree, quarantineId: string, a: Attempt,
                              found: Option<Store.SlotMeta>)
    requires call.source.Some?
    ensures Promoted(cfg, call, tree, quarantineId, a.(found := found)) == Promoted(cfg, call, tree, quarantineId, a)
  {
  }

  lemma StagingWrites(cfg: Config, tree: Store.Tree, quarantineId: string, source: Store.Bytes, now: int)
    ensures var p := Store.PlanIngest(cfg.sha, tree, cfg.scope, quarantineId, Some(source), now);
            |p.writes| == (if p.reply.Ok? then 3 else 0) && (p.reply.Ok? ==> p.reply.value.Staged?)
    ensures Store.After(tree, [], 0) == tree
  {
  }

  /** A promotion writes exactly when it publishes a new object. */
  lemma PromotionWrites(cfg: Config, call: Call, tree: Store.Tree, quarantineId: string, now: int)
    requires call.source.Some?
    ensures var p := Promotion(cfg, call, tree, quarantineId, now);
            var held := Store.EvidenceKey(cfg.scope.tenant, call.caseId, call.evidence) in tree.manifests;
            |p.writes| == if p.reply.Ok? && !held then 5 else 0
    ensures Store.After(tree, [], 0) == tree
  {
  }

  // ------------------------------------------------------------- the fast path

  class FastPath {
    const openrelik: Jobs.OpenRelikAdapter
    const evidence: Store.EvidenceStore
    const withStore: bool
    const maxUpload: nat

    constructor (openrelik: Jobs.OpenRelikAdapter, evidence: Store.EvidenceStore, withStore: bool, maxUpload: nat)
      ensures this.openrelik == openrelik && this.evidence == evidence
      ensures this.withStore == withStore && this.maxUpload == maxUpload
    {
      this.openrelik, this.evidence, this.withStore, this.maxUpload := openrelik, evidence, withStore, maxUpload;
    }

    function Settings(): Config
    {
      Config(openrelik.contract, evidence.sha, evidence.scope, withStore, maxUpload)
    }

    function Now(): World
      reads openrelik, openrelik.store, evidence.root
    {
      World(openrelik.store.rows, evidence.root.Contents(), openrelik.submissions)
    }

    /** `found` is the answer of the quarantine search, or an answer it may give if the call does
        not get that far. */
    method SubmitCollection(call: Call, a: Attempt)
      returns (r: Result<Answer, string>, ghost found: Option<Store.SlotMeta>)
      requires Jobs.Unique(openrelik.store.rows)
      modifies openrelik, openrelik.store, evidence.root
      ensures call.source.Some? ==>
              Store.Finds(old(evidence.root.Contents()), evidence.scope.tenant, evidence.sha(call.source.value), found)
      ensures (Now(), r) == old(Attempted(Settings(), call, Now(), a.(found := found)))
    {
      hide Precheck, Resume, Store.Finds;
      SourceChecked(Settings(), call, a);
      found := if call.source.None? then None
               else Store.AnyFind(evidence.root.Contents(), evidence.scope.tenant, evidence.sha(call.source.value));
      var failed := CheckCall(call, a);
      if failed.Some? {
        return Err(failed.value), found;
      }
      var request := RequestOf(Settings(), call, evidence.sha(call.source.value));
      Jobs.SubmitAnswersStoredRow(openrelik.contract, openrelik.store.rows, Who(call), request, a.reply);
      var submitted := openrelik.SubmitJob(Who(call), request, a.reply);
      if submitted.Err? {
        return Err(submitted.error), found;
      }
      if Reusable(submitted.value) {
        return Ok(Answer(submitted.value, submitted.value.outputs)), found;
      }
      r, found := ResumeJob(call, submitted.value.jobId, a);
    }

    /** The checks before anything is submitted, in the order of the source. */
    method CheckCall(call: Call, a: Attempt) returns (code: Option<string>)
      ensures code == Precheck(Settings(), call, a)
    {
      if call.source.None? {
        return Some("source must be a regular non-symlink collection archive");
      }
      if |call.source.value| > maxUpload {
        return Some("UPLOAD_LIMIT_EXCEEDED");
      }
      if !a.hashInTime {
        return Some("TIMEOUT");
      }
      if call.expected.Some? && evidence.sha(call.source.value) != call.expected.value {
        return Some("CHECKSUM_MISMATCH");
      }
      if !a.inTime {
        return Some("TIMEOUT");
      }
      if !a.archiveValid {
        return Some("COLLECTION_INVALID");
      }
      if withStore && (call.principal.None? || call.principal.value.tenant != call.tenant) {
        return Some("TENANT_SCOPE_MISMATCH");
      }
      return None;
    }

    method ResumeJob(call: Call, jobId: string, a: Attempt)
      returns (r: Result<Answer, string>, ghost found: Option<Store.SlotMeta>)
      requires call.source.Some?
      requires jobId in openrelik.store.rows ==> openrelik.store.rows[jobId].jobId == jobId
      modifies openrelik.store, evidence.root
      ensures Store.Finds(old(evidence.root.Contents()), evidence.scope.tenant, evidence.sha(call.source.value), found)
      ensures (Now(), r) == old(Resume(Settings(), call, Now(), jobId, a.(found := found)))
    {
      hide Secure, Store.Finds, Jobs.Unique, Jobs.WithOutputs;
      found := Store.AnyFind(evidence.root.Contents(), evidence.scope.tenant, evidence.sha(call.source.value));
      if withStore {
        var secured;
        secured, found := SecureEvidence(call, a);
        if secured.Err? {
          return Err(secured.error), found;
        }
      }
      r := RecordOutputs(call, jobId, a);
    }

    /** Stages the source unless a staged copy is found, then promotes it. */
    method SecureEvidence(call: Call, a: Attempt) returns (r: Result<(), string>, ghost found: Option<Store.SlotMeta>)
      requires call.source.Some?
      modifies evidence.root
      ensures Store.Finds(old(evidence.root.Contents()), evidence.scope.tenant, evidence.sha(call.source.value), found)
      ensures (evidence.root.Contents(), r)
              == old(Secure(Settings(), call, evidence.root.Contents(), a.(found := found)))
    {
      hide Stage, Promoted, Store.Finds;
      found := Store.AnyFind(evidence.root.Contents(), evidence.scope.tenant, evidence.sha(call.source.value));
      if a.reach < 1 {
        return Err(DIED), found;
      }
      var staged;
      staged, found := QuarantineForRetry(call.source.value, a);
      if staged.Err? {
        return Err(staged.error), found;
      }
      if a.reach < 2 {
        return Err(DIED), found;
      }
      PromotedIgnoresSearch(Settings(), call, evidence.root.Contents(), staged.value.quarantineId, a, found);
      r := PromoteStaged(call, staged.value.quarantineId, a);
    }

    method QuarantineForRetry(source: Store.Bytes, a: Attempt)
      returns (r: Result<Store.SlotMeta, string>, ghost found: Option<Store.SlotMeta>)
      modifies evidence.root
      ensures Store.Finds(old(evidence.root.Contents()), evidence.scope.tenant, evidence.sha(source), found)
      ensures (evidence.root.Contents(), r)
              == old(Stage(Settings(), source, evidence.root.Contents(), a.(found := found)))
    {
      hide Store.Finds, Store.PlanIngest, Store.After;
      var staged := evidence.FindQuarantineBySha(evidence.sha(source));
      found := staged;
      if staged.Some? {
        return Ok(staged.value), found;
      }
      StagingWrites(Settings(), evidence.root.Contents(), a.quarantineId, source, a.now);
      if a.stageWrites < 3 {
        var torn := evidence.IngestTorn(a.quarantineId, Some(source), a.now, a.stageWrites);
        return Err(if torn.Err? then torn.error else DIED), found;
      }
      var ingested := evidence.IngestToQuarantine(a.quarantineId, Some(source), a.now);
      if ingested.Err? {
        return Err(ingested.error), found;
      }
      return Ok(ingested.value.meta), found;
    }

    method PromoteStaged(call: Call, quarantineId: string, a: Attempt) returns (r: Result<(), string>)
      requires call.source.Some?
      modifies evidence.root
      ensures (evidence.root.Contents(), r)
              == old(Promoted(Settings(), call, evidence.root.Contents(), quarantineId, a))
    {
      hide Store.PlanPromote, Store.After;
      var digest := evidence.sha(call.source.value);
      var held := Store.EvidenceKey(evidence.scope.tenant, call.caseId, call.evidence) in evidence.root.manifests;
      PromotionWrites(Settings(), call, evidence.root.Contents(), quarantineId, a.now);
      if a.promoteWrites < 5 && !held {
        var torn := evidence.PromoteTorn(call.caseId, call.evidence, quarantineId, digest, None, a.now,
                                         a.promoteWrites);
        return Err(if torn.Err? then torn.error else DIED);
      }
      var promoted := evidence.PromoteToEvidence(call.caseId, call.evidence, quarantineId, digest, None, a.now);
      r := if promoted.Err? then Err(promoted.error) else Ok(());
    }

    method RecordOutputs(call: Call, jobId: string, a: Attempt) returns (r: Result<Answer, string>)
      requires jobId in openrelik.store.rows ==> openrelik.store.rows[jobId].jobId == jobId
      modifies openrelik.store
      ensures (Now(), r) == old(Finish(call, Now(), jobId, a))
    {
      if a.reach < 3 {
        return Err(DIED);
      }
      if a.collected.Err? {
        return Err(a.collected.error);
      }
      if !a.collectedInTime {
        return Err("TIMEOUT");
      }
      if a.reach < 4 {
        return Err(DIED);
      }
      var stored := openrelik.store.AddOutputs(jobId, call.tenant, call.caseId, a.collected.value);
      if stored.Err? {
        return Err(stored.error);
      }
      if a.reach < 5 {
        return Err(DIED);
      }
      var job := stored.value.(attempts := stored.value.attempts + 1);
      openrelik.store.Put(job);
      if a.reach < 6 {
        return Err(DIED);
      }
      return Ok(Answer(job, a.collected.value));
    }
  }
}
