/**
 What repeated submission of one collection keeps, whatever boundary each call dies at, and that
 an undisturbed repetition completes.
 */
module ResumeProtocol {
  import opened Text
  import Jobs = OpenRelikJobs
  import Store = EvidenceStorage
  import Runs = EvidenceRuns
  import opened CollectionSubmission

  function Digest(cfg: Config, call: Call): string
    requires call.source.Some?
  {
    cfg.sha(call.source.value)
  }

  function Request(cfg: Config, call: Call): Jobs.Request
    requires call.source.Some?
  {
    RequestOf(cfg, call, Digest(cfg, call))
  }

  function JobId(cfg: Config, call: Call): string
    requires call.source.Some?
  {
    Request(cfg, call).requestId
  }

  /** Where the evidence object of the call lives. */
  function Site(cfg: Config, call: Call): Store.EvidenceKey
  {
    Store.EvidenceKey(cfg.scope.tenant, call.caseId, call.evidence)
  }

  ghost predicate Staged(cfg: Config, call: Call, t: Store.Tree, k: Store.SlotKey)
    requires call.source.Some?
  {
    Store.Matches(t, cfg.scope.tenant, Digest(cfg, call), k)
  }

  /** A world no call with these arguments has touched. Other jobs and other evidence may be there, and
      staged copies of the same bytes, as a failed retry under another evidence id leaves them. */
  ghost predicate Untouched(cfg: Config, call: Call, w: World)
    requires call.source.Some?
  {
    && Jobs.TableInv(cfg.contract, w.jobs) && JobId(cfg, call) !in w.jobs
       && !Jobs.KeyTaken(w.jobs, Request(cfg, call).key)
    && Runs.Sound(cfg.sha, w.tree) && Site(cfg, call) !in w.tree.dirs && Site(cfg, call) !in w.tree.manifests
  }

  /** Empty stores are such a world. */
  lemma EmptyWorldIsUntouched(cfg: Config, call: Call)
    requires call.source.Some?
    ensures Untouched(cfg, call, World(map[], Store.EMPTY, []))
  {
  }

  /** At most one job row was added, for the request of the call and under its key. */
  ghost predicate OneJob(cfg: Config, call: Call, t0: Jobs.Table, t: Jobs.Table)
    requires call.source.Some?
  {
    var id := JobId(cfg, call);
    && Jobs.TableInv(cfg.contract, t)
    && (t == t0 || (id in t && t == t0[id := t[id]] && t[id].request == Request(cfg, call)))
    && (id in t && t[id].outputs != [] ==> t[id].status == "succeeded")
  }

  /** The directory of the object is there without its manifest. */
  predicate Torn(cfg: Config, call: Call, t: Store.Tree)
  {
    Site(cfg, call) in t.dirs && Site(cfg, call) !in t.manifests
  }

  /** At most one evidence object was added, complete and of the declared digest once its manifest is
      visible. Of the slots there were, at most one is gone, promoted into that object; and a staged copy
      that was added is the only one there is. All else is as it was. */
  ghost predicate OneObject(cfg: Config, call: Call, t0: Store.Tree, t: Store.Tree)
    requires call.source.Some?
  {
    var e := Site(cfg, call);
    && Runs.Sound(cfg.sha, t)
    && (e in t.manifests ==> e in t.dirs && t.manifests[e].sha256 == Digest(cfg, call))
    && t.dirs - {e} == t0.dirs - {e} && t.manifests - {e} == t0.manifests - {e}
    && (forall j, k :: Staged(cfg, call, t, j) && Staged(cfg, call, t, k) && j !in t0.slots ==> j == k)
    && (forall k :: k in t0.slots ==> SlotKept(t0, t, k) || Promoted(cfg, call, t0, t, k))
  }

  ghost predicate SlotKept(t0: Store.Tree, t: Store.Tree, k: Store.SlotKey)
    requires k in t0.slots
  {
    k in t.slots && t.slots[k] == t0.slots[k]
  }

  ghost predicate Promoted(cfg: Config, call: Call, t0: Store.Tree, t: Store.Tree, k: Store.SlotKey)
    requires call.source.Some?
  {
    var e := Site(cfg, call);
    Staged(cfg, call, t0, k) && e in t.manifests && t.manifests[e].sourceQuarantineId == k.quarantineId
  }

  ghost predicate ResumeInv(cfg: Config, call: Call, w0: World, w: World)
    requires call.source.Some?
  {
    && OneJob(cfg, call, w0.jobs, w.jobs)
    && OneObject(cfg, call, w0.tree, w.tree)
    && (!cfg.withStore ==> w.tree == w0.tree)
    && (cfg.withStore && JobId(cfg, call) in w.jobs && w.jobs[JobId(cfg, call)].outputs != [] ==>
        Site(cfg, call) in w.tree.manifests)
  }

  // --------------------------------------------------------------- the evidence side

  lemma NewSlotIsOneObject(cfg: Config, call: Call, t0: Store.Tree, t: Store.Tree, k: Store.SlotKey, slot: Store.Slot)
    requires call.source.Some? && OneObject(cfg, call, t0, t) && k !in t.slots && forall j :: !Staged(cfg, call, t, j)
    requires Runs.Sound(cfg.sha, t.(slots := t.slots[k := slot]))
    ensures OneObject(cfg, call, t0, t.(slots := t.slots[k := slot]))
  {
    var t' := t.(slots := t.slots[k := slot]);
    assert forall j :: Staged(cfg, call, t', j) && j != k ==> Staged(cfg, call, t, j);
  }

  lemma IngestIsOneObject(cfg: Config, call: Call, t0: Store.Tree, t: Store.Tree, a: Attempt)
    requires call.source.Some? && OneObject(cfg, call, t0, t) && a.found.None? && forall j :: !Staged(cfg, call, t, j)
    ensures var t' := Stage(cfg, call.source.value, t, a).0;
            OneObject(cfg, call, t0, t') && t'.manifests == t.manifests && t'.dirs == t.dirs
  {
    var op := Store.Ingest(cfg.scope, a.quarantineId, call.source, a.now);
    var s := Runs.Step(op, a.stageWrites);
    var slot := Runs.IngestShape(cfg.sha, t, s);
    Runs.IngestKeeps(cfg.sha, t, s);
    if Runs.Execute(cfg.sha, t, s) != t {
      NewSlotIsOneObject(cfg, call, t0, t, Runs.IngestKey(s), slot);
    }
    assert Stage(cfg, call.source.value, t, a).0 == Runs.Execute(cfg.sha, t, s);
  }

  /** What staging answers with is described in the tree it leaves. */
  lemma StageAnswers(cfg: Config, call: Call, t: Store.Tree, a: Attempt)
    requires call.source.Some? && Runs.Sound(cfg.sha, t)
    requires Store.Finds(t, cfg.scope.tenant, Digest(cfg, call), a.found)
    ensures var (t', meta) := Stage(cfg, call.source.value, t, a);
            meta.Ok? ==> Staged(cfg, call, t', Store.SlotKey(cfg.scope.tenant, meta.value.quarantineId))
  {
    if a.found.Some? {
      var k :| Staged(cfg, call, t, k) && t.slots[k].meta == a.found;
      assert Runs.Described(cfg.sha, t, k);
    } else {
      var p := Store.PlanIngest(cfg.sha, t, cfg.scope, a.quarantineId, call.source, a.now);
      if p.reply.Ok? {
        Store.ThreeWrites(t, p.writes);
      }
    }
  }

  /** Staging leaves exactly one described slot of the digest and names it. */
  lemma StageKeeps(cfg: Config, call: Call, t0: Store.Tree, t: Store.Tree, a: Attempt)
    requires call.source.Some? && OneObject(cfg, call, t0, t)
    requires Store.Finds(t, cfg.scope.tenant, Digest(cfg, call), a.found)
    ensures var (t', meta) := Stage(cfg, call.source.value, t, a);
            && OneObject(cfg, call, t0, t') && t'.manifests == t.manifests && t'.dirs == t.dirs
            && (meta.Ok? ==> Staged(cfg, call, t', Store.SlotKey(cfg.scope.tenant, meta.value.quarantineId)))
  {
    StageAnswers(cfg, call, t, a);
    if a.found.None? {
      IngestIsOneObject(cfg, call, t0, t, a);
    }
  }

  lemma PublishedIsOneObject(cfg: Config, call: Call, t0: Store.Tree, t: Store.Tree, k: Store.SlotKey,
                             blob: Store.Bytes,
                             m: Store.Manifest, dropped: bool)
    requires call.source.Some? && OneObject(cfg, call, t0, t) && Staged(cfg, call, t, k)
             && Site(cfg, call) !in t.manifests
    requires m.sha256 == Digest(cfg, call) && m.sourceQuarantineId == k.quarantineId
    requires Runs.Sound(cfg.sha,
                        Runs.Published(t, Site(cfg, call), if dropped then t.slots - {k} else t.slots, blob, m))
    ensures OneObject(cfg, call, t0,
                      Runs.Published(t, Site(cfg, call), if dropped then t.slots - {k} else t.slots, blob, m))
  {
    hide RequestOf, Runs.Sound;
    var e := Site(cfg, call);
    var t' := Runs.Published(t, e, if dropped then t.slots - {k} else t.slots, blob, m);
    assert t'.dirs - {e} == t.dirs - {e} && t'.manifests - {e} == t.manifests - {e};
    assert forall j :: Staged(cfg, call, t', j) ==> Staged(cfg, call, t, j);
    forall j | j in t0.slots ensures SlotKept(t0, t', j) || Promoted(cfg, call, t0, t', j) {
      assert SlotKept(t0, t, j);
    }
  }

  lemma TornIsOneObject(cfg: Config, call: Call, t0: Store.Tree, t: Store.Tree, d: Store.EvidenceDir)
    requires call.source.Some? && OneObject(cfg, call, t0, t) && Site(cfg, call) !in t.manifests
    requires Runs.Sound(cfg.sha, t.(dirs := t.dirs[Site(cfg, call) := d]))
    ensures OneObject(cfg, call, t0, t.(dirs := t.dirs[Site(cfg, call) := d]))
  {
    hide RequestOf, Runs.Sound;
    var e := Site(cfg, call);
    var t' := t.(dirs := t.dirs[e := d]);
    assert t'.dirs - {e} == t.dirs - {e};
    assert forall j :: Staged(cfg, call, t', j) ==> Staged(cfg, call, t, j);
    forall j | j in t0.slots ensures SlotKept(t0, t', j) {
      assert SlotKept(t0, t, j);
    }
  }

  /** The tree when a promotion plan is cut after `n` of its writes. */
  function CutAfter(t: Store.Tree, p: Store.Plan, n: nat): Store.Tree
  {
    Store.After(t, p.writes, if n < |p.writes| then n else |p.writes|)
  }

  /** A promotion that publishes leaves one object wherever it is cut, torn exactly when it is cut after
      the directory is made and before the manifest is written. */
  lemma PublicationCut(cfg: Config, call: Call, t0: Store.Tree, t: Store.Tree, quarantineId: string, now: int, n: nat)
    requires call.source.Some? && OneObject(cfg, call, t0, t)
    requires Staged(cfg, call, t, Store.SlotKey(cfg.scope.tenant, quarantineId))
    requires var p := Promotion(cfg, call, t, quarantineId, now); p.writes != []
    ensures var p := Promotion(cfg, call, t, quarantineId, now);
            && |p.writes| == 5 && p.reply.Ok?
            && OneObject(cfg, call, t0, CutAfter(t, p, n))
            && Site(cfg, call) !in t.manifests && Site(cfg, call) !in t.dirs
            && (Torn(cfg, call, CutAfter(t, p, n)) <==> 1 <= n <= 3)
            && (Site(cfg, call) in CutAfter(t, p, n).manifests <==> n >= 4)
            && (n >= 4 ==>
                  var m := CutAfter(t, p, n).manifests[Site(cfg, call)];
                  && m.tenant == cfg.scope.tenant && m.caseId == call.caseId && m.evidenceId == call.evidence
                  && m.sha256 == Digest(cfg, call) && m.sourceQuarantineId == quarantineId && !m.legalHold
                  && m.promotedAt == now && m.retentionUntil - now == Store.DAY * cfg.scope.retentionDays)
  {
    var op := Store.Promote(cfg.scope, call.caseId, call.evidence, quarantineId, Digest(cfg, call), None, now);
    var p := Store.PlanOf(cfg.sha, t, op);
    var e := Site(cfg, call);
    var k, blob, m := Runs.PromotePlan(cfg.sha, t, op);
    var i := if n < 5 then n else 5;
    var d := Runs.PublishShape(t, e, k, blob, m, i);
    hide Store.After, Store.PlanPromote, Store.PlanOf, Staged, Runs.Sound, OneObject;
    if 1 <= i < 4 {
      Runs.TornDirectoryKeeps(cfg.sha, t, e, d, Runs.Step(op, i));
      TornIsOneObject(cfg, call, t0, t, d);
    } else if i >= 4 {
      Runs.PublicationIsSound(cfg.sha, t, e, if i == 5 then t.slots - {k} else t.slots, blob, m);
      PublishedIsOneObject(cfg, call, t0, t, k, blob, m, i == 5);
    }
  }

  /** Promotion of the staged slot: the object appears once, or was there and stays as it is; it is
      refused at a torn directory. */
  lemma PromotionKeeps(cfg: Config, call: Call, t0: Store.Tree, t: Store.Tree, quarantineId: string, now: int, n: nat)
    requires call.source.Some? && OneObject(cfg, call, t0, t)
    requires Staged(cfg, call, t, Store.SlotKey(cfg.scope.tenant, quarantineId))
    ensures var p := Promotion(cfg, call, t, quarantineId, now);
            var t' := CutAfter(t, p, n);
            && OneObject(cfg, call, t0, t')
            && (p.reply.Ok? <==> Store.ValidId(call.caseId) && Store.ValidId(call.evidence) && !Torn(cfg, call, t))
            && (p.reply.Ok? && n >= |p.writes| ==> Site(cfg, call) in t'.manifests)
            && (Site(cfg, call) in t.manifests || p.reply.Err? ==> p.writes == [] && t' == t)
            && (Site(cfg, call) !in t.manifests && p.reply.Ok? ==> |p.writes| == 5)
            && (Torn(cfg, call, t') <==> Torn(cfg, call, t) || (|p.writes| == 5 && 1 <= n <= 3))
  {
    var op := Store.Promote(cfg.scope, call.caseId, call.evidence, quarantineId, Digest(cfg, call), None, now);
    var p := Store.PlanOf(cfg.sha, t, op);
    assert Runs.Described(cfg.sha, t, Store.SlotKey(cfg.scope.tenant, quarantineId));
    if Site(cfg, call) in t.manifests {
      Runs.PromoteAtEvidenceReturnsIt(cfg.sha, t, op);
      assert Runs.Sealed(cfg.sha, t, Site(cfg, call));
    } else if p.writes != [] {
      PublicationCut(cfg, call, t0, t, quarantineId, now, n);
      hide OneObject, Store.After;
    }
  }

  /** What one attempt does to the evidence: it may tear the directory exactly by dying inside promotion
      between its first and its fourth write. */
  lemma SecureKeeps(cfg: Config, call: Call, t0: Store.Tree, t: Store.Tree, a: Attempt)
    requires call.source.Some? && OneObject(cfg, call, t0, t)
    requires Store.Finds(t, cfg.scope.tenant, Digest(cfg, call), a.found)
    ensures var (t', r) := Secure(cfg, call, t, a);
            && OneObject(cfg, call, t0, t')
            && (r.Ok? ==> Site(cfg, call) in t'.manifests)
            && (Site(cfg, call) in t.manifests ==> t'.manifests == t.manifests && t'.dirs == t.dirs)
            && (Torn(cfg, call, t) ==> Torn(cfg, call, t') && r.Err?)
            && (Torn(cfg, call, t') && !Torn(cfg, call, t) ==> r.Err? && 1 <= a.promoteWrites <= 3)
  {
    if a.reach >= 1 {
      StageKeeps(cfg, call, t0, t, a);
      var (staged, meta) := Stage(cfg, call.source.value, t, a);
      if meta.Ok? && a.reach >= 2 {
        PromotionKeeps(cfg, call, t0, staged, meta.value.quarantineId, a.now, a.promoteWrites);
        hide OneObject, Stage, Promotion, Store.After;
      } else {
        hide OneObject, Stage;
      }
    }
  }

  // -------------------------------------------------------------------- the job side

  lemma SubmitKeepsOneJob(cfg: Config, call: Call, t0: Jobs.Table, t: Jobs.Table, r: Jobs.Request,
                          reply: Jobs.TransportReply)
    requires call.source.Some? && OneJob(cfg, call, t0, t) && r == Request(cfg, call)
    requires r.requestId !in t0 && !Jobs.KeyTaken(t0, r.key)
    ensures var s := Jobs.Submit(cfg.contract, t, Who(call), r, reply);
            && OneJob(cfg, call, t0, s.table)
            && (r.requestId in t ==> r.requestId in s.table && s.table[r.requestId].outputs == t[r.requestId].outputs)
            && (r.requestId !in t && r.requestId in s.table ==> s.table[r.requestId].outputs == [])
            && (r.requestId in t && t[r.requestId].Bound() ==> s.table == t && !s.called)
            && (s.reply.Ok? ==> r.requestId in s.table && s.reply.value == s.table[r.requestId] && s.reply.value.Bound()
                                && s.reply.value.jobId == r.requestId)
            && (s.reply.Ok? <==> Jobs.AdmitSubmit(cfg.contract, Who(call), r).Ok?
                                 && ((r.requestId in t && t[r.requestId].Bound())
                                     || (reply.Answer? && reply.workflow.Names())))
  {
    hide Jobs.Submit, Jobs.AdmitSubmit, Jobs.KeyFor, RequestOf, Jobs.Bears, Jobs.Fresh, Jobs.Terminal, Jobs.RowsStep;
    var s := Jobs.Submit(cfg.contract, t, Who(call), r, reply);
    Jobs.SubmitKeeps(cfg.contract, t, Jobs.DoSubmit(Who(call), r, reply));
    if r.requestId in t {
      assert Jobs.Consistent(cfg.contract, r.requestId, t[r.requestId]);
      RequestKey(cfg, call);
      Jobs.RepeatedSubmit(cfg.contract, t, Who(call), r, reply);
      assert t0[r.requestId := t[r.requestId]][r.requestId := s.table[r.requestId]]
             == t0[r.requestId := s.table[r.requestId]];
    } else {
      Jobs.FirstSubmit(cfg.contract, t, Who(call), r, reply);
    }
    assert r.requestId in s.table ==> Jobs.Consistent(cfg.contract, r.requestId, s.table[r.requestId]);
  }

  lemma RequestKey(cfg: Config, call: Call)
    requires call.source.Some?
    ensures Request(cfg, call).key == Jobs.KeyFor(cfg.contract, Request(cfg, call))
    ensures Request(cfg, call).tenant == call.tenant && Request(cfg, call).caseId == call.caseId
  {
  }

  /** Storing `job` in place of the row of the call. */
  lemma PutIsOneJob(cfg: Config, call: Call, t0: Jobs.Table, t: Jobs.Table, job: Jobs.Job)
    requires call.source.Some? && OneJob(cfg, call, t0, t) && JobId(cfg, call) !in t0
    requires var id := JobId(cfg, call);
             id in t && job.jobId == id && job.request == t[id].request && job.key == t[id].key
    requires Jobs.Consistent(cfg.contract, job.jobId, job) && job.status == "succeeded"
    ensures OneJob(cfg, call, t0, t[job.jobId := job])
  {
    Jobs.PutKeepsTable(cfg.contract, t, job);
    assert t0[job.jobId := t[job.jobId]][job.jobId := job] == t0[job.jobId := job];
  }

  /** The last leg either leaves the table or stores the outputs in the row, and says which. */
  lemma FinishOutcome(call: Call, w: World, id: string, a: Attempt)
    requires id in w.jobs && w.jobs[id].jobId == id && w.jobs[id].tenant == call.tenant
             && w.jobs[id].caseId == call.caseId
    ensures var (w', r) := Finish(call, w, id, a);
            && w'.tree == w.tree && w'.log == w.log && id in w'.jobs
            && (if a.reach >= 4 && a.collected.Ok? && a.collectedInTime then
                  && w'.jobs == w.jobs[id := w'.jobs[id]]
                  && w'.jobs[id] == w.jobs[id].(status := "succeeded", outputs := a.collected.value,
                                                attempts := w.jobs[id].attempts + (if a.reach >= 5 then 1 else 0))
                else w'.jobs == w.jobs)
            && (r.Ok? <==> a.reach >= 6 && a.collected.Ok? && a.collectedInTime)
            && (r.Ok? ==> r.value.job == w'.jobs[id] && a.collected == Ok(r.value.outputs)
                          && w'.jobs[id].status == "succeeded" && w'.jobs[id].outputs == r.value.outputs)
  {
    if a.collected.Ok? {
      var stored := w.jobs[id].(status := "succeeded", outputs := a.collected.value);
      assert w.jobs[id := stored][id := stored.(attempts := stored.attempts + 1)]
          == w.jobs[id := stored.(attempts := stored.attempts + 1)];
    }
  }

  lemma FinishKeeps(cfg: Config, call: Call, t0: Jobs.Table, w: World, id: string, a: Attempt)
    requires call.source.Some? && OneJob(cfg, call, t0, w.jobs) && id == JobId(cfg, call) && id !in t0
    requires id in w.jobs && w.jobs[id].Bound()
    ensures w.jobs[id].jobId == id && w.jobs[id].tenant == call.tenant && w.jobs[id].caseId == call.caseId
    ensures var w' := Finish(call, w, id, a).0;
            OneJob(cfg, call, t0, w'.jobs) && id in w'.jobs && w'.jobs[id].workflow == w.jobs[id].workflow
  {
    assert Jobs.Consistent(cfg.contract, id, w.jobs[id]);
    RequestKey(cfg, call);
    FinishOutcome(call, w, id, a);
    var w' := Finish(call, w, id, a).0;
    if w'.jobs != w.jobs {
      PutIsOneJob(cfg, call, t0, w.jobs, w'.jobs[id]);
    }
  }

  // ------------------------------------------------------------------- one attempt

  /** Every attempt, wherever it dies, keeps the invariant, and a workflow once stored stays. */
  lemma AttemptKeeps(cfg: Config, call: Call, w0: World, w: World, a: Attempt)
    requires call.source.Some? && Untouched(cfg, call, w0) && ResumeInv(cfg, call, w0, w)
    requires Store.Finds(w.tree, cfg.scope.tenant, Digest(cfg, call), a.found)
    ensures var id := JobId(cfg, call);
            var (w', r) := Attempted(cfg, call, w, a);
            && ResumeInv(cfg, call, w0, w')
            && (id in w.jobs && w.jobs[id].Bound() ==>
                  id in w'.jobs && w'.jobs[id].workflow == w.jobs[id].workflow && w'.log == w.log)
            && (Site(cfg, call) in w.tree.manifests ==>
                  w'.tree.manifests == w.tree.manifests && w'.tree.dirs == w.tree.dirs)
            && (r.Ok? ==> id in w'.jobs && r.value.job == w'.jobs[id] && w'.jobs[id].status == "succeeded"
                          && w'.jobs[id].outputs == r.value.outputs
                          && (cfg.withStore ==> Site(cfg, call) in w'.tree.manifests))
            && (cfg.withStore && Torn(cfg, call, w.tree) ==> r.Err? && Torn(cfg, call, w'.tree))
            && (Torn(cfg, call, w'.tree) && !Torn(cfg, call, w.tree) ==> r.Err? && 1 <= a.promoteWrites <= 3)
  {
    hide Jobs.Submit, Finish, Secure, Store.Finds, OneJob, OneObject;
    if Precheck(cfg, call, a).None? {
      var request, id := Request(cfg, call), JobId(cfg, call);
      SubmitKeepsOneJob(cfg, call, w0.jobs, w.jobs, request, a.reply);
      var s := Jobs.Submit(cfg.contract, w.jobs, Who(call), request, a.reply);
      var w1 := World(s.table, w.tree, w.log + (if s.called then [request] else []));
      assert ResumeInv(cfg, call, w0, w1);
      if s.reply.Ok? && !Reusable(s.reply.value) {
        ResumeKeeps(cfg, call, w0, w1, id, a);
      }
    }
  }

  lemma ResumeKeeps(cfg: Config, call: Call, w0: World, w: World, id: string, a: Attempt)
    requires call.source.Some? && Untouched(cfg, call, w0) && ResumeInv(cfg, call, w0, w) && id == JobId(cfg, call)
    requires Store.Finds(w.tree, cfg.scope.tenant, Digest(cfg, call), a.found)
    requires id in w.jobs && w.jobs[id].Bound()
    ensures var (w', r) := Resume(cfg, call, w, id, a);
            && ResumeInv(cfg, call, w0, w') && w'.log == w.log
            && id in w'.jobs && w'.jobs[id].workflow == w.jobs[id].workflow
            && (Site(cfg, call) in w.tree.manifests ==>
                w'.tree.manifests == w.tree.manifests && w'.tree.dirs == w.tree.dirs)
            && (r.Ok? ==> r.value.job == w'.jobs[id] && w'.jobs[id].status == "succeeded"
                          && w'.jobs[id].outputs == r.value.outputs
                          && (cfg.withStore ==> Site(cfg, call) in w'.tree.manifests))
            && (cfg.withStore && Torn(cfg, call, w.tree) ==> r.Err? && Torn(cfg, call, w'.tree))
            && (Torn(cfg, call, w'.tree) && !Torn(cfg, call, w.tree) ==> r.Err? && 1 <= a.promoteWrites <= 3)
  {
    hide Finish, Secure, Store.Finds, OneJob, OneObject;
    if !cfg.withStore {
      LastLegKeeps(cfg, call, w0, w, id, a);
    } else {
      SecureKeeps(cfg, call, w0.tree, w.tree, a);
      var (tree, r) := Secure(cfg, call, w.tree, a);
      assert ResumeInv(cfg, call, w0, w.(tree := tree));
      if r.Ok? {
        LastLegKeeps(cfg, call, w0, w.(tree := tree), id, a);
      }
    }
  }

  lemma LastLegKeeps(cfg: Config, call: Call, w0: World, w: World, id: string, a: Attempt)
    requires call.source.Some? && Untouched(cfg, call, w0) && ResumeInv(cfg, call, w0, w) && id == JobId(cfg, call)
    requires id in w.jobs && w.jobs[id].Bound() && (cfg.withStore ==> Site(cfg, call) in w.tree.manifests)
    ensures var (w', r) := Finish(call, w, id, a);
            && ResumeInv(cfg, call, w0, w') && w'.log == w.log && w'.tree == w.tree
            && id in w'.jobs && w'.jobs[id].workflow == w.jobs[id].workflow
            && (r.Ok? ==> r.value.job == w'.jobs[id] && w'.jobs[id].status == "succeeded"
                          && w'.jobs[id].outputs == r.value.outputs)
  {
    FinishKeeps(cfg, call, w0.jobs, w, id, a);
    FinishOutcome(call, w, id, a);
  }

  lemma ResumeAnswers(cfg: Config, call: Call, t0: Jobs.Table, w: World, id: string, a: Attempt)
    requires call.source.Some? && OneJob(cfg, call, t0, w.jobs) && id == JobId(cfg, call) && id !in t0
    requires id in w.jobs && w.jobs[id].Bound() && Resume(cfg, call, w, id, a).1.Ok?
    ensures var answer := Resume(cfg, call, w, id, a).1.value;
            && a.collected == Ok(answer.outputs) && a.collectedInTime
            && answer.job == w.jobs[id].(status := "succeeded", outputs := answer.outputs,
                                         attempts := w.jobs[id].attempts + 1)
  {
    hide Secure, Finish, OneJob;
    FinishKeeps(cfg, call, t0, w, id, a);
    var tree := if cfg.withStore then Secure(cfg, call, w.tree, a).0 else w.tree;
    FinishOutcome(call, w.(tree := tree), id, a);
  }

  /** What a call is answered with: the outputs already stored, or those it collected, in time, with one attempt more
      in the row. */
  lemma AttemptAnswers(cfg: Config, call: Call, w0: World, w: World, a: Attempt)
    requires call.source.Some? && Untouched(cfg, call, w0) && ResumeInv(cfg, call, w0, w)
    requires Attempted(cfg, call, w, a).1.Ok?
    ensures var id := JobId(cfg, call);
            var answer := Attempted(cfg, call, w, a).1.value;
            if id in w.jobs && w.jobs[id].outputs != [] then answer == Answer(w.jobs[id], w.jobs[id].outputs)
            else
              && a.collected == Ok(answer.outputs) && a.collectedInTime
              && answer.job.outputs == answer.outputs && answer.job.status == "succeeded"
              && (id in w.jobs && w.jobs[id].Bound() ==> answer.job.attempts == w.jobs[id].attempts + 1)
  {
    hide Jobs.Submit, Jobs.AdmitSubmit, Jobs.KeyFor, Resume, OneObject, Precheck;
    var request, id := Request(cfg, call), JobId(cfg, call);
    SubmitKeepsOneJob(cfg, call, w0.jobs, w.jobs, request, a.reply);
    var s := Jobs.Submit(cfg.contract, w.jobs, Who(call), request, a.reply);
    var w1 := World(s.table, w.tree, w.log + (if s.called then [request] else []));
    if id in w.jobs {
      assert Jobs.Consistent(cfg.contract, id, w.jobs[id]);
    }
    hide OneJob, Jobs.TableInv, Jobs.Consistent;
    if !Reusable(s.reply.value) {
      ResumeAnswers(cfg, call, w0.jobs, w1, id, a);
    }
  }

  // --------------------------------------------------------------------- whole runs

  /** The worlds a sequence of attempts leads through. */
  ghost function RunAttempts(cfg: Config, call: Call, w0: World, attempts: seq<Attempt>): World
  {
    if attempts == [] then w0
    else Attempted(cfg, call, RunAttempts(cfg, call, w0, attempts[..|attempts| - 1]), attempts[|attempts| - 1]).0
  }

  /** In each attempt the quarantine search answers truthfully about the tree it meets. */
  ghost predicate TruthfulSearches(cfg: Config, call: Call, w0: World, attempts: seq<Attempt>)
    requires call.source.Some?
  {
    forall i :: 0 <= i < |attempts| ==>
      Store.Finds(RunAttempts(cfg, call, w0, attempts[..i]).tree, cfg.scope.tenant, Digest(cfg, call),
                  attempts[i].found)
  }

  lemma PrefixSearches(cfg: Config, call: Call, w0: World, attempts: seq<Attempt>, k: nat)
    requires call.source.Some? && TruthfulSearches(cfg, call, w0, attempts) && k <= |attempts|
    ensures TruthfulSearches(cfg, call, w0, attempts[..k])
    ensures k < |attempts| ==>
              Store.Finds(RunAttempts(cfg, call, w0, attempts[..k]).tree, cfg.scope.tenant, Digest(cfg, call),
                          attempts[k].found)
  {
    assert forall i :: 0 <= i < k ==> attempts[..k][..i] == attempts[..i] && attempts[..k][i] == attempts[i];
  }

  /** However often the call is repeated and wherever each repetition dies, the world has one job row
      for the key at most, one evidence object at the id at most and one described quarantine slot of
      the digest at most, and everything else is as it was. */
  lemma {:induction false} RepeatedSubmissionKeepsOneOfEach(cfg: Config, call: Call, w0: World, attempts: seq<Attempt>)
    requires call.source.Some? && Untouched(cfg, call, w0) && TruthfulSearches(cfg, call, w0, attempts)
    ensures ResumeInv(cfg, call, w0, RunAttempts(cfg, call, w0, attempts))
  {
    hide Attempted, RequestOf;
    if attempts != [] {
      var init := attempts[..|attempts| - 1];
      assert forall i :: 0 <= i < |init| ==> init[..i] == attempts[..i] && init[i] == attempts[i];
      RepeatedSubmissionKeepsOneOfEach(cfg, call, w0, init);
      AttemptKeeps(cfg, call, w0, RunAttempts(cfg, call, w0, init), attempts[|init|]);
    }
  }

  /** One workflow id: once the job is bound, further attempts keep its workflow and send nothing. */
  lemma {:induction false} WorkflowIsStoredOnce(cfg: Config, call: Call, w0: World, attempts: seq<Attempt>, k: nat)
    requires call.source.Some? && Untouched(cfg, call, w0) && TruthfulSearches(cfg, call, w0, attempts)
             && k <= |attempts|
    requires var w := RunAttempts(cfg, call, w0, attempts[..k]);
             JobId(cfg, call) in w.jobs && w.jobs[JobId(cfg, call)].Bound()
    ensures var id := JobId(cfg, call);
            var w, w' := RunAttempts(cfg, call, w0, attempts[..k]), RunAttempts(cfg, call, w0, attempts);
            id in w'.jobs && w'.jobs[id].workflow == w.jobs[id].workflow && w'.log == w.log
  {
    hide Attempted, Request, ResumeInv, Untouched, TruthfulSearches, Store.Finds;
    if k == |attempts| {
      assert attempts[..k] == attempts;
    } else {
      var init := attempts[..|attempts| - 1];
      PrefixSearches(cfg, call, w0, attempts, |init|);
      assert init[..k] == attempts[..k];
      WorkflowIsStoredOnce(cfg, call, w0, init, k);
      RepeatedSubmissionKeepsOneOfEach(cfg, call, w0, init);
      AttemptKeeps(cfg, call, w0, RunAttempts(cfg, call, w0, init), attempts[|init|]);
    }
  }

  /** After a call has returned with outputs, every further attempt leaves job table, evidence and
      transport as they are, and, if its own checks pass, returns those outputs. */
  lemma ReturnedOutputsAreFinal(cfg: Config, call: Call, w0: World, w: World, a: Attempt)
    requires call.source.Some? && Untouched(cfg, call, w0) && ResumeInv(cfg, call, w0, w)
    requires Jobs.AdmitSubmit(cfg.contract, Who(call), Request(cfg, call)).Ok?
    requires JobId(cfg, call) in w.jobs && w.jobs[JobId(cfg, call)].outputs != []
    ensures var job := w.jobs[JobId(cfg, call)];
            && Attempted(cfg, call, w, a).0 == w
            && (Acceptable(cfg, call, a) ==> Attempted(cfg, call, w, a).1 == Ok(Answer(job, job.outputs)))
            && (!Acceptable(cfg, call, a) ==> Attempted(cfg, call, w, a).1.Err?)
  {
    AcceptableCallIsSubmitted(cfg, call, a);
    hide Acceptable;
    if Precheck(cfg, call, a).None? {
      var request, id := Request(cfg, call), JobId(cfg, call);
      assert Jobs.Consistent(cfg.contract, id, w.jobs[id]);
      SubmitKeepsOneJob(cfg, call, w0.jobs, w.jobs, request, a.reply);
      assert w.log + [] == w.log;
    }
  }

  lemma ReturningMeansAdmitted(cfg: Config, call: Call, w: World, a: Attempt)
    requires call.source.Some? && Attempted(cfg, call, w, a).1.Ok?
    ensures Jobs.AdmitSubmit(cfg.contract, Who(call), Request(cfg, call)).Ok?
  {
  }

  /** Once the row of the call holds outputs, the rest of the run changes nothing at all. */
  lemma {:induction false} RunStandsStill(cfg: Config, call: Call, w0: World, attempts: seq<Attempt>, k: nat)
    requires call.source.Some? && Untouched(cfg, call, w0) && TruthfulSearches(cfg, call, w0, attempts)
             && k <= |attempts|
    requires Jobs.AdmitSubmit(cfg.contract, Who(call), Request(cfg, call)).Ok?
    requires var w := RunAttempts(cfg, call, w0, attempts[..k]);
             JobId(cfg, call) in w.jobs && w.jobs[JobId(cfg, call)].outputs != []
    ensures RunAttempts(cfg, call, w0, attempts) == RunAttempts(cfg, call, w0, attempts[..k])
  {
    hide Attempted, Acceptable, Request, ResumeInv, Untouched, TruthfulSearches, Jobs.AdmitSubmit, Jobs.Job.Bound;
    if k == |attempts| {
      assert attempts[..k] == attempts;
    } else {
      var init := attempts[..|attempts| - 1];
      PrefixSearches(cfg, call, w0, attempts, |init|);
      assert init[..k] == attempts[..k];
      RunStandsStill(cfg, call, w0, init, k);
      RepeatedSubmissionKeepsOneOfEach(cfg, call, w0, init);
      ReturnedOutputsAreFinal(cfg, call, w0, RunAttempts(cfg, call, w0, init), attempts[|init|]);
    }
  }

  /** Once attempt `k` of a run has returned non-empty outputs, the rest of the run changes nothing at
      all, and any further attempt whose own checks pass returns the same answer. */
  lemma RunIsFinalAfterReturn(cfg: Config, call: Call, w0: World, attempts: seq<Attempt>, k: nat, next: Attempt)
    requires call.source.Some? && Untouched(cfg, call, w0) && TruthfulSearches(cfg, call, w0, attempts)
             && k < |attempts|
    requires var r := Attempted(cfg, call, RunAttempts(cfg, call, w0, attempts[..k]), attempts[k]).1;
             r.Ok? && r.value.outputs != []
    ensures var w := RunAttempts(cfg, call, w0, attempts);
            var returned := Attempted(cfg, call, RunAttempts(cfg, call, w0, attempts[..k]), attempts[k]).1;
            && w == RunAttempts(cfg, call, w0, attempts[..k + 1])
            && Attempted(cfg, call, w, next).0 == w
            && (Acceptable(cfg, call, next) ==> Attempted(cfg, call, w, next).1 == returned)
  {
    hide Attempted, Acceptable, RequestOf, OneJob, OneObject;
    var before := RunAttempts(cfg, call, w0, attempts[..k]);
    PrefixSearches(cfg, call, w0, attempts, k);
    RepeatedSubmissionKeepsOneOfEach(cfg, call, w0, attempts[..k]);
    ReturningMeansAdmitted(cfg, call, before, attempts[k]);
    AttemptKeeps(cfg, call, w0, before, attempts[k]);
    assert attempts[..k + 1][..k] == attempts[..k];
    RunStandsStill(cfg, call, w0, attempts, k + 1);
    RepeatedSubmissionKeepsOneOfEach(cfg, call, w0, attempts);
    ReturnedOutputsAreFinal(cfg, call, w0, RunAttempts(cfg, call, w0, attempts), next);
  }

  // ------------------------------------------------------------- torn and resumable

  /** A torn directory stays torn for the rest of the run. */
  lemma {:induction false} RunStaysTorn(cfg: Config, call: Call, w0: World, attempts: seq<Attempt>, k: nat)
    requires call.source.Some? && Untouched(cfg, call, w0) && TruthfulSearches(cfg, call, w0, attempts)
             && k <= |attempts|
    requires cfg.withStore && Torn(cfg, call, RunAttempts(cfg, call, w0, attempts[..k]).tree)
    ensures Torn(cfg, call, RunAttempts(cfg, call, w0, attempts).tree)
  {
    hide Attempted, Torn, ResumeInv, Untouched, TruthfulSearches, Store.Finds;
    if k == |attempts| {
      assert attempts[..k] == attempts;
    } else {
      var init := attempts[..|attempts| - 1];
      PrefixSearches(cfg, call, w0, attempts, |init|);
      assert init[..k] == attempts[..k];
      RunStaysTorn(cfg, call, w0, init, k);
      RepeatedSubmissionKeepsOneOfEach(cfg, call, w0, init);
      AttemptKeeps(cfg, call, w0, RunAttempts(cfg, call, w0, init), attempts[|init|]);
    }
  }

  /** A run is only torn by an attempt that died between the first and the fourth write of promotion. */
  lemma {:induction false} OnlyACutTears(cfg: Config, call: Call, w0: World, attempts: seq<Attempt>)
    requires call.source.Some? && Untouched(cfg, call, w0) && TruthfulSearches(cfg, call, w0, attempts)
    requires forall i :: 0 <= i < |attempts| ==> !(1 <= attempts[i].promoteWrites <= 3)
    ensures !Torn(cfg, call, RunAttempts(cfg, call, w0, attempts).tree)
  {
    hide Attempted, ResumeInv, TruthfulSearches, Store.Finds;
    if attempts != [] {
      var init := attempts[..|attempts| - 1];
      PrefixSearches(cfg, call, w0, attempts, |init|);
      assert forall i :: 0 <= i < |init| ==> init[i] == attempts[i];
      OnlyACutTears(cfg, call, w0, init);
      RepeatedSubmissionKeepsOneOfEach(cfg, call, w0, init);
      AttemptKeeps(cfg, call, w0, RunAttempts(cfg, call, w0, init), attempts[|init|]);
      hide Torn;
    }
  }

  /** An attempt that nothing disturbs, unless it dies inside promotion. */
  ghost predicate Undisturbed(cfg: Config, call: Call, w: World, a: Attempt)
    requires call.source.Some?
  {
    && Acceptable(cfg, call, a)
    && Jobs.AdmitSubmit(cfg.contract, Who(call), Request(cfg, call)).Ok?
    && a.reply.Answer? && a.reply.workflow.Names()
    && Stageable(cfg, call, w.tree, a)
    && a.collected.Ok? && a.collectedInTime && a.reach >= 6
  }

  /** The quarantine search answers truthfully, and staging, if it comes to that, succeeds. */
  ghost predicate Stageable(cfg: Config, call: Call, t: Store.Tree, a: Attempt)
    requires call.source.Some?
  {
    && Store.Finds(t, cfg.scope.tenant, Digest(cfg, call), a.found)
    && Store.ValidId(a.quarantineId) && Store.SlotKey(cfg.scope.tenant, a.quarantineId) !in t.slots
    && |call.source.value| <= cfg.scope.maxQuarantine && a.stageWrites >= 3
  }

  /** Both ids are slugs of the evidence store. */
  predicate Storable(call: Call) { Store.ValidId(call.caseId) && Store.ValidId(call.evidence) }

  /** Whatever the earlier attempts left behind, an undisturbed one that does not die inside promotion
      completes, exactly when there is no store, or the job is reusable, or the ids are slugs of the store
      and the directory is not torn. Job ids with a dot or a colon pass the job contract and are refused
      by the store. */
  lemma UndisturbedAttemptCompletes(cfg: Config, call: Call, w0: World, w: World, a: Attempt)
    requires call.source.Some? && Untouched(cfg, call, w0) && ResumeInv(cfg, call, w0, w)
    requires Undisturbed(cfg, call, w, a) && a.promoteWrites >= 5
    ensures var id := JobId(cfg, call);
            Attempted(cfg, call, w, a).1.Ok? <==>
              || !cfg.withStore
              || (id in w.jobs && Reusable(w.jobs[id]))
              || (Storable(call) && !Torn(cfg, call, w.tree))
  {
    hide Jobs.Submit, Jobs.AdmitSubmit, Jobs.KeyFor, Secure, Finish, Stage, Storable, Stageable, Torn, OneObject;
    var request, id := Request(cfg, call), JobId(cfg, call);
    SubmitKeepsOneJob(cfg, call, w0.jobs, w.jobs, request, a.reply);
    var s := Jobs.Submit(cfg.contract, w.jobs, Who(call), request, a.reply);
    var w1 := World(s.table, w.tree, w.log + (if s.called then [request] else []));
    if !Reusable(s.reply.value) {
      if cfg.withStore {
        SecureExactly(cfg, call, w0.tree, w.tree, a);
      }
      FinishKeeps(cfg, call, w0.jobs, w1, id, a);
      var tree := if cfg.withStore then Secure(cfg, call, w.tree, a).0 else w.tree;
      FinishOutcome(call, w1.(tree := tree), id, a);
    }
  }

  lemma SecureExactly(cfg: Config, call: Call, t0: Store.Tree, t: Store.Tree, a: Attempt)
    requires call.source.Some? && OneObject(cfg, call, t0, t) && Stageable(cfg, call, t, a) && a.reach >= 2
    ensures var (t', r) := Secure(cfg, call, t, a);
            var held := Site(cfg, call) in t.manifests;
            && (r.Ok? <==> Storable(call) && !Torn(cfg, call, t) && (held || a.promoteWrites >= 5))
            && (Torn(cfg, call, t') <==>
                  Torn(cfg, call, t) || (Storable(call) && !held && 1 <= a.promoteWrites <= 3))
  {
    StageKeeps(cfg, call, t0, t, a);
    var (staged, meta) := Stage(cfg, call.source.value, t, a);
    PromotionKeeps(cfg, call, t0, staged, meta.value.quarantineId, a.now, a.promoteWrites);
    hide OneObject, Promotion, Store.After, Store.ValidId, Store.Finds;
  }

  /** Where a call that dies inside promotion can be resumed: exactly before the directory is made and
      from the manifest on. `a` is undisturbed up to there, `b` is an undisturbed repetition. */
  lemma CutAttemptResumesExactly(cfg: Config, call: Call, w0: World, w: World, a: Attempt, b: Attempt)
    requires call.source.Some? && Untouched(cfg, call, w0) && ResumeInv(cfg, call, w0, w)
    requires cfg.withStore && Storable(call) && Site(cfg, call) !in w.tree.manifests && Site(cfg, call) !in w.tree.dirs
    requires Undisturbed(cfg, call, w, a)
    requires Undisturbed(cfg, call, Attempted(cfg, call, w, a).0, b) && b.promoteWrites >= 5
    ensures Attempted(cfg, call, w, a).1.Ok? <==> a.promoteWrites >= 5
    ensures Attempted(cfg, call, Attempted(cfg, call, w, a).0, b).1.Ok? <==>
            a.promoteWrites == 0 || a.promoteWrites >= 4
  {
    AttemptTearsExactly(cfg, call, w0, w, a);
    assert Store.Finds(w.tree, cfg.scope.tenant, Digest(cfg, call), a.found);
    AttemptKeeps(cfg, call, w0, w, a);
    var w' := Attempted(cfg, call, w, a).0;
    UndisturbedAttemptCompletes(cfg, call, w0, w', b);
    hide Attempted, Undisturbed, Untouched, OneJob, OneObject, Storable;
  }

  lemma AttemptTearsExactly(cfg: Config, call: Call, w0: World, w: World, a: Attempt)
    requires call.source.Some? && Untouched(cfg, call, w0) && ResumeInv(cfg, call, w0, w)
    requires cfg.withStore && Storable(call) && Site(cfg, call) !in w.tree.manifests && Site(cfg, call) !in w.tree.dirs
    requires Undisturbed(cfg, call, w, a)
    ensures Attempted(cfg, call, w, a).1.Ok? <==> a.promoteWrites >= 5
    ensures Torn(cfg, call, Attempted(cfg, call, w, a).0.tree) <==> 1 <= a.promoteWrites <= 3
  {
    hide Jobs.Submit, Jobs.AdmitSubmit, Jobs.KeyFor, Secure, Finish, Stage, Storable, Stageable, OneObject;
    var request, id := Request(cfg, call), JobId(cfg, call);
    SubmitKeepsOneJob(cfg, call, w0.jobs, w.jobs, request, a.reply);
    var s := Jobs.Submit(cfg.contract, w.jobs, Who(call), request, a.reply);
    var w1 := World(s.table, w.tree, w.log + (if s.called then [request] else []));
    SecureExactly(cfg, call, w0.tree, w.tree, a);
    FinishKeeps(cfg, call, w0.jobs, w1, id, a);
    FinishOutcome(call, w1.(tree := Secure(cfg, call, w.tree, a).0), id, a);
  }
}
