/**
 What every run of the evidence store keeps: any interleaving of operations by any tenants, each
 of them complete or cut short by a crash between two writes.
 */
module EvidenceRuns {
  import opened Text
  import opened EvidenceStorage
  import MemberNames

  /** An operation of which at most `done` planned writes take effect. */
  datatype Step = Step(op: Operation, done: nat)
  {
    /** No operation plans more than five writes. */
    predicate Complete() { done >= 5 }
  }

  function Execute(sha: Sha, t: Tree, s: Step): Tree
  {
    var ws := PlanOf(sha, t, s.op).writes;
    After(t, ws, if s.done < |ws| then s.done else |ws|)
  }

  function Run(sha: Sha, t: Tree, steps: seq<Step>): Tree
  {
    if steps == [] then t else Execute(sha, Run(sha, t, steps[..|steps| - 1]), steps[|steps| - 1])
  }

  // ------------------------------------------------------------- what is kept

  /** A visible manifest has its complete original, with the recorded hash and size, read-only. */
  ghost predicate Sealed(sha: Sha, t: Tree, e: EvidenceKey)
  {
    && e in t.manifests && e in t.dirs && t.dirs[e].original.Some?
    && var m, o := t.manifests[e], t.dirs[e].original.value;
       && o.readOnly && sha(o.content) == m.sha256 && |o.content| == m.size
       && m.tenant == e.tenant && m.caseId == e.caseId && m.evidenceId == e.evidenceId
       && ValidId(e.caseId) && ValidId(e.evidenceId)
  }

  /** Slot metadata is only present beside the blob it describes. */
  ghost predicate Described(sha: Sha, t: Tree, k: SlotKey)
  {
    k in t.slots && t.slots[k].meta.Some? ==>
      && t.slots[k].blob.Some?
      && var m := t.slots[k].meta.value;
         && m.sha256 == sha(t.slots[k].blob.value) && m.size == |t.slots[k].blob.value|
         && m.tenant == k.tenant && m.quarantineId == k.quarantineId && ValidId(k.quarantineId)
  }

  ghost predicate Sound(sha: Sha, t: Tree)
  {
    && (forall e :: e in t.manifests ==> Sealed(sha, t, e))
    && (forall k :: k in t.slots ==> Described(sha, t, k))
  }

  /** The evidence object at `e` survives from `t` to `t'`, every manifest field but the hold as it was. */
  ghost predicate Kept(t: Tree, t': Tree, e: EvidenceKey)
    requires e in t.manifests && e in t.dirs
  {
    && e in t'.manifests && e in t'.dirs
    && t'.manifests[e] == t.manifests[e].(legalHold := t'.manifests[e].legalHold)
    && t'.dirs[e] == t.dirs[e]
  }

  /** `s` is a confirmed delete of `e` by its own tenant, with no hold and its retention over. */
  ghost predicate LawfulDelete(t: Tree, s: Step, e: EvidenceKey)
  {
    && s.op.Delete? && s.op.scope.tenant == e.tenant && s.op.caseId == e.caseId && s.op.evidenceId == e.evidenceId
    && s.op.confirmed && e in t.manifests && !t.manifests[e].legalHold && t.manifests[e].retentionUntil <= s.op.now
  }

  // ------------------------------------------------------------------ one step

  /** Evidence survives a step unless the step deletes it lawfully; then all of it goes. */
  ghost predicate KeptOrDeleted(t: Tree, s: Step, t': Tree)
  {
    forall e :: e in t.manifests ==>
      e in t.dirs && (Kept(t, t', e) || (LawfulDelete(t, s, e) && e !in t'.manifests && e !in t'.dirs))
  }

  /** Nothing of a tenant other than `tenant` differs between the trees. */
  ghost predicate OthersUntouched(t: Tree, tenant: string, t': Tree)
  {
    && (forall e: EvidenceKey :: e.tenant != tenant ==>
          (e in t.manifests <==> e in t'.manifests) && (e in t.manifests ==> t'.manifests[e] == t.manifests[e]))
    && (forall e: EvidenceKey :: e.tenant != tenant ==>
          (e in t.dirs <==> e in t'.dirs) && (e in t.dirs ==> t'.dirs[e] == t.dirs[e]))
    && (forall k: SlotKey :: k.tenant != tenant ==>
        (k in t.slots <==> k in t'.slots) && (k in t.slots ==> t'.slots[k] == t.slots[k]))
  }

  lemma SoundKeepsItself(sha: Sha, t: Tree, s: Step)
    requires Sound(sha, t)
    ensures KeptOrDeleted(t, s, t)
  {
    assert forall e :: e in t.manifests ==> Sealed(sha, t, e);
  }

  /** How the tree looks after `n` writes of a publication. */
  lemma PublishShape(t: Tree, e: EvidenceKey, k: SlotKey, blob: Bytes, m: Manifest, n: nat) returns (d: EvidenceDir)
    requires n <= 5
    ensures After(t, PublishWrites(e, k, blob, m), n) ==
            if n == 0 then t
            else if n < 4 then t.(dirs := t.dirs[e := d])
            else Published(t, e, if n == 4 then t.slots else t.slots - {k}, blob, m)
  {
    FiveWrites(t, PublishWrites(e, k, blob, m));
    d := if 1 <= n < 4 then After(t, PublishWrites(e, k, blob, m), n).dirs[e] else EvidenceDir(None);
  }

  function Published(t: Tree, e: EvidenceKey, slots: map<SlotKey, Slot>, blob: Bytes, m: Manifest): Tree
  {
    Tree(slots, t.dirs[e := EvidenceDir(Some(Original(blob, true)))], t.manifests[e := m])
  }

  function KeyOf(op: Operation): EvidenceKey
    requires !op.Ingest?
  {
    EvidenceKey(op.scope.tenant, op.caseId, op.evidenceId)
  }

  /** A promotion that plans writes: what it found, and that its plan is a publication. */
  lemma PromotePlan(sha: Sha, t: Tree, op: Operation) returns (k: SlotKey, blob: Bytes, m: Manifest)
    requires op.Promote? && PlanOf(sha, t, op).writes != []
    ensures var e := KeyOf(op);
            && PlanOf(sha, t, op) == Plan(PublishWrites(e, k, blob, m), Ok(Holds(m)))
            && e !in t.manifests && e !in t.dirs && ValidId(e.caseId) && ValidId(e.evidenceId)
            && k == SlotKey(op.scope.tenant, op.quarantineId) && k in t.slots && t.slots[k].blob == Some(blob)
            && m.tenant == e.tenant && m.caseId == e.caseId && m.evidenceId == e.evidenceId
            && m.sha256 == sha(blob) == op.expected && m.size == |blob| && m.sourceQuarantineId == k.quarantineId
            && m.promotedAt == op.now && !m.legalHold
            && m.retentionUntil - op.now
               == DAY * (if op.retentionDays.Some? then op.retentionDays.value else op.scope.retentionDays)
  {
    k := SlotKey(op.scope.tenant, op.quarantineId);
    blob, m := t.slots[k].blob.value, PlanOf(sha, t, op).reply.value.manifest;
  }

  lemma IngestShape(sha: Sha, t: Tree, s: Step) returns (slot: Slot)
    requires s.op.Ingest?
    ensures var k := IngestKey(s);
            || Execute(sha, t, s) == t
            || (k !in t.slots && Execute(sha, t, s) == t.(slots := t.slots[k := slot])
                && Described(sha, Execute(sha, t, s), k))
  {
    var ws := PlanOf(sha, t, s.op).writes;
    slot := Slot(None, None);
    if ws != [] && s.done > 0 {
      ThreeWrites(t, ws);
      slot := Execute(sha, t, s).slots[IngestKey(s)];
    }
  }

  lemma SetHoldShape(sha: Sha, t: Tree, s: Step)
    requires s.op.SetHold?
    ensures var e := KeyOf(s.op);
            || Execute(sha, t, s) == t
            || (e in t.manifests
                && Execute(sha, t, s) == t.(manifests := t.manifests[e := t.manifests[e].(legalHold := s.op.hold)]))
  {
    var ws := PlanOf(sha, t, s.op).writes;
    if ws != [] && s.done > 0 {
      OneWrite(t, ws[0]);
    }
  }

  lemma DeleteShape(sha: Sha, t: Tree, s: Step)
    requires s.op.Delete?
    ensures var e := KeyOf(s.op);
            || Execute(sha, t, s) == t
            || (LawfulDelete(t, s, e) && Execute(sha, t, s) == t.(dirs := t.dirs - {e}, manifests := t.manifests - {e}))
  {
    var ws := PlanOf(sha, t, s.op).writes;
    if ws != [] && s.done > 0 {
      OneWrite(t, ws[0]);
    }
  }

  lemma TornDirectoryKeeps(sha: Sha, t: Tree, e: EvidenceKey, d: EvidenceDir, s: Step)
    requires Sound(sha, t) && e !in t.manifests && e.tenant == s.op.scope.tenant
    ensures var t' := t.(dirs := t.dirs[e := d]);
            Sound(sha, t') && KeptOrDeleted(t, s, t') && OthersUntouched(t, e.tenant, t')
  {
    var t' := t.(dirs := t.dirs[e := d]);
    forall f | f in t.manifests ensures Sealed(sha, t', f) && Kept(t, t', f) {
      assert Sealed(sha, t, f);
    }
    assert forall k :: k in t.slots ==> Described(sha, t, k) && Described(sha, t', k);
  }

  lemma PublicationIsSound(sha: Sha, t: Tree, e: EvidenceKey, slots: map<SlotKey, Slot>, blob: Bytes, m: Manifest)
    requires Sound(sha, t) && e !in t.manifests
    requires slots.Keys <= t.slots.Keys && forall k :: k in slots ==> slots[k] == t.slots[k]
    requires sha(blob) == m.sha256 && |blob| == m.size
    requires m.tenant == e.tenant && m.caseId == e.caseId && m.evidenceId == e.evidenceId && ValidId(e.caseId)
             && ValidId(e.evidenceId)
    ensures Sound(sha, Published(t, e, slots, blob, m))
  {
    var t' := Published(t, e, slots, blob, m);
    assert Sealed(sha, t', e);
    forall f | f in t.manifests ensures Sealed(sha, t', f) {
      assert Sealed(sha, t, f);
    }
    assert forall k :: k in slots ==> Described(sha, t, k) && Described(sha, t', k);
  }

  lemma PublicationKeeps(sha: Sha, t: Tree, e: EvidenceKey, slots: map<SlotKey, Slot>, blob: Bytes, m: Manifest,
                         s: Step)
    requires Sound(sha, t) && e !in t.manifests
    requires slots.Keys <= t.slots.Keys && forall k :: k in slots ==> slots[k] == t.slots[k]
    requires forall k: SlotKey :: k in t.slots && k.tenant != e.tenant ==> k in slots
    ensures var t' := Published(t, e, slots, blob, m); KeptOrDeleted(t, s, t') && OthersUntouched(t, e.tenant, t')
  {
    var t' := Published(t, e, slots, blob, m);
    forall f | f in t.manifests ensures f in t.dirs && Kept(t, t', f) {
      assert Sealed(sha, t, f);
    }
  }

  ghost predicate StepFacts(sha: Sha, t: Tree, s: Step, t': Tree)
  {
    Sound(sha, t') && KeptOrDeleted(t, s, t') && OthersUntouched(t, s.op.scope.tenant, t')
  }

  lemma IngestKeeps(sha: Sha, t: Tree, s: Step)
    requires Sound(sha, t) && s.op.Ingest?
    ensures StepFacts(sha, t, s, Execute(sha, t, s))
  {
    SoundKeepsItself(sha, t, s);
    var slot := IngestShape(sha, t, s);
    var k, t' := IngestKey(s), Execute(sha, t, s);
    assert forall e :: e in t.manifests ==> Sealed(sha, t, e) && Sealed(sha, t', e);
    assert forall j :: j in t.slots ==> Described(sha, t, j) && Described(sha, t', j);
  }

  lemma PromoteKeeps(sha: Sha, t: Tree, s: Step)
    requires Sound(sha, t) && s.op.Promote?
    ensures StepFacts(sha, t, s, Execute(sha, t, s))
  {
    SoundKeepsItself(sha, t, s);
    if PlanOf(sha, t, s.op).writes != [] {
      var k, blob, m := PromotePlan(sha, t, s.op);
      var n := if s.done < 5 then s.done else 5;
      var d := PublishShape(t, KeyOf(s.op), k, blob, m, n);
      if 1 <= n < 4 {
        TornDirectoryKeeps(sha, t, KeyOf(s.op), d, s);
      } else if n >= 4 {
        var slots := if n == 4 then t.slots else t.slots - {k};
        PublicationIsSound(sha, t, KeyOf(s.op), slots, blob, m);
        PublicationKeeps(sha, t, KeyOf(s.op), slots, blob, m, s);
      }
    }
  }

  lemma SetHoldKeeps(sha: Sha, t: Tree, s: Step)
    requires Sound(sha, t) && s.op.SetHold?
    ensures StepFacts(sha, t, s, Execute(sha, t, s))
  {
    SetHoldShape(sha, t, s);
    SoundKeepsItself(sha, t, s);
    var t' := Execute(sha, t, s);
    forall f | f in t.manifests ensures Sealed(sha, t', f) && Kept(t, t', f) {
      assert Sealed(sha, t, f);
    }
    assert forall k :: k in t.slots ==> Described(sha, t, k) && Described(sha, t', k);
  }

  lemma UnchangedKeeps(sha: Sha, t: Tree, s: Step)
    requires Sound(sha, t)
    ensures StepFacts(sha, t, s, t)
  {
    SoundKeepsItself(sha, t, s);
    hide Sound, KeptOrDeleted;
  }

  function WithoutObject(t: Tree, e: EvidenceKey): Tree
  {
    Tree(t.slots, t.dirs - {e}, t.manifests - {e})
  }

  lemma WithoutObjectShape(t: Tree, e: EvidenceKey)
    ensures WithoutObject(t, e) == t.(dirs := t.dirs - {e}, manifests := t.manifests - {e})
  {
  }

  lemma DroppedIsSound(sha: Sha, t: Tree, e: EvidenceKey)
    requires Sound(sha, t)
    ensures Sound(sha, WithoutObject(t, e))
  {
    var t' := WithoutObject(t, e);
    forall f | f in t'.manifests ensures Sealed(sha, t', f) {
      assert Sealed(sha, t, f);
    }
    forall k | k in t'.slots ensures Described(sha, t', k) {
      assert Described(sha, t, k);
    }
  }

  lemma DroppedIsDeleted(sha: Sha, t: Tree, s: Step, e: EvidenceKey)
    requires Sound(sha, t) && LawfulDelete(t, s, e)
    ensures KeptOrDeleted(t, s, WithoutObject(t, e))
  {
    var t' := WithoutObject(t, e);
    hide Sound, LawfulDelete;
    forall f | f in t.manifests ensures f in t.dirs && (f == e || Kept(t, t', f)) {
      assert Sealed(sha, t, f) by {
        SoundMeansSealed(sha, t, f);
      }
      hide Described;
    }
  }

  lemma SoundMeansSealed(sha: Sha, t: Tree, e: EvidenceKey)
    requires Sound(sha, t) && e in t.manifests
    ensures Sealed(sha, t, e)
  {
    hide Sealed, Described;
  }

  lemma DroppedKeeps(sha: Sha, t: Tree, s: Step, e: EvidenceKey)
    requires Sound(sha, t) && LawfulDelete(t, s, e)
    ensures StepFacts(sha, t, s, WithoutObject(t, e))
  {
    hide Sound, KeptOrDeleted, OthersUntouched, WithoutObject;
    DroppedIsSound(sha, t, e);
    DroppedIsDeleted(sha, t, s, e);
    DroppedLeavesOthers(t, e);
  }

  lemma DroppedLeavesOthers(t: Tree, e: EvidenceKey)
    ensures OthersUntouched(t, e.tenant, WithoutObject(t, e))
  {
  }

  lemma DeleteKeeps(sha: Sha, t: Tree, s: Step)
    requires Sound(sha, t) && s.op.Delete?
    ensures StepFacts(sha, t, s, Execute(sha, t, s))
  {
    DeleteShape(sha, t, s);
    hide *;
    if Execute(sha, t, s) == t {
      UnchangedKeeps(sha, t, s);
    } else {
      DroppedKeeps(sha, t, s, KeyOf(s.op));
      assert Execute(sha, t, s) == WithoutObject(t, KeyOf(s.op)) by {
        WithoutObjectShape(t, KeyOf(s.op));
      }
    }
  }

  /** One step, complete or cut short, keeps every manifest sound, keeps or lawfully deletes the
      evidence it finds, and touches nothing of another tenant. */
  lemma StepKeeps(sha: Sha, t: Tree, s: Step)
    requires Sound(sha, t)
    ensures StepFacts(sha, t, s, Execute(sha, t, s))
  {
    match s.op
    case Ingest(_, _, _, _) => IngestKeeps(sha, t, s);
    case Promote(_, _, _, _, _, _, _) => PromoteKeeps(sha, t, s);
    case SetHold(_, _, _, _) => SetHoldKeeps(sha, t, s);
    case Delete(_, _, _, _, _) => DeleteKeeps(sha, t, s);
  }

  // ------------------------------------------------------------------ whole runs

  /** In every run, crashes included, a visible manifest has its complete matching original. */
  lemma {:induction false} RunsStaySound(sha: Sha, t: Tree, steps: seq<Step>)
    requires Sound(sha, t)
    ensures Sound(sha, Run(sha, t, steps))
  {
    if steps != [] {
      RunsStaySound(sha, t, steps[..|steps| - 1]);
      StepKeeps(sha, Run(sha, t, steps[..|steps| - 1]), steps[|steps| - 1]);
    }
  }

  lemma KeptOneStepMore(sha: Sha, t0: Tree, t: Tree, s: Step, e: EvidenceKey)
    requires Sound(sha, t) && e in t0.manifests && e in t0.dirs && Kept(t0, t, e)
    ensures Kept(t0, Execute(sha, t, s), e) || (LawfulDelete(t, s, e) && t0.manifests[e].retentionUntil <= s.op.now)
  {
    StepKeeps(sha, t, s);
    assert KeptOrDeleted(t, s, Execute(sha, t, s));
  }

  /** Step `i` of the run lawfully deletes `e`, not before `until`. */
  ghost predicate DeletedBy(sha: Sha, t: Tree, steps: seq<Step>, e: EvidenceKey, until: int, i: nat)
  {
    i < |steps| && LawfulDelete(Run(sha, t, steps[..i]), steps[i], e) && until <= steps[i].op.now
  }

  /** Evidence is written once: after any further run it is as it was, but for the hold, unless some
      step of that run was a lawful delete, at or after the retention date recorded at promotion. */
  lemma {:induction false} EvidenceIsWrittenOnce(sha: Sha, t: Tree, steps: seq<Step>, e: EvidenceKey) returns (i: nat)
    requires Sound(sha, t) && e in t.manifests
    ensures e in t.dirs
    ensures Kept(t, Run(sha, t, steps), e) || DeletedBy(sha, t, steps, e, t.manifests[e].retentionUntil, i)
  {
    i := 0;
    assert Sealed(sha, t, e);
    if steps != [] {
      var init, s := steps[..|steps| - 1], steps[|steps| - 1];
      i := EvidenceIsWrittenOnce(sha, t, init, e);
      var t1 := Run(sha, t, init);
      if Kept(t, t1, e) {
        RunsStaySound(sha, t, init);
        KeptOneStepMore(sha, t, t1, s, e);
        i := |init|;
      } else {
        assert steps[..i] == init[..i] && steps[i] == init[i];
      }
    }
  }

  // ------------------------------------------------- what each operation comes to

  /** An ingest succeeds exactly for a regular file within the limit and an id that is free and valid; then
      the slot holds the bytes and describes them, and nothing else has changed. */
  lemma IngestExactly(sha: Sha, t: Tree, op: Operation)
    requires op.Ingest?
    ensures var p := PlanOf(sha, t, op);
            var k := SlotKey(op.scope.tenant, op.quarantineId);
            && (p.reply.Ok? <==> op.source.Some? && |op.source.value| <= op.scope.maxQuarantine
                                 && ValidId(op.quarantineId) && k !in t.slots)
            && (p.reply.Err? ==> Done(t, p) == t)
            && (p.reply.Err? && op.source.None? ==> p.reply.error == "SOURCE_INVALID")
            && (p.reply.Err? && op.source.Some? && |op.source.value| > op.scope.maxQuarantine ==>
                  p.reply.error == "QUARANTINE_LIMIT_EXCEEDED")
            && (p.reply.Ok? ==>
                  && p.reply.value.Staged?
                  && var m := p.reply.value.meta;
                     && m.quarantineId == op.quarantineId && m.tenant == op.scope.tenant
                     && m.sha256 == sha(op.source.value) && m.size == |op.source.value| && m.receivedAt == op.now
                     && Done(t, p) == t.(slots := t.slots[k := Slot(op.source, Some(m))]))
  {
    var p := PlanOf(sha, t, op);
    if p.reply.Ok? {
      ThreeWrites(t, p.writes);
    }
  }

  /** The slot can be promoted: described for its tenant, with the declared digest. */
  ghost predicate Promotable(sha: Sha, t: Tree, op: Operation)
    requires op.Promote?
  {
    var k := SlotKey(op.scope.tenant, op.quarantineId);
    && k in t.slots && t.slots[k].blob.Some? && t.slots[k].meta.Some? && t.slots[k].meta.value.tenant == op.scope.tenant
    && sha(t.slots[k].blob.value) == op.expected == t.slots[k].meta.value.sha256
  }

  /** A promotion publishes exactly when the ids are valid, nothing is at the evidence id, and the slot can
      be promoted; otherwise it writes nothing. */
  lemma PromotePublishesExactly(sha: Sha, t: Tree, op: Operation)
    requires op.Promote?
    ensures var e := KeyOf(op);
            var p := PlanOf(sha, t, op);
            && (p.writes != [] <==>
                  && ValidId(e.caseId) && ValidId(e.evidenceId) && ValidId(op.quarantineId)
                  && e !in t.manifests && e !in t.dirs && Promotable(sha, t, op))
            && (p.writes == [] && e !in t.manifests ==> p.reply.Err?)
            && (p.writes != [] ==> p.reply.Ok?)
  {
  }

  /** Reading a manifest finds exactly the visible ones. */
  lemma ReadsTheVisible(sha: Sha, t: Tree, scope: Scope, caseId: string, evidenceId: string)
    requires Sound(sha, t)
    ensures var e := EvidenceKey(scope.tenant, caseId, evidenceId);
            var r := ReadManifest(t, scope, caseId, evidenceId);
            (r.Ok? <==> e in t.manifests) && (r.Ok? ==> r.value == t.manifests[e])
  {
    var e := EvidenceKey(scope.tenant, caseId, evidenceId);
    assert e in t.manifests ==> Sealed(sha, t, e);
    hide Sound, ValidId;
  }

  lemma ExecutePlanned(sha: Sha, t: Tree, s: Step)
    ensures PlanOf(sha, t, s.op).writes == [] ==> Execute(sha, t, s) == t
    ensures |PlanOf(sha, t, s.op).writes| == 1 ==>
              Execute(sha, t, s) == if s.done > 0 then Apply(t, PlanOf(sha, t, s.op).writes[0]) else t
  {
    hide PlanOf, Apply;
    var ws := PlanOf(sha, t, s.op).writes;
    if |ws| == 1 {
      assert ws == [ws[0]];
      assert After(t, ws, 0) == t && After(t, ws, 1) == Apply(After(t, ws, 0), ws[0]);
    }
  }

  /** Why a promotion at an id that holds no evidence is refused, the first reason first. */
  lemma PromoteRefusals(sha: Sha, t: Tree, op: Operation)
    requires op.Promote? && KeyOf(op) !in t.manifests
    ensures var e := KeyOf(op);
            var k := SlotKey(op.scope.tenant, op.quarantineId);
            var ids := ValidId(e.caseId) && ValidId(e.evidenceId) && ValidId(op.quarantineId);
            var found := k in t.slots && t.slots[k].blob.Some? && t.slots[k].meta.Some?
                         && t.slots[k].meta.value.tenant == op.scope.tenant;
            var reply := PlanOf(sha, t, op).reply;
            && (!ids ==> reply == Err("INVALID_ID"))
            && (ids && !found ==> reply == Err("QUARANTINE_NOT_FOUND"))
            && (ids && found && !Promotable(sha, t, op) ==> reply == Err("CHECKSUM_MISMATCH"))
            && (ids && Promotable(sha, t, op) && e in t.dirs ==> reply == Err("EVIDENCE_EXISTS"))
  {
    hide ValidId;
  }

  /** What a SetHold answers and means to write: the manifest of a visible object with the hold as given. */
  lemma HoldAnswers(sha: Sha, t: Tree, s: Step)
    requires s.op.SetHold? && Sound(sha, t)
    ensures var e := KeyOf(s.op);
            var p := PlanOf(sha, t, s.op);
            && (p.reply.Ok? <==> e in t.manifests)
            && (p.reply.Ok? ==> p.reply.value == Holds(t.manifests[e].(legalHold := s.op.hold))
                                && p.writes == [PutManifest(e, t.manifests[e].(legalHold := s.op.hold))])
            && (p.reply.Err? ==> p.writes == [])
  {
    ReadsTheVisible(sha, t, s.op.scope, s.op.caseId, s.op.evidenceId);
    hide Sound, ReadManifest;
  }

  /** A SetHold that is carried out stores what it answers: the hold as given, everything else as it was. */
  lemma HoldIsStored(sha: Sha, t: Tree, s: Step)
    requires s.op.SetHold? && s.done > 0 && Sound(sha, t)
    ensures var e := KeyOf(s.op);
            var t' := Execute(sha, t, s);
            if e in t.manifests then
              && t' == t.(manifests := t.manifests[e := t.manifests[e].(legalHold := s.op.hold)])
              && PlanOf(sha, t, s.op).reply == Ok(Holds(t'.manifests[e]))
            else t' == t && PlanOf(sha, t, s.op).reply.Err?
  {
    HoldAnswers(sha, t, s);
    hide *;
    ExecutePlanned(sha, t, s);
    if KeyOf(s.op) in t.manifests {
      PutApplied(t, KeyOf(s.op), t.manifests[KeyOf(s.op)].(legalHold := s.op.hold));
    }
  }

  lemma PutApplied(t: Tree, e: EvidenceKey, m: Manifest)
    ensures Apply(t, PutManifest(e, m)) == t.(manifests := t.manifests[e := m])
  {
  }

  /** Which delete is answered, and which condition stands against it. */
  lemma DeleteAnswers(sha: Sha, t: Tree, s: Step)
    requires s.op.Delete? && Sound(sha, t)
    ensures var e := KeyOf(s.op);
            var p := PlanOf(sha, t, s.op);
            && (p.reply.Ok? <==> LawfulDelete(t, s, e))
            && p.writes == (if p.reply.Ok? then [DropEvidence(e)] else [])
            && (p.reply.Ok? ==> p.reply.value == Deleted)
            && (e in t.manifests && t.manifests[e].legalHold ==> p.reply == Err("LEGAL_HOLD_ACTIVE"))
            && (e in t.manifests && !t.manifests[e].legalHold && s.op.now < t.manifests[e].retentionUntil ==>
                  p.reply == Err("RETENTION_ACTIVE"))
            && (!s.op.confirmed && e in t.manifests && !t.manifests[e].legalHold ==>
                  s.op.now >= t.manifests[e].retentionUntil ==> p.reply == Err("DELETE_NOT_CONFIRMED"))
  {
    ReadsTheVisible(sha, t, s.op.scope, s.op.caseId, s.op.evidenceId);
    hide Sound, ReadManifest;
  }

  /** A delete that is carried out removes exactly the object it names, if that may be deleted. */
  lemma DeleteExactly(sha: Sha, t: Tree, s: Step)
    requires s.op.Delete? && s.done > 0 && Sound(sha, t)
    ensures var e := KeyOf(s.op);
            Execute(sha, t, s) == if LawfulDelete(t, s, e) then t.(dirs := t.dirs - {e}, manifests := t.manifests - {e})
                                  else t
  {
    DeleteAnswers(sha, t, s);
    hide *;
    ExecutePlanned(sha, t, s);
    Dropped(t, KeyOf(s.op));
  }

  lemma Dropped(t: Tree, e: EvidenceKey)
    ensures Apply(t, DropEvidence(e)) == t.(dirs := t.dirs - {e}, manifests := t.manifests - {e})
  {
  }

  /** `s` puts a hold on `e` or takes it off; its one write is carried out. */
  ghost predicate SetsHold(s: Step, e: EvidenceKey)
  {
    s.op.SetHold? && KeyOf(s.op) == e && s.done > 0
  }

  /** The hold an object has after the steps, if it had `initial` before. */
  ghost function LastHold(steps: seq<Step>, e: EvidenceKey, initial: bool): bool
  {
    if steps == [] then initial
    else if SetsHold(steps[|steps| - 1], e) then steps[|steps| - 1].op.hold
    else LastHold(steps[..|steps| - 1], e, initial)
  }

  lemma PromoteLeavesHolds(sha: Sha, t: Tree, s: Step, e: EvidenceKey)
    requires s.op.Promote? && e in t.manifests
    ensures e in Execute(sha, t, s).manifests && Execute(sha, t, s).manifests[e] == t.manifests[e]
  {
    if PlanOf(sha, t, s.op).writes != [] {
      var k, blob, m := PromotePlan(sha, t, s.op);
      var _ := PublishShape(t, KeyOf(s.op), k, blob, m, if s.done < 5 then s.done else 5);
    }
    hide PlanOf;
  }

  lemma IngestLeavesHolds(sha: Sha, t: Tree, s: Step)
    requires s.op.Ingest?
    ensures Execute(sha, t, s).manifests == t.manifests
  {
    var _ := IngestShape(sha, t, s);
    hide Execute;
  }

  lemma HoldAfterStep(sha: Sha, t: Tree, s: Step, e: EvidenceKey)
    requires Sound(sha, t) && e in t.manifests && e in Execute(sha, t, s).manifests
    ensures Execute(sha, t, s).manifests[e].legalHold == if SetsHold(s, e) then s.op.hold else t.manifests[e].legalHold
  {
    hide Execute, PlanOf, Sound, LawfulDelete;
    if s.op.Ingest? {
      IngestLeavesHolds(sha, t, s);
    } else if s.op.Promote? {
      PromoteLeavesHolds(sha, t, s, e);
    } else if s.op.Delete? {
      DeleteShape(sha, t, s);
    } else if s.done > 0 {
      HoldIsStored(sha, t, s);
    } else {
      NothingDone(sha, t, s);
    }
  }

  lemma NothingDone(sha: Sha, t: Tree, s: Step)
    requires s.done == 0
    ensures Execute(sha, t, s) == t
  {
    hide PlanOf;
  }

  /** As long as an object is there, its hold is the one last set, whoever else did whatever. */
  lemma {:induction false} HoldIsTheLastSet(sha: Sha, t: Tree, steps: seq<Step>, e: EvidenceKey)
    requires Sound(sha, t) && e in t.manifests
    requires forall i :: 0 <= i <= |steps| ==> e in Run(sha, t, steps[..i]).manifests
    ensures Run(sha, t, steps).manifests.Keys >= {e}
    ensures Run(sha, t, steps).manifests[e].legalHold == LastHold(steps, e, t.manifests[e].legalHold)
  {
    hide Execute, SetsHold, Sound;
    assert steps[..|steps|] == steps;
    if steps != [] {
      var init := steps[..|steps| - 1];
      assert forall i :: 0 <= i <= |init| ==> init[..i] == steps[..i];
      HoldIsTheLastSet(sha, t, init, e);
      RunsStaySound(sha, t, init);
      HoldAfterStep(sha, Run(sha, t, init), steps[|init|], e);
    }
  }

  /** A held object survives every run in which its own tenant does not take the hold off. */
  lemma {:induction false} HeldEvidenceSurvives(sha: Sha, t: Tree, steps: seq<Step>, e: EvidenceKey)
    requires Sound(sha, t) && e in t.manifests && t.manifests[e].legalHold
    requires forall i :: 0 <= i < |steps| ==> !(SetsHold(steps[i], e) && !steps[i].op.hold)
    ensures e in t.dirs
    ensures e in Run(sha, t, steps).manifests && Run(sha, t, steps).manifests[e].legalHold
    ensures Kept(t, Run(sha, t, steps), e)
  {
    assert Sealed(sha, t, e);
    if steps != [] {
      hide Execute, SetsHold;
      var init, s := steps[..|steps| - 1], steps[|steps| - 1];
      assert forall i :: 0 <= i < |init| ==> init[i] == steps[i];
      HeldEvidenceSurvives(sha, t, init, e);
      RunsStaySound(sha, t, init);
      KeptOneStepMore(sha, t, Run(sha, t, init), s, e);
      HoldAfterStep(sha, Run(sha, t, init), s, e);
    }
  }

  /** So once a hold is set on a visible object, the object stays until the hold is taken off. */
  lemma SetHoldProtects(sha: Sha, t: Tree, s: Step, steps: seq<Step>)
    requires Sound(sha, t) && s.op.SetHold? && s.op.hold && s.Complete() && KeyOf(s.op) in t.manifests
    requires forall i :: 0 <= i < |steps| ==> !(SetsHold(steps[i], KeyOf(s.op)) && !steps[i].op.hold)
    ensures var t' := Run(sha, Execute(sha, t, s), steps);
            KeyOf(s.op) in t'.manifests && t'.manifests[KeyOf(s.op)].legalHold && KeyOf(s.op) in t'.dirs
  {
    HoldIsStored(sha, t, s);
    StepKeeps(sha, t, s);
    HeldEvidenceSurvives(sha, Execute(sha, t, s), steps, KeyOf(s.op));
  }

  // -------------------------------------------------------------------- integrity

  /** Whatever runs came before, crashes included: evidence that is visible verifies, and nothing else
      is said to verify or not to verify. */
  lemma {:induction false} VisibleEvidenceVerifies(sha: Sha, steps: seq<Step>, scope: Scope, caseId: string,
                                                   evidenceId: string)
    ensures var t := Run(sha, EMPTY, steps);
            var e := EvidenceKey(scope.tenant, caseId, evidenceId);
            var r := Verify(sha, t, scope, caseId, evidenceId);
            && (e in t.manifests ==> r == Ok(true))
            && (e !in t.manifests ==>
                r == Err(if ValidId(evidenceId) && ValidId(caseId) then "EVIDENCE_NOT_FOUND" else "INVALID_ID"))
  {
    var t := Run(sha, EMPTY, steps);
    var e := EvidenceKey(scope.tenant, caseId, evidenceId);
    RunsStaySound(sha, EMPTY, steps);
    assert e in t.manifests ==> Sealed(sha, t, e);
  }

  /** An original replaced from outside verifies exactly when its digest is that of the promoted bytes. */
  lemma AlteredOriginalIsDetected(sha: Sha, t: Tree, scope: Scope, caseId: string, evidenceId: string,
                                  altered: Original)
    requires var e := EvidenceKey(scope.tenant, caseId, evidenceId);
             Sound(sha, t) && e in t.manifests && Sealed(sha, t, e)
    ensures var e := EvidenceKey(scope.tenant, caseId, evidenceId);
            Verify(sha, t.(dirs := t.dirs[e := EvidenceDir(Some(altered))]), scope, caseId, evidenceId)
            == Ok(sha(altered.content) == sha(t.dirs[e].original.value.content))
  {
  }

  // ------------------------------------------------------ promotion and re-entry

  /** A promotion at an id that holds evidence changes nothing; it returns exactly that manifest when
      the declared digest is the recorded one, and raises otherwise. */
  lemma PromoteAtEvidenceReturnsIt(sha: Sha, t: Tree, op: Operation)
    requires Sound(sha, t) && op.Promote?
    requires EvidenceKey(op.scope.tenant, op.caseId, op.evidenceId) in t.manifests
    ensures var m := t.manifests[EvidenceKey(op.scope.tenant, op.caseId, op.evidenceId)];
            PlanOf(sha, t, op) == if op.expected == m.sha256 then Plan([], Ok(Holds(m)))
              else Refuse("EVIDENCE_CONFLICT")
  {
    assert Sealed(sha, t, EvidenceKey(op.scope.tenant, op.caseId, op.evidenceId));
  }

  /** A promotion at an id whose directory exists without a manifest always raises and changes nothing. */
  lemma PromoteAtTornDirectoryRaises(sha: Sha, t: Tree, op: Operation)
    requires op.Promote?
    requires var e := EvidenceKey(op.scope.tenant, op.caseId, op.evidenceId); e in t.dirs && e !in t.manifests
    ensures PlanOf(sha, t, op).writes == [] && PlanOf(sha, t, op).reply.Err?
  {
  }

  /** Which crashes inside a promotion can be resumed by repeating it: those before the directory is
      made and those after the manifest is written, and no others. */
  lemma CrashedPromoteResumesExactly(sha: Sha, t: Tree, op: Operation, n: nat)
    requires Sound(sha, t) && op.Promote? && |PlanOf(sha, t, op).writes| == 5 && n <= 5
    ensures PlanOf(sha, After(t, PlanOf(sha, t, op).writes, n), op).reply.Ok? <==> n == 0 || n >= 4
    ensures n == 0 || n >= 4 ==>
            PlanOf(sha, After(t, PlanOf(sha, t, op).writes, n), op).reply == PlanOf(sha, t, op).reply
  {
    var k, blob, m := PromotePlan(sha, t, op);
    var d := PublishShape(t, KeyOf(op), k, blob, m, n);
    var t' := After(t, PlanOf(sha, t, op).writes, n);
    if 1 <= n < 4 {
      PromoteAtTornDirectoryRaises(sha, t', op);
    } else if n >= 4 {
      PromoteKeeps(sha, t, Step(op, n));
      assert t' == Execute(sha, t, Step(op, n));
      PromoteAtEvidenceReturnsIt(sha, t', op);
    }
  }

  // ------------------------------------------------------------ crash-free runs

  ghost predicate FreshQuarantineIds(steps: seq<Step>)
  {
    forall i, j :: 0 <= i < j < |steps| && steps[i].op.Ingest? && steps[j].op.Ingest? ==>
      IngestKey(steps[i]) != IngestKey(steps[j])
  }

  function IngestKey(s: Step): SlotKey
    requires s.op.Ingest?
  {
    SlotKey(s.op.scope.tenant, s.op.quarantineId)
  }

  ghost predicate UsedId(steps: seq<Step>, k: SlotKey)
  {
    exists i :: 0 <= i < |steps| && steps[i].op.Ingest? && IngestKey(steps[i]) == k
  }

  function SourceSlot(t: Tree, e: EvidenceKey): SlotKey
    requires e in t.manifests
  {
    SlotKey(e.tenant, t.manifests[e].sourceQuarantineId)
  }

  /** Quarantine is single-use: each object names its own slot, and that slot is gone. */
  ghost predicate SingleUse(t: Tree)
  {
    && t.dirs.Keys == t.manifests.Keys
    && (forall e :: e in t.manifests ==> SourceSlot(t, e) !in t.slots)
    && (forall e, f :: e in t.manifests && f in t.manifests && SourceSlot(t, e) == SourceSlot(t, f) ==> e == f)
  }

  ghost predicate Accounted(t: Tree, steps: seq<Step>)
  {
    && (forall k :: k in t.slots ==> UsedId(steps, k))
    && (forall e :: e in t.manifests ==> UsedId(steps, SourceSlot(t, e)))
  }

  lemma {:induction false} QuarantineIsSingleUse(sha: Sha, steps: seq<Step>)
    requires FreshQuarantineIds(steps)
    requires forall i :: 0 <= i < |steps| ==> steps[i].Complete()
    ensures SingleUse(Run(sha, EMPTY, steps)) && Accounted(Run(sha, EMPTY, steps), steps)
  {
    if steps != [] {
      var init, s := steps[..|steps| - 1], steps[|steps| - 1];
      QuarantineIsSingleUse(sha, init);
      var t := Run(sha, EMPTY, init);
      assert steps == init + [s];
      UsedGrows(init, s);
      if s.op.Ingest? {
        forall i | 0 <= i < |init| && init[i].op.Ingest? ensures IngestKey(init[i]) != IngestKey(s) {
          assert steps[i] == init[i] && steps[|init|] == s;
        }
        IngestSingleUse(sha, t, init, s);
      } else if s.op.Promote? {
        PromoteSingleUse(sha, t, init, s);
      } else {
        HoldAndDeleteSingleUse(sha, t, init, s);
      }
    }
  }

  lemma UsedGrows(init: seq<Step>, s: Step)
    ensures forall k :: UsedId(init, k) ==> UsedId(init + [s], k)
    ensures s.op.Ingest? ==> UsedId(init + [s], IngestKey(s))
  {
    var steps := init + [s];
    forall k | UsedId(init, k) ensures UsedId(steps, k) {
      var i :| 0 <= i < |init| && init[i].op.Ingest? && IngestKey(init[i]) == k;
      assert steps[i] == init[i];
    }
    assert steps[|init|] == s;
  }

  lemma IngestSingleUse(sha: Sha, t: Tree, init: seq<Step>, s: Step)
    requires SingleUse(t) && Accounted(t, init) && s.op.Ingest? && s.Complete() && !UsedId(init, IngestKey(s))
    requires forall k :: UsedId(init, k) ==> UsedId(init + [s], k)
    requires UsedId(init + [s], IngestKey(s))
    ensures SingleUse(Execute(sha, t, s)) && Accounted(Execute(sha, t, s), init + [s])
  {
    var slot := IngestShape(sha, t, s);
    var t' := Execute(sha, t, s);
    assert t'.manifests == t.manifests && t'.dirs == t.dirs;
    assert forall f :: f in t.manifests ==> SourceSlot(t', f) == SourceSlot(t, f);
  }

  lemma PublishedSingleUse(t: Tree, steps: seq<Step>, e: EvidenceKey, k: SlotKey, blob: Bytes, m: Manifest)
    requires SingleUse(t) && Accounted(t, steps)
    requires e !in t.manifests && k in t.slots && k == SlotKey(e.tenant, m.sourceQuarantineId)
    ensures var t' := Published(t, e, t.slots - {k}, blob, m); SingleUse(t') && Accounted(t', steps)
  {
    hide UsedId;
    var t' := Published(t, e, t.slots - {k}, blob, m);
    assert t'.dirs.Keys == t.dirs.Keys + {e} && t'.manifests.Keys == t.manifests.Keys + {e};
    assert SourceSlot(t', e) == k;
    assert forall f :: f in t.manifests ==> SourceSlot(t', f) == SourceSlot(t, f) && SourceSlot(t, f) != k;
  }

  lemma PromoteSingleUse(sha: Sha, t: Tree, init: seq<Step>, s: Step)
    requires SingleUse(t) && Accounted(t, init) && s.op.Promote? && s.Complete()
    requires forall k :: UsedId(init, k) ==> UsedId(init + [s], k)
    ensures SingleUse(Execute(sha, t, s)) && Accounted(Execute(sha, t, s), init + [s])
  {
    if PlanOf(sha, t, s.op).writes != [] {
      var k, blob, m := PromotePlan(sha, t, s.op);
      var _ := PublishShape(t, KeyOf(s.op), k, blob, m, 5);
      PublishedSingleUse(t, init, KeyOf(s.op), k, blob, m);
    }
  }

  /** Losing objects, or changing their holds, keeps quarantine single-use. */
  lemma FewerObjectsSingleUse(t: Tree, t': Tree, steps: seq<Step>)
    requires SingleUse(t) && Accounted(t, steps)
    requires t'.slots == t.slots && t'.dirs.Keys == t'.manifests.Keys <= t.manifests.Keys
    requires forall f :: f in t'.manifests ==> t'.manifests[f].sourceQuarantineId == t.manifests[f].sourceQuarantineId
    ensures SingleUse(t') && Accounted(t', steps)
  {
    assert forall f :: f in t'.manifests ==> SourceSlot(t', f) == SourceSlot(t, f);
  }

  lemma HoldAndDeleteSingleUse(sha: Sha, t: Tree, init: seq<Step>, s: Step)
    requires SingleUse(t) && Accounted(t, init) && (s.op.SetHold? || s.op.Delete?)
    requires forall k :: UsedId(init, k) ==> UsedId(init + [s], k)
    ensures SingleUse(Execute(sha, t, s)) && Accounted(Execute(sha, t, s), init + [s])
  {
    if s.op.SetHold? {
      SetHoldShape(sha, t, s);
      assert Execute(sha, t, s).manifests.Keys == t.manifests.Keys;
    } else {
      DeleteShape(sha, t, s);
    }
    FewerObjectsSingleUse(t, Execute(sha, t, s), init);
  }

  // ------------------------------------------------------- the on-disk layout

  datatype Object =
    | BlobFile(slot: SlotKey)
    | MetaFile(slot: SlotKey)
    | OriginalFile(key: EvidenceKey)
    | ManifestFile(key: EvidenceKey)

  predicate ValidObject(o: Object)
  {
    match o
    case BlobFile(k) => ValidId(k.tenant) && ValidId(k.quarantineId)
    case MetaFile(k) => ValidId(k.tenant) && ValidId(k.quarantineId)
    case OriginalFile(e) => ValidId(e.tenant) && ValidId(e.caseId) && ValidId(e.evidenceId)
    case ManifestFile(e) => ValidId(e.tenant) && ValidId(e.caseId) && ValidId(e.evidenceId)
  }

  function Tenant(o: Object): string
  {
    if o.BlobFile? || o.MetaFile? then o.slot.tenant else o.key.tenant
  }

  /** Path of an object relative to the storage root. */
  function Components(o: Object): seq<string>
  {
    match o
    case BlobFile(k) => ["tenants", k.tenant, "quarantine", k.quarantineId, "blob"]
    case MetaFile(k) => ["tenants", k.tenant, "quarantine", k.quarantineId, "meta.json"]
    case OriginalFile(e) => ["tenants", e.tenant, "cases", e.caseId, "evidence", e.evidenceId, "original"]
    case ManifestFile(e) => ["tenants", e.tenant, "cases", e.caseId, "evidence", e.evidenceId + ".manifest.json"]
  }

  function PathOf(o: Object): string { Join('/', Components(o)) }

  ghost predicate OneName(c: string) { '/' !in c && MemberNames.Plain(c) }

  lemma SlugIsOneName(s: string)
    requires ValidId(s)
    ensures OneName(s) && OneName(s + ".manifest.json")
  {
    ValidIdIsOneName(s);
    assert |s + ".manifest.json"| > 2;
    assert '/' !in ".manifest.json";
  }

  lemma FixedNames()
    ensures OneName("tenants") && OneName("quarantine") && OneName("blob") && OneName("meta.json")
    ensures OneName("cases") && OneName("evidence") && OneName("original")
  {
  }

  lemma ComponentsArePlain(o: Object)
    requires ValidObject(o)
    ensures forall i :: 0 <= i < |Components(o)| ==> OneName(Components(o)[i])
  {
    FixedNames();
    SlugIsOneName(Tenant(o));
    if o.BlobFile? || o.MetaFile? {
      SlugIsOneName(o.slot.quarantineId);
    } else {
      SlugIsOneName(o.key.caseId);
      SlugIsOneName(o.key.evidenceId);
    }
  }

  lemma PathsSplitBack(o: Object)
    requires ValidObject(o)
    ensures Split('/', PathOf(o)) == Components(o) && MemberNames.AllPlain(Components(o))
  {
    ComponentsArePlain(o);
    SplitJoin('/', Components(o));
  }

  /** Distinct objects have distinct paths, so a map keyed by identifiers is faithful to the file tree,
      and every path leads to a place strictly below the root of its own tenant. */
  lemma LayoutSeparatesObjects(a: Object, b: Object, root: MemberNames.Location)
    requires ValidObject(a) && ValidObject(b)
    ensures PathOf(a) == PathOf(b) <==> a == b
    ensures root + ["tenants", Tenant(a)] < MemberNames.Walk(root, Split('/', PathOf(a)))
  {
    PathsSplitBack(a);
    PathsSplitBack(b);
    BelowTenant(a);
    hide *;
    MemberNames.WalkPlain(root, Components(a));
    assert root + ["tenants", Tenant(a)] < root + Components(a);
    if PathOf(a) == PathOf(b) {
      SameComponents(a, b);
    }
  }

  lemma BelowTenant(o: Object)
    ensures ["tenants", Tenant(o)] < Components(o)
  {
  }

  lemma SameComponents(a: Object, b: Object)
    requires Components(a) == Components(b)
    ensures a == b
  {
    var x, y := Components(a), Components(b);
    assert x[1] == y[1] && x[3] == y[3] && x[4] == y[4];
    assert "blob"[0] != "meta.json"[0];
    if a.ManifestFile? {
      assert x[5] == a.key.evidenceId + ".manifest.json" && y[5] == b.key.evidenceId + ".manifest.json";
      assert a.key.evidenceId == x[5][..|x[5]| - 14] && b.key.evidenceId == y[5][..|y[5]| - 14];
    } else if a.OriginalFile? {
      assert x[5] == y[5];
    }
  }
}
