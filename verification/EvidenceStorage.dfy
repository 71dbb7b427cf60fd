/**
 The tenant-scoped, write-once evidence store.

 A storage operation is described by the writes it plans, each of them atomic: executing all of
 them is a normal return, executing a prefix is a crash. `sha` stands for SHA-256.
 */
module EvidenceStorage {
  import opened Text
  import MemberNames

  type Bytes = seq<int>
  type Sha = Bytes -> string

  // ---------------------------------------------------------------- identifiers

  function SlugBody(s: string): string
  {
    if s != "" && s[|s| - 1] == '\n' then s[..|s| - 1] else s
  }

  /** `_ID_RE.match`: a slug of 1 to 64 characters, after which `$` lets one newline pass. */
  predicate ValidId(s: string)
  {
    var body := SlugBody(s);
    && 1 <= |body| <= 64
    && AlphaNumeric(body[0]) && AlphaNumeric(body[|body| - 1])
    && forall i :: 0 <= i < |body| ==> AlphaNumeric(body[i]) || body[i] == '_' || body[i] == '-'
  }

  /** The characters between the ends of an id. */
  predicate Middle(mid: string)
  {
    |mid| <= 62 && forall i :: 0 <= i < |mid| ==> AlphaNumeric(mid[i]) || mid[i] == '_' || mid[i] == '-'
  }

  const NEWLINE := "\n"

  /** The pattern, `^[A-Za-z0-9](?:[A-Za-z0-9_-]{0,62}[A-Za-z0-9])?$`, part by part. */
  ghost predicate MatchesPattern(s: string)
  {
    exists nl, x, mid, y :: IsSlug(s, nl, x, mid, y)
  }

  predicate IsSlug(s: string, nl: string, x: char, mid: string, y: string)
  {
    && (nl == "" || nl == NEWLINE) && s == [x] + (mid + y) + nl
    && AlphaNumeric(x) && Middle(mid)
    && (if y == "" then mid == "" else |y| == 1 && AlphaNumeric(y[0]))
  }

  lemma ValidIdMatches(s: string)
    requires ValidId(s)
    ensures MatchesPattern(s)
  {
    var body := SlugBody(s);
    var nl := if body == s then "" else NEWLINE;
    var n := |body| - 1;
    var mid := if n == 0 then "" else body[1..n];
    var y := if n == 0 then "" else [body[n]];
    assert body == [body[0]] + (mid + y);
    assert s == body + nl;
    assert IsSlug(s, nl, body[0], mid, y);
  }

  lemma SlugIsValid(s: string, nl: string, x: char, mid: string, y: string)
    requires IsSlug(s, nl, x, mid, y)
    ensures ValidId(s)
  {
    var body := [x] + (mid + y);
    assert body[|body| - 1] != '\n';
    assert nl == NEWLINE ==> s[..|s| - 1] == body && s[|s| - 1] == '\n';
    assert nl == "" ==> s == body;
    assert SlugBody(s) == body;
  }

  /** The ids accepted are those of the pattern. */
  lemma ValidIdExactly(s: string)
    ensures ValidId(s) <==> MatchesPattern(s)
  {
    hide ValidId, IsSlug;
    if ValidId(s) {
      ValidIdMatches(s);
    }
    if MatchesPattern(s) {
      var nl, x, mid, y :| IsSlug(s, nl, x, mid, y);
      SlugIsValid(s, nl, x, mid, y);
    }
  }

  lemma ValidIdIsOneName(s: string)
    requires ValidId(s)
    ensures '/' !in s && '.' !in s && MemberNames.Plain(s)
  {
    forall i | 0 <= i < |s| ensures s[i] != '/' && s[i] != '.' {
      if i < |SlugBody(s)| {
        assert s[i] == SlugBody(s)[i];
      }
    }
    assert s[0] != '.';
  }

  // ----------------------------------------------------------------- the tree

  datatype SlotKey = SlotKey(tenant: string, quarantineId: string)
  datatype EvidenceKey = EvidenceKey(tenant: string, caseId: string, evidenceId: string)

  datatype SlotMeta = SlotMeta(quarantineId: string, tenant: string, sha256: string, size: nat, receivedAt: int)
  datatype Slot = Slot(blob: Option<Bytes>, meta: Option<SlotMeta>)

  datatype Original = Original(content: Bytes, readOnly: bool)
  datatype EvidenceDir = EvidenceDir(original: Option<Original>)

  datatype Manifest = Manifest(tenant: string, caseId: string, evidenceId: string, sha256: string, size: nat,
                               promotedAt: int, retentionUntil: int, legalHold: bool, sourceQuarantineId: string)

  datatype Tree = Tree(slots: map<SlotKey, Slot>, dirs: map<EvidenceKey, EvidenceDir>,
                       manifests: map<EvidenceKey, Manifest>)

  const EMPTY := Tree(map[], map[], map[])

  datatype Write =
    | MakeSlot(slot: SlotKey)
    | PutBlob(slot: SlotKey, content: Bytes)
    | PutMeta(slot: SlotKey, meta: SlotMeta)
    | MakeDir(key: EvidenceKey)
    | PutOriginal(key: EvidenceKey, content: Bytes)
    | ProtectOriginal(key: EvidenceKey)
    | PutManifest(key: EvidenceKey, manifest: Manifest)
    | DropSlot(slot: SlotKey)
    | DropEvidence(key: EvidenceKey)

  function Apply(t: Tree, w: Write): Tree
  {
    match w
    case MakeSlot(k) => t.(slots := t.slots[k := Slot(None, None)])
    case PutBlob(k, content) => if k in t.slots then t.(slots := t.slots[k := t.slots[k].(blob := Some(content))])
      else t
    case PutMeta(k, meta) => if k in t.slots then t.(slots := t.slots[k := t.slots[k].(meta := Some(meta))]) else t
    case MakeDir(e) => t.(dirs := t.dirs[e := EvidenceDir(None)])
    case PutOriginal(e, content) => t.(dirs := t.dirs[e := EvidenceDir(Some(Original(content, false)))])
    case ProtectOriginal(e) =>
      if e in t.dirs && t.dirs[e].original.Some?
      then t.(dirs := t.dirs[e := EvidenceDir(Some(t.dirs[e].original.value.(readOnly := true)))]) else t
    case PutManifest(e, m) => t.(manifests := t.manifests[e := m])
    case DropSlot(k) => t.(slots := t.slots - {k})
    case DropEvidence(e) => t.(dirs := t.dirs - {e}, manifests := t.manifests - {e})
  }

  /** The tree after the first `n` planned writes. */
  function After(t: Tree, ws: seq<Write>, n: nat): Tree
    requires n <= |ws|
  {
    if n == 0 then t else Apply(After(t, ws, n - 1), ws[n - 1])
  }

  function Done(t: Tree, p: Plan): Tree { After(t, p.writes, |p.writes|) }

  // --------------------------------------------------------------- operations

  /** One tenant's view of the store: its tenant id and configured limits. */
  datatype Scope = Scope(tenant: string, maxQuarantine: nat, retentionDays: int)

  const DAY := 86_400_000_000  // microseconds

  datatype Operation =
    | Ingest(scope: Scope, quarantineId: string, source: Option<Bytes>, now: int)
    | Promote(scope: Scope, caseId: string, evidenceId: string, quarantineId: string, expected: string,
              retentionDays: Option<int>, now: int)
    | SetHold(scope: Scope, caseId: string, evidenceId: string, hold: bool)
    | Delete(scope: Scope, caseId: string, evidenceId: string, confirmed: bool, now: int)

  datatype Reply = Staged(meta: SlotMeta) | Holds(manifest: Manifest) | Deleted

  /** The writes an operation makes when nothing interrupts it, and what it then answers. */
  datatype Plan = Plan(writes: seq<Write>, reply: Result<Reply, string>)

  function Refuse(code: string): Plan { Plan([], Err(code)) }

  function PlanIngest(sha: Sha, t: Tree, scope: Scope, quarantineId: string, source: Option<Bytes>, now: int): Plan
  {
    if source.None? then Refuse("SOURCE_INVALID")
    else if |source.value| > scope.maxQuarantine then Refuse("QUARANTINE_LIMIT_EXCEEDED")
    else if !ValidId(quarantineId) then Refuse("INVALID_ID")
    else
      var k := SlotKey(scope.tenant, quarantineId);
      if k in t.slots then Refuse("FileExistsError")
      else
        var meta := SlotMeta(quarantineId, scope.tenant, sha(source.value), |source.value|, now);
        Plan([MakeSlot(k), PutBlob(k, source.value), PutMeta(k, meta)], Ok(Staged(meta)))
  }

  /** `read_manifest` */
  function ReadManifest(t: Tree, scope: Scope, caseId: string, evidenceId: string): Result<Manifest, string>
  {
    var e := EvidenceKey(scope.tenant, caseId, evidenceId);
    if !ValidId(evidenceId) || !ValidId(caseId) then Err("INVALID_ID")
    else if e !in t.manifests || t.manifests[e].tenant != scope.tenant then Err("EVIDENCE_NOT_FOUND")
    else Ok(t.manifests[e])
  }

  /** `original_path`, followed by opening the file. */
  function ReadOriginal(t: Tree, scope: Scope, caseId: string, evidenceId: string): Result<Bytes, string>
  {
    var e := EvidenceKey(scope.tenant, caseId, evidenceId);
    match ReadManifest(t, scope, caseId, evidenceId)
    case Err(code) => Err(code)
    case Ok(_) =>
      if e !in t.dirs || t.dirs[e].original.None? then Err("EVIDENCE_NOT_FOUND")
      else Ok(t.dirs[e].original.value.content)
  }

  /** `verify_integrity`: whether the stored original has the digest of its manifest. */
  function Verify(sha: Sha, t: Tree, scope: Scope, caseId: string, evidenceId: string): Result<bool, string>
  {
    match ReadOriginal(t, scope, caseId, evidenceId)
    case Err(code) => Err(code)
    case Ok(content) => Ok(sha(content) == t.manifests[EvidenceKey(scope.tenant, caseId, evidenceId)].sha256)
  }

  function PublishWrites(e: EvidenceKey, k: SlotKey, blob: Bytes, m: Manifest): seq<Write>
  {
    [MakeDir(e), PutOriginal(e, blob), ProtectOriginal(e), PutManifest(e, m), DropSlot(k)]
  }

  function PlanPromote(sha: Sha, t: Tree, scope: Scope, caseId: string, evidenceId: string, quarantineId: string,
                       expected: string, retentionDays: Option<int>, now: int): Plan
  {
    var e := EvidenceKey(scope.tenant, caseId, evidenceId);
    var k := SlotKey(scope.tenant, quarantineId);
    if !ValidId(evidenceId) || !ValidId(caseId) then Refuse("INVALID_ID")
    else if e in t.manifests then
      match ReadOriginal(t, scope, caseId, evidenceId)
      case Err(code) => Refuse(code)
      case Ok(content) =>
        var m := t.manifests[e];
        if m.sha256 != expected || m.size != |content| || sha(content) != m.sha256 then Refuse("EVIDENCE_CONFLICT")
        else Plan([], Ok(Holds(m)))
    else if !ValidId(quarantineId) then Refuse("INVALID_ID")
    else if k !in t.slots || t.slots[k].blob.None? || t.slots[k].meta.None? then Refuse("QUARANTINE_NOT_FOUND")
    else if t.slots[k].meta.value.tenant != scope.tenant then Refuse("QUARANTINE_NOT_FOUND")
    else
      var blob, actual := t.slots[k].blob.value, sha(t.slots[k].blob.value);
      if actual != t.slots[k].meta.value.sha256 || actual != expected then Refuse("CHECKSUM_MISMATCH")
      else if e in t.dirs then Refuse("EVIDENCE_EXISTS")
      else
        var days := if retentionDays.Some? then retentionDays.value else scope.retentionDays;
        var m := Manifest(scope.tenant, caseId, evidenceId, actual, |blob|, now, now + days * DAY, false, quarantineId);
        Plan(PublishWrites(e, k, blob, m), Ok(Holds(m)))
  }

  function PlanSetHold(t: Tree, scope: Scope, caseId: string, evidenceId: string, hold: bool): Plan
  {
    match ReadManifest(t, scope, caseId, evidenceId)
    case Err(code) => Refuse(code)
    case Ok(m) =>
      var updated := m.(legalHold := hold);
      Plan([PutManifest(EvidenceKey(scope.tenant, caseId, evidenceId), updated)], Ok(Holds(updated)))
  }

  function PlanDelete(t: Tree, scope: Scope, caseId: string, evidenceId: string, confirmed: bool, now: int): Plan
  {
    match ReadManifest(t, scope, caseId, evidenceId)
    case Err(code) => Refuse(code)
    case Ok(m) =>
      if m.legalHold then Refuse("LEGAL_HOLD_ACTIVE")
      else if now < m.retentionUntil then Refuse("RETENTION_ACTIVE")
      else if !confirmed then Refuse("DELETE_NOT_CONFIRMED")
      else Plan([DropEvidence(EvidenceKey(scope.tenant, caseId, evidenceId))], Ok(Deleted))
  }

  function PlanOf(sha: Sha, t: Tree, op: Operation): Plan
  {
    match op
    case Ingest(scope, q, source, now) => PlanIngest(sha, t, scope, q, source, now)
    case Promote(scope, c, e, q, expected, days, now) => PlanPromote(sha, t, scope, c, e, q, expected, days, now)
    case SetHold(scope, c, e, hold) => PlanSetHold(t, scope, c, e, hold)
    case Delete(scope, c, e, confirmed, now) => PlanDelete(t, scope, c, e, confirmed, now)
  }

  // ------------------------------------------------------------- the store itself

  /** The storage volume, shared by the stores of all tenants. */
  class StorageRoot {
    var slots: map<SlotKey, Slot>
    var dirs: map<EvidenceKey, EvidenceDir>
    var manifests: map<EvidenceKey, Manifest>

    constructor ()
      ensures Contents() == EMPTY
    {
      slots, dirs, manifests := map[], map[], map[];
    }

    function Contents(): Tree
      reads this
    {
      Tree(slots, dirs, manifests)
    }
  }

  class EvidenceStore {
    const sha: Sha
    const root: StorageRoot
    const scope: Scope

    /** The constructor of the source raises INVALID_ID for any other tenant id. */
    constructor (sha: Sha, root: StorageRoot, scope: Scope)
      requires ValidId(scope.tenant)
      ensures this.sha == sha && this.root == root && this.scope == scope
    {
      this.sha, this.root, this.scope := sha, root, scope;
    }

    method IngestToQuarantine(quarantineId: string, source: Option<Bytes>, now: int) returns (r: Result<Reply, string>)
      modifies root
      ensures var p := old(PlanIngest(sha, root.Contents(), scope, quarantineId, source, now));
              r == p.reply && root.Contents() == Done(old(root.Contents()), p)
    {
      if source.None? { return Err("SOURCE_INVALID"); }
      var content := source.value;
      if |content| > scope.maxQuarantine { return Err("QUARANTINE_LIMIT_EXCEEDED"); }
      if !ValidId(quarantineId) { return Err("INVALID_ID"); }
      var k := SlotKey(scope.tenant, quarantineId);
      if k in root.slots { return Err("FileExistsError"); }
      ghost var before := root.Contents();
      root.slots := root.slots[k := Slot(None, None)];
      root.slots := root.slots[k := root.slots[k].(blob := Some(content))];
      var meta := SlotMeta(quarantineId, scope.tenant, sha(content), |content|, now);
      root.slots := root.slots[k := root.slots[k].(meta := Some(meta))];
      ThreeWrites(before, [MakeSlot(k), PutBlob(k, content), PutMeta(k, meta)]);
      return Ok(Staged(meta));
    }

    /** An ingest that dies after `n` of its writes. */
    method IngestTorn(quarantineId: string, source: Option<Bytes>, now: int, n: nat) returns (r: Result<(), string>)
      requires n < 3
      modifies root
      ensures var p := old(PlanIngest(sha, root.Contents(), scope, quarantineId, source, now));
              if p.reply.Err? then r == Err(p.reply.error) && root.Contents() == old(root.Contents())
              else r == Ok(()) && root.Contents() == After(old(root.Contents()), p.writes, n)
    {
      if source.None? { return Err("SOURCE_INVALID"); }
      if |source.value| > scope.maxQuarantine { return Err("QUARANTINE_LIMIT_EXCEEDED"); }
      if !ValidId(quarantineId) { return Err("INVALID_ID"); }
      var k := SlotKey(scope.tenant, quarantineId);
      if k in root.slots { return Err("FileExistsError"); }
      var meta := SlotMeta(quarantineId, scope.tenant, sha(source.value), |source.value|, now);
      ThreeWrites(root.Contents(), [MakeSlot(k), PutBlob(k, source.value), PutMeta(k, meta)]);
      if n >= 1 {
        root.slots := root.slots[k := Slot(None, None)];
      }
      if n >= 2 {
        root.slots := root.slots[k := root.slots[k].(blob := Some(source.value))];
      }
      return Ok(());
    }

    /** The directory loop: the first slot whose metadata names this tenant and this digest. */
    method FindQuarantineBySha(sha256: string) returns (r: Option<SlotMeta>)
      ensures Finds(root.Contents(), scope.tenant, sha256, r)
    {
      var todo := root.slots.Keys;
      while todo != {}
        invariant todo <= root.slots.Keys
        invariant forall k :: k in root.slots && k !in todo ==> !Matches(root.Contents(), scope.tenant, sha256, k)
        decreases todo
      {
        var k :| k in todo;
        todo := todo - {k};
        if k.tenant == scope.tenant {
          var slot := root.slots[k];
          if slot.meta.Some? && slot.meta.value.tenant == scope.tenant && slot.meta.value.sha256 == sha256 {
            assert Matches(root.Contents(), scope.tenant, sha256, k);
            return slot.meta;
          }
        }
      }
      return None;
    }

    /** The writing half of a promotion, in the order of the source, as far as the first `n` writes. */
    method Publish(e: EvidenceKey, k: SlotKey, blob: Bytes, manifest: Manifest, n: nat)
      requires n <= 5
      modifies root
      ensures root.Contents() == After(old(root.Contents()), PublishWrites(e, k, blob, manifest), n)
    {
      FiveWrites(root.Contents(), PublishWrites(e, k, blob, manifest));
      if n >= 1 {
        root.dirs := root.dirs[e := EvidenceDir(None)];
      }
      if n >= 2 {
        root.dirs := root.dirs[e := EvidenceDir(Some(Original(blob, false)))];
      }
      if n >= 3 {
        root.dirs := root.dirs[e := EvidenceDir(Some(root.dirs[e].original.value.(readOnly := true)))];
      }
      if n >= 4 {
        root.manifests := root.manifests[e := manifest];
      }
      if n >= 5 {
        root.slots := root.slots - {k};
      }
    }

    /** A promotion that dies after `n` of its writes. */
    method PromoteTorn(caseId: string, evidenceId: string, quarantineId: string, expected: string,
                       retentionDays: Option<int>, now: int, n: nat) returns (r: Result<Reply, string>)
      modifies root
      ensures var t := old(root.Contents());
              var p := PlanPromote(sha, t, scope, caseId, evidenceId, quarantineId, expected, retentionDays, now);
              r == p.reply && root.Contents() == After(t, p.writes, if n < |p.writes| then n else |p.writes|)
    {
      var p := PlanPromote(sha, root.Contents(), scope, caseId, evidenceId, quarantineId, expected, retentionDays, now);
      if p.writes != [] {
        var k := SlotKey(scope.tenant, quarantineId);
        var e := EvidenceKey(scope.tenant, caseId, evidenceId);
        Publish(e, k, root.slots[k].blob.value, p.reply.value.manifest, if n < 5 then n else 5);
      }
      return p.reply;
    }

    method PromoteToEvidence(caseId: string, evidenceId: string, quarantineId: string, expected: string,
                             retentionDays: Option<int>, now: int) returns (r: Result<Reply, string>)
      modifies root
      ensures var p := old(PlanPromote(sha, root.Contents(), scope, caseId, evidenceId, quarantineId, expected,
                                       retentionDays, now));
              r == p.reply && root.Contents() == Done(old(root.Contents()), p)
    {
      if !ValidId(evidenceId) || !ValidId(caseId) { return Err("INVALID_ID"); }
      var e := EvidenceKey(scope.tenant, caseId, evidenceId);
      if e in root.manifests {
        var content := ReadOriginal(root.Contents(), scope, caseId, evidenceId);
        if content.Err? { return Err(content.error); }
        var existing := root.manifests[e];
        if existing.sha256 != expected || existing.size != |content.value| || sha(content.value) != existing.sha256 {
          return Err("EVIDENCE_CONFLICT");
        }
        return Ok(Holds(existing));
      }
      if !ValidId(quarantineId) { return Err("INVALID_ID"); }
      var k := SlotKey(scope.tenant, quarantineId);
      if k !in root.slots || root.slots[k].blob.None?
        || root.slots[k].meta.None? { return Err("QUARANTINE_NOT_FOUND"); }
      var meta, blob := root.slots[k].meta.value, root.slots[k].blob.value;
      if meta.tenant != scope.tenant { return Err("QUARANTINE_NOT_FOUND"); }
      var actual := sha(blob);
      if actual != meta.sha256 || actual != expected { return Err("CHECKSUM_MISMATCH"); }
      if e in root.dirs { return Err("EVIDENCE_EXISTS"); }
      var days := if retentionDays.Some? then retentionDays.value else scope.retentionDays;
      var manifest := Manifest(scope.tenant, caseId, evidenceId, actual, |blob|, now, now + days * DAY, false,
                               quarantineId);
      Publish(e, k, blob, manifest, 5);
      return Ok(Holds(manifest));
    }

    method VerifyIntegrity(caseId: string, evidenceId: string) returns (r: Result<bool, string>)
      ensures r == Verify(sha, root.Contents(), scope, caseId, evidenceId)
    {
      var original := ReadOriginal(root.Contents(), scope, caseId, evidenceId);
      if original.Err? { return Err(original.error); }
      return Ok(sha(original.value) == root.manifests[EvidenceKey(scope.tenant, caseId, evidenceId)].sha256);
    }

    method SetLegalHold(caseId: string, evidenceId: string, hold: bool) returns (r: Result<Reply, string>)
      modifies root
      ensures var p := old(PlanSetHold(root.Contents(), scope, caseId, evidenceId, hold));
              r == p.reply && root.Contents() == Done(old(root.Contents()), p)
    {
      var manifest := ReadManifest(root.Contents(), scope, caseId, evidenceId);
      if manifest.Err? { return Err(manifest.error); }
      var updated := manifest.value.(legalHold := hold);
      OneWrite(root.Contents(), PutManifest(EvidenceKey(scope.tenant, caseId, evidenceId), updated));
      root.manifests := root.manifests[EvidenceKey(scope.tenant, caseId, evidenceId) := updated];
      return Ok(Holds(updated));
    }

    method DeleteEvidence(caseId: string, evidenceId: string, confirmed: bool, now: int)
      returns (r: Result<Reply, string>)
      modifies root
      ensures var p := old(PlanDelete(root.Contents(), scope, caseId, evidenceId, confirmed, now));
              r == p.reply && root.Contents() == Done(old(root.Contents()), p)
    {
      var manifest := ReadManifest(root.Contents(), scope, caseId, evidenceId);
      if manifest.Err? { return Err(manifest.error); }
      if manifest.value.legalHold { return Err("LEGAL_HOLD_ACTIVE"); }
      if now < manifest.value.retentionUntil { return Err("RETENTION_ACTIVE"); }
      if !confirmed { return Err("DELETE_NOT_CONFIRMED"); }
      var e := EvidenceKey(scope.tenant, caseId, evidenceId);
      OneWrite(root.Contents(), DropEvidence(e));
      root.dirs := root.dirs - {e};
      root.manifests := root.manifests - {e};
      return Ok(Deleted);
    }
  }

  ghost predicate Matches(t: Tree, tenant: string, sha256: string, k: SlotKey)
  {
    && k in t.slots && k.tenant == tenant && t.slots[k].meta.Some?
    && t.slots[k].meta.value.tenant == tenant && t.slots[k].meta.value.sha256 == sha256
  }

  /** `r` is an answer `find_quarantine_by_sha` may give, whatever order the directory is listed in. */
  ghost predicate Finds(t: Tree, tenant: string, sha256: string, r: Option<SlotMeta>)
  {
    match r
    case Some(meta) => exists k :: Matches(t, tenant, sha256, k) && t.slots[k].meta == Some(meta)
    case None => forall k :: !Matches(t, tenant, sha256, k)
  }

  /** Some answer the search may give. */
  ghost function AnyFind(t: Tree, tenant: string, sha256: string): (r: Option<SlotMeta>)
    ensures Finds(t, tenant, sha256, r)
  {
    if exists k :: Matches(t, tenant, sha256, k) then
      var k :| Matches(t, tenant, sha256, k);
      t.slots[k].meta
    else None
  }

  lemma OneWrite(t: Tree, w: Write)
    ensures After(t, [w], 0) == t && After(t, [w], 1) == Apply(t, w)
  {
  }

  lemma ThreeWrites(t: Tree, ws: seq<Write>)
    requires |ws| == 3
    ensures After(t, ws, 0) == t && After(t, ws, 1) == Apply(t, ws[0])
            && After(t, ws, 2) == Apply(After(t, ws, 1), ws[1])
    ensures After(t, ws, 3) == Apply(After(t, ws, 2), ws[2])
  {
  }

  lemma FiveWrites(t: Tree, ws: seq<Write>)
    requires |ws| == 5
    ensures After(t, ws, 0) == t && After(t, ws, 1) == Apply(t, ws[0])
            && After(t, ws, 2) == Apply(After(t, ws, 1), ws[1])
    ensures After(t, ws, 3) == Apply(After(t, ws, 2), ws[2]) && After(t, ws, 4) == Apply(After(t, ws, 3), ws[3])
    ensures After(t, ws, 5) == Apply(After(t, ws, 4), ws[4])
  {
  }
}
