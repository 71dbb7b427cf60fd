/**
 The ingest-envelope table: preview, approval, commit and quarantine under the unique constraints
 of its migration, and the batch preview built on it.
 */
module IngestRepository {
  import opened Text
  import IdempotencyKeys

  datatype RowKey = RowKey(tenant: string, envelopeId: string)

  /** The vendor coordinates of an envelope. */
  datatype Origin = Origin(system: string, entity: string, id: string, scope: string, revision: string,
                           receivedAt: string)

  datatype Row = Row(key: RowKey, idempotencyKey: string, origin: Origin, sha256: string, payload: string,
                     mapping: string, analyst: string, status: string, target: Option<string>,
                     error: Option<string>, reference: Option<string>)

  type Table = map<RowKey, Row>

  datatype Principal = Principal(tenant: string, analyst: string)

  /** An envelope once its defaults are filled in. */
  datatype Envelope = Envelope(envelopeId: string, idempotencyKey: string, origin: Origin, sha256: string,
                               payload: string, mapping: string, status: string)

  predicate KnownStatus(s: string)
  {
    s in ["received", "validated", "preview", "approved", "applied", "duplicate", "rejected", "quarantined", "conflict"]
  }

  predicate ShaFormat(s: string) { |s| == 64 && forall i :: 0 <= i < 64 ==> IdempotencyKeys.HexCharacter(s[i]) }

  ghost predicate Unique(t: Table)
  {
    && (forall k :: k in t ==> t[k].key == k)
    && (forall j, k :: j in t && k in t && j.tenant == k.tenant && t[j].idempotencyKey == t[k].idempotencyKey ==>
        j == k)
  }

  ghost predicate Holds(t: Table, tenant: string, idem: string, k: RowKey)
  {
    k in t && k.tenant == tenant && t[k].idempotencyKey == idem
  }

  ghost predicate Taken(t: Table, tenant: string, idem: string) { exists k :: Holds(t, tenant, idem, k) }

  ghost function HolderOf(t: Table, tenant: string, idem: string): (k: RowKey)
    requires Taken(t, tenant, idem)
    ensures Holds(t, tenant, idem, k)
  {
    var k :| Holds(t, tenant, idem, k); k
  }

  function NewRow(p: Principal, e: Envelope): Row
  {
    Row(RowKey(p.tenant, e.envelopeId), e.idempotencyKey, e.origin, e.sha256, e.payload, e.mapping, p.analyst, e.status,
        None, None, None)
  }

  const MISMATCH := "idempotency_key_reuse_mismatch"

  /** What a second envelope under an existing key does to the row. */
  function Replayed(row: Row, sha256: string): Row
  {
    if row.sha256 != sha256 then row.(status := "conflict", error := Some(MISMATCH))
    else if row.status !in ["duplicate", "applied", "conflict"] then row.(status := "duplicate")
    else row
  }

  /** The effect of an operation and its answer; a row in the answer is the row as stored. */
  datatype Effect = Effect(table: Table, reply: Result<Row, string>)

  function Put(t: Table, row: Row): Effect { Effect(t[row.key := row], Ok(row)) }

  ghost function StorePreview(t: Table, p: Principal, e: Envelope): Effect
  {
    var k := RowKey(p.tenant, e.envelopeId);
    if !KnownStatus(e.status) || !ShaFormat(e.sha256) then Effect(t, Err("CheckViolation"))
    else if Taken(t, p.tenant, e.idempotencyKey) then
      Put(t, Replayed(t[HolderOf(t, p.tenant, e.idempotencyKey)], e.sha256))
    else if k in t then Effect(t, Err("UniqueViolation"))
    else Put(t, NewRow(p, e))
  }

  function Approve(t: Table, p: Principal, envelopeId: string): Effect
  {
    var k := RowKey(p.tenant, envelopeId);
    if k !in t then Effect(t, Err("not found"))
    else if t[k].status != "preview" then Effect(t, Err("must be preview"))
    else Put(t, t[k].(status := "approved"))
  }

  function ApplyCommit(t: Table, p: Principal, envelopeId: string, target: Option<string>): Effect
  {
    var k := RowKey(p.tenant, envelopeId);
    if k !in t then Effect(t, Err("not found"))
    else if t[k].status != "approved" && t[k].status != "preview" then Effect(t, Err("cannot apply"))
    else Put(t, t[k].(status := "applied", target := if target.Some? then target else t[k].target))
  }

  function MarkQuarantined(t: Table, p: Principal, envelopeId: string, reference: string, reason: Option<string>):
    Effect
  {
    var k := RowKey(p.tenant, envelopeId);
    if k !in t then Effect(t, Err("not found"))
    else Put(t, t[k].(status := "quarantined", reference := Some(reference), error := if reason.Some? then reason
                      else t[k].error))
  }

  // ------------------------------------------------- what each operation comes to

  /** Only the row under `k` differs. */
  ghost predicate OnlyRow(t: Table, t': Table, k: RowKey)
  {
    k in t && t'.Keys == t.Keys && forall j :: j in t && j != k ==> t'[j] == t[j]
  }

  /** A second envelope under a key that a row holds: another payload hash makes the row a conflict, with the
      code that says so; the same hash leaves applied, duplicate and conflict rows alone and makes any other a
      duplicate. Nothing else of the row changes, and no other row. */
  lemma ReplayExactly(t: Table, p: Principal, e: Envelope, k: RowKey)
    requires Unique(t) && Holds(t, p.tenant, e.idempotencyKey, k) && KnownStatus(e.status) && ShaFormat(e.sha256)
    ensures var f := StorePreview(t, p, e);
            && OnlyRow(t, f.table, k) && f.reply == Ok(f.table[k])
            && f.table[k].(status := t[k].status, error := t[k].error) == t[k]
            && (e.sha256 != t[k].sha256 ==>
                  f.table[k].status == "conflict" && f.table[k].error == Some("idempotency_key_reuse_mismatch"))
            && (e.sha256 == t[k].sha256 ==> f.table[k].error == t[k].error)
            && (e.sha256 == t[k].sha256 && t[k].status in {"applied", "duplicate", "conflict"} ==> f.table == t)
            && (e.sha256 == t[k].sha256 && t[k].status !in {"applied", "duplicate", "conflict"} ==>
                  f.table[k].status == "duplicate")
  {
    HolderIsTheOne(t, p.tenant, e.idempotencyKey, k);
    ReplayedRow(t[k], e.sha256);
    hide Replayed, KnownStatus, ShaFormat, Unique, HolderOf, Holds;
    assert Taken(t, p.tenant, e.idempotencyKey) && t[k].key == k;
  }

  lemma HolderIsTheOne(t: Table, tenant: string, idem: string, k: RowKey)
    requires Unique(t) && Holds(t, tenant, idem, k)
    ensures Taken(t, tenant, idem) && HolderOf(t, tenant, idem) == k && t[k].key == k
  {
  }

  lemma ReplayedRow(row: Row, sha256: string)
    ensures var r := Replayed(row, sha256);
            && r.(status := row.status, error := row.error) == row
            && (sha256 != row.sha256 ==> r.status == "conflict" && r.error == Some("idempotency_key_reuse_mismatch"))
            && (sha256 == row.sha256 && row.status in {"applied", "duplicate", "conflict"} ==> r == row)
            && (sha256 == row.sha256 && row.status !in {"applied", "duplicate", "conflict"} ==>
                  r.status == "duplicate" && r.error == row.error)
  {
  }

  /** An envelope under a key that no row of the tenant holds is inserted as it is, without target, error or
      quarantine reference, unless its id is taken or the constraints of the table refuse it. */
  lemma InsertExactly(t: Table, p: Principal, e: Envelope)
    requires forall k :: !Holds(t, p.tenant, e.idempotencyKey, k)
    ensures var f := StorePreview(t, p, e);
            var k := RowKey(p.tenant, e.envelopeId);
            && (f.reply.Ok? <==> k !in t && KnownStatus(e.status) && ShaFormat(e.sha256))
            && (f.reply.Err? ==> f.table == t)
            && (f.reply.Ok? ==>
                  && k in f.table && f.reply.value == f.table[k] && f.table == t[k := f.table[k]]
                  && var row := f.table[k];
                     && row.key == k && row.idempotencyKey == e.idempotencyKey && row.origin == e.origin
                     && row.sha256 == e.sha256 && row.payload == e.payload && row.mapping == e.mapping
                     && row.analyst == p.analyst && row.status == e.status
                     && row.target.None? && row.error.None? && row.reference.None?)
  {
    hide KnownStatus, ShaFormat, Holds;
  }

  /** An envelope the constraints refuse changes nothing. */
  lemma RefusedEnvelopeChangesNothing(t: Table, p: Principal, e: Envelope)
    requires !KnownStatus(e.status) || !ShaFormat(e.sha256)
    ensures StorePreview(t, p, e).table == t && StorePreview(t, p, e).reply.Err?
  {
    hide KnownStatus, ShaFormat;
  }

  /** Only a preview row becomes approved, and nothing else of it changes. */
  lemma ApproveExactly(t: Table, p: Principal, envelopeId: string)
    requires Unique(t)
    ensures var f := Approve(t, p, envelopeId);
            var k := RowKey(p.tenant, envelopeId);
            && (f.reply.Ok? <==> k in t && t[k].status == "preview")
            && (f.reply.Err? ==> f.table == t)
            && (f.reply.Ok? ==> OnlyRow(t, f.table, k) && f.reply.value == f.table[k]
                                && f.table[k].status == "approved" && f.table[k].(status := "preview") == t[k])
  {
  }

  /** Only a preview or approved row becomes applied; a target given replaces the one stored. */
  lemma ApplyExactly(t: Table, p: Principal, envelopeId: string, target: Option<string>)
    requires Unique(t)
    ensures var f := ApplyCommit(t, p, envelopeId, target);
            var k := RowKey(p.tenant, envelopeId);
            && (f.reply.Ok? <==> k in t && t[k].status in {"preview", "approved"})
            && (f.reply.Err? ==> f.table == t)
            && (f.reply.Ok? ==> OnlyRow(t, f.table, k) && f.reply.value == f.table[k]
                                && f.table[k].status == "applied"
                                && (target.Some? ==> f.table[k].target == target)
                                && (target.None? ==> f.table[k].target == t[k].target)
                                && f.table[k].(status := t[k].status, target := t[k].target) == t[k])
  {
  }

  /** Any row becomes quarantined, with the new reference; a reason given replaces the error stored. */
  lemma QuarantineExactly(t: Table, p: Principal, envelopeId: string, reference: string, reason: Option<string>)
    requires Unique(t)
    ensures var f := MarkQuarantined(t, p, envelopeId, reference, reason);
            var k := RowKey(p.tenant, envelopeId);
            && (f.reply.Ok? <==> k in t)
            && (f.reply.Err? ==> f.table == t)
            && (f.reply.Ok? ==> OnlyRow(t, f.table, k) && f.reply.value == f.table[k]
                                && f.table[k].status == "quarantined" && f.table[k].reference == Some(reference)
                                && (reason.Some? ==> f.table[k].error == reason)
                                && (reason.None? ==> f.table[k].error == t[k].error)
                                && f.table[k].(status := t[k].status, reference := t[k].reference, error := t[k].error)
                                   == t[k])
  {
  }

  // -------------------------------------------------------------------- history

  datatype Event =
    | Inserted(key: RowKey, row: Row)
    | Approved(key: RowKey)
    | Applied(key: RowKey, target: Option<string>)
    | Withdrawn(key: RowKey)  // became duplicate, conflict or quarantined

  type History = seq<Event>

  /** How far a row is from being committable: preview, approved, or past both. */
  function Rank(status: string): nat
  {
    if status == "preview" then 0 else if status == "approved" then 1 else 2
  }

  /** What an event still says about the row in the present table. */
  ghost predicate Recalls(t: Table, e: Event)
  {
    && e.key in t
    && match e
       case Inserted(k, row) =>
         t[k].sha256 == row.sha256 && t[k].payload == row.payload && t[k].origin == row.origin
         && t[k].idempotencyKey == row.idempotencyKey && t[k].mapping == row.mapping && t[k].analyst == row.analyst
         && Rank(t[k].status) >= Rank(row.status)
         && (Rank(row.status) == 2 ==>
             t[k].target == row.target && (t[k].status == "applied" ==> row.status == "applied"))
       case Approved(k) => Rank(t[k].status) >= 1
       case Applied(k, target) => Rank(t[k].status) == 2 && t[k].target == target
       case Withdrawn(k) => Rank(t[k].status) == 2 && t[k].status != "applied"
  }

  /** The event after which the row is past preview and approval: it was applied or withdrawn, or was
      inserted in a status that is neither, as a flagged envelope is. */
  predicate Closes(e: Event) { e.Applied? || e.Withdrawn? || (e.Inserted? && Rank(e.row.status) == 2) }

  /** The event after which the row has its approval. */
  predicate GivesApproval(e: Event) { e.Approved? || (e.Inserted? && Rank(e.row.status) == 1) }

  /** Two events of one row in this order exclude each other. */
  predicate Excludes(a: Event, b: Event)
  {
    a.key == b.key && ((GivesApproval(a) && b.Approved?) || (Closes(a) && (b.Applied? || b.Approved?)))
  }

  /** Each row was approved at most once and applied at most once, and never once it was quarantined,
      duplicate or conflict, from its insertion on. */
  ghost predicate AtMostOnce(h: History)
  {
    forall i, j :: 0 <= i < j < |h| ==> !Excludes(h[i], h[j])
  }

  ghost predicate HistoryInv(t: Table, h: History)
  {
    && Unique(t) && AtMostOnce(h)
    && (forall i :: 0 <= i < |h| ==> Recalls(t, h[i]))
    && (forall k :: k in t ==> exists i :: 0 <= i < |h| && h[i].Inserted? && h[i].key == k)
  }

  /** The event a change of one row amounts to. */
  function EventOf(t: Table, row: Row): Event
  {
    if row.key !in t then Inserted(row.key, row)
    else if row.status == "approved" then Approved(row.key)
    else if row.status == "applied" then Applied(row.key, row.target)
    else Withdrawn(row.key)
  }

  /** The history grows by one event whenever the table changes or the operation commits or inserts. */
  function Extended(t: Table, f: Effect, h: History): History
  {
    if f.table == t || f.reply.Err? then h else h + [EventOf(t, f.reply.value)]
  }

  // ------------------------------------------------------------- the repository

  class IngestRepository {
    var rows: Table
    ghost var history: History

    ghost predicate Valid()
      reads this
    {
      HistoryInv(rows, history)
    }

    constructor ()
      ensures Valid() && rows == map[] && history == []
    {
      rows, history := map[], [];
    }

    method Fetch(tenant: string, idem: string) returns (found: Option<Row>)
      requires Unique(rows)
      ensures found == if Taken(rows, tenant, idem) then Some(rows[HolderOf(rows, tenant, idem)]) else None
    {
      var todo := rows.Keys;
      while todo != {}
        invariant todo <= rows.Keys
        invariant forall k :: k in rows && k !in todo ==> !Holds(rows, tenant, idem, k)
        decreases todo
      {
        var k :| k in todo;
        if k.tenant == tenant && rows[k].idempotencyKey == idem {
          assert Holds(rows, tenant, idem, k);
          return Some(rows[k]);
        }
        todo := todo - {k};
      }
      return None;
    }

    method StoreEnvelope(p: Principal, e: Envelope) returns (reply: Result<Row, string>)
      requires Valid()
      modifies this
      ensures Valid()
      ensures var f := old(StorePreview(rows, p, e));
              rows == f.table && reply == f.reply && history == old(Extended(rows, StorePreview(rows, p, e), history))
    {
      StorePreviewKeeps(rows, history, p, e);
      ghost var f := StorePreview(rows, p, e);
      if !KnownStatus(e.status) || !ShaFormat(e.sha256) {
        return Err("CheckViolation");
      }
      var existing := Fetch(p.tenant, e.idempotencyKey);
      if existing.None? && RowKey(p.tenant, e.envelopeId) in rows {
        return Err("UniqueViolation");
      }
      var row := if existing.Some? then Replayed(existing.value, e.sha256) else NewRow(p, e);
      history := Extended(rows, f, history);
      rows := rows[row.key := row];
      return Ok(row);
    }

    method ApproveEnvelope(p: Principal, envelopeId: string) returns (reply: Result<Row, string>)
      requires Valid()
      modifies this
      ensures Valid()
      ensures var f := old(Approve(rows, p, envelopeId));
              rows == f.table && reply == f.reply
              && history == old(Extended(rows, Approve(rows, p, envelopeId), history))
    {
      ApproveKeeps(rows, history, p, envelopeId);
      var k := RowKey(p.tenant, envelopeId);
      if k !in rows {
        return Err("not found");
      }
      if rows[k].status != "preview" {
        return Err("must be preview");
      }
      history := Extended(rows, Approve(rows, p, envelopeId), history);
      rows := rows[k := rows[k].(status := "approved")];
      return Ok(rows[k]);
    }

    method CommitEnvelope(p: Principal, envelopeId: string, target: Option<string>) returns (reply: Result<Row, string>)
      requires Valid()
      modifies this
      ensures Valid()
      ensures var f := old(ApplyCommit(rows, p, envelopeId, target));
              rows == f.table && reply == f.reply
              && history == old(Extended(rows, ApplyCommit(rows, p, envelopeId, target), history))
    {
      ApplyKeeps(rows, history, p, envelopeId, target);
      var k := RowKey(p.tenant, envelopeId);
      if k !in rows {
        return Err("not found");
      }
      if rows[k].status != "approved" && rows[k].status != "preview" {
        return Err("cannot apply");
      }
      history := Extended(rows, ApplyCommit(rows, p, envelopeId, target), history);
      rows := rows[k := rows[k].(status := "applied", target := if target.Some? then target else rows[k].target)];
      return Ok(rows[k]);
    }

    method QuarantineEnvelope(p: Principal, envelopeId: string, reference: string, reason: Option<string>)
      returns (reply: Result<Row, string>)
      requires Valid()
      modifies this
      ensures Valid()
      ensures var f := old(MarkQuarantined(rows, p, envelopeId, reference, reason));
              rows == f.table && reply == f.reply
              && history == old(Extended(rows, MarkQuarantined(rows, p, envelopeId, reference, reason), history))
    {
      QuarantineKeeps(rows, history, p, envelopeId, reference, reason);
      var k := RowKey(p.tenant, envelopeId);
      if k !in rows {
        return Err("not found");
      }
      history := Extended(rows, MarkQuarantined(rows, p, envelopeId, reference, reason), history);
      rows := rows[k := rows[k].(status := "quarantined", reference := Some(reference),
                                 error := if reason.Some? then reason else rows[k].error)];
      return Ok(rows[k]);
    }
  }

  // ----------------------------------------------------------- what runs keep

  datatype Operation =
    | Store(principal: Principal, envelope: Envelope)
    | Approval(principal: Principal, envelopeId: string)
    | Commit(principal: Principal, envelopeId: string, target: Option<string>)
    | Quarantine(principal: Principal, envelopeId: string, reference: string, reason: Option<string>)

  ghost function EffectOf(t: Table, op: Operation): Effect
  {
    match op
    case Store(p, e) => StorePreview(t, p, e)
    case Approval(p, id) => Approve(t, p, id)
    case Commit(p, id, target) => ApplyCommit(t, p, id, target)
    case Quarantine(p, id, reference, reason) => MarkQuarantined(t, p, id, reference, reason)
  }

  ghost function Run(ops: seq<Operation>): (Table, History)
  {
    if ops == [] then (map[], [])
    else
      var (t, h) := Run(ops[..|ops| - 1]);
      var f := EffectOf(t, ops[|ops| - 1]);
      (f.table, Extended(t, f, h))
  }

  /** A change of one existing row that never comes back towards preview. */
  ghost predicate Advances(a: Row, b: Row)
  {
    && b.key == a.key && b.idempotencyKey == a.idempotencyKey && b.origin == a.origin && b.sha256 == a.sha256
    && b.payload == a.payload && b.mapping == a.mapping && b.analyst == a.analyst
    && (b.status == "approved" ==> a.status == "preview")
    && (b.status == "applied" ==> Rank(a.status) < 2)
    && b.status != "preview"
    && (Rank(a.status) == 2 ==> b.target == a.target)
  }

  lemma AdvanceUnique(t: Table, row: Row)
    requires Unique(t) && row.key in t && Advances(t[row.key], row)
    ensures Unique(t[row.key := row])
  {
    var t' := t[row.key := row];
    assert forall k :: k in t' ==> k in t && t'[k].idempotencyKey == t[k].idempotencyKey;
  }

  lemma StoreKeepsUnique(t: Table, p: Principal, e: Envelope)
    requires Unique(t)
    ensures Unique(StorePreview(t, p, e).table)
  {
    var idem := e.idempotencyKey;
    if KnownStatus(e.status) && ShaFormat(e.sha256) {
      if k :| Holds(t, p.tenant, idem, k) {
        ReplayExactly(t, p, e, k);
        hide StorePreview, Replayed;
        assert t[k].key == k;
      } else {
        InsertExactly(t, p, e);
        hide StorePreview;
        assert forall k :: k in t ==> !Holds(t, p.tenant, idem, k);
      }
    }
  }

  lemma AdvanceRecalls(t: Table, row: Row, e: Event)
    requires row.key in t && Advances(t[row.key], row) && Recalls(t, e)
    ensures Recalls(t[row.key := row], e) && !Excludes(e, EventOf(t, row))
  {
  }

  lemma AdvanceIsRecalled(t: Table, row: Row)
    requires row.key in t && Advances(t[row.key], row)
    ensures Recalls(t[row.key := row], EventOf(t, row))
  {
  }

  lemma AdvanceKeeps(t: Table, h: History, row: Row)
    requires HistoryInv(t, h) && row.key in t && Advances(t[row.key], row)
    ensures HistoryInv(t[row.key := row], h + [EventOf(t, row)])
  {
    hide Unique, Advances, Recalls, Excludes, EventOf;
    var t', e := t[row.key := row], EventOf(t, row);
    AdvanceUnique(t, row);
    AdvanceIsRecalled(t, row);
    forall i | 0 <= i < |h| ensures Recalls(t', h[i]) && !Excludes(h[i], e) {
      AdvanceRecalls(t, row, h[i]);
    }
    forall k | k in t' ensures exists i :: 0 <= i < |h + [e]| && (h + [e])[i].Inserted? && (h + [e])[i].key == k {
      var i :| 0 <= i < |h| && h[i].Inserted? && h[i].key == k;
      assert (h + [e])[i] == h[i];
    }
  }

  lemma InsertKeeps(t: Table, h: History, row: Row)
    requires HistoryInv(t, h) && row.key !in t && !Taken(t, row.key.tenant, row.idempotencyKey)
    ensures HistoryInv(t[row.key := row], h + [EventOf(t, row)])
  {
    hide Rank, Closes, GivesApproval;
    var t', e := t[row.key := row], EventOf(t, row);
    forall i | 0 <= i < |h| ensures Recalls(t', h[i]) {
      assert Recalls(t, h[i]);
    }
    forall k | k in t ensures !Holds(t, row.key.tenant, row.idempotencyKey, k) {
    }
    assert (h + [e])[|h|] == e;
    forall k | k in t ensures exists i :: 0 <= i < |h + [e]| && (h + [e])[i].Inserted? && (h + [e])[i].key == k {
      var i :| 0 <= i < |h| && h[i].Inserted? && h[i].key == k;
      assert (h + [e])[i] == h[i];
    }
  }

  lemma StorePreviewKeeps(t: Table, h: History, p: Principal, e: Envelope)
    requires HistoryInv(t, h)
    ensures HistoryInv(StorePreview(t, p, e).table, Extended(t, StorePreview(t, p, e), h))
  {
    var f := StorePreview(t, p, e);
    if f.table != t {
      if Taken(t, p.tenant, e.idempotencyKey) {
        AdvanceKeeps(t, h, f.reply.value);
      } else {
        InsertKeeps(t, h, NewRow(p, e));
      }
    }
  }

  lemma ApproveKeeps(t: Table, h: History, p: Principal, envelopeId: string)
    requires HistoryInv(t, h)
    ensures HistoryInv(Approve(t, p, envelopeId).table, Extended(t, Approve(t, p, envelopeId), h))
  {
    var f := Approve(t, p, envelopeId);
    if f.reply.Ok? {
      AdvanceKeeps(t, h, f.reply.value);
    }
  }

  lemma ApplyKeeps(t: Table, h: History, p: Principal, envelopeId: string, target: Option<string>)
    requires HistoryInv(t, h)
    ensures HistoryInv(ApplyCommit(t, p, envelopeId, target).table,
                       Extended(t, ApplyCommit(t, p, envelopeId, target), h))
  {
    var f := ApplyCommit(t, p, envelopeId, target);
    if f.reply.Ok? {
      AdvanceKeeps(t, h, f.reply.value);
    }
  }

  lemma QuarantineKeeps(t: Table, h: History, p: Principal, envelopeId: string, reference: string,
                        reason: Option<string>)
    requires HistoryInv(t, h)
    ensures HistoryInv(MarkQuarantined(t, p, envelopeId, reference, reason).table,
                       Extended(t, MarkQuarantined(t, p, envelopeId, reference, reason), h))
  {
    var f := MarkQuarantined(t, p, envelopeId, reference, reason);
    if f.reply.Ok? && f.table != t {
      AdvanceKeeps(t, h, f.reply.value);
    }
  }

  /** In every run of the four operations by any tenants: each (tenant, key) row approved at most once,
      applied at most once and never after it was quarantined, duplicate or conflict, be it by insertion
      or later; the target fixed once applied; payload, hash and source as inserted. */
  lemma {:induction false} CommitAtMostOnce(ops: seq<Operation>)
    ensures HistoryInv(Run(ops).0, Run(ops).1)
  {
    if ops != [] {
      var init, op := ops[..|ops| - 1], ops[|ops| - 1];
      CommitAtMostOnce(init);
      var (t, h) := Run(init);
      match op
      case Store(p, e) => StorePreviewKeeps(t, h, p, e);
      case Approval(p, id) => ApproveKeeps(t, h, p, id);
      case Commit(p, id, target) => ApplyKeeps(t, h, p, id, target);
      case Quarantine(p, id, reference, reason) => QuarantineKeeps(t, h, p, id, reference, reason);
    }
  }

  /** No approval or commit goes unrecorded, so the history of a run counts all of them. */
  lemma EveryCommitIsRecorded(t: Table, h: History, op: Operation)
    requires Unique(t) && (op.Approval? || op.Commit?) && EffectOf(t, op).reply.Ok?
    ensures var k := RowKey(op.principal.tenant, op.envelopeId);
            Extended(t, EffectOf(t, op), h) ==
              h + [if op.Approval? then Approved(k) else Applied(k, EffectOf(t, op).reply.value.target)]
  {
    var f := EffectOf(t, op);
    assert f.table[f.reply.value.key].status != t[f.reply.value.key].status;
  }

  /** An operation changes only rows of its principal's tenant. */
  lemma OtherTenantsUntouched(t: Table, op: Operation, k: RowKey)
    requires Unique(t) && k.tenant != op.principal.tenant
    ensures k in t <==> k in EffectOf(t, op).table
    ensures k in t ==> EffectOf(t, op).table[k] == t[k]
  {
  }
}
