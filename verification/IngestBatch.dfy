/**
 The batch preview: every item is projected, stored and counted, and the counts are tied to what
 happened to the table.
 */
module IngestBatch {
  import opened Text
  import Repo = IngestRepository

  /** What vendor projection makes of an item; `flagged` when some redaction decision is "quarantined". */
  datatype Draft = Draft(envelopeId: string, idempotencyKey: string, origin: Repo.Origin, sha256: string,
                         payload: string, mapping: string, flagged: bool)

  /** `projection` is Err for an item the adapters or the schemas reject. */
  datatype Item = Item(entity: Option<string>, projection: Result<Draft, string>)

  datatype Counts = Counts(accepted: nat, duplicate: nat, rejected: nat, conflict: nat, quarantined: nat)
  {
    function Total(): nat { accepted + duplicate + rejected + conflict + quarantined }
  }

  datatype Report = Report(counts: Counts, statuses: seq<string>)

  /** `build_envelope_for_preview`: the status follows from the redaction flags. */
  function BuildEnvelope(d: Draft): Repo.Envelope
  {
    Repo.Envelope(d.envelopeId, d.idempotencyKey, d.origin, d.sha256, d.payload, d.mapping,
                  if d.flagged then "quarantined" else "preview")
  }

  predicate AcceptedStatus(s: string)
  {
    s in ["preview", "validated", "received", "approved", "applied"]
  }

  function Tally(c: Counts, status: string): Counts
  {
    if AcceptedStatus(status) then c.(accepted := c.accepted + 1)
    else if status == "duplicate" then c.(duplicate := c.duplicate + 1)
    else if status == "conflict" then c.(conflict := c.conflict + 1)
    else if status == "quarantined" then c.(quarantined := c.quarantined + 1)
    else c.(rejected := c.rejected + 1)
  }

  predicate Named(item: Item, entity: Option<string>)
  {
    (item.entity.Some? && item.entity.value != "") || (entity.Some? && entity.value != "")
  }

  ghost function ItemStored(t: Repo.Table, p: Repo.Principal, item: Item): Repo.Table
  {
    if item.projection.Ok? then Repo.StorePreview(t, p, BuildEnvelope(item.projection.value)).table else t
  }

  /** The status reported for an item: that of the row as stored, or "rejected". */
  ghost function ItemStatus(t: Repo.Table, p: Repo.Principal, item: Item): string
  {
    if item.projection.Err? then "rejected"
    else
      match Repo.StorePreview(t, p, BuildEnvelope(item.projection.value)).reply
      case Ok(row) => row.status
      case Err(_) => "rejected"
  }

  /** The statuses of the items, each meeting the table as the items before it left it. */
  ghost function ItemStatuses(t: Repo.Table, p: Repo.Principal, items: seq<Item>): seq<string>
  {
    if items == [] then []
    else
      var init := items[..|items| - 1];
      ItemStatuses(t, p, init) + [ItemStatus(TableAfter(t, p, init), p, items[|items| - 1])]
  }

  ghost function TableAfter(t: Repo.Table, p: Repo.Principal, items: seq<Item>): Repo.Table
  {
    if items == [] then t else ItemStored(TableAfter(t, p, items[..|items| - 1]), p, items[|items| - 1])
  }

  /** The row that holds the key of the item, if there is one. */
  ghost predicate HeldBy(t: Repo.Table, p: Repo.Principal, item: Item, k: Repo.RowKey)
  {
    && item.projection.Ok? && Repo.ShaFormat(item.projection.value.sha256)
    && Repo.Holds(t, p.tenant, item.projection.value.idempotencyKey, k)
  }

  /** The item repeats, with the same payload hash, a row that is neither applied nor in conflict. */
  ghost predicate IsDuplicate(t: Repo.Table, p: Repo.Principal, item: Item)
  {
    exists k :: HeldBy(t, p, item, k) && t[k].sha256 == item.projection.value.sha256
                && t[k].status != "applied" && t[k].status != "conflict"
  }

  /** The item reuses the key of a row with another payload hash, or of a row already in conflict. */
  ghost predicate IsConflict(t: Repo.Table, p: Repo.Principal, item: Item)
  {
    exists k :: HeldBy(t, p, item, k) && (t[k].sha256 != item.projection.value.sha256 || t[k].status == "conflict")
  }

  /** The item can be inserted now: a new key and a new id. */
  ghost predicate IsNew(t: Repo.Table, p: Repo.Principal, item: Item)
  {
    && item.projection.Ok? && Repo.ShaFormat(item.projection.value.sha256)
    && (forall k :: !Repo.Holds(t, p.tenant, item.projection.value.idempotencyKey, k))
    && Repo.RowKey(p.tenant, item.projection.value.envelopeId) !in t
  }

  /** The item is inserted now, as a preview. */
  ghost predicate FreshPreview(t: Repo.Table, p: Repo.Principal, item: Item)
  {
    IsNew(t, p, item) && !item.projection.value.flagged
  }

  /** The item repeats, byte for byte of its payload hash, a row already applied. */
  ghost predicate ReplayOfApplied(t: Repo.Table, p: Repo.Principal, item: Item)
  {
    exists k :: HeldBy(t, p, item, k) && t[k].status == "applied" && t[k].sha256 == item.projection.value.sha256
  }

  ghost predicate IsQuarantined(t: Repo.Table, p: Repo.Principal, item: Item)
  {
    IsNew(t, p, item) && item.projection.value.flagged
  }

  lemma NewItemStatus(t: Repo.Table, p: Repo.Principal, item: Item)
    requires IsNew(t, p, item)
    ensures ItemStatus(t, p, item) == if item.projection.value.flagged then "quarantined" else "preview"
  {
    var d := item.projection.value;
    StatusesAreKnown();
    Repo.InsertExactly(t, p, BuildEnvelope(d));
    hide Repo.KnownStatus, Repo.ShaFormat, Repo.Holds, Repo.StorePreview;
  }

  lemma StatusesAreKnown()
    ensures Repo.KnownStatus("preview") && Repo.KnownStatus("quarantined")
  {
  }

  lemma HeldItemStatus(t: Repo.Table, p: Repo.Principal, item: Item, k: Repo.RowKey)
    requires Repo.Unique(t) && HeldBy(t, p, item, k)
    ensures var same := t[k].sha256 == item.projection.value.sha256;
            ItemStatus(t, p, item) ==
              if !same then "conflict"
              else if t[k].status in {"applied", "duplicate", "conflict"} then t[k].status
              else "duplicate"
  {
    StatusesAreKnown();
    Repo.ReplayExactly(t, p, BuildEnvelope(item.projection.value), k);
    hide Repo.KnownStatus, Repo.ShaFormat, Repo.Holds, Repo.StorePreview, Repo.Unique;
  }

  lemma OtherItemStatus(t: Repo.Table, p: Repo.Principal, item: Item)
    requires !IsNew(t, p, item) && forall k :: !HeldBy(t, p, item, k)
    ensures ItemStatus(t, p, item) == "rejected"
  {
    if item.projection.Ok? {
      if Repo.ShaFormat(item.projection.value.sha256) {
        assert forall k :: Repo.Holds(t, p.tenant, item.projection.value.idempotencyKey, k) ==> HeldBy(t, p, item, k);
        Repo.InsertExactly(t, p, BuildEnvelope(item.projection.value));
      }
    }
    hide Repo.KnownStatus, Repo.ShaFormat, Repo.Holds;
  }

  lemma StatusesDiffer()
    ensures |"preview"| == 7 && |"quarantined"| == 11 && |"conflict"| == 8 && |"rejected"| == 8 && |"applied"| == 7
    ensures |"duplicate"| == 9 && "conflict"[0] != "rejected"[0]
  {
  }

  /** An item is reported as duplicate, conflict or quarantined exactly when it is one, by the table it meets
      and the item alone. */
  lemma WithheldExactly(t: Repo.Table, p: Repo.Principal, item: Item)
    requires Repo.Unique(t)
    ensures ItemStatus(t, p, item) == "duplicate" <==> IsDuplicate(t, p, item)
    ensures ItemStatus(t, p, item) == "conflict" <==> IsConflict(t, p, item)
    ensures ItemStatus(t, p, item) == "quarantined" <==> IsQuarantined(t, p, item)
  {
    StatusesDiffer();
    hide ItemStatus, Repo.ShaFormat;
    if k :| HeldBy(t, p, item, k) {
      HeldItemStatus(t, p, item, k);
      OnlyHolder(t, p, item, k);
    } else if IsNew(t, p, item) {
      NewItemStatus(t, p, item);
    } else {
      OtherItemStatus(t, p, item);
    }
  }

  lemma OnlyHolder(t: Repo.Table, p: Repo.Principal, item: Item, k: Repo.RowKey)
    requires Repo.Unique(t) && HeldBy(t, p, item, k)
    ensures forall j :: HeldBy(t, p, item, j) ==> j == k
    ensures !IsNew(t, p, item)
  {
  }

  /** Of a status with a count of its own: the item is one of these. */
  ghost predicate IsOne(t: Repo.Table, p: Repo.Principal, item: Item, status: string)
  {
    if status == "duplicate" then IsDuplicate(t, p, item)
    else if status == "conflict" then IsConflict(t, p, item)
    else IsQuarantined(t, p, item)
  }

  /** How many items are one of these when they meet the table. */
  ghost function ItemsOf(t: Repo.Table, p: Repo.Principal, items: seq<Item>, status: string): nat
  {
    if items == [] then 0
    else
      var init := items[..|items| - 1];
      ItemsOf(t, p, init, status) + (if IsOne(TableAfter(t, p, init), p, items[|items| - 1], status) then 1 else 0)
  }

  ghost predicate CountsAsAccepted(t: Repo.Table, p: Repo.Principal, item: Item)
  {
    FreshPreview(t, p, item) || ReplayOfApplied(t, p, item)
  }

  /** How many items met the table as one of those two. */
  ghost function AcceptedItems(t: Repo.Table, p: Repo.Principal, items: seq<Item>): nat
  {
    if items == [] then 0
    else
      var init := items[..|items| - 1];
      AcceptedItems(t, p, init) + (if CountsAsAccepted(TableAfter(t, p, init), p, items[|items| - 1]) then 1 else 0)
  }

  lemma AcceptedExactly(t: Repo.Table, p: Repo.Principal, item: Item)
    requires Repo.Unique(t)
    ensures AcceptedStatus(ItemStatus(t, p, item)) <==> CountsAsAccepted(t, p, item)
  {
    AcceptedStatuses();
    StatusesDiffer();
    hide ItemStatus, Repo.ShaFormat, AcceptedStatus;
    if k :| HeldBy(t, p, item, k) {
      HeldItemStatus(t, p, item, k);
      OnlyHolder(t, p, item, k);
    } else if IsNew(t, p, item) {
      NewItemStatus(t, p, item);
    } else {
      OtherItemStatus(t, p, item);
    }
  }

  lemma AcceptedStatuses()
    ensures AcceptedStatus("preview") && AcceptedStatus("applied")
    ensures !AcceptedStatus("duplicate") && !AcceptedStatus("conflict") && !AcceptedStatus("quarantined")
    ensures !AcceptedStatus("rejected")
  {
  }

  /** Over a batch, the accepted statuses are the fresh previews and the replays of applied rows. */
  lemma {:induction false} AcceptedInBatch(t: Repo.Table, p: Repo.Principal, items: seq<Item>)
    requires Repo.Unique(t)
    ensures |ItemStatuses(t, p, items)| == |items|
    ensures CountAccepted(ItemStatuses(t, p, items)) == AcceptedItems(t, p, items)
  {
    if items != [] {
      var init, last := items[..|items| - 1], items[|items| - 1];
      AcceptedInBatch(t, p, init);
      TablesStayUnique(t, p, init);
      AcceptedExactly(TableAfter(t, p, init), p, last);
      CountStep(ItemStatuses(t, p, init), ItemStatus(TableAfter(t, p, init), p, last));
      hide ItemStatus, CountsAsAccepted, AcceptedStatus, TableAfter, CountAccepted, Repo.Unique;
    }
  }

  function CountAccepted(statuses: seq<string>): nat
  {
    if statuses == [] then 0
    else CountAccepted(statuses[..|statuses| - 1]) + (if AcceptedStatus(statuses[|statuses| - 1]) then 1 else 0)
  }

  lemma CountStep(init: seq<string>, status: string)
    ensures CountAccepted(init + [status]) == CountAccepted(init) + (if AcceptedStatus(status) then 1 else 0)
  {
    hide AcceptedStatus;
    assert (init + [status])[..|init|] == init;
  }

  /** The statuses with a count of their own. */
  predicate Withheld(status: string) { status in ["duplicate", "conflict", "quarantined"] }

  function CountFor(c: Counts, status: string): nat
    requires Withheld(status)
  {
    if status == "duplicate" then c.duplicate else if status == "conflict" then c.conflict else c.quarantined
  }

  /** One status adds one to the total, and to the count it belongs to. */
  lemma TallyStep(c: Counts, status: string)
    ensures Tally(c, status).Total() == c.Total() + 1
    ensures Tally(c, status).accepted == c.accepted + (if AcceptedStatus(status) then 1 else 0)
  {
    hide AcceptedStatus;
  }

  lemma WithheldStep(c: Counts, status: string, s: string)
    requires Withheld(s)
    ensures CountFor(Tally(c, status), s) == CountFor(c, s) + (if status == s then 1 else 0)
  {
    WithheldIsNotAccepted(s);
    hide AcceptedStatus;
  }

  lemma WithheldIsNotAccepted(s: string)
    requires Withheld(s)
    ensures !AcceptedStatus(s)
  {
  }

  function TallyAll(statuses: seq<string>): Counts
  {
    if statuses == [] then Counts(0, 0, 0, 0, 0)
      else Tally(TallyAll(statuses[..|statuses| - 1]), statuses[|statuses| - 1])
  }

  /** Nothing is lost or counted twice. */
  lemma {:induction false} TallyIsComplete(statuses: seq<string>)
    ensures TallyAll(statuses).Total() == |statuses| && TallyAll(statuses).accepted == CountAccepted(statuses)
  {
    hide Tally, AcceptedStatus;
    if statuses != [] {
      TallyIsComplete(statuses[..|statuses| - 1]);
      TallyStep(TallyAll(statuses[..|statuses| - 1]), statuses[|statuses| - 1]);
    }
  }

  /** The other counts count the items of their status. */
  lemma {:induction false} WithheldAreCounted(statuses: seq<string>, s: string)
    requires Withheld(s)
    ensures CountFor(TallyAll(statuses), s) == multiset(statuses)[s]
  {
    if statuses != [] {
      var init, last := statuses[..|statuses| - 1], statuses[|statuses| - 1];
      assert statuses == init + [last];
      WithheldAreCounted(init, s);
      WithheldStep(TallyAll(init), last, s);
      hide Tally, Withheld, CountFor;
    }
  }

  lemma {:induction false} TablesStayUnique(t: Repo.Table, p: Repo.Principal, items: seq<Item>)
    requires Repo.Unique(t)
    ensures Repo.Unique(TableAfter(t, p, items))
  {
    if items != [] {
      var init, last := items[..|items| - 1], items[|items| - 1];
      TablesStayUnique(t, p, init);
      if last.projection.Ok? {
        Repo.StoreKeepsUnique(TableAfter(t, p, init), p, BuildEnvelope(last.projection.value));
      }
      hide Repo.Unique, Repo.StorePreview;
    }
  }

  /** Over a batch, the duplicate, conflict and quarantined statuses count exactly the items that are one. */
  lemma {:induction false} WithheldInBatch(t: Repo.Table, p: Repo.Principal, items: seq<Item>, status: string)
    requires Repo.Unique(t) && Withheld(status)
    ensures multiset(ItemStatuses(t, p, items))[status] == ItemsOf(t, p, items, status)
  {
    if items != [] {
      var init, last := items[..|items| - 1], items[|items| - 1];
      var before := TableAfter(t, p, init);
      WithheldInBatch(t, p, init, status);
      TablesStayUnique(t, p, init);
      IsOneExactly(before, p, last, status);
      hide ItemStatus, Withheld, IsOne, TableAfter, Repo.Unique;
      assert ItemStatuses(t, p, items) == ItemStatuses(t, p, init) + [ItemStatus(before, p, last)];
    }
  }

  lemma IsOneExactly(t: Repo.Table, p: Repo.Principal, item: Item, status: string)
    requires Repo.Unique(t) && Withheld(status)
    ensures ItemStatus(t, p, item) == status <==> IsOne(t, p, item, status)
  {
    WithheldExactly(t, p, item);
    hide ItemStatus, IsDuplicate, IsConflict, IsQuarantined;
  }

  lemma NamedExactly(items: seq<Item>, entity: Option<string>)
    ensures (forall i :: 0 <= i < |items| ==> Named(items[i], entity)) <==>
              || (entity.Some? && entity.value != "")
              || forall i :: 0 <= i < |items| ==> items[i].entity.Some? && items[i].entity.value != ""
  {
    assert forall i :: 0 <= i < |items| && items[i].entity.Some? && items[i].entity.value != "" ==>
           Named(items[i], entity);
  }

  lemma CountsInBatch(t: Repo.Table, p: Repo.Principal, items: seq<Item>)
    requires Repo.Unique(t)
    ensures var c := TallyAll(ItemStatuses(t, p, items));
            && c.Total() == |items| && c.accepted == AcceptedItems(t, p, items)
            && c.duplicate == ItemsOf(t, p, items, "duplicate")
            && c.conflict == ItemsOf(t, p, items, "conflict")
            && c.quarantined == ItemsOf(t, p, items, "quarantined")
  {
    var d, c, q := "duplicate", "conflict", "quarantined";
    WithheldInBatch(t, p, items, d);
    WithheldInBatch(t, p, items, c);
    WithheldInBatch(t, p, items, q);
    WithheldAreCounted(ItemStatuses(t, p, items), d);
    WithheldAreCounted(ItemStatuses(t, p, items), c);
    WithheldAreCounted(ItemStatuses(t, p, items), q);
    AcceptedInBatch(t, p, items);
    TallyIsComplete(ItemStatuses(t, p, items));
    hide AcceptedItems, CountAccepted, ItemStatuses, ItemsOf, TallyAll;
  }

  method CountStatuses(statuses: seq<string>) returns (counts: Counts)
    ensures counts == TallyAll(statuses)
  {
    counts := Counts(0, 0, 0, 0, 0);
    for i := 0 to |statuses|
      invariant counts == TallyAll(statuses[..i])
    {
      assert statuses[..i + 1][..i] == statuses[..i];
      counts := Tally(counts, statuses[i]);
    }
    assert statuses[..|statuses|] == statuses;
  }

  method PreviewItem(repo: Repo.IngestRepository, p: Repo.Principal, item: Item) returns (status: string)
    requires repo.Valid()
    modifies repo
    ensures repo.Valid() && repo.rows == ItemStored(old(repo.rows), p, item)
    ensures status == ItemStatus(old(repo.rows), p, item)
  {
    if item.projection.Err? {
      return "rejected";
    }
    var stored := repo.StoreEnvelope(p, BuildEnvelope(item.projection.value));
    status := if stored.Ok? then stored.value.status else "rejected";
  }

  /** Statuses and table are those of the items in turn, counts always sum to the items, and `accepted`
      is exactly the fresh previews plus the replays of applied rows. An item without an entity stops
      the batch; what came before it stays stored. */
  method PreviewBatch(repo: Repo.IngestRepository, p: Repo.Principal, items: seq<Item>, entity: Option<string>)
    returns (r: Result<Report, string>)
    requires repo.Valid()
    modifies repo
    ensures repo.Valid()
    ensures r.Ok? <==>
              || (entity.Some? && entity.value != "")
              || forall i :: 0 <= i < |items| ==> items[i].entity.Some? && items[i].entity.value != ""
    ensures r.Ok? ==> r.value.statuses == ItemStatuses(old(repo.rows), p, items)
                      && repo.rows == TableAfter(old(repo.rows), p, items)
    ensures r.Ok? ==> r.value.counts == TallyAll(r.value.statuses) && r.value.counts.Total() == |items|
    ensures r.Ok? ==> r.value.counts.accepted == AcceptedItems(old(repo.rows), p, items)
    ensures r.Ok? ==> r.value.counts.duplicate == ItemsOf(old(repo.rows), p, items, "duplicate")
    ensures r.Ok? ==> r.value.counts.conflict == ItemsOf(old(repo.rows), p, items, "conflict")
    ensures r.Ok? ==> r.value.counts.quarantined == ItemsOf(old(repo.rows), p, items, "quarantined")
    ensures r.Err? ==> exists k :: 0 <= k < |items| && !Named(items[k], entity)
                                   && repo.rows == TableAfter(old(repo.rows), p, items[..k])
  {
    hide ItemStored, ItemStatus, AcceptedItems, ItemsOf, TallyAll;
    NamedExactly(items, entity);
    var statuses: seq<string> := [];
    for i := 0 to |items|
      invariant repo.Valid()
      invariant forall j :: 0 <= j < i ==> Named(items[j], entity)
      invariant repo.rows == TableAfter(old(repo.rows), p, items[..i])
      invariant statuses == ItemStatuses(old(repo.rows), p, items[..i])
    {
      hide ItemStored, ItemStatus, AcceptedItems, ItemsOf, TallyAll, Named;
      if !Named(items[i], entity) {
        return Err("entity required per-item or at batch level");
      }
      assert items[..i + 1][..i] == items[..i];
      var status := PreviewItem(repo, p, items[i]);
      statuses := statuses + [status];
    }
    assert items[..|items|] == items;
    var counts := CountStatuses(statuses);
    CountsInBatch(old(repo.rows), p, items);
    return Ok(Report(counts, statuses));
  }
}
