/**
 What the redacting walk does, said without its audit and its path: when it succeeds, what it
 yields, what it counts, and that values under hidden keys have no influence at all.
 */
module ContextRedaction {
  import opened Text
  import opened ContextBuilder

  // ----------------------------------------------------------- noninterference

  /** The two values differ at most in values under hidden keys, at any depth and inside lists. */
  ghost predicate Same(p: Policy, v: Value, w: Value)
    decreases v, 1
  {
    match (v, w)
    case (Map(es), Map(fs)) => SameEntries(p, es, fs)
    case (List(xs), List(ys)) => SameItems(p, xs, ys)
    case _ => v == w
  }

  ghost predicate SameEntries(p: Policy, es: seq<Entry>, fs: seq<Entry>)
    decreases es, 0
  {
    && |es| == |fs|
    && (es == [] ||
        (assert (es decreases to es[0]);
         && es[0].key == fs[0].key
         && ((es[0].key.Named? && Hidden(p, es[0].key.text)) || Same(p, es[0].value, fs[0].value))
         && SameEntries(p, es[1..], fs[1..])))
  }

  ghost predicate SameItems(p: Policy, xs: seq<Value>, ys: seq<Value>)
    decreases xs, 0
  {
    |xs| == |ys| && (xs == [] || (Same(p, xs[0], ys[0]) && SameItems(p, xs[1..], ys[1..])))
  }

  /** The walk cannot tell such values apart: same output, same audit, same error. */
  lemma {:induction false} CleanIgnoresHidden(p: Policy, limits: Limits, v: Value, w: Value, path: string, audit: Audit,
                                              depth: nat)
    requires Same(p, v, w)
    ensures Clean(p, limits, v, path, audit, depth) == Clean(p, limits, w, path, audit, depth)
    decreases v, 1
  {
    if v.Map? {
      EntriesIgnoreHidden(p, limits, v.entries, w.entries, path, audit, depth);
    } else if v.List? {
      SameLength(p, v.items, w.items);
      ItemsIgnoreHidden(p, limits, v.items, w.items, 0, path, audit.(records := audit.records + |v.items|), depth);
    }
  }

  lemma SameLength(p: Policy, xs: seq<Value>, ys: seq<Value>)
    requires SameItems(p, xs, ys)
    ensures |xs| == |ys|
  {
  }

  lemma {:induction false} EntriesIgnoreHidden(p: Policy, limits: Limits, es: seq<Entry>, fs: seq<Entry>, path: string,
                                               audit: Audit, depth: nat)
    requires SameEntries(p, es, fs)
    ensures CleanEntries(p, limits, es, path, audit, depth) == CleanEntries(p, limits, fs, path, audit, depth)
    decreases es, 0
  {
    if es != [] && es[0].key.Named? {
      var name := es[0].key.text;
      var here := path + "." + name;
      if p.secretKey(name) {
        EntriesIgnoreHidden(p, limits, es[1..], fs[1..], path,
                            audit.(redactions := audit.redactions + [Redaction(here, "credential")]), depth);
      } else if Excluded(p, name) {
        EntriesIgnoreHidden(p, limits, es[1..], fs[1..], path, audit.(excluded := audit.excluded + [here]), depth);
      } else {
        assert (es decreases to es[0]);
        CleanIgnoresHidden(p, limits, es[0].value, fs[0].value, here, audit, depth + 1);
        var r := Clean(p, limits, es[0].value, here, audit, depth + 1);
        if r.Ok? {
          EntriesIgnoreHidden(p, limits, es[1..], fs[1..], path, r.value.1, depth);
        }
      }
    }
  }

  lemma {:induction false} ItemsIgnoreHidden(p: Policy, limits: Limits, xs: seq<Value>, ys: seq<Value>, index: nat,
                                             path: string, audit: Audit, depth: nat)
    requires SameItems(p, xs, ys)
    ensures CleanItems(p, limits, xs, index, path, audit, depth) == CleanItems(p, limits, ys, index, path, audit, depth)
    decreases xs, 0
  {
    if xs != [] {
      var here := path + "[" + Digits(index) + "]";
      CleanIgnoresHidden(p, limits, xs[0], ys[0], here, audit, depth + 1);
      var r := Clean(p, limits, xs[0], here, audit, depth + 1);
      if r.Ok? {
        ItemsIgnoreHidden(p, limits, xs[1..], ys[1..], index + 1, path, r.value.1, depth);
      }
    }
  }

  // ------------------------------------------------- what the walk yields, and when

  /** The value with hidden keys gone and every string redacted. */
  function Projected(p: Policy, v: Value): Value
    decreases v, 1
  {
    match v
    case Str(s) => Str(Redacted(p, s))
    case Map(entries) => Map(ProjectedEntries(p, entries))
    case List(items) => List(ProjectedItems(p, items))
    case _ => v
  }

  function ProjectedEntries(p: Policy, entries: seq<Entry>): seq<Entry>
    decreases entries, 0
  {
    if entries == [] then []
    else if entries[0].key.Named? && Hidden(p, entries[0].key.text) then ProjectedEntries(p, entries[1..])
    else
      assert (entries decreases to entries[0]);
      [Entry(entries[0].key, Projected(p, entries[0].value))] + ProjectedEntries(p, entries[1..])
  }

  function ProjectedItems(p: Policy, items: seq<Value>): seq<Value>
    decreases items, 0
  {
    if items == [] then [] else [Projected(p, items[0])] + ProjectedItems(p, items[1..])
  }

  /** Everything visible is of a supported kind and within the limits, at its depth. */
  predicate Fits(p: Policy, limits: Limits, v: Value, depth: nat)
    decreases v, 1
  {
    depth <= limits.depth
    && match v
       case Null => true
       case Bool(_) => true
       case Number(_) => true
       case Str(s) => p.byteLength(s) <= limits.fieldBytes && !p.pathLike(s)
       case Map(entries) => EntriesFit(p, limits, entries, depth)
       case List(items) => |items| <= limits.records && ItemsFit(p, limits, items, depth)
       case Bytes => false
       case Unsupported => false
  }

  predicate EntriesFit(p: Policy, limits: Limits, entries: seq<Entry>, depth: nat)
    decreases entries, 0
  {
    entries == [] ||
    (assert (entries decreases to entries[0]);
     && entries[0].key.Named?
     && (Hidden(p, entries[0].key.text) || Fits(p, limits, entries[0].value, depth + 1))
     && EntriesFit(p, limits, entries[1..], depth))
  }

  predicate ItemsFit(p: Policy, limits: Limits, items: seq<Value>, depth: nat)
    decreases items, 0
  {
    items == [] || (Fits(p, limits, items[0], depth + 1) && ItemsFit(p, limits, items[1..], depth))
  }

  /** What the walk meets: keys kept, dropped as secret, excluded by name; credentials replaced,
      strings flagged, list items. Hidden values are not met. */
  datatype Met = Met(kept: nat, secret: nat, excluded: nat, credentials: nat, flagged: nat, records: nat)

  const NOTHING := Met(0, 0, 0, 0, 0, 0)

  function Plus(a: Met, b: Met): Met
  {
    Met(a.kept + b.kept, a.secret + b.secret, a.excluded + b.excluded, a.credentials + b.credentials,
        a.flagged + b.flagged, a.records + b.records)
  }

  function MetIn(p: Policy, v: Value): Met
    decreases v, 1
  {
    match v
    case Str(s) => NOTHING.(credentials := p.credentials(s).1, flagged := Flagged(p, s))
    case Map(entries) => MetInEntries(p, entries)
    case List(items) => Plus(NOTHING.(records := |items|), MetInItems(p, items))
    case _ => NOTHING
  }

  function MetInEntries(p: Policy, entries: seq<Entry>): (m: Met)
    decreases entries, 0
  {
    if entries == [] then NOTHING
    else if entries[0].key.Named? && p.secretKey(entries[0].key.text) then
      Plus(NOTHING.(secret := 1), MetInEntries(p, entries[1..]))
    else if entries[0].key.Named? && Excluded(p, entries[0].key.text) then
      Plus(NOTHING.(excluded := 1), MetInEntries(p, entries[1..]))
    else
      assert (entries decreases to entries[0]);
      Plus(Plus(NOTHING.(kept := 1), MetIn(p, entries[0].value)), MetInEntries(p, entries[1..]))
  }

  function MetInItems(p: Policy, items: seq<Value>): Met
    decreases items, 0
  {
    if items == [] then NOTHING else Plus(MetIn(p, items[0]), MetInItems(p, items[1..]))
  }

  /** The audit grew by exactly what was met. */
  ghost predicate Accounts(before: Audit, met: Met, after: Audit)
  {
    && |after.redactions| == |before.redactions| + met.secret + met.credentials + met.flagged
    && |after.excluded| == |before.excluded| + met.excluded
    && after.injections == before.injections + met.flagged
    && after.records == before.records + met.records
  }

  /** Inside a selection every path begins with that word, so no string is taken for the question. */
  predicate InSelection(path: string) { path != "" && path[0] == 's' }

  lemma {:induction false} CopiesLength(r: Redaction, n: nat)
    ensures |Copies(r, n)| == n
  {
    if n > 0 { CopiesLength(r, n - 1); }
  }

  /** The walk succeeds exactly on values that fit, yields exactly the projection, and accounts for
      everything it met. */
  lemma {:induction false} CleanExactly(p: Policy, limits: Limits, v: Value, path: string, audit: Audit, depth: nat)
    requires InSelection(path)
    ensures var r := Clean(p, limits, v, path, audit, depth);
            && (r.Ok? <==> Fits(p, limits, v, depth))
            && (r.Ok? ==> r.value.0 == Projected(p, v) && Accounts(audit, MetIn(p, v), r.value.1))
    decreases v, 1
  {
    if v.Str? {
      CopiesLength(Redaction(path, "credential"), p.credentials(v.text).1);
      assert path != "question";
    } else if v.Map? {
      EntriesExactly(p, limits, v.entries, path, audit, depth);
    } else if v.List? {
      ItemsExactly(p, limits, v.items, 0, path, audit.(records := audit.records + |v.items|), depth);
    }
  }

  lemma {:induction false} EntriesExactly(p: Policy, limits: Limits, entries: seq<Entry>, path: string, audit: Audit,
                                          depth: nat)
    requires InSelection(path)
    ensures var r := CleanEntries(p, limits, entries, path, audit, depth);
            && (r.Ok? <==> EntriesFit(p, limits, entries, depth))
            && (r.Ok? ==> r.value.0 == ProjectedEntries(p, entries)
                          && Accounts(audit, MetInEntries(p, entries), r.value.1))
    decreases entries, 0
  {
    if entries != [] && entries[0].key.Named? {
      var name := entries[0].key.text;
      var here := path + "." + name;
      if p.secretKey(name) {
        EntriesExactly(p, limits, entries[1..], path,
                       audit.(redactions := audit.redactions + [Redaction(here, "credential")]), depth);
      } else if Excluded(p, name) {
        EntriesExactly(p, limits, entries[1..], path, audit.(excluded := audit.excluded + [here]), depth);
      } else {
        assert (entries decreases to entries[0]);
        CleanExactly(p, limits, entries[0].value, here, audit, depth + 1);
        var r := Clean(p, limits, entries[0].value, here, audit, depth + 1);
        if r.Ok? {
          EntriesExactly(p, limits, entries[1..], path, r.value.1, depth);
        }
      }
    }
  }

  lemma {:induction false} ItemsExactly(p: Policy, limits: Limits, items: seq<Value>, index: nat, path: string,
                                        audit: Audit, depth: nat)
    requires InSelection(path)
    ensures var r := CleanItems(p, limits, items, index, path, audit, depth);
            && (r.Ok? <==> ItemsFit(p, limits, items, depth))
            && (r.Ok? ==> r.value.0 == ProjectedItems(p, items) && Accounts(audit, MetInItems(p, items), r.value.1))
    decreases items, 0
  {
    if items != [] {
      var here := path + "[" + Digits(index) + "]";
      assert here[0] == path[0];
      CleanExactly(p, limits, items[0], here, audit, depth + 1);
      var r := Clean(p, limits, items[0], here, audit, depth + 1);
      if r.Ok? {
        ItemsExactly(p, limits, items[1..], index + 1, path, r.value.1, depth);
      }
    }
  }

  // --------------------------------------------------------- facts of the output

  /** Keys of all mappings the walk enters. */
  function VisitedKeys(p: Policy, v: Value): nat
    decreases v, 1
  {
    match v
    case Map(entries) => VisitedInEntries(p, entries)
    case List(items) => VisitedInItems(p, items)
    case _ => 0
  }

  function VisitedInEntries(p: Policy, entries: seq<Entry>): nat
    decreases entries, 0
  {
    if entries == [] then 0
    else
      assert (entries decreases to entries[0]);
      1 + VisitedInEntries(p, entries[1..])
      + (if entries[0].key.Named? && Hidden(p, entries[0].key.text) then 0 else VisitedKeys(p, entries[0].value))
  }

  function VisitedInItems(p: Policy, items: seq<Value>): nat
    decreases items, 0
  {
    if items == [] then 0 else VisitedKeys(p, items[0]) + VisitedInItems(p, items[1..])
  }

  /** Every visited key is counted exactly once as kept, dropped or excluded. */
  lemma {:induction false} KeysAreCountedOnce(p: Policy, v: Value)
    ensures MetIn(p, v).kept + MetIn(p, v).secret + MetIn(p, v).excluded == VisitedKeys(p, v)
    decreases v, 1
  {
    if v.Map? {
      EntryKeysAreCountedOnce(p, v.entries);
    } else if v.List? {
      ItemKeysAreCountedOnce(p, v.items);
    }
  }

  lemma {:induction false} EntryKeysAreCountedOnce(p: Policy, entries: seq<Entry>)
    ensures var m := MetInEntries(p, entries); m.kept + m.secret + m.excluded == VisitedInEntries(p, entries)
    decreases entries, 0
  {
    if entries != [] {
      assert (entries decreases to entries[0]);
      EntryKeysAreCountedOnce(p, entries[1..]);
      KeysAreCountedOnce(p, entries[0].value);
    }
  }

  lemma {:induction false} ItemKeysAreCountedOnce(p: Policy, items: seq<Value>)
    ensures var m := MetInItems(p, items); m.kept + m.secret + m.excluded == VisitedInItems(p, items)
    decreases items, 0
  {
    if items != [] {
      KeysAreCountedOnce(p, items[0]);
      ItemKeysAreCountedOnce(p, items[1..]);
    }
  }

  /** No hidden key anywhere, and nested at most `height` deep. */
  predicate Exposes(p: Policy, v: Value, height: nat)
    decreases v, 1
  {
    match v
    case Map(entries) => EntriesExpose(p, entries, height)
    case List(items) => ItemsExpose(p, items, height)
    case _ => true
  }

  predicate EntriesExpose(p: Policy, entries: seq<Entry>, height: nat)
    decreases entries, 0
  {
    entries == [] ||
    (assert (entries decreases to entries[0]);
     && height > 0 && entries[0].key.Named? && !Hidden(p, entries[0].key.text)
     && Exposes(p, entries[0].value, height - 1) && EntriesExpose(p, entries[1..], height))
  }

  predicate ItemsExpose(p: Policy, items: seq<Value>, height: nat)
    decreases items, 0
  {
    items == [] || (height > 0 && Exposes(p, items[0], height - 1) && ItemsExpose(p, items[1..], height))
  }

  /** The output has no hidden key at any depth, respects the depth limit, and has exactly the kept keys. */
  lemma {:induction false} OutputExposesOnlyVisible(p: Policy, limits: Limits, v: Value, depth: nat)
    requires Fits(p, limits, v, depth)
    ensures Exposes(p, Projected(p, v), limits.depth - depth) && VisitedKeys(p, Projected(p, v)) == MetIn(p, v).kept
    decreases v, 1
  {
    if v.Map? {
      EntriesExposeOnlyVisible(p, limits, v.entries, depth);
    } else if v.List? {
      ItemsExposeOnlyVisible(p, limits, v.items, depth);
    }
  }

  lemma VisibleEntryStep(p: Policy, entries: seq<Entry>)
    requires entries != [] && entries[0].key.Named? && !Hidden(p, entries[0].key.text)
    ensures MetInEntries(p, entries).kept == 1 + MetIn(p, entries[0].value).kept + MetInEntries(p, entries[1..]).kept
    ensures ProjectedEntries(p, entries)
            == [Entry(entries[0].key, Projected(p, entries[0].value))] + ProjectedEntries(p, entries[1..])
  {
  }

  lemma ExposeStep(p: Policy, e: Entry, rest: seq<Entry>, height: nat)
    requires height > 0 && e.key.Named? && !Hidden(p, e.key.text)
    requires Exposes(p, e.value, height - 1) && EntriesExpose(p, rest, height)
    ensures EntriesExpose(p, [e] + rest, height)
    ensures VisitedInEntries(p, [e] + rest) == 1 + VisitedKeys(p, e.value) + VisitedInEntries(p, rest)
  {
    assert ([e] + rest)[1..] == rest;
  }

  lemma HiddenEntryStep(p: Policy, entries: seq<Entry>)
    requires entries != [] && entries[0].key.Named? && Hidden(p, entries[0].key.text)
    ensures MetInEntries(p, entries).kept == MetInEntries(p, entries[1..]).kept
    ensures ProjectedEntries(p, entries) == ProjectedEntries(p, entries[1..])
  {
  }

  lemma EntriesFitStep(p: Policy, limits: Limits, entries: seq<Entry>, depth: nat)
    requires entries != [] && EntriesFit(p, limits, entries, depth)
    ensures entries[0].key.Named? && EntriesFit(p, limits, entries[1..], depth)
    ensures !Hidden(p, entries[0].key.text) ==> Fits(p, limits, entries[0].value, depth + 1) && depth < limits.depth
  {
  }

  lemma NoEntriesExpose(p: Policy, height: nat)
    ensures ProjectedEntries(p, []) == [] && EntriesExpose(p, [], height)
    ensures VisitedInEntries(p, []) == 0 == MetInEntries(p, []).kept
  {
  }

  lemma {:induction false} EntriesExposeOnlyVisible(p: Policy, limits: Limits, entries: seq<Entry>, depth: nat)
    requires depth <= limits.depth && EntriesFit(p, limits, entries, depth)
    ensures var out := ProjectedEntries(p, entries);
            EntriesExpose(p, out, limits.depth - depth) && VisitedInEntries(p, out) == MetInEntries(p, entries).kept
    decreases entries, 0
  {
    hide *;
    if entries == [] {
      NoEntriesExpose(p, limits.depth - depth);
    } else {
      var e, rest := entries[0], entries[1..];
      EntriesFitStep(p, limits, entries, depth);
      EntriesExposeOnlyVisible(p, limits, rest, depth);
      if Hidden(p, e.key.text) {
        HiddenEntryStep(p, entries);
      } else {
        assert (entries decreases to entries[0]);
        OutputExposesOnlyVisible(p, limits, e.value, depth + 1);
        VisibleEntryStep(p, entries);
        ExposeStep(p, Entry(e.key, Projected(p, e.value)), ProjectedEntries(p, rest), limits.depth - depth);
      }
    }
  }

  lemma {:induction false} ItemsExposeOnlyVisible(p: Policy, limits: Limits, items: seq<Value>, depth: nat)
    requires depth <= limits.depth && ItemsFit(p, limits, items, depth)
    ensures var out := ProjectedItems(p, items);
            ItemsExpose(p, out, limits.depth - depth) && VisitedInItems(p, out) == MetInItems(p, items).kept
    decreases items, 0
  {
    if items != [] {
      ItemsExposeOnlyVisible(p, limits, items[1..], depth);
      OutputExposesOnlyVisible(p, limits, items[0], depth + 1);
      assert ProjectedItems(p, items)[1..] == ProjectedItems(p, items[1..]);
    }
  }
}
