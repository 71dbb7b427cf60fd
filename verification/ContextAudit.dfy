/**
 What the redacting walk writes down, and what its errors mean: each audit entry names the place it is
 about, in the order of the walk, and each error names a flaw that some visible value has.
 */
module ContextAudit {
  import opened Text
  import opened ContextBuilder
  import opened ContextRedaction

  // ------------------------------------------------------------- the audit trail

  /** The credentials dropped or replaced and the injections flagged in a value, at their paths, without an
      audit to write them into. */
  function Trail(p: Policy, v: Value, path: string): seq<Redaction>
    decreases v, 1
  {
    match v
    case Str(s) => Copies(Redaction(path, "credential"), p.credentials(s).1)
                   + (if Flagged(p, s) == 1 then [Redaction(path, "prompt_injection")] else [])
    case Map(entries) => EntriesTrail(p, entries, path)
    case List(items) => ItemsTrail(p, items, 0, path)
    case _ => []
  }

  function EntriesTrail(p: Policy, entries: seq<Entry>, path: string): seq<Redaction>
    decreases entries, 0
  {
    if entries == [] then []
    else
      assert (entries decreases to entries[0]);
      var rest := EntriesTrail(p, entries[1..], path);
      if entries[0].key.NotText? then rest
      else
        var here := path + "." + entries[0].key.text;
        if p.secretKey(entries[0].key.text) then [Redaction(here, "credential")] + rest
        else if Excluded(p, entries[0].key.text) then rest
        else Trail(p, entries[0].value, here) + rest
  }

  function ItemsTrail(p: Policy, items: seq<Value>, index: nat, path: string): seq<Redaction>
    decreases items, 0
  {
    if items == [] then []
    else Trail(p, items[0], path + "[" + Digits(index) + "]") + ItemsTrail(p, items[1..], index + 1, path)
  }

  /** The paths of the keys left out by name. */
  function LeftOut(p: Policy, v: Value, path: string): seq<string>
    decreases v, 1
  {
    match v
    case Map(entries) => EntriesLeftOut(p, entries, path)
    case List(items) => ItemsLeftOut(p, items, 0, path)
    case _ => []
  }

  function EntriesLeftOut(p: Policy, entries: seq<Entry>, path: string): seq<string>
    decreases entries, 0
  {
    if entries == [] then []
    else
      assert (entries decreases to entries[0]);
      var rest := EntriesLeftOut(p, entries[1..], path);
      if entries[0].key.NotText? || p.secretKey(entries[0].key.text) then rest
      else
        var here := path + "." + entries[0].key.text;
        if Excluded(p, entries[0].key.text) then [here] + rest else LeftOut(p, entries[0].value, here) + rest
  }

  function ItemsLeftOut(p: Policy, items: seq<Value>, index: nat, path: string): seq<string>
    decreases items, 0
  {
    if items == [] then []
    else LeftOut(p, items[0], path + "[" + Digits(index) + "]") + ItemsLeftOut(p, items[1..], index + 1, path)
  }

  /** The audit grew by these entries. */
  ghost predicate Wrote(before: Audit, trail: seq<Redaction>, leftOut: seq<string>, after: Audit)
  {
    after.redactions == before.redactions + trail && after.excluded == before.excluded + leftOut
  }

  lemma WroteBoth(a: Audit, b: Audit, c: Audit, t: seq<Redaction>, u: seq<Redaction>, l: seq<string>, m: seq<string>)
    requires Wrote(a, t, l, b) && Wrote(b, u, m, c)
    ensures Wrote(a, t + u, l + m, c)
  {
  }

  /** The walk appends its trail to the audit, entry by entry. */
  lemma {:induction false} CleanWrites(p: Policy, limits: Limits, v: Value, path: string, audit: Audit, depth: nat)
    requires Clean(p, limits, v, path, audit, depth).Ok?
    ensures Wrote(audit, Trail(p, v, path), LeftOut(p, v, path), Clean(p, limits, v, path, audit, depth).value.1)
    decreases v, 1
  {
    if v.Map? {
      EntriesWrite(p, limits, v.entries, path, audit, depth);
    } else if v.List? {
      ItemsWrite(p, limits, v.items, 0, path, audit.(records := audit.records + |v.items|), depth);
    }
  }

  lemma {:induction false} EntriesWrite(p: Policy, limits: Limits, entries: seq<Entry>, path: string, audit: Audit,
                                        depth: nat)
    requires CleanEntries(p, limits, entries, path, audit, depth).Ok?
    ensures Wrote(audit, EntriesTrail(p, entries, path), EntriesLeftOut(p, entries, path),
                  CleanEntries(p, limits, entries, path, audit, depth).value.1)
    decreases entries, 0
  {
    if entries != [] {
      var name := entries[0].key.text;
      var here := path + "." + name;
      var rest := entries[1..];
      var after := CleanEntries(p, limits, entries, path, audit, depth).value.1;
      if p.secretKey(name) {
        var noted := audit.(redactions := audit.redactions + [Redaction(here, "credential")]);
        EntriesWrite(p, limits, rest, path, noted, depth);
        WroteBoth(audit, noted, after, [Redaction(here, "credential")], EntriesTrail(p, rest, path), [],
                  EntriesLeftOut(p, rest, path));
      } else if Excluded(p, name) {
        var noted := audit.(excluded := audit.excluded + [here]);
        EntriesWrite(p, limits, rest, path, noted, depth);
        WroteBoth(audit, noted, after, [], EntriesTrail(p, rest, path), [here], EntriesLeftOut(p, rest, path));
        assert [] + EntriesTrail(p, rest, path) == EntriesTrail(p, rest, path);
      } else {
        assert (entries decreases to entries[0]);
        var value := entries[0].value;
        CleanWrites(p, limits, value, here, audit, depth + 1);
        var between := Clean(p, limits, value, here, audit, depth + 1).value.1;
        EntriesWrite(p, limits, rest, path, between, depth);
        WroteBoth(audit, between, after, Trail(p, value, here), EntriesTrail(p, rest, path), LeftOut(p, value, here),
                  EntriesLeftOut(p, rest, path));
      }
      hide Clean, CleanEntries, Trail, LeftOut, Wrote, Excluded;
    }
  }

  lemma {:induction false} ItemsWrite(p: Policy, limits: Limits, items: seq<Value>, index: nat, path: string,
                                      audit: Audit, depth: nat)
    requires CleanItems(p, limits, items, index, path, audit, depth).Ok?
    ensures Wrote(audit, ItemsTrail(p, items, index, path), ItemsLeftOut(p, items, index, path),
                  CleanItems(p, limits, items, index, path, audit, depth).value.1)
    decreases items, 0
  {
    if items != [] {
      var here := path + "[" + Digits(index) + "]";
      CleanWrites(p, limits, items[0], here, audit, depth + 1);
      var between := Clean(p, limits, items[0], here, audit, depth + 1).value.1;
      ItemsWrite(p, limits, items[1..], index + 1, path, between, depth);
      WroteBoth(audit, between, CleanItems(p, limits, items, index, path, audit, depth).value.1,
                Trail(p, items[0], here), ItemsTrail(p, items[1..], index + 1, path),
                LeftOut(p, items[0], here), ItemsLeftOut(p, items[1..], index + 1, path));
      hide Clean, CleanItems, Trail, LeftOut, Wrote;
    }
  }

  // ------------------------------------------------------------ what an error says

  /** The value itself, not one inside it, is what the code complains about. */
  ghost predicate FlawHere(p: Policy, limits: Limits, code: string, v: Value, depth: nat)
  {
    || (code == "NESTING_LIMIT_EXCEEDED" && depth > limits.depth)
    || (code == "RAW_BYTES_REJECTED" && v.Bytes?)
    || (code == "UNSUPPORTED_VALUE" && v.Unsupported?)
    || (code == "FIELD_LIMIT_EXCEEDED" && v.Str? && p.byteLength(v.text) > limits.fieldBytes)
    || (code == "PATH_OR_LINK_REJECTED" && v.Str? && p.pathLike(v.text))
    || (code == "RECORD_LIMIT_EXCEEDED" && v.List? && |v.items| > limits.records)
  }

  /** Some visible value, or key, is what the code complains about. */
  ghost predicate Flaw(p: Policy, limits: Limits, code: string, v: Value, depth: nat)
    decreases v, 1
  {
    || FlawHere(p, limits, code, v, depth)
    || (v.Map? && FlawInEntries(p, limits, code, v.entries, depth))
    || (v.List? && FlawInItems(p, limits, code, v.items, depth))
  }

  ghost predicate FlawInEntries(p: Policy, limits: Limits, code: string, entries: seq<Entry>, depth: nat)
    decreases entries, 0
  {
    entries != [] &&
    (assert (entries decreases to entries[0]);
     || (code == "MALFORMED_CONTEXT" && entries[0].key.NotText?)
     || (entries[0].key.Named? && !Hidden(p, entries[0].key.text) && Flaw(p, limits, code, entries[0].value, depth + 1))
     || FlawInEntries(p, limits, code, entries[1..], depth))
  }

  ghost predicate FlawInItems(p: Policy, limits: Limits, code: string, items: seq<Value>, depth: nat)
    decreases items, 0
  {
    items != [] && (Flaw(p, limits, code, items[0], depth + 1) || FlawInItems(p, limits, code, items[1..], depth))
  }

  /** Whatever code the walk fails with, some visible value has the flaw that code names. */
  lemma {:induction false} ErrorsNameAFlaw(p: Policy, limits: Limits, v: Value, path: string, audit: Audit, depth: nat)
    requires Clean(p, limits, v, path, audit, depth).Err?
    ensures Flaw(p, limits, Clean(p, limits, v, path, audit, depth).error, v, depth)
    decreases v, 1
  {
    if depth <= limits.depth {
      if v.Map? {
        EntriesErrorsNameAFlaw(p, limits, v.entries, path, audit, depth);
      } else if v.List? && |v.items| <= limits.records {
        ItemsErrorsNameAFlaw(p, limits, v.items, 0, path, audit.(records := audit.records + |v.items|), depth);
      }
    }
  }

  lemma {:induction false} EntriesErrorsNameAFlaw(p: Policy, limits: Limits, entries: seq<Entry>, path: string,
                                                  audit: Audit, depth: nat)
    requires CleanEntries(p, limits, entries, path, audit, depth).Err?
    ensures FlawInEntries(p, limits, CleanEntries(p, limits, entries, path, audit, depth).error, entries, depth)
    decreases entries, 0
  {
    if entries[0].key.Named? {
      hide FlawHere;
      var name := entries[0].key.text;
      var here := path + "." + name;
      var rest := entries[1..];
      if p.secretKey(name) {
        var noted := audit.(redactions := audit.redactions + [Redaction(here, "credential")]);
        EntriesErrorsNameAFlaw(p, limits, rest, path, noted, depth);
      } else if Excluded(p, name) {
        EntriesErrorsNameAFlaw(p, limits, rest, path, audit.(excluded := audit.excluded + [here]), depth);
      } else {
        assert (entries decreases to entries[0]);
        var r := Clean(p, limits, entries[0].value, here, audit, depth + 1);
        if r.Err? {
          ErrorsNameAFlaw(p, limits, entries[0].value, here, audit, depth + 1);
        } else {
          EntriesErrorsNameAFlaw(p, limits, rest, path, r.value.1, depth);
        }
      }
    }
  }

  lemma {:induction false} ItemsErrorsNameAFlaw(p: Policy, limits: Limits, items: seq<Value>, index: nat, path: string,
                                                audit: Audit, depth: nat)
    requires CleanItems(p, limits, items, index, path, audit, depth).Err?
    ensures FlawInItems(p, limits, CleanItems(p, limits, items, index, path, audit, depth).error, items, depth)
    decreases items, 0
  {
    var here := path + "[" + Digits(index) + "]";
    var r := Clean(p, limits, items[0], here, audit, depth + 1);
    if r.Err? {
      ErrorsNameAFlaw(p, limits, items[0], here, audit, depth + 1);
    } else {
      ItemsErrorsNameAFlaw(p, limits, items[1..], index + 1, path, r.value.1, depth);
    }
  }
}
