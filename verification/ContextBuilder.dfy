/**
 The redacted context package for AI assistance: a recursive walk that drops keys, rewrites
 strings and keeps an audit.

 `Policy` holds the regular expressions and encodings as functions; which keys are excluded by
 name, the limits and the order of the checks are written out.
 */
module ContextBuilder {
  import opened Text

  datatype Key = Named(text: string) | NotText

  datatype Value =
    | Null
    | Bool(flag: bool)
    | Number(number: real)
    | Str(text: string)
    | Bytes
    | Map(entries: seq<Entry>)
    | List(items: seq<Value>)
    | Unsupported

  datatype Entry = Entry(key: Key, value: Value)

  /** `credentials` returns the string with every credential replaced, and how many there were. */
  datatype Policy = Policy(secretKey: string -> bool, lower: string -> string, byteLength: string -> nat,
                           pathLike: string -> bool, credentials: string -> (string, nat), injection: string -> bool,
                           serialize: Value -> string, sha: string -> string, safeId: string -> bool)

  datatype Limits = Limits(questionBytes: nat, serializedBytes: nat, fieldBytes: nat, fields: nat, records: nat,
                           depth: nat, inputTokens: nat, outputTokens: nat)

  const EXCLUDED_KEYS := ["bytes", "raw", "raw_bytes", "content", "body", "download_url", "source_mount",
                          "directory_listing", "filesystem_path", "path"]

  predicate Excluded(p: Policy, name: string) { p.lower(name) in EXCLUDED_KEYS }

  /** The value under this key is never looked at. */
  predicate Hidden(p: Policy, name: string) { p.secretKey(name) || Excluded(p, name) }

  datatype Redaction = Redaction(path: string, kind: string)

  datatype Audit = Audit(redactions: seq<Redaction>, excluded: seq<string>, injections: nat, records: nat)

  const NO_AUDIT := Audit([], [], 0, 0)

  // ------------------------------------------------------------------- strings

  const FLAG := "[UNTRUSTED_EVIDENCE:prompt_injection] "

  /** What a string becomes. */
  function Redacted(p: Policy, s: string): string
  {
    var replaced := p.credentials(s).0;
    if p.injection(replaced) then FLAG + replaced else replaced
  }

  function Flagged(p: Policy, s: string): nat { if p.injection(p.credentials(s).0) then 1 else 0 }

  function Copies(r: Redaction, n: nat): seq<Redaction> { if n == 0 then [] else Copies(r, n - 1) + [r] }

  function RedactString(p: Policy, limits: Limits, s: string, path: string, audit: Audit):
    Result<(string, Audit), string>
  {
    if p.byteLength(s) > limits.fieldBytes then Err("FIELD_LIMIT_EXCEEDED")
    else if path != "question" && p.pathLike(s) then Err("PATH_OR_LINK_REJECTED")
    else
      var (replaced, n) := p.credentials(s);
      var replacedAudit := audit.(redactions := audit.redactions + Copies(Redaction(path, "credential"), n));
      if p.injection(replaced) then
        Ok((FLAG + replaced, replacedAudit.(injections := replacedAudit.injections + 1,
                                            redactions := replacedAudit.redactions
                                              + [Redaction(path, "prompt_injection")])))
      else Ok((replaced, replacedAudit))
  }

  // -------------------------------------------------------------------- the walk

  function Digits(n: nat): string { if n < 10 then [('0' as int + n) as char] else Digits(n / 10) + Digits(n % 10) }

  function Clean(p: Policy, limits: Limits, v: Value, path: string, audit: Audit, depth: nat):
    Result<(Value, Audit), string>
    decreases v, 1
  {
    if depth > limits.depth then Err("NESTING_LIMIT_EXCEEDED")
    else
      match v
      case Bytes => Err("RAW_BYTES_REJECTED")
      case Str(s) =>
        (match RedactString(p, limits, s, path, audit)
         case Err(code) => Err(code)
         case Ok((text, a)) => Ok((Str(text), a)))
      case Null => Ok((v, audit))
      case Bool(_) => Ok((v, audit))
      case Number(_) => Ok((v, audit))
      case Map(entries) =>
        (match CleanEntries(p, limits, entries, path, audit, depth)
         case Err(code) => Err(code)
         case Ok((kept, a)) => Ok((Map(kept), a)))
      case List(items) =>
        if |items| > limits.records then Err("RECORD_LIMIT_EXCEEDED")
        else
          (match CleanItems(p, limits, items, 0, path, audit.(records := audit.records + |items|), depth)
           case Err(code) => Err(code)
           case Ok((cleaned, a)) => Ok((List(cleaned), a)))
      case Unsupported => Err("UNSUPPORTED_VALUE")
  }

  function CleanEntries(p: Policy, limits: Limits, entries: seq<Entry>, path: string, audit: Audit, depth: nat):
    Result<(seq<Entry>, Audit), string>
    decreases entries, 0
  {
    if entries == [] then Ok(([], audit))
    else if entries[0].key.NotText? then Err("MALFORMED_CONTEXT")
    else
      var name := entries[0].key.text;
      var here := path + "." + name;
      if p.secretKey(name) then
        CleanEntries(p, limits, entries[1..], path,
                     audit.(redactions := audit.redactions + [Redaction(here, "credential")]), depth)
      else if Excluded(p, name) then
        CleanEntries(p, limits, entries[1..], path, audit.(excluded := audit.excluded + [here]), depth)
      else
        assert (entries decreases to entries[0]);
        match Clean(p, limits, entries[0].value, here, audit, depth + 1)
        case Err(code) => Err(code)
        case Ok((value, a)) =>
          Prepend([Entry(entries[0].key, value)], CleanEntries(p, limits, entries[1..], path, a, depth))
  }

  function CleanItems(p: Policy, limits: Limits, items: seq<Value>, index: nat, path: string, audit: Audit, depth: nat):
    Result<(seq<Value>, Audit), string>
    decreases items, 0
  {
    if items == [] then Ok(([], audit))
    else
      match Clean(p, limits, items[0], path + "[" + Digits(index) + "]", audit, depth + 1)
      case Err(code) => Err(code)
      case Ok((value, a)) =>
        Prepend([value], CleanItems(p, limits, items[1..], index + 1, path, a, depth))
  }

  /** The audit object the walk writes into. */
  class AuditLog {
    var redactions: seq<Redaction>
    var excluded: seq<string>
    var injections: nat
    var records: nat

    constructor ()
      ensures Now() == NO_AUDIT
    {
      redactions, excluded, injections, records := [], [], 0, 0;
    }

    function Now(): Audit
      reads this
    {
      Audit(redactions, excluded, injections, records)
    }

    method Redact(p: Policy, limits: Limits, s: string, path: string) returns (r: Result<string, string>)
      modifies this
      ensures match old(RedactString(p, limits, s, path, Now()))
              case Err(code) => r == Err(code)
              case Ok((text, a)) => r == Ok(text) && Now() == a
    {
      if p.byteLength(s) > limits.fieldBytes {
        return Err("FIELD_LIMIT_EXCEEDED");
      }
      if path != "question" && p.pathLike(s) {
        return Err("PATH_OR_LINK_REJECTED");
      }
      var (replaced, n) := p.credentials(s);
      redactions := redactions + Copies(Redaction(path, "credential"), n);
      if p.injection(replaced) {
        injections := injections + 1;
        redactions := redactions + [Redaction(path, "prompt_injection")];
        return Ok(FLAG + replaced);
      }
      return Ok(replaced);
    }

    method CleanValue(p: Policy, limits: Limits, v: Value, path: string, depth: nat) returns (r: Result<Value, string>)
      modifies this
      ensures match old(Clean(p, limits, v, path, Now(), depth))
              case Err(code) => r == Err(code)
              case Ok((value, a)) => r == Ok(value) && Now() == a
      decreases v, 1
    {
      if depth > limits.depth {
        return Err("NESTING_LIMIT_EXCEEDED");
      }
      match v
      case Bytes => return Err("RAW_BYTES_REJECTED");
      case Str(s) =>
        var text := Redact(p, limits, s, path);
        return if text.Err? then Err(text.error) else Ok(Str(text.value));
      case Null => return Ok(v);
      case Bool(_) => return Ok(v);
      case Number(_) => return Ok(v);
      case Map(entries) =>
        var kept := CleanMapping(p, limits, entries, path, depth);
        return if kept.Err? then Err(kept.error) else Ok(Map(kept.value));
      case List(items) =>
        if |items| > limits.records {
          return Err("RECORD_LIMIT_EXCEEDED");
        }
        records := records + |items|;
        var cleaned := CleanSequence(p, limits, items, path, depth);
        return if cleaned.Err? then Err(cleaned.error) else Ok(List(cleaned.value));
      case Unsupported => return Err("UNSUPPORTED_VALUE");
    }

    method CleanMapping(p: Policy, limits: Limits, entries: seq<Entry>, path: string, depth: nat)
      returns (r: Result<seq<Entry>, string>)
      modifies this
      ensures match old(CleanEntries(p, limits, entries, path, Now(), depth))
              case Err(code) => r == Err(code)
              case Ok((kept, a)) => r == Ok(kept) && Now() == a
      decreases entries, 0
    {
      var out: seq<Entry> := [];
      assert entries[0..] == entries;
      PrependNothing(CleanEntries(p, limits, entries, path, Now(), depth));
      for i := 0 to |entries|
        invariant old(CleanEntries(p, limits, entries, path, Now(), depth))
               == Prepend(out, CleanEntries(p, limits, entries[i..], path, Now(), depth))
      {
        var e := entries[i];
        assert entries[i..][0] == e && entries[i..][1..] == entries[i + 1..];
        if e.key.NotText? {
          return Err("MALFORMED_CONTEXT");
        }
        var here := path + "." + e.key.text;
        if p.secretKey(e.key.text) {
          redactions := redactions + [Redaction(here, "credential")];
        } else if Excluded(p, e.key.text) {
          excluded := excluded + [here];
        } else {
          assert (entries decreases to entries[i]);
          var value := CleanValue(p, limits, e.value, here, depth + 1);
          if value.Err? {
            return Err(value.error);
          }
          PrependOne(out, Entry(e.key, value.value), CleanEntries(p, limits, entries[i + 1..], path, Now(), depth));
          out := out + [Entry(e.key, value.value)];
        }
      }
      assert entries[|entries|..] == [] && out + [] == out;
      return Ok(out);
    }

    method CleanSequence(p: Policy, limits: Limits, items: seq<Value>, path: string, depth: nat)
      returns (r: Result<seq<Value>, string>)
      modifies this
      ensures match old(CleanItems(p, limits, items, 0, path, Now(), depth))
              case Err(code) => r == Err(code)
              case Ok((cleaned, a)) => r == Ok(cleaned) && Now() == a
      decreases items, 0
    {
      var out: seq<Value> := [];
      assert items[0..] == items;
      PrependNothing(CleanItems(p, limits, items, 0, path, Now(), depth));
      for i := 0 to |items|
        invariant old(CleanItems(p, limits, items, 0, path, Now(), depth))
               == Prepend(out, CleanItems(p, limits, items[i..], i, path, Now(), depth))
      {
        assert items[i..][0] == items[i] && items[i..][1..] == items[i + 1..];
        var value := CleanValue(p, limits, items[i], path + "[" + Digits(i) + "]", depth + 1);
        if value.Err? {
          return Err(value.error);
        }
        PrependOne(out, value.value, CleanItems(p, limits, items[i + 1..], i + 1, path, Now(), depth));
        out := out + [value.value];
      }
      assert items[|items|..] == [] && out + [] == out;
      return Ok(out);
    }
  }

  /** A partial result put in front of what the rest of the walk yields. */
  function Prepend<T>(out: seq<T>, r: Result<(seq<T>, Audit), string>): Result<(seq<T>, Audit), string>
  {
    match r
    case Err(code) => Err(code)
    case Ok((rest, a)) => Ok((out + rest, a))
  }

  lemma PrependNothing<T>(r: Result<(seq<T>, Audit), string>)
    ensures Prepend([], r) == r
  {
    assert r.Ok? ==> [] + r.value.0 == r.value.0;
  }

  lemma PrependOne<T>(out: seq<T>, x: T, r: Result<(seq<T>, Audit), string>)
    ensures Prepend(out, Prepend([x], r)) == Prepend(out + [x], r)
  {
    assert r.Ok? ==> out + ([x] + r.value.0) == (out + [x]) + r.value.0;
  }
}
