/** Extraction from a Velociraptor bundle against its inventory. */
module VelociraptorExtraction {
  import opened Text
  import opened MemberNames
  import opened ExtractionLoop

  datatype InventoryEntry = InventoryEntry(size: nat, sha256: string, isFile: bool)

  /** The inventory is keyed by sanitized names. `open` looks for a member stored under exactly the name
      it is given; None is the lookup error, which is not an adapter error. */
  datatype Bundle = Bundle(inventory: map<string, InventoryEntry>, open: string -> Option<Bytes>, sha: Bytes -> string)

  /** The components of a name below the extraction directory. */
  function Components(path: string): seq<string> { Split('/', path) }

  /** Where the file of a name goes, from the extraction directory. */
  function PlaceOf(path: string): Location { Walk([], Components(path)) }

  /** One sanitized name: inventory, budgets, directories, opening, bounded copy, comparison, replacement. */
  function ExtractOne(b: Bundle, limits: Limits, total: nat, disk: Disk, path: string): Result<Next, string>
  {
    if path !in b.inventory || !b.inventory[path].isFile then Ok(Next(Err("ARCHIVE_MEMBER_INVALID"), disk))
    else if !WithinBudget(limits, total, b.inventory[path].size) then Ok(Next(Err("FILE_LIMIT_EXCEEDED"), disk))
    else
      match WithParents(disk, [], Components(path))
      case None => Err("OSError")
      case Some(ready) =>
        match b.open(path)
        case None => Err("KeyError")
        case Some(content) =>
          if !WithinBudget(limits, total, |content|) then Ok(Next(Err("TOTAL_LIMIT_EXCEEDED"), ready))
          else if !Matches(b, path, content) then Ok(Next(Err("HASH_FAILED"), ready))
          else
            match WithFile(ready, PlaceOf(path))
            case None => Err("OSError")
            case Some(done) => Ok(Next(Ok(Extracted(path, content)), done))
  }

  /** The bytes are those the inventory promised. */
  predicate Matches(b: Bundle, path: string, content: Bytes)
    requires path in b.inventory
  {
    b.sha(content) == b.inventory[path].sha256 && |content| == b.inventory[path].size
  }

  function RequestOne(b: Bundle, limits: Limits): OneRequest<string>
  {
    (total: nat, disk: Disk, raw: string) =>
      match VelociraptorMember(raw)
      case Rejected(code) => Ok(Next(Err(code), disk))
      case IndexFault => Err("IndexError")
      case Accepted(path) => ExtractOne(b, limits, total, disk, path)
  }

  datatype Report = Report(status: string, extracted: seq<Extracted>, errors: seq<string>)

  function StatusOf(extracted: seq<Extracted>, errors: seq<string>): string
  {
    if errors == [] then "completed" else if extracted != [] then "partial" else "failed"
  }

  function ReportOf(p: Progress): Report
  {
    var extracted, errors := Successes(p.outcomes), Failures(p.outcomes);
    Report(StatusOf(extracted, errors), extracted, errors)
  }

  method CopyMember(b: Bundle, limits: Limits, total: nat, disk: Disk, path: string) returns (r: Result<Next, string>)
    requires total <= limits.maxTotal
    ensures r == ExtractOne(b, limits, total, disk, path)
  {
    if path !in b.inventory || !b.inventory[path].isFile {
      return Ok(Next(Err("ARCHIVE_MEMBER_INVALID"), disk));
    }
    var entry := b.inventory[path];
    if !WithinBudget(limits, total, entry.size) {
      return Ok(Next(Err("FILE_LIMIT_EXCEEDED"), disk));
    }
    var ready := WithParents(disk, [], Components(path));
    if ready.None? {
      return Err("OSError");
    }
    var content := b.open(path);
    if content.None? {
      return Err("KeyError");
    }
    var complete, written := CopyChunks(limits, content.value, total);
    if !complete {
      return Ok(Next(Err("TOTAL_LIMIT_EXCEEDED"), ready.value));
    }
    if b.sha(written) != entry.sha256 || |written| != entry.size {
      return Ok(Next(Err("HASH_FAILED"), ready.value));
    }
    var done := WithFile(ready.value, PlaceOf(path));
    if done.None? {
      return Err("OSError");
    }
    return Ok(Next(Ok(Extracted(path, written)), done.value));
  }

  /** The body of the loop: the sanitizer, then the member. */
  method RequestMember(b: Bundle, limits: Limits, total: nat, disk: Disk, raw: string) returns (r: Result<Next, string>)
    requires total <= limits.maxTotal
    ensures r == RequestOne(b, limits)(total, disk, raw)
  {
    hide VelociraptorMember, ExtractOne;
    match VelociraptorMember(raw) {
      case IndexFault => r := Err("IndexError");
      case Rejected(code) => r := Ok(Next(Err(code), disk));
      case Accepted(path) => r := CopyMember(b, limits, total, disk, path);
    }
  }

  /** `extract`: the inventory is only taken when something is requested, and its errors leave at once. */
  method Extract(bundle: Result<Bundle, string>, limits: Limits, disk: Disk, requested: seq<string>)
    returns (r: Result<Report, string>)
    ensures requested == [] ==> r == Ok(Report("not_requested", [], []))
    ensures requested != [] && bundle.Err? ==> r == Err(bundle.error)
    ensures requested != [] && bundle.Ok? ==>
              var end := Loop(RequestOne(bundle.value, limits), disk, requested);
              r == if end.Ok? then Ok(ReportOf(end.value)) else Err(end.error)
  {
    if requested == [] {
      return Ok(Report("not_requested", [], []));
    }
    if bundle.Err? {
      return Err(bundle.error);
    }
    var b := bundle.value;
    ghost var one := RequestOne(b, limits);
    var extracted: seq<Extracted> := [];
    var errors: seq<string> := [];
    var total: nat := 0;
    var now := disk;
    ghost var os: seq<ExtractionLoop.Outcome> := [];
    for i := 0 to |requested|
      invariant Loop(one, disk, requested[..i]) == Ok(Progress(os, now))
      invariant extracted == Successes(os) && errors == Failures(os) && total == Taken(os) <= limits.maxTotal
    {
      hide RequestOne, Loop, Taken, Successes, Failures;
      RequestRespectsBudget(b, limits);
      LoopStep(one, disk, requested, i);
      var step := RequestMember(b, limits, total, now, requested[i]);
      if step.Err? {
        LoopStopped(one, disk, requested, i + 1);
        return Err(step.error);
      }
      var outcome := step.value.outcome;
      OneMoreOutcome(os, outcome);
      assert Admits(limits, total, outcome);
      os, now := os + [outcome], step.value.disk;
      if outcome.Ok? {
        total := total + |outcome.value.content|;
        extracted := extracted + [outcome.value];
      } else {
        errors := errors + [outcome.error];
      }
    }
    assert requested[..|requested|] == requested;
    return Ok(Report(StatusOf(extracted, errors), extracted, errors));
  }

  lemma RequestRespectsBudget(b: Bundle, limits: Limits)
    ensures RespectsBudget(RequestOne(b, limits), limits)
  {
    hide VelociraptorMember, WithParents, WithFile;
  }

  // --------------------------------------------------------- when it ends, and how

  /** The request gets past inventory and declared size. */
  predicate Considered(b: Bundle, limits: Limits, total: nat, raw: string)
  {
    var name := VelociraptorMember(raw);
    && name.Accepted? && name.path in b.inventory && b.inventory[name.path].isFile
    && WithinBudget(limits, total, b.inventory[name.path].size)
  }

  /** The errors no handler catches: a name without components; and, for a request that gets that far, a
      file where a directory is needed, no member stored under the sanitized name, or a directory where
      the finished file should go. */
  predicate Escapes(b: Bundle, limits: Limits, p: Progress, raw: string)
  {
    var name := VelociraptorMember(raw);
    || name.IndexFault?
    || (Considered(b, limits, Taken(p.outcomes), raw)
        && (!(Through([], Components(name.path)) !! p.disk.files)
            || b.open(name.path).None?
            || (Matches(b, name.path, b.open(name.path).value)
                && PlaceOf(name.path) in p.disk.dirs + Through([], Components(name.path)))))
  }

  lemma EscapesExactly(b: Bundle, limits: Limits, p: Progress, raw: string)
    ensures RequestOne(b, limits)(Taken(p.outcomes), p.disk, raw).Err? <==> Escapes(b, limits, p, raw)
  {
    hide VelociraptorMember, Through, PlaceOf;
  }

  ghost predicate EscapesAt(b: Bundle, limits: Limits, disk: Disk, requested: seq<string>, i: nat)
    requires i < |requested|
  {
    var before := Loop(RequestOne(b, limits), disk, requested[..i]);
    before.Ok? && Escapes(b, limits, before.value, requested[i])
  }

  /** `extract` reports exactly when no request it reaches escapes. */
  lemma ReportsExactly(b: Bundle, limits: Limits, disk: Disk, requested: seq<string>)
    ensures Loop(RequestOne(b, limits), disk, requested).Ok?
            <==> forall i :: 0 <= i < |requested| ==> !EscapesAt(b, limits, disk, requested, i)
  {
    var one := RequestOne(b, limits);
    LoopEndsExactly(one, disk, requested);
    forall i | 0 <= i < |requested| ensures Passes(one, disk, requested, i) <==>
      !EscapesAt(b, limits, disk, requested, i) {
      if Loop(one, disk, requested[..i]).Ok? {
        EscapesExactly(b, limits, Loop(one, disk, requested[..i]).value, requested[i]);
      }
      hide Loop, RequestOne, Escapes;
    }
    hide *;
  }

  /** Each request is extracted or failed, never both, and within the total. */
  lemma {:induction false} ExtractionAccounts(b: Bundle, limits: Limits, disk: Disk, requested: seq<string>)
    requires Loop(RequestOne(b, limits), disk, requested).Ok?
    ensures var os := Loop(RequestOne(b, limits), disk, requested).value.outcomes;
            |Successes(os)| + |Failures(os)| == |requested| && Taken(os) <= limits.maxTotal
  {
    RequestRespectsBudget(b, limits);
    LoopAccounts(RequestOne(b, limits), limits, disk, requested);
    hide *;
  }

  lemma OneExactly(b: Bundle, limits: Limits, total: nat, disk: Disk, raw: string)
    requires RequestOne(b, limits)(total, disk, raw).Ok?
    ensures var o := RequestOne(b, limits)(total, disk, raw).value.outcome;
            var name := VelociraptorMember(raw);
            && (o.Ok? <==> Considered(b, limits, total, raw)
                           && b.open(name.path).Some? && Matches(b, name.path, b.open(name.path).value))
            && (o.Ok? ==> o.value == Extracted(name.path, b.open(name.path).value))
  {
    hide VelociraptorMember, WithParents, WithFile, PlaceOf;
  }

  /** When `extract` reports, a request was extracted exactly when it names a regular file of the
      inventory that fits the bytes left and whose bytes, stored under that name, are those
      inventoried; what was extracted is those bytes. */
  lemma ExtractsTheInventory(b: Bundle, limits: Limits, disk: Disk, requested: seq<string>, i: nat)
    requires i < |requested| && Loop(RequestOne(b, limits), disk, requested).Ok?
    ensures var os := Loop(RequestOne(b, limits), disk, requested).value.outcomes;
            var before := Loop(RequestOne(b, limits), disk, requested[..i]);
            var name := VelociraptorMember(requested[i]);
            && |os| == |requested| && before.Ok?
            && (os[i].Ok? <==> Considered(b, limits, Taken(before.value.outcomes), requested[i])
                               && b.open(name.path).Some? && Matches(b, name.path, b.open(name.path).value))
            && (os[i].Ok? ==> os[i].value == Extracted(name.path, b.open(name.path).value))
  {
    OutcomeAt(RequestOne(b, limits), disk, requested, i);
    var before := Loop(RequestOne(b, limits), disk, requested[..i]).value;
    OneExactly(b, limits, Taken(before.outcomes), before.disk, requested[i]);
    hide *;
  }

  lemma RequestSettles(b: Bundle, limits: Limits, total: nat, disk: Disk, raw: string)
    requires RequestOne(b, limits)(total, disk, raw).Ok?
    ensures Settled([], Components, disk, RequestOne(b, limits)(total, disk, raw).value)
  {
    hide VelociraptorMember, WithParents, WithFile, Settled, Components, Walk, Matches;
    var outcome := RequestOne(b, limits)(total, disk, raw).value.outcome;
    if outcome.Err? {
      var name := VelociraptorMember(raw);
      ParentsSettle([], Components, disk, Components(if name.Accepted? then name.path else ""), outcome.error);
    } else {
      FileSettles([], Components, disk, outcome.value);
    }
  }

  lemma RequestRespectsDisk(b: Bundle, limits: Limits)
    ensures RespectsDisk(RequestOne(b, limits), [], Components)
  {
    hide RequestOne, Settled, Components;
    forall total: nat, disk, raw | RequestOne(b, limits)(total, disk, raw).Ok?
      ensures Settled([], Components, disk, RequestOne(b, limits)(total, disk, raw).value)
    {
      RequestSettles(b, limits, total, disk, raw);
    }
  }

  /** When `extract` reports, no extracted file stands where another one needs a directory. */
  lemma ExtractedFilesDoNotCollide(b: Bundle, limits: Limits, disk: Disk, requested: seq<string>, f: Extracted,
                                   g: Extracted)
    requires Tidy(disk) && Loop(RequestOne(b, limits), disk, requested).Ok?
    requires f in Successes(Loop(RequestOne(b, limits), disk, requested).value.outcomes)
    requires g in Successes(Loop(RequestOne(b, limits), disk, requested).value.outcomes)
    ensures PlaceOf(f.path) !in Through([], Components(g.path))
  {
    RequestRespectsDisk(b, limits);
    NoFileOnTheWay(RequestOne(b, limits), [], Components, disk, requested, f, g);
    hide Loop, RequestOne, Through;
  }

  /** The report says whether all requests, some or none were extracted. */
  lemma StatusExactly(p: Progress)
    ensures var status := ReportOf(p).status;
            && (status == "completed" <==> forall o :: o in p.outcomes ==> o.Ok?)
            && (status == "partial" <==>
                (exists o :: o in p.outcomes && o.Ok?) && exists o :: o in p.outcomes && o.Err?)
            && (status == "failed" <==> p.outcomes != [] && forall o :: o in p.outcomes ==> o.Err?)
  {
    AllOrNone(p.outcomes);
    StatusesDiffer();
    hide Successes, Failures;
    assert p.outcomes != [] ==> p.outcomes[0] in p.outcomes;
  }

  lemma StatusesDiffer()
    ensures |"completed"| == 9 && |"partial"| == 7 && |"failed"| == 6
  {
  }

  /** Which failure is reported: the name, the inventory, the declared size, the size read, or the bytes read. */
  lemma FailsExactly(b: Bundle, limits: Limits, total: nat, disk: Disk, raw: string)
    requires RequestOne(b, limits)(total, disk, raw).Ok?
    ensures var o := RequestOne(b, limits)(total, disk, raw).value.outcome;
            var name := VelociraptorMember(raw);
            var known := name.Accepted? && name.path in b.inventory && b.inventory[name.path].isFile;
            && (o == Err("PATH_TRAVERSAL_REJECTED") <==> name.Rejected?)
            && (o == Err("ARCHIVE_MEMBER_INVALID") <==> name.Accepted? && !known)
            && (o == Err("FILE_LIMIT_EXCEEDED") <==>
                  known && !WithinBudget(limits, total, b.inventory[name.path].size))
            && (o == Err("TOTAL_LIMIT_EXCEEDED") <==>
                  && Considered(b, limits, total, raw) && b.open(name.path).Some?
                  && !WithinBudget(limits, total, |b.open(name.path).value|))
            && (o == Err("HASH_FAILED") <==>
                  && Considered(b, limits, total, raw) && b.open(name.path).Some?
                  && WithinBudget(limits, total, |b.open(name.path).value|)
                  && !Matches(b, name.path, b.open(name.path).value))
  {
    RejectedForTraversal(raw);
    CodesDiffer();
    hide VelociraptorMember, WithParents, WithFile, PlaceOf, WithinBudget, Matches;
  }

  lemma RejectedForTraversal(raw: string)
    ensures VelociraptorMember(raw).Rejected? ==> VelociraptorMember(raw).code == "PATH_TRAVERSAL_REJECTED"
  {
  }

  lemma CodesDiffer()
    ensures |"PATH_TRAVERSAL_REJECTED"| == 23 && |"ARCHIVE_MEMBER_INVALID"| == 22 && |"FILE_LIMIT_EXCEEDED"| == 19
    ensures |"TOTAL_LIMIT_EXCEEDED"| == 20 && |"HASH_FAILED"| == 11
  {
  }

  // ------------------------------------------------------------------ zip bundles

  /** A zip member as stored; `regular` is false for directories, links and special files. */
  datatype Stored = Stored(name: string, regular: bool, content: Bytes)

  const NO_SHA := seq(64, _ => '0')

  function EntryOf(sha: Bytes -> string, m: Stored): InventoryEntry
  {
    if m.regular then InventoryEntry(|m.content|, sha(m.content), true) else InventoryEntry(0, NO_SHA, false)
  }

  /** The inventory under sanitized names, the last of several winning; a name that is refused, or a
      member above the limit, is an error of the whole inventory. */
  function InventoryOf(sha: Bytes -> string, limits: Limits, stored: seq<Stored>):
    Result<map<string, InventoryEntry>, string>
  {
    if stored == [] then Ok(map[])
    else
      var m := stored[|stored| - 1];
      match InventoryOf(sha, limits, stored[..|stored| - 1])
      case Err(code) => Err(code)
      case Ok(before) =>
        match VelociraptorMember(m.name)
        case Rejected(code) => Err(code)
        case IndexFault => Err("IndexError")
        case Accepted(path) =>
          if m.regular && |m.content| > limits.maxFile then Err("FILE_LIMIT_EXCEEDED")
            else Ok(before[path := EntryOf(sha, m)])
  }

  /** What the archive yields for a name: the last member stored under exactly that name. */
  function Opened(stored: seq<Stored>, name: string): Option<Bytes>
  {
    if stored == [] then None
    else if stored[|stored| - 1].name == name then Some(stored[|stored| - 1].content)
    else Opened(stored[..|stored| - 1], name)
  }

  function ZipBundle(sha: Bytes -> string, limits: Limits, stored: seq<Stored>): Result<Bundle, string>
  {
    match InventoryOf(sha, limits, stored)
    case Err(code) => Err(code)
    case Ok(inventory) => Ok(Bundle(inventory, (name: string) => Opened(stored, name), sha))
  }

  /** Every regular member is stored under its sanitized name. */
  ghost predicate WellNamed(stored: seq<Stored>)
  {
    forall m :: m in stored && m.regular ==> VelociraptorMember(m.name) == Accepted(m.name)
  }

  /** A zip yields something for a name exactly when a member is stored under that very name. */
  lemma {:induction false} OpensExactly(stored: seq<Stored>, name: string)
    ensures Opened(stored, name).Some? <==> exists m :: m in stored && m.name == name
  {
    if stored != [] {
      var init, last := stored[..|stored| - 1], stored[|stored| - 1];
      OpensExactly(init, name);
      assert stored == init + [last];
    }
  }

  /** In a well-named zip every regular file of the inventory is found again with the inventoried bytes. */
  lemma {:induction false} WellNamedOpens(sha: Bytes -> string, limits: Limits, stored: seq<Stored>, path: string)
    requires WellNamed(stored) && InventoryOf(sha, limits, stored).Ok?
    requires var inventory := InventoryOf(sha, limits, stored).value; path in inventory && inventory[path].isFile
    ensures Opened(stored, path).Some? && VelociraptorMember(path) == Accepted(path)
    ensures var content := Opened(stored, path).value;
            InventoryOf(sha, limits, stored).value[path] == InventoryEntry(|content|, sha(content), true)
  {
    var init, last := stored[..|stored| - 1], stored[|stored| - 1];
    assert stored == init + [last];
    hide VelociraptorMember;
    if VelociraptorMember(last.name) != Accepted(path) {
      WellNamedOpens(sha, limits, init, path);
    }
  }

  /** So from a well-named zip a reported request fails only for its name, for naming no regular file, or
      for the bytes left; a hash never fails and no lookup escapes. */
  lemma WellNamedExtracts(sha: Bytes -> string, limits: Limits, stored: seq<Stored>, disk: Disk, requested: seq<string>,
                          i: nat)
    requires WellNamed(stored) && ZipBundle(sha, limits, stored).Ok? && i < |requested|
    requires Loop(RequestOne(ZipBundle(sha, limits, stored).value, limits), disk, requested).Ok?
    ensures var b := ZipBundle(sha, limits, stored).value;
            var before := Loop(RequestOne(b, limits), disk, requested[..i]);
            && before.Ok?
            && |Loop(RequestOne(b, limits), disk, requested).value.outcomes| == |requested|
            && (Loop(RequestOne(b, limits), disk, requested).value.outcomes[i].Ok?
                <==> Considered(b, limits, Taken(before.value.outcomes), requested[i]))
  {
    var b := ZipBundle(sha, limits, stored).value;
    ExtractsTheInventory(b, limits, disk, requested, i);
    hide Loop, RequestOne, Taken, VelociraptorMember, InventoryOf, Opened;
    var name := VelociraptorMember(requested[i]);
    if name.Accepted? && name.path in b.inventory && b.inventory[name.path].isFile {
      WellNamedOpens(sha, limits, stored, name.path);
    }
  }

  /** A wanted file whose member is stored under another spelling of its name always escapes. */
  lemma RenamedMemberEscapes(sha: Bytes -> string, limits: Limits, stored: seq<Stored>, p: Progress, raw: string)
    requires ZipBundle(sha, limits, stored).Ok?
    requires Considered(ZipBundle(sha, limits, stored).value, limits, Taken(p.outcomes), raw)
    requires forall m :: m in stored ==> m.name != VelociraptorMember(raw).path
    ensures Escapes(ZipBundle(sha, limits, stored).value, limits, p, raw)
  {
    OpensExactly(stored, VelociraptorMember(raw).path);
    hide VelociraptorMember, InventoryOf, Opened;
  }
}
