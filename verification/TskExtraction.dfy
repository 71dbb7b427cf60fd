/** Extraction of selected files from a disk image with the Sleuth Kit tools. */
module TskExtraction {
  import opened Text
  import opened MemberNames
  import opened ExtractionLoop

  datatype Selection = Selection(inode: string, path: string)

  /** What the tools answer: an error that no handler catches, a failure, or the content. */
  datatype ToolReply = Raised(code: string) | ToolFailed | Data(bytes: Bytes)

  type Tool = Selection -> ToolReply

  predicate AllDigits(s: string) { s != "" && forall i :: 0 <= i < |s| ==> '0' <= s[i] <= '9' }

  function StripSlashes(s: string): string { if s != "" && s[0] == '/' then StripSlashes(s[1..]) else s }

  /** The components joined to the root; `..` stays in them. */
  function Components(path: string): seq<string> { PosixParts(StripSlashes(path)) }

  /** Where the extracted file would go, lexically. */
  function Destination(root: Location, path: string): Location { Walk(root, Components(path)) }

  predicate WellFormed(s: Selection) { AllDigits(s.inode) && s.path != "" && s.path[0] == '/' }

  /** One selection: its form, its destination, the directories on the way, the tools, the budgets, and the
      replacement of the destination. */
  function SelectOne(limits: Limits, root: Location, icat: Tool, total: nat, disk: Disk, s: Selection):
    Result<Next, string>
  {
    if !WellFormed(s) then Ok(Next(Err("INVALID_SELECTION"), disk))
    else if !(root <= Destination(root, s.path)) then Ok(Next(Err("PATH_TRAVERSAL_REJECTED"), disk))
    else
      match WithParents(disk, root, Components(s.path))
      case None => Err("OSError")
      case Some(ready) =>
        match icat(s)
        case Raised(code) => Err(code)
        case ToolFailed => Ok(Next(Err("EXTRACTION_FAILED"), ready))
        case Data(bytes) =>
          if !WithinBudget(limits, total, |bytes|) then Ok(Next(Err("FILE_LIMIT_EXCEEDED"), ready))
          else
            match WithFile(ready, Destination(root, s.path))
            case None => Err("OSError")
            case Some(done) => Ok(Next(Ok(Extracted(s.path, bytes)), done))
  }

  function SelectionOne(limits: Limits, root: Location, icat: Tool): OneRequest<Selection>
  {
    (total: nat, disk: Disk, s: Selection) => SelectOne(limits, root, icat, total, disk, s)
  }

  datatype Report = Report(status: string, extracted: seq<Extracted>, errors: seq<string>)

  function StatusOf(extracted: seq<Extracted>, errors: seq<string>): string
  {
    if errors == [] then "completed" else if extracted != [] then "partial" else "rejected"
  }

  function ReportOf(p: Progress): Report
  {
    var extracted, errors := Successes(p.outcomes), Failures(p.outcomes);
    Report(StatusOf(extracted, errors), extracted, errors)
  }

  /** `extract`, over the selections in order. */
  method Extract(limits: Limits, root: Location, icat: Tool, disk: Disk, selections: seq<Selection>)
    returns (r: Result<Report, string>)
    ensures var end := Loop(SelectionOne(limits, root, icat), disk, selections);
            r == if end.Ok? then Ok(ReportOf(end.value)) else Err(end.error)
  {
    ghost var one := SelectionOne(limits, root, icat);
    var extracted: seq<Extracted> := [];
    var errors: seq<string> := [];
    var total: nat := 0;
    var now := disk;
    ghost var os: seq<ExtractionLoop.Outcome> := [];
    for i := 0 to |selections|
      invariant Loop(one, disk, selections[..i]) == Ok(Progress(os, now))
      invariant extracted == Successes(os) && errors == Failures(os) && total == Taken(os) <= limits.maxTotal
    {
      hide SelectOne, Loop, Taken, Successes, Failures;
      SelectionRespectsBudget(limits, root, icat);
      LoopStep(one, disk, selections, i);
      var step := SelectOne(limits, root, icat, total, now, selections[i]);
      assert step == one(total, now, selections[i]);
      if step.Err? {
        LoopStopped(one, disk, selections, i + 1);
        return Err(step.error);
      }
      var outcome := step.value.outcome;
      OneMoreOutcome(os, outcome);
      assert Admits(limits, total, outcome);
      os, now := os + [outcome], step.value.disk;
      if outcome.Ok? {
        total := total + |outcome.value.content|;
        extracted := extracted + [outcome.value];
      } else {
        errors := errors + [outcome.error];
      }
    }
    assert selections[..|selections|] == selections;
    return Ok(Report(StatusOf(extracted, errors), extracted, errors));
  }

  lemma SelectionRespectsBudget(limits: Limits, root: Location, icat: Tool)
    ensures RespectsBudget(SelectionOne(limits, root, icat), limits)
  {
    hide WellFormed, Destination, WithParents, WithFile;
  }

  // --------------------------------------------------------- when it ends, and how

  /** The errors no handler catches, for a well-formed selection whose destination is not above the
      root: a file where a directory is needed, tools that cannot run, or a directory, be it the root
      itself, where the finished file should go. */
  predicate Escapes(limits: Limits, root: Location, icat: Tool, p: Progress, s: Selection)
  {
    && WellFormed(s) && root <= Destination(root, s.path)
    && (!(Through(root, Components(s.path)) !! p.disk.files)
        || icat(s).Raised?
        || (icat(s).Data? && WithinBudget(limits, Taken(p.outcomes), |icat(s).bytes|)
            && Destination(root, s.path) in p.disk.dirs + Through(root, Components(s.path))))
  }

  lemma EscapesExactly(limits: Limits, root: Location, icat: Tool, p: Progress, s: Selection)
    ensures SelectionOne(limits, root, icat)(Taken(p.outcomes), p.disk, s).Err? <==> Escapes(limits, root, icat, p, s)
  {
    hide WellFormed, Destination, Through, Components;
  }

  ghost predicate EscapesAt(limits: Limits, root: Location, icat: Tool, disk: Disk, selections: seq<Selection>, i: nat)
    requires i < |selections|
  {
    var before := Loop(SelectionOne(limits, root, icat), disk, selections[..i]);
    before.Ok? && Escapes(limits, root, icat, before.value, selections[i])
  }

  /** `extract` reports exactly when no selection it reaches escapes. */
  lemma ReportsExactly(limits: Limits, root: Location, icat: Tool, disk: Disk, selections: seq<Selection>)
    ensures Loop(SelectionOne(limits, root, icat), disk, selections).Ok?
            <==> forall i :: 0 <= i < |selections| ==> !EscapesAt(limits, root, icat, disk, selections, i)
  {
    var one := SelectionOne(limits, root, icat);
    LoopEndsExactly(one, disk, selections);
    forall i | 0 <= i < |selections|
      ensures Passes(one, disk, selections, i) <==> !EscapesAt(limits, root, icat, disk, selections, i)
    {
      if Loop(one, disk, selections[..i]).Ok? {
        EscapesExactly(limits, root, icat, Loop(one, disk, selections[..i]).value, selections[i]);
      }
      hide Loop, SelectionOne, Escapes;
    }
    hide *;
  }

  /** Each selection is extracted or failed, never both, and within the total. */
  lemma {:induction false} ExtractionAccounts(limits: Limits, root: Location, icat: Tool, disk: Disk,
                                              selections: seq<Selection>)
    requires Loop(SelectionOne(limits, root, icat), disk, selections).Ok?
    ensures var os := Loop(SelectionOne(limits, root, icat), disk, selections).value.outcomes;
            |Successes(os)| + |Failures(os)| == |selections| && Taken(os) <= limits.maxTotal
  {
    SelectionRespectsBudget(limits, root, icat);
    LoopAccounts(SelectionOne(limits, root, icat), limits, disk, selections);
    hide *;
  }

  lemma OneExactly(limits: Limits, root: Location, icat: Tool, total: nat, disk: Disk, s: Selection)
    requires SelectionOne(limits, root, icat)(total, disk, s).Ok?
    ensures var o := SelectionOne(limits, root, icat)(total, disk, s).value.outcome;
            && (o.Ok? <==> WellFormed(s) && root <= Destination(root, s.path)
                           && icat(s).Data? && WithinBudget(limits, total, |icat(s).bytes|))
            && (o.Ok? ==> o.value == Extracted(s.path, icat(s).bytes))
            && (o.Ok? && root in disk.dirs ==> root < Destination(root, s.path))
  {
    hide WellFormed, Destination, Through, Components;
    var place := Destination(root, s.path);
    if root <= place && |root| == |place| {
      assert root == place[..|root|] == place;
    }
  }

  /** When `extract` reports, a selection was extracted exactly when it is well formed, leads to the root
      or below, and the tools printed content that fits the bytes left; what was extracted is that
      content, and its place was no directory: so, the root being one, strictly below the root. */
  lemma ExtractsWhatTheToolPrints(limits: Limits, root: Location, icat: Tool, disk: Disk, selections: seq<Selection>,
                                  i: nat)
    requires i < |selections| && Loop(SelectionOne(limits, root, icat), disk, selections).Ok?
    ensures var os := Loop(SelectionOne(limits, root, icat), disk, selections).value.outcomes;
            var before := Loop(SelectionOne(limits, root, icat), disk, selections[..i]);
            var s := selections[i];
            && |os| == |selections| && before.Ok?
            && (os[i].Ok? <==> WellFormed(s) && root <= Destination(root, s.path)
                               && icat(s).Data? && WithinBudget(limits, Taken(before.value.outcomes), |icat(s).bytes|))
            && (os[i].Ok? ==> os[i].value == Extracted(s.path, icat(s).bytes))
            && (os[i].Ok? && root in disk.dirs ==> root < Destination(root, s.path))
  {
    var one := SelectionOne(limits, root, icat);
    OutcomeAt(one, disk, selections, i);
    var before := Loop(one, disk, selections[..i]).value;
    OneExactly(limits, root, icat, Taken(before.outcomes), before.disk, selections[i]);
    SelectionRespectsDisk(limits, root, icat);
    DirectoriesStay(one, root, Components, disk, selections[..i]);
    hide *;
  }

  lemma SelectionSettles(limits: Limits, root: Location, icat: Tool, total: nat, disk: Disk, s: Selection)
    requires SelectionOne(limits, root, icat)(total, disk, s).Ok?
    ensures Settled(root, Components, disk, SelectionOne(limits, root, icat)(total, disk, s).value)
  {
    hide WellFormed, WithParents, WithFile, Settled, Components, Walk;
    var outcome := SelectionOne(limits, root, icat)(total, disk, s).value.outcome;
    if outcome.Err? {
      ParentsSettle(root, Components, disk, Components(s.path), outcome.error);
    } else {
      FileSettles(root, Components, disk, outcome.value);
    }
  }

  lemma SelectionRespectsDisk(limits: Limits, root: Location, icat: Tool)
    ensures RespectsDisk(SelectionOne(limits, root, icat), root, Components)
  {
    hide SelectionOne, Settled, Components;
    forall total: nat, disk, s | SelectionOne(limits, root, icat)(total, disk, s).Ok?
      ensures Settled(root, Components, disk, SelectionOne(limits, root, icat)(total, disk, s).value)
    {
      SelectionSettles(limits, root, icat, total, disk, s);
    }
  }

  /** When `extract` reports, no extracted file stands where another one needs a directory. */
  lemma ExtractedFilesDoNotCollide(limits: Limits, root: Location, icat: Tool, disk: Disk, selections: seq<Selection>,
                                   f: Extracted, g: Extracted)
    requires Tidy(disk) && Loop(SelectionOne(limits, root, icat), disk, selections).Ok?
    requires f in Successes(Loop(SelectionOne(limits, root, icat), disk, selections).value.outcomes)
    requires g in Successes(Loop(SelectionOne(limits, root, icat), disk, selections).value.outcomes)
    ensures Destination(root, f.path) !in Through(root, Components(g.path))
  {
    SelectionRespectsDisk(limits, root, icat);
    NoFileOnTheWay(SelectionOne(limits, root, icat), root, Components, disk, selections, f, g);
    hide Loop, SelectionOne, Through;
  }

  /** The report says whether all selections, some or none were extracted. */
  lemma StatusExactly(p: Progress)
    ensures var status := ReportOf(p).status;
            && (status == "completed" <==> forall o :: o in p.outcomes ==> o.Ok?)
            && (status == "partial" <==>
                (exists o :: o in p.outcomes && o.Ok?) && exists o :: o in p.outcomes && o.Err?)
            && (status == "rejected" <==> p.outcomes != [] && forall o :: o in p.outcomes ==> o.Err?)
  {
    AllOrNone(p.outcomes);
    StatusesDiffer();
    hide Successes, Failures;
    assert p.outcomes != [] ==> p.outcomes[0] in p.outcomes;
  }

  lemma StatusesDiffer()
    ensures |"completed"| == 9 && |"partial"| == 7 && |"rejected"| == 8
  {
  }

  /** Which failure is reported: the form of the selection, a destination above the root, the tools, or the size. */
  lemma FailsExactly(limits: Limits, root: Location, icat: Tool, total: nat, disk: Disk, s: Selection)
    requires SelectionOne(limits, root, icat)(total, disk, s).Ok?
    ensures var o := SelectionOne(limits, root, icat)(total, disk, s).value.outcome;
            var formed := AllDigits(s.inode) && s.path != "" && s.path[0] == '/';
            var below := formed && root <= Destination(root, s.path);
            && (o == Err("INVALID_SELECTION") <==> !formed)
            && (o == Err("PATH_TRAVERSAL_REJECTED") <==> formed && !below)
            && (o == Err("EXTRACTION_FAILED") <==> below && icat(s).ToolFailed?)
            && (o == Err("FILE_LIMIT_EXCEEDED") <==>
                  below && icat(s).Data? && !WithinBudget(limits, total, |icat(s).bytes|))
  {
    CodesDiffer();
    hide Destination, WithParents, WithFile, WithinBudget, AllDigits;
  }

  lemma CodesDiffer()
    ensures |"INVALID_SELECTION"| == 17 && |"PATH_TRAVERSAL_REJECTED"| == 23 && |"EXTRACTION_FAILED"| == 17
    ensures |"FILE_LIMIT_EXCEEDED"| == 19 && "INVALID_SELECTION"[0] != "EXTRACTION_FAILED"[0]
  {
  }
}
