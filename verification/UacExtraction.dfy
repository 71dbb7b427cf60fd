/** Extraction of selected members from a UAC archive. */
module UacExtraction {
  import opened Text
  import opened MemberNames
  import opened ExtractionLoop

  /** What an archive member offers if it is wanted: nothing to do, a refusal, or its bytes. */
  datatype Offer = Ignored | Refused(code: string) | Content(bytes: Bytes)

  datatype Member = Member(name: string, offer: Offer)

  function SizeOf(files: seq<Extracted>): nat
  {
    if files == [] then 0 else SizeOf(files[..|files| - 1]) + |files[|files| - 1].content|
  }

  /** The components of a normalised path below the extraction directory, and where they lead. */
  function Components(path: string): seq<string> { Split('/', path) }

  function PlaceOf(path: string): Location { Walk([], Components(path)) }

  /** The error of a name that is not accepted. */
  function CodeOf(name: MemberNames.Outcome): string
  {
    match name
    case Rejected(code) => code
    case IndexFault => "IndexError"
    case Accepted(_) => ""
  }

  /** The errors of the selected names that are not accepted, in order. */
  function Refusals(selected: seq<string>): seq<string>
  {
    if selected == [] then []
    else
      var name := UacMember(selected[|selected| - 1]);
      Refusals(selected[..|selected| - 1]) + (if name.Accepted? then [] else [CodeOf(name)])
  }

  ghost predicate Requested(selected: seq<string>, path: string)
  {
    exists raw :: raw in selected && UacMember(raw) == Accepted(path)
  }

  /** The first loop: the normalised names of the selection, and the refusals. */
  method WantedNames(selected: seq<string>) returns (wanted: set<string>, errors: seq<string>)
    ensures forall w :: w in wanted <==> Requested(selected, w)
    ensures errors == Refusals(selected)
  {
    hide UacMember;
    wanted, errors := {}, [];
    for i := 0 to |selected|
      invariant forall w :: w in wanted <==> Requested(selected[..i], w)
      invariant errors == Refusals(selected[..i])
    {
      var name := UacMember(selected[i]);
      assert selected[..i + 1] == selected[..i] + [selected[i]];
      assert selected[..i + 1][..i] == selected[..i];
      assert forall w :: Requested(selected[..i], w) ==> Requested(selected[..i + 1], w);
      if name.Accepted? {
        wanted := wanted + {name.path};
      } else {
        errors := errors + [CodeOf(name)];
      }
    }
    assert selected[..|selected|] == selected;
  }

  /** The archive loop between two members: files copied so far, errors so far, and the disk. */
  datatype UacState = UacState(copied: seq<Extracted>, errors: seq<string>, disk: Disk)

  /** One wanted, readable member: a destination that exists, or a file where a directory is needed,
      is an error that leaves the loop; content that does not fit the budgets is recorded. */
  function Place(limits: Limits, st: UacState, path: string, content: Bytes): Result<UacState, string>
  {
    match WithParents(st.disk, [], Components(path))
    case None => Err("OSError")
    case Some(ready) =>
      if PlaceOf(path) in ready.files || PlaceOf(path) in ready.dirs then Err("ARCHIVE_MEMBER_INVALID")
      else if WithinBudget(limits, SizeOf(st.copied), |content|) then
        Ok(UacState(st.copied + [Extracted(path, content)], st.errors, ready.(files := ready.files + {PlaceOf(path)})))
      else Ok(UacState(st.copied, st.errors + ["TOTAL_LIMIT_EXCEEDED"], ready))
  }

  function UacStep(limits: Limits, wanted: set<string>, st: UacState, m: Member): Result<UacState, string>
  {
    var name := UacMember(m.name);
    if !name.Accepted? then Ok(st.(errors := st.errors + [CodeOf(name)]))
    else if name.path !in wanted || m.offer.Ignored? then Ok(st)
    else if m.offer.Refused? then Ok(st.(errors := st.errors + [m.offer.code]))
    else Place(limits, st, name.path, m.offer.bytes)
  }

  function UacLoop(limits: Limits, wanted: set<string>, st: UacState, members: seq<Member>): Result<UacState, string>
  {
    if members == [] then Ok(st)
    else
      match UacLoop(limits, wanted, st, members[..|members| - 1])
      case Err(e) => Err(e)
      case Ok(before) => UacStep(limits, wanted, before, members[|members| - 1])
  }

  datatype UacResult = UacResult(status: string, copied: seq<Extracted>, rejected: nat, errors: seq<string>)

  function UacStatus(copied: seq<Extracted>, errors: seq<string>): string
  {
    if errors == [] then "completed" else if copied != [] then "partial" else "rejected"
  }

  function ResultOf(st: UacState): UacResult
  {
    UacResult(UacStatus(st.copied, st.errors), st.copied, |st.errors|, st.errors)
  }

  ghost predicate WantedFrom(selected: seq<string>, wanted: set<string>)
  {
    forall w :: w in wanted <==> Requested(selected, w)
  }

  lemma UacLoopStopped(limits: Limits, wanted: set<string>, st: UacState, members: seq<Member>, k: nat)
    requires k <= |members| && UacLoop(limits, wanted, st, members[..k]).Err?
    ensures UacLoop(limits, wanted, st, members) == UacLoop(limits, wanted, st, members[..k])
    decreases |members|
  {
    if k < |members| {
      assert members[..|members| - 1][..k] == members[..k];
      UacLoopStopped(limits, wanted, st, members[..|members| - 1], k);
    } else {
      assert members[..k] == members;
    }
  }

  /** One member: the chunked copy does exactly what Place says. */
  method PlaceMember(limits: Limits, st: UacState, total: nat, path: string, content: Bytes)
    returns (r: Result<UacState, string>)
    requires total == SizeOf(st.copied) <= limits.maxTotal
    ensures r == Place(limits, st, path, content)
  {
    var ready := WithParents(st.disk, [], Components(path));
    if ready.None? {
      return Err("OSError");
    }
    if PlaceOf(path) in ready.value.files || PlaceOf(path) in ready.value.dirs {
      return Err("ARCHIVE_MEMBER_INVALID");
    }
    var complete, written := CopyChunks(limits, content, total);
    if !complete {
      return Ok(UacState(st.copied, st.errors + ["TOTAL_LIMIT_EXCEEDED"], ready.value));
    }
    var disk := ready.value.(files := ready.value.files + {PlaceOf(path)});
    return Ok(UacState(st.copied + [Extracted(path, written)], st.errors, disk));
  }

  /** UAC's `extract` from a zip or tar archive, with what is already on disk. */
  method Extract(limits: Limits, members: seq<Member>, selected: seq<string>, disk: Disk)
    returns (r: Result<UacResult, string>, ghost wanted: set<string>)
    ensures selected == [] ==> r == Ok(UacResult("not_requested", [], 0, []))
    ensures selected != [] ==>
              && WantedFrom(selected, wanted)
              && var end := UacLoop(limits, wanted, UacState([], Refusals(selected), disk), members);
                 r == if end.Err? then Err(end.error) else Ok(ResultOf(end.value))
  {
    wanted := {};
    if selected == [] {
      return Ok(UacResult("not_requested", [], 0, [])), {};
    }
    var names, errors := WantedNames(selected);
    wanted := names;
    ghost var start := UacState([], errors, disk);
    var st := UacState([], errors, disk);
    for i := 0 to |members|
      invariant UacLoop(limits, names, start, members[..i]) == Ok(st)
      invariant SizeOf(st.copied) <= limits.maxTotal
    {
      hide UacMember, Place, CodeOf;
      var m := members[i];
      var name := UacMember(m.name);
      assert members[..i + 1][..i] == members[..i];
      PlaceKeepsBudget(limits, st, if name.Accepted? then name.path else "", if m.offer.Content? then m.offer.bytes
                       else []);
      var next: Result<UacState, string> := Ok(st);
      if !name.Accepted? {
        next := Ok(st.(errors := st.errors + [CodeOf(name)]));
      } else if name.path in names && m.offer.Refused? {
        next := Ok(st.(errors := st.errors + [m.offer.code]));
      } else if name.path in names && m.offer.Content? {
        next := PlaceMember(limits, st, SizeOf(st.copied), name.path, m.offer.bytes);
      }
      assert next == UacStep(limits, names, st, m);
      if next.Err? {
        UacLoopStopped(limits, names, start, members, i + 1);
        return Err(next.error), names;
      }
      st := next.value;
    }
    assert members[..|members|] == members;
    return Ok(ResultOf(st)), names;
  }

  lemma PlaceKeepsBudget(limits: Limits, st: UacState, path: string, content: Bytes)
    requires SizeOf(st.copied) <= limits.maxTotal
    ensures var r := Place(limits, st, path, content); r.Ok? ==> SizeOf(r.value.copied) <= limits.maxTotal
  {
    assert (st.copied + [Extracted(path, content)])[..|st.copied|] == st.copied;
  }

  /** A member that the loop must either copy or report. */
  predicate Demands(wanted: set<string>, m: Member)
  {
    var name := UacMember(m.name);
    !name.Accepted? || (name.path in wanted && !m.offer.Ignored?)
  }

  function Demanding(wanted: set<string>, members: seq<Member>): nat
  {
    if members == [] then 0
    else Demanding(wanted, members[..|members| - 1]) + (if Demands(wanted, members[|members| - 1]) then 1 else 0)
  }

  /** The copied file is the content of a member whose name normalises to a wanted path. */
  ghost predicate CameFrom(wanted: set<string>, members: seq<Member>, f: Extracted)
  {
    && f.path in wanted
    && exists m :: m in members && UacMember(m.name) == Accepted(f.path) && m.offer == Content(f.content)
  }

  /** The place was free and holds a file now. */
  ghost predicate Fresh(before: Disk, after: Disk, place: Location)
  {
    place !in before.files && place !in before.dirs && place in after.files
  }

  /** Each copied file came from a wanted member and fits the file limit. */
  ghost predicate Sourced(limits: Limits, wanted: set<string>, members: seq<Member>, copied: seq<Extracted>)
  {
    forall f :: f in copied ==> |f.content| <= limits.maxFile && CameFrom(wanted, members, f)
  }

  /** Each copied file stands at a place of its own that was free. */
  ghost predicate Placed(before: Disk, after: Disk, copied: seq<Extracted>)
  {
    && before.files <= after.files && before.dirs <= after.dirs
    && (forall f :: f in copied ==> Fresh(before, after, PlaceOf(f.path)))
    && (forall i, j :: 0 <= i < j < |copied| ==> PlaceOf(copied[i].path) != PlaceOf(copied[j].path))
  }

  /** What holds of the loop after any prefix of the archive. */
  ghost predicate UacSound(limits: Limits, wanted: set<string>, start: UacState, members: seq<Member>, st: UacState)
  {
    && SizeOf(st.copied) <= limits.maxTotal
    && Sourced(limits, wanted, members, st.copied)
    && Placed(start.disk, st.disk, st.copied)
    && |st.copied| + |st.errors| == |start.errors| + Demanding(wanted, members)
  }

  lemma SourcedMore(limits: Limits, wanted: set<string>, members: seq<Member>, m: Member, copied: seq<Extracted>)
    requires Sourced(limits, wanted, members, copied)
    ensures Sourced(limits, wanted, members + [m], copied)
  {
    hide CameFrom;
    forall f | f in copied ensures CameFrom(wanted, members + [m], f) {
      CameFromMore(wanted, members, m, f);
    }
  }

  lemma PlacedMore(before: Disk, now: Disk, after: Disk, copied: seq<Extracted>, f: Extracted)
    requires Placed(before, now, copied)
    requires PlaceOf(f.path) !in now.files && PlaceOf(f.path) !in now.dirs
    requires after.files == now.files + {PlaceOf(f.path)} && now.dirs <= after.dirs
    ensures Placed(before, after, copied + [f])
  {
    hide PlaceOf;
    assert forall g :: g in copied ==> Fresh(before, now, PlaceOf(g.path));
    assert forall i :: 0 <= i < |copied| ==> (copied + [f])[i] in copied;
  }

  lemma PlacedOnMoreDisk(before: Disk, now: Disk, after: Disk, copied: seq<Extracted>)
    requires Placed(before, now, copied) && now.files <= after.files && now.dirs <= after.dirs
    ensures Placed(before, after, copied)
  {
    hide PlaceOf;
    assert forall g :: g in copied ==> Fresh(before, now, PlaceOf(g.path));
  }

  lemma CameFromMore(wanted: set<string>, members: seq<Member>, m: Member, f: Extracted)
    requires CameFrom(wanted, members, f)
    ensures CameFrom(wanted, members + [m], f)
  {
    hide UacMember;
    var from :| from in members && UacMember(from.name) == Accepted(f.path) && from.offer == Content(f.content);
    assert from in members + [m];
  }

  lemma DemandingMore(wanted: set<string>, members: seq<Member>, m: Member)
    ensures Demanding(wanted, members + [m]) == Demanding(wanted, members) + (if Demands(wanted, m) then 1 else 0)
  {
    hide Demands;
    assert (members + [m])[..|members|] == members;
  }

  /** A step that copies nothing may add an error and directories. */
  lemma QuietStep(limits: Limits, wanted: set<string>, st: UacState, m: Member)
    requires UacStep(limits, wanted, st, m).Ok? && UacStep(limits, wanted, st, m).value.copied == st.copied
    ensures var after := UacStep(limits, wanted, st, m).value;
            && after.disk.files == st.disk.files && st.disk.dirs <= after.disk.dirs
            && |after.errors| == |st.errors| + (if Demands(wanted, m) then 1 else 0)
  {
    hide UacMember, CodeOf, WithinBudget, Through, PlaceOf;
  }

  /** A step that copies something places the content of its member. */
  lemma CopyingStep(limits: Limits, wanted: set<string>, st: UacState, m: Member) returns (f: Extracted)
    requires UacStep(limits, wanted, st, m).Ok? && UacStep(limits, wanted, st, m).value.copied != st.copied
    ensures UacMember(m.name) == Accepted(f.path) && m.offer == Content(f.content) && f.path in wanted
            && Demands(wanted, m)
    ensures UacStep(limits, wanted, st, m) == Place(limits, st, f.path, f.content)
  {
    hide UacMember, CodeOf, Place;
    f := Extracted(UacMember(m.name).path, m.offer.bytes);
  }

  lemma UacStepKeeps(limits: Limits, wanted: set<string>, start: UacState, members: seq<Member>, st: UacState,
                     m: Member)
    requires UacSound(limits, wanted, start, members, st)
    requires UacStep(limits, wanted, st, m).Ok?
    ensures UacSound(limits, wanted, start, members + [m], UacStep(limits, wanted, st, m).value)
  {
    var after := UacStep(limits, wanted, st, m).value;
    DemandingMore(wanted, members, m);
    SourcedMore(limits, wanted, members, m, st.copied);
    hide UacStep, Place, Demands, Demanding, Sourced, Placed, SizeOf, UacMember;
    if after.copied == st.copied {
      QuietStep(limits, wanted, st, m);
      PlacedOnMoreDisk(start.disk, st.disk, after.disk, st.copied);
    } else {
      var f := CopyingStep(limits, wanted, st, m);
      CameFromLast(wanted, members, m, f);
      PlaceKeeps(limits, wanted, start, members, st, m, f);
    }
  }

  lemma CameFromLast(wanted: set<string>, members: seq<Member>, m: Member, f: Extracted)
    requires f.path in wanted && UacMember(m.name) == Accepted(f.path) && m.offer == Content(f.content)
    ensures CameFrom(wanted, members + [m], f)
  {
    hide UacMember;
    assert m in members + [m];
  }

  /** What a placed file changes. */
  lemma PlaceAdds(limits: Limits, st: UacState, f: Extracted)
    requires Place(limits, st, f.path, f.content).Ok? && Place(limits, st, f.path, f.content).value.copied != st.copied
    ensures var after := Place(limits, st, f.path, f.content).value;
            && after.copied == st.copied + [f] && after.errors == st.errors
            && WithinBudget(limits, SizeOf(st.copied), |f.content|)
            && PlaceOf(f.path) !in st.disk.files && PlaceOf(f.path) !in st.disk.dirs
            && after.disk.files == st.disk.files + {PlaceOf(f.path)} && st.disk.dirs <= after.disk.dirs
  {
    hide WithinBudget, Through, PlaceOf;
  }

  lemma PlaceKeeps(limits: Limits, wanted: set<string>, start: UacState, members: seq<Member>, st: UacState, m: Member,
                   f: Extracted)
    requires UacSound(limits, wanted, start, members, st) && Sourced(limits, wanted, members + [m], st.copied)
    requires CameFrom(wanted, members + [m], f) && Demands(wanted, m)
    requires Place(limits, st, f.path, f.content).Ok? && Place(limits, st, f.path, f.content).value.copied != st.copied
    ensures UacSound(limits, wanted, start, members + [m], Place(limits, st, f.path, f.content).value)
  {
    hide WithinBudget, PlaceOf, CameFrom, Demands, Demanding, Place, Placed;
    PlaceAdds(limits, st, f);
    DemandingMore(wanted, members, m);
    WithinBudgetMeans(limits, SizeOf(st.copied), |f.content|);
    PlacedMore(start.disk, st.disk, Place(limits, st, f.path, f.content).value.disk, st.copied, f);
    assert (st.copied + [f])[..|st.copied|] == st.copied;
  }

  lemma WithinBudgetMeans(limits: Limits, total: nat, n: nat)
    requires WithinBudget(limits, total, n)
    ensures n <= limits.maxFile && total + n <= limits.maxTotal
  {
  }

  lemma UacLoopSplit(limits: Limits, wanted: set<string>, start: UacState, members: seq<Member>)
    requires members != [] && UacLoop(limits, wanted, start, members).Ok?
    ensures var init := UacLoop(limits, wanted, start, members[..|members| - 1]);
            && init.Ok?
            && UacStep(limits, wanted, init.value, members[|members| - 1]) == UacLoop(limits, wanted, start, members)
  {
    hide UacStep;
  }

  lemma UacStartSound(limits: Limits, wanted: set<string>, start: UacState)
    requires start.copied == []
    ensures UacLoop(limits, wanted, start, []) == Ok(start) && UacSound(limits, wanted, start, [], start)
  {
  }

  /** UAC's archive loop, when it ends: every copied file is the content of a member whose name
      normalises to a selected one, lies at a destination that was free, within both budgets, at most
      one per destination; and each member that was wanted or ill-named was copied or reported. */
  lemma {:induction false} UacAccounts(limits: Limits, wanted: set<string>, start: UacState, members: seq<Member>)
    requires start.copied == []
    requires UacLoop(limits, wanted, start, members).Ok?
    ensures UacSound(limits, wanted, start, members, UacLoop(limits, wanted, start, members).value)
  {
    hide *;
    if members == [] {
      UacStartSound(limits, wanted, start);
    } else {
      var init, last := members[..|members| - 1], members[|members| - 1];
      assert members == init + [last];
      UacLoopSplit(limits, wanted, start, members);
      UacAccounts(limits, wanted, start, init);
      UacStepKeeps(limits, wanted, start, init, UacLoop(limits, wanted, start, init).value, last);
    }
  }

  /** The result says whether every wanted or ill-named member was copied, some were, or none; and rejects as many as
      it reports. */
  lemma ResultExactly(st: UacState)
    ensures var r := ResultOf(st);
            && r.copied == st.copied && r.errors == st.errors && r.rejected == |st.errors|
            && (r.status == "completed" <==> st.errors == [])
            && (r.status == "partial" <==> st.errors != [] && st.copied != [])
            && (r.status == "rejected" <==> st.errors != [] && st.copied == [])
  {
    assert |"completed"| == 9 && |"partial"| == 7 && |"rejected"| == 8;
  }

  /** What one member adds to the errors, or which error leaves the loop: a refused name or member with its own code,
      content that does not fit; a file where a directory is needed, and a destination that is taken. */
  lemma StepExactly(limits: Limits, wanted: set<string>, st: UacState, m: Member)
    ensures var name := UacMember(m.name);
            var r := UacStep(limits, wanted, st, m);
            var placing := name.Accepted? && name.path in wanted && m.offer.Content?;
            var blocked := placing && !(Through([], Components(name.path)) !! st.disk.files);
            var taken := placing && !blocked
                         && PlaceOf(name.path) in st.disk.files + st.disk.dirs + Through([], Components(name.path));
            && (r.Err? <==> blocked || taken)
            && (blocked ==> r.error == "OSError") && (taken ==> r.error == "ARCHIVE_MEMBER_INVALID")
            && (name.Rejected? ==> r == Ok(st.(errors := st.errors + [name.code])))
            && (name.Accepted? && (name.path !in wanted || m.offer.Ignored?) ==> r == Ok(st))
            && (name.Accepted? && name.path in wanted && m.offer.Refused? ==>
                  r == Ok(st.(errors := st.errors + [m.offer.code])))
            && (placing && r.Ok? ==>
                  && r.value.disk.dirs == st.disk.dirs + Through([], Components(name.path))
                  && (WithinBudget(limits, SizeOf(st.copied), |m.offer.bytes|) ==>
                        && r.value.copied == st.copied + [Extracted(name.path, m.offer.bytes)]
                        && r.value.errors == st.errors && r.value.disk.files == st.disk.files + {PlaceOf(name.path)})
                  && (!WithinBudget(limits, SizeOf(st.copied), |m.offer.bytes|) ==>
                        && r.value.copied == st.copied && r.value.errors == st.errors + ["TOTAL_LIMIT_EXCEEDED"]
                        && r.value.disk.files == st.disk.files))
  {
    hide UacMember, WithinBudget, Through, PlaceOf, SizeOf;
  }
}
