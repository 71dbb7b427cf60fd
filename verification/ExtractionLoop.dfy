/**
 What the extraction loops share: the chunked copy that never exceeds its budgets, the files and
 directories a destination meets, and a loop over requests that an error may leave early.
 */
module ExtractionLoop {
  import opened Text
  import opened MemberNames

  type Bytes = seq<int>

  datatype Limits = Limits(maxFile: nat, maxTotal: nat)

  const CHUNK := 1024 * 1024

  predicate WithinBudget(limits: Limits, total: nat, n: nat) { n <= limits.maxFile && total + n <= limits.maxTotal }

  /** The read-check-write loop. `written` is the number of bytes written when it ends, so what is on
      disk never exceeds the budgets; the copy completes exactly when the whole content fits them. */
  method CopyChunks(limits: Limits, content: Bytes, total: nat) returns (complete: bool, written: Bytes)
    requires total <= limits.maxTotal
    ensures complete <==> WithinBudget(limits, total, |content|)
    ensures WithinBudget(limits, total, |written|) && written <= content
    ensures complete ==> written == content
    ensures !complete ==>
            !WithinBudget(limits, total, if |written| + CHUNK < |content| then |written| + CHUNK else |content|)
  {
    written := [];
    while |written| < |content|
      invariant |written| <= |content| && written == content[..|written|]
      invariant WithinBudget(limits, total, |written|)
      decreases |content| - |written|
    {
      var end := if |written| + CHUNK < |content| then |written| + CHUNK else |content|;
      if end > limits.maxFile || total + end > limits.maxTotal {
        return false, written;
      }
      written := content[..end];
    }
    complete := true;
  }

  // ------------------------------------------------------ the extraction directory

  /** The places that hold a file and those that hold a directory. */
  datatype Disk = Disk(files: set<Location>, dirs: set<Location>)

  /** The directories on the way to `root / parts`. */
  function Through(root: Location, parts: seq<string>): set<Location>
  {
    set j | 0 <= j < |parts| :: Walk(root, parts[..j])
  }

  /** `parent.mkdir(parents=True, exist_ok=True)`: None when a file stands where a directory is needed. */
  function WithParents(d: Disk, root: Location, parts: seq<string>): Option<Disk>
  {
    if Through(root, parts) !! d.files then Some(d.(dirs := d.dirs + Through(root, parts))) else None
  }

  /** `os.replace` of a finished file: None when a directory stands there; a file is overwritten. */
  function WithFile(d: Disk, place: Location): Option<Disk>
  {
    if place in d.dirs then None else Some(d.(files := d.files + {place}))
  }

  /** No place is both a file and a directory. */
  ghost predicate Tidy(d: Disk) { d.files !! d.dirs }

  // ---------------------------------------------------------- outcomes of requests

  datatype Extracted = Extracted(path: string, content: Bytes)

  type Outcome = Result<Extracted, string>

  function Taken(outcomes: seq<Outcome>): nat
  {
    if outcomes == [] then 0
    else
      var o := outcomes[|outcomes| - 1];
      Taken(outcomes[..|outcomes| - 1]) + (if o.Ok? then |o.value.content| else 0)
  }

  function Successes(outcomes: seq<Outcome>): seq<Extracted>
  {
    if outcomes == [] then []
    else
      var o := outcomes[|outcomes| - 1];
      Successes(outcomes[..|outcomes| - 1]) + (if o.Ok? then [o.value] else [])
  }

  function Failures(outcomes: seq<Outcome>): seq<string>
  {
    if outcomes == [] then []
    else
      var o := outcomes[|outcomes| - 1];
      Failures(outcomes[..|outcomes| - 1]) + (if o.Err? then [o.error] else [])
  }

  lemma OneMoreOutcome(before: seq<Outcome>, o: Outcome)
    ensures Taken(before + [o]) == Taken(before) + (if o.Ok? then |o.value.content| else 0)
    ensures Successes(before + [o]) == Successes(before) + (if o.Ok? then [o.value] else [])
    ensures Failures(before + [o]) == Failures(before) + (if o.Err? then [o.error] else [])
  {
    assert (before + [o])[..|before|] == before;
  }

  /** All requests were extracted exactly when there are no failures, and none exactly when there are no successes. */
  lemma {:induction false} AllOrNone(outcomes: seq<Outcome>)
    ensures Failures(outcomes) == [] <==> forall o :: o in outcomes ==> o.Ok?
    ensures Successes(outcomes) == [] <==> forall o :: o in outcomes ==> o.Err?
  {
    if outcomes != [] {
      var init, last := outcomes[..|outcomes| - 1], outcomes[|outcomes| - 1];
      assert outcomes == init + [last] && last in outcomes;
      assert forall o :: o in outcomes <==> o in init || o == last;
      AllOrNone(init);
      OneMoreOutcome(init, last);
      hide Successes, Failures;
    }
  }

  // --------------------------------------------------------------------- the loop

  /** A request that has come to its outcome, and what it left on disk. */
  datatype Next = Next(outcome: Outcome, disk: Disk)

  datatype Progress = Progress(outcomes: seq<Outcome>, disk: Disk)

  /** What one request comes to after so many bytes on such a disk; Err is an error that no handler of
      the loop catches. */
  type OneRequest<!R> = (nat, Disk, R) -> Result<Next, string>

  function Advance<R>(one: OneRequest<R>, p: Progress, request: R): Result<Progress, string>
  {
    match one(Taken(p.outcomes), p.disk, request)
    case Err(code) => Err(code)
    case Ok(next) => Ok(Progress(p.outcomes + [next.outcome], next.disk))
  }

  /** The requests in turn, later ones seeing the bytes and the disk that earlier ones left. */
  function Loop<R>(one: OneRequest<R>, disk: Disk, requests: seq<R>): Result<Progress, string>
  {
    if requests == [] then Ok(Progress([], disk))
    else
      match Loop(one, disk, requests[..|requests| - 1])
      case Err(code) => Err(code)
      case Ok(p) => Advance(one, p, requests[|requests| - 1])
  }

  lemma LoopStep<R>(one: OneRequest<R>, disk: Disk, requests: seq<R>, i: nat)
    requires i < |requests| && Loop(one, disk, requests[..i]).Ok?
    ensures Loop(one, disk, requests[..i + 1]) == Advance(one, Loop(one, disk, requests[..i]).value, requests[i])
  {
    assert requests[..i + 1][..i] == requests[..i];
  }

  lemma LoopStopped<R>(one: OneRequest<R>, disk: Disk, requests: seq<R>, k: nat)
    requires k <= |requests| && Loop(one, disk, requests[..k]).Err?
    ensures Loop(one, disk, requests) == Loop(one, disk, requests[..k])
    decreases |requests|
  {
    if k < |requests| {
      assert requests[..|requests| - 1][..k] == requests[..k];
      LoopStopped(one, disk, requests[..|requests| - 1], k);
    } else {
      assert requests[..k] == requests;
    }
  }

  /** When the loop ends, it has come to an outcome for each request, and each outcome is that of its own
      request after those before it. */
  lemma {:induction false} OutcomeAt<R>(one: OneRequest<R>, disk: Disk, requests: seq<R>, i: nat)
    requires Loop(one, disk, requests).Ok? && i < |requests|
    ensures |Loop(one, disk, requests).value.outcomes| == |requests|
    ensures Loop(one, disk, requests[..i]).Ok?
    ensures var p := Loop(one, disk, requests[..i]).value;
            var r := one(Taken(p.outcomes), p.disk, requests[i]);
            r.Ok? && r.value.outcome == Loop(one, disk, requests).value.outcomes[i]
  {
    hide Taken;
    var n := |requests| - 1;
    var init := requests[..n];
    if i < n {
      assert init[..i] == requests[..i] && init[i] == requests[i];
      OutcomeAt(one, disk, init, i);
    } else if n > 0 {
      OutcomeAt(one, disk, init, 0);
    }
  }

  ghost predicate Passes<R>(one: OneRequest<R>, disk: Disk, requests: seq<R>, i: nat)
    requires i < |requests|
  {
    var before := Loop(one, disk, requests[..i]);
    before.Ok? ==> one(Taken(before.value.outcomes), before.value.disk, requests[i]).Ok?
  }

  /** The loop ends exactly when no request it reaches leaves it. */
  lemma LoopEndsExactly<R>(one: OneRequest<R>, disk: Disk, requests: seq<R>)
    ensures Loop(one, disk, requests).Ok? <==> forall i :: 0 <= i < |requests| ==> Passes(one, disk, requests, i)
  {
    if Loop(one, disk, requests).Ok? {
      forall i | 0 <= i < |requests| ensures Passes(one, disk, requests, i) {
        OutcomeAt(one, disk, requests, i);
      }
    } else {
      var i := FirstStop(one, disk, requests);
      assert !Passes(one, disk, requests, i);
    }
  }

  lemma {:induction false} FirstStop<R>(one: OneRequest<R>, disk: Disk, requests: seq<R>) returns (i: nat)
    requires Loop(one, disk, requests).Err?
    ensures i < |requests| && !Passes(one, disk, requests, i)
  {
    var n := |requests| - 1;
    if Loop(one, disk, requests[..n]).Err? {
      i := FirstStop(one, disk, requests[..n]);
      assert requests[..n][..i] == requests[..i];
    } else {
      i := n;
    }
  }

  // ---------------------------------------------------- what every such loop keeps

  /** `one` admits nothing beyond the budgets. */
  ghost predicate RespectsBudget<R(!new)>(one: OneRequest<R>, limits: Limits)
  {
    forall total: nat, disk, r :: total <= limits.maxTotal && one(total, disk, r).Ok? ==>
      Admits(limits, total, one(total, disk, r).value.outcome)
  }

  predicate Admits(limits: Limits, total: nat, outcome: Outcome)
  {
    outcome.Ok? ==> WithinBudget(limits, total, |outcome.value.content|)
  }

  /** Each request is extracted or failed, never both, and the bytes taken stay within the total. */
  lemma {:induction false} LoopAccounts<R(!new)>(one: OneRequest<R>, limits: Limits, disk: Disk, requests: seq<R>)
    requires RespectsBudget(one, limits) && Loop(one, disk, requests).Ok?
    ensures var os := Loop(one, disk, requests).value.outcomes;
            |Successes(os)| + |Failures(os)| == |requests| && Taken(os) <= limits.maxTotal
  {
    if requests != [] {
      var n := |requests| - 1;
      LoopAccounts(one, limits, disk, requests[..n]);
      var p := Loop(one, disk, requests[..n]).value;
      OneMoreOutcome(p.outcomes, one(Taken(p.outcomes), p.disk, requests[n]).value.outcome);
      hide Taken, Successes, Failures;
    }
  }

  /** `one` only adds to the disk, keeps it tidy, and leaves what it extracts below its directories. */
  ghost predicate RespectsDisk<R(!new)>(one: OneRequest<R>, root: Location, parts: string -> seq<string>)
  {
    forall total: nat, disk, r :: one(total, disk, r).Ok? ==> Settled(root, parts, disk, one(total, disk, r).value)
  }

  ghost predicate Settled(root: Location, parts: string -> seq<string>, disk: Disk, next: Next)
  {
    && disk.files <= next.disk.files && disk.dirs <= next.disk.dirs
    && (Tidy(disk) ==> Tidy(next.disk))
    && (next.outcome.Ok? ==> Stands(root, parts, next.disk, next.outcome.value))
  }

  ghost predicate Stands(root: Location, parts: string -> seq<string>, disk: Disk, f: Extracted)
  {
    Walk(root, parts(f.path)) in disk.files && Through(root, parts(f.path)) <= disk.dirs
  }

  lemma ParentsSettle(root: Location, parts: string -> seq<string>, disk: Disk, at: seq<string>, code: string)
    ensures Settled(root, parts, disk, Next(Err(code), disk))
    ensures var ready := WithParents(disk, root, at);
            ready.Some? ==> Settled(root, parts, disk, Next(Err(code), ready.value))
  {
    hide Through;
  }

  lemma FileSettles(root: Location, parts: string -> seq<string>, disk: Disk, f: Extracted)
    requires WithParents(disk, root, parts(f.path)).Some?
    requires WithFile(WithParents(disk, root, parts(f.path)).value, Walk(root, parts(f.path))).Some?
    ensures var done := WithFile(WithParents(disk, root, parts(f.path)).value, Walk(root, parts(f.path))).value;
            Settled(root, parts, disk, Next(Ok(f), done))
  {
    hide Through, Walk;
  }

  lemma {:induction false} LoopSettles<R(!new)>(one: OneRequest<R>, root: Location, parts: string -> seq<string>,
                                                disk: Disk, requests: seq<R>)
    requires RespectsDisk(one, root, parts) && Tidy(disk) && Loop(one, disk, requests).Ok?
    ensures var p := Loop(one, disk, requests).value;
            Tidy(p.disk) && forall f :: f in Successes(p.outcomes) ==> Stands(root, parts, p.disk, f)
  {
    if requests != [] {
      var n := |requests| - 1;
      LoopSettles(one, root, parts, disk, requests[..n]);
      var p := Loop(one, disk, requests[..n]).value;
      var next := one(Taken(p.outcomes), p.disk, requests[n]).value;
      assert Settled(root, parts, p.disk, next);
      OneMoreOutcome(p.outcomes, next.outcome);
      hide Taken, Successes, Failures;
    }
  }

  lemma {:induction false} DirectoriesStay<R(!new)>(one: OneRequest<R>, root: Location, parts: string -> seq<string>,
                                                    disk: Disk, requests: seq<R>)
    requires RespectsDisk(one, root, parts) && Loop(one, disk, requests).Ok?
    ensures disk.dirs <= Loop(one, disk, requests).value.disk.dirs
  {
    if requests != [] {
      var n := |requests| - 1;
      DirectoriesStay(one, root, parts, disk, requests[..n]);
      var p := Loop(one, disk, requests[..n]).value;
      assert Settled(root, parts, p.disk, one(Taken(p.outcomes), p.disk, requests[n]).value);
    }
  }

  /** When the loop ends, no extracted file stands where another needs a directory. */
  lemma NoFileOnTheWay<R(!new)>(one: OneRequest<R>, root: Location, parts: string -> seq<string>, disk: Disk,
                                requests: seq<R>,
                                f: Extracted, g: Extracted)
    requires RespectsDisk(one, root, parts) && Tidy(disk) && Loop(one, disk, requests).Ok?
    requires f in Successes(Loop(one, disk, requests).value.outcomes)
             && g in Successes(Loop(one, disk, requests).value.outcomes)
    ensures Walk(root, parts(f.path)) !in Through(root, parts(g.path))
  {
    LoopSettles(one, root, parts, disk, requests);
    var end := Loop(one, disk, requests).value;
    assert Stands(root, parts, end.disk, f) && Stands(root, parts, end.disk, g);
    hide Loop, Through;
  }
}
