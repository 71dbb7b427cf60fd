/**
 Evidence staging: snapshots of a source before and after processing, the verdict that compares
 them, and the bounded validation of archive members.
 */
module Staging {
  import opened Text
  import opened CanonicalRecord
  import MemberNames

  type Hash = Bytes -> Name

  datatype Limits = Limits(maxFile: nat, maxTotal: nat, maxMembers: nat)

  datatype Node = DirNode(mode: int) | FileNode(content: Bytes, mode: int) | LinkNode | SpecialNode

  datatype Placed = Placed(path: Name, node: Node)

  /** A tree lists its nodes as `sorted(rglob("*"))` does. */
  datatype Source = NotASource | FileSource(content: Bytes, mode: int) | TreeSource(nodes: seq<Placed>)

  const DOT: Name := [46]

  /** Paths below a root are distinct and none of them is the root itself. */
  ghost predicate ProperTree(nodes: seq<Placed>)
  {
    && (forall i, j :: 0 <= i < j < |nodes| ==> nodes[i].path != nodes[j].path)
    && (forall i :: 0 <= i < |nodes| ==> nodes[i].path != DOT)
  }

  datatype Scan = Scan(entries: seq<Entry>, modes: map<Name, int>, total: nat)

  datatype Snapshot =
    | FileSnapshot(size: nat, sha256: Name, modes: map<Name, int>)
    | TreeSnapshot(total: nat, sha256: Name, entries: seq<Entry>, modes: map<Name, int>)

  // ----------------------------------------------------------------- snapshots

  function ScanNode(hash: Hash, limits: Limits, st: Scan, p: Placed): Result<Scan, string>
  {
    match p.node
    case LinkNode => Err("SYMLINK_REJECTED")
    case SpecialNode => Err("SOURCE_INVALID")
    case DirNode(mode) => Ok(Scan(st.entries + [DirectoryEntry(p.path)], st.modes[p.path := mode], st.total))
    case FileNode(content, mode) =>
      if |content| > limits.maxFile || st.total + |content| > limits.maxTotal then Err("FILE_LIMIT_EXCEEDED")
      else Ok(Scan(st.entries + [FileEntry(p.path, |content|, hash(content))], st.modes[p.path := mode],
                   st.total + |content|))
  }

  function ScanNodes(hash: Hash, limits: Limits, nodes: seq<Placed>): Result<Scan, string>
  {
    if nodes == [] then Ok(Scan([], map[], 0))
    else
      match ScanNodes(hash, limits, nodes[..|nodes| - 1])
      case Err(code) => Err(code)
      case Ok(st) => ScanNode(hash, limits, st, nodes[|nodes| - 1])
  }

  function SnapshotOf(hash: Hash, limits: Limits, source: Source): Result<Snapshot, string>
  {
    match source
    case NotASource => Err("SOURCE_INVALID")
    case FileSource(content, mode) =>
      if |content| > limits.maxFile then Err("FILE_LIMIT_EXCEEDED")
      else Ok(FileSnapshot(|content|, hash(content), map[DOT := mode]))
    case TreeSource(nodes) =>
      match ScanNodes(hash, limits, nodes)
      case Err(code) => Err(code)
      case Ok(st) => Ok(TreeSnapshot(st.total, hash(Preimage(st.entries)), st.entries, st.modes))
  }

  lemma {:induction false} ScanFailsEarly(hash: Hash, limits: Limits, nodes: seq<Placed>, k: nat)
    requires k <= |nodes| && ScanNodes(hash, limits, nodes[..k]).Err?
    ensures ScanNodes(hash, limits, nodes) == ScanNodes(hash, limits, nodes[..k])
  {
    if k < |nodes| {
      assert nodes[..|nodes| - 1][..k] == nodes[..k];
      ScanFailsEarly(hash, limits, nodes[..|nodes| - 1], k);
    } else {
      assert nodes[..k] == nodes;
    }
  }

  // ------------------------------------------------------------ archive members

  datatype Member = Member(name: string, regular: bool, isDir: bool, size: nat)

  datatype Listing = NoArchive | MisnamedArchive | CorruptArchive | Archive(members: seq<Member>, crcBad: bool)

  function Expanded(members: seq<Member>): nat
  {
    if members == [] then 0
    else
      var m := members[|members| - 1];
      Expanded(members[..|members| - 1]) + (if m.isDir then 0 else m.size)
  }

  /** The failure one member causes, given the bytes expanded by those before it. */
  function MemberFault(limits: Limits, total: nat, m: Member): Option<string>
  {
    match MemberNames.StagingMember(m.name)
    case Rejected(code) => Some(code)
    case IndexFault => Some("IndexError")
    case Accepted(_) =>
      if !m.regular then Some("SYMLINK_REJECTED")
      else if !m.isDir && (m.size > limits.maxFile || total + m.size > limits.maxTotal) then
        Some("ARCHIVE_LIMIT_EXCEEDED")
      else None
  }

  ghost predicate MembersPass(limits: Limits, members: seq<Member>)
  {
    forall i :: 0 <= i < |members| ==> MemberFault(limits, Expanded(members[..i]), members[i]).None?
  }

  lemma MembersPassStep(limits: Limits, init: seq<Member>, m: Member)
    ensures MembersPass(limits, init + [m]) <==>
            MembersPass(limits, init) && MemberBounded(limits, m)
              && (m.isDir || Expanded(init) + m.size <= limits.maxTotal)
  {
    MemberFaultNone(limits, Expanded(init), m);
    hide MemberFault, MemberBounded, Expanded;
    var members := init + [m];
    assert members[..|init|] == init;
    assert forall i :: 0 <= i < |init| ==> members[..i] == init[..i] && members[i] == init[i];
    if MembersPass(limits, members) {
      assert MemberFault(limits, Expanded(members[..|init|]), members[|init|]).None?;
      forall i | 0 <= i < |init| ensures MemberFault(limits, Expanded(init[..i]), init[i]).None? {
        assert MemberFault(limits, Expanded(members[..i]), members[i]).None?;
      }
    }
  }

  lemma MemberFaultNone(limits: Limits, total: nat, m: Member)
    ensures MemberFault(limits, total, m).None? <==>
            MemberBounded(limits, m) && (m.isDir || total + m.size <= limits.maxTotal)
  {
    hide MemberNames.StagingMember;
  }

  predicate MemberBounded(limits: Limits, m: Member)
  {
    MemberNames.StagingMember(m.name).Accepted? && m.regular && (m.isDir || m.size <= limits.maxFile)
  }

  ghost predicate AllBounded(limits: Limits, members: seq<Member>)
  {
    forall i :: 0 <= i < |members| ==> MemberBounded(limits, members[i])
  }

  lemma AllBoundedStep(limits: Limits, init: seq<Member>, m: Member)
    ensures AllBounded(limits, init + [m]) <==> AllBounded(limits, init) && MemberBounded(limits, m)
  {
    var members := init + [m];
    assert members[|init|] == m;
    assert forall i :: 0 <= i < |init| ==> members[i] == init[i];
  }

  lemma ExpandedStep(init: seq<Member>, m: Member)
    ensures Expanded(init + [m]) == Expanded(init) + (if m.isDir then 0 else m.size)
  {
    assert (init + [m])[..|init|] == init;
  }

  /** What passing every member check amounts to. */
  lemma {:induction false} PassingArchiveIsBounded(limits: Limits, members: seq<Member>)
    ensures MembersPass(limits, members) <==> Expanded(members) <= limits.maxTotal && AllBounded(limits, members)
  {
    if members != [] {
      var init, m := members[..|members| - 1], members[|members| - 1];
      assert members == init + [m];
      PassingArchiveIsBounded(limits, init);
      MembersPassStep(limits, init, m);
      AllBoundedStep(limits, init, m);
      ExpandedStep(init, m);
    }
  }

  /** The listings `_validate_archive` lets through. */
  ghost predicate Admits(limits: Limits, listing: Listing)
  {
    || listing.NoArchive?
    || (listing.Archive? && |listing.members| <= limits.maxMembers && !listing.crcBad
        && Expanded(listing.members) <= limits.maxTotal && AllBounded(limits, listing.members))
  }

  /** Member `i` is the first that fails, and `fault` is why. */
  ghost predicate FirstFault(limits: Limits, members: seq<Member>, i: nat, fault: Option<string>)
  {
    && i < |members|
    && MembersPass(limits, members[..i])
    && fault == MemberFault(limits, Expanded(members[..i]), members[i])
  }

  lemma FaultBlocks(limits: Limits, members: seq<Member>, i: nat)
    requires i < |members| && MembersPass(limits, members[..i])
    requires MemberFault(limits, Expanded(members[..i]), members[i]).Some?
    ensures !MembersPass(limits, members)
    ensures FirstFault(limits, members, i, MemberFault(limits, Expanded(members[..i]), members[i]))
  {
    hide MemberFault, Expanded;
  }

  /** The member loop; returns the code of the first failure. */
  method ValidateMembers(limits: Limits, members: seq<Member>) returns (fault: Option<string>)
    ensures fault.None? <==> MembersPass(limits, members)
    ensures fault.Some? ==> exists i :: FirstFault(limits, members, i, fault)
  {
    var total := 0;
    NoMembersPass(limits);
    hide MemberFault, MemberBounded, MembersPass, Expanded, FirstFault;
    for i := 0 to |members|
      invariant total == Expanded(members[..i])
      invariant MembersPass(limits, members[..i])
    {
      hide MemberFault, MemberBounded, MembersPass, Expanded, FirstFault;
      var m := members[i];
      var f := MemberFault(limits, total, m);
      if f.Some? {
        FaultBlocks(limits, members, i);
        return f;
      }
      assert members[..i + 1] == members[..i] + [m];
      ExpandedStep(members[..i], m);
      MemberFaultNone(limits, total, m);
      MembersPassStep(limits, members[..i], m);
      if !m.isDir {
        total := total + m.size;
      }
    }
    assert members[..|members|] == members;
    return None;
  }

  lemma NoMembersPass(limits: Limits)
    ensures Expanded([]) == 0 && MembersPass(limits, [])
  {
  }

  /** Validates zip and tar listings alike. */
  method ValidateArchive(limits: Limits, listing: Listing) returns (fault: Option<string>)
    ensures fault.None? <==> Admits(limits, listing)
    ensures fault.Some? && fault.value != "ARCHIVE_INVALID" ==>
              listing.Archive? && (|listing.members| > limits.maxMembers
                                   || exists i :: FirstFault(limits, listing.members, i, fault))
  {
    match listing
    case NoArchive => return None;
    case MisnamedArchive => return Some("ARCHIVE_INVALID");
    case CorruptArchive => return Some("ARCHIVE_INVALID");
    case Archive(members, crcBad) =>
      if |members| > limits.maxMembers {
        return Some("ARCHIVE_LIMIT_EXCEEDED");
      }
      PassingArchiveIsBounded(limits, members);
      fault := ValidateMembers(limits, members);
      if fault.None? && crcBad {
        return Some("ARCHIVE_INVALID");
      }
  }

  /** What each failure of a member check says. */
  lemma MemberFaultExactly(limits: Limits, total: nat, m: Member)
    ensures var fault := MemberFault(limits, total, m);
            var name := MemberNames.StagingMember(m.name);
            && (name.Rejected? ==> fault == Some(name.code)) && (name.IndexFault? ==> fault == Some("IndexError"))
            && (name.Accepted? && !m.regular ==> fault == Some("SYMLINK_REJECTED"))
            && (name.Accepted? && m.regular && fault.Some? ==>
                  fault == Some("ARCHIVE_LIMIT_EXCEEDED") && !m.isDir
                  && (m.size > limits.maxFile || total + m.size > limits.maxTotal))
  {
    hide MemberNames.StagingMember;
  }

  // ------------------------------------------------------- when a snapshot succeeds

  /** The node may be part of a snapshot. */
  ghost predicate Plain(limits: Limits, p: Placed)
  {
    p.node.DirNode? || (p.node.FileNode? && |p.node.content| <= limits.maxFile)
  }

  /** A tree can be scanned exactly when it holds only directories and files within the limit, whose bytes
      together are within the total. */
  lemma {:induction false} ScanSucceedsExactly(hash: Hash, limits: Limits, nodes: seq<Placed>)
    ensures ScanNodes(hash, limits, nodes).Ok? <==>
              (forall p :: p in nodes ==> Plain(limits, p)) && BytesIn(nodes) <= limits.maxTotal
  {
    if nodes == [] {
      NothingScanned(hash, limits);
    } else {
      var init, last := nodes[..|nodes| - 1], nodes[|nodes| - 1];
      assert nodes == init + [last] && last in nodes;
      assert forall p :: p in nodes <==> p in init || p == last;
      ScanSucceedsExactly(hash, limits, init);
      if ScanNodes(hash, limits, init).Ok? {
        ScanRecords(hash, limits, init);
      }
    }
  }

  /** Otherwise some node is the first that stands against it, and the code says how. */
  lemma {:induction false} ScanFailure(hash: Hash, limits: Limits, nodes: seq<Placed>) returns (i: nat)
    requires ScanNodes(hash, limits, nodes).Err?
    ensures i < |nodes| && ScanNodes(hash, limits, nodes[..i]).Ok?
    ensures var code := ScanNodes(hash, limits, nodes).error;
            && (nodes[i].node.LinkNode? ==> code == "SYMLINK_REJECTED")
            && (nodes[i].node.SpecialNode? ==> code == "SOURCE_INVALID")
            && (nodes[i].node.FileNode? ==> code == "FILE_LIMIT_EXCEEDED")
            && !nodes[i].node.DirNode?
  {
    var n := |nodes| - 1;
    if ScanNodes(hash, limits, nodes[..n]).Err? {
      i := ScanFailure(hash, limits, nodes[..n]);
      assert nodes[..n][..i] == nodes[..i];
    } else {
      i := n;
    }
  }

  /** A snapshot can be taken exactly of a file within the limit and of such a tree; it is of the very content. */
  lemma SnapshotExactly(hash: Hash, limits: Limits, source: Source)
    ensures var r := SnapshotOf(hash, limits, source);
            && (r.Ok? <==>
                  || (source.FileSource? && |source.content| <= limits.maxFile)
                  || (source.TreeSource? && (forall p :: p in source.nodes ==> Plain(limits, p))
                      && BytesIn(source.nodes) <= limits.maxTotal))
            && (r.Ok? && source.FileSource? ==>
                  && r.value.FileSnapshot? && r.value.size == |source.content| && r.value.sha256 == hash(source.content)
                  && r.value.modes == map[DOT := source.mode])
            && (r.Ok? && source.TreeSource? ==>
                  && r.value.TreeSnapshot? && r.value.total == BytesIn(source.nodes)
                  && r.value.entries == EntriesOf(hash, source.nodes)
                  && r.value.sha256 == hash(Preimage(EntriesOf(hash, source.nodes))))
            && (source.NotASource? ==> r == Err("SOURCE_INVALID"))
            && (source.FileSource? && r.Err? ==> r.error == "FILE_LIMIT_EXCEEDED")
  {
    if source.TreeSource? {
      ScanSucceedsExactly(hash, limits, source.nodes);
      if ScanNodes(hash, limits, source.nodes).Ok? {
        ScanRecords(hash, limits, source.nodes);
      }
    }
    hide ScanNodes, EntriesOf, BytesIn, Plain, Preimage;
  }

  // --------------------------------------------------------------- stage and run

  datatype Manifest = Manifest(source: Snapshot, copied: bool, verification: Option<Snapshot>)

  datatype Placement = Placement(rootInsideSource: bool, stagedExists: bool)

  /** The comparison at the end of `run`: digests always, modes only for a directory source. */
  function Verdict(before: Snapshot, after: Snapshot): Option<string>
  {
    if before.sha256 != after.sha256 then Some("SOURCE_CHANGED")
    else if before.TreeSnapshot? && before.modes != after.modes then Some("SOURCE_CHANGED")
    else None
  }

  class EvidenceStager {
    const hash: Hash
    const limits: Limits
    var manifest: Option<Manifest>
    var events: seq<string>

    constructor (hash: Hash, limits: Limits)
      ensures this.hash == hash && this.limits == limits && manifest == None && events == []
    {
      this.hash, this.limits := hash, limits;
      manifest, events := None, [];
    }

    method TakeSnapshot(source: Source) returns (r: Result<Snapshot, string>)
      ensures r == SnapshotOf(hash, limits, source)
    {
      match source
      case NotASource => return Err("SOURCE_INVALID");
      case FileSource(content, mode) =>
        if |content| > limits.maxFile {
          return Err("FILE_LIMIT_EXCEEDED");
        }
        return Ok(FileSnapshot(|content|, hash(content), map[DOT := mode]));
      case TreeSource(nodes) =>
        var total: nat := 0;
        var entries: seq<Entry> := [];
        var modes: map<Name, int> := map[];
        for i := 0 to |nodes|
          invariant ScanNodes(hash, limits, nodes[..i]) == Ok(Scan(entries, modes, total))
        {
          var p := nodes[i];
          assert nodes[..i + 1][..i] == nodes[..i];
          if p.node.LinkNode? || p.node.SpecialNode?
             || (p.node.FileNode? && (|p.node.content| > limits.maxFile
                                      || total + |p.node.content| > limits.maxTotal)) {
            ScanFailsEarly(hash, limits, nodes, i + 1);
            return Err(if p.node.LinkNode? then "SYMLINK_REJECTED"
                       else if p.node.SpecialNode? then "SOURCE_INVALID" else "FILE_LIMIT_EXCEEDED");
          }
          modes := modes[p.path := p.node.mode];
          if p.node.DirNode? {
            entries := entries + [DirectoryEntry(p.path)];
          } else {
            total := total + |p.node.content|;
            entries := entries + [FileEntry(p.path, |p.node.content|, hash(p.node.content))];
          }
        }
        assert nodes[..|nodes|] == nodes;
        return Ok(TreeSnapshot(total, hash(Preimage(entries)), entries, modes));
    }

    method Stage(source: Source, listing: Listing, placement: Placement, copySource: bool)
      returns (r: Result<(), string>)
      modifies this
      ensures r.Ok? <==> SnapshotOf(hash, limits, source).Ok? && (source.FileSource? ==> Admits(limits, listing))
                         && !placement.rootInsideSource && !placement.stagedExists
      ensures r.Ok? ==> manifest == Some(Manifest(SnapshotOf(hash, limits, source).value, copySource, None))
                        && events == old(events) + ["staged"]
      ensures r.Err? ==> manifest == old(manifest) && events == old(events)
      ensures SnapshotOf(hash, limits, source).Err? ==> r == Err(SnapshotOf(hash, limits, source).error)
      ensures SnapshotOf(hash, limits, source).Ok? && (source.FileSource? ==> Admits(limits, listing)) ==>
                && (placement.rootInsideSource ==> r == Err("ANALYSIS_ROOT_INVALID"))
                && (!placement.rootInsideSource && placement.stagedExists ==> r == Err("ANALYSIS_ROOT_NOT_EMPTY"))
    {
      var before := TakeSnapshot(source);
      if before.Err? {
        return Err(before.error);
      }
      if before.value.FileSnapshot? {
        var fault := ValidateArchive(limits, listing);
        if fault.Some? {
          return Err(fault.value);
        }
      }
      if placement.rootInsideSource {
        return Err("ANALYSIS_ROOT_INVALID");
      }
      if placement.stagedExists {
        return Err("ANALYSIS_ROOT_NOT_EMPTY");
      }
      manifest := Some(Manifest(before.value, copySource, None));
      events := events + ["staged"];
      return Ok(());
    }

    /** `processor` yields the source as processing leaves it, or the error it raises. */
    method Run(source: Source, listing: Listing, placement: Placement, copySource: bool,
               processor: Result<Source, string>) returns (r: Result<Manifest, string>)
      modifies this
      ensures r.Ok? <==>
                && SnapshotOf(hash, limits, source).Ok? && (source.FileSource? ==> Admits(limits, listing))
                && !placement.rootInsideSource && !placement.stagedExists
                && processor.Ok? && SnapshotOf(hash, limits, processor.value).Ok?
                && Verdict(SnapshotOf(hash, limits, source).value,
                           SnapshotOf(hash, limits, processor.value).value).None?
      ensures r.Ok? ==>
                && r.value == Manifest(SnapshotOf(hash, limits, source).value, copySource,
                                       Some(SnapshotOf(hash, limits, processor.value).value))
                && manifest == Some(r.value)
                && events == old(events) + ["staged", "processing_started", "processing_completed", "source_verified"]
      ensures r.Err? ==>
                var staged := && SnapshotOf(hash, limits, source).Ok?
                  && (source.FileSource? ==> Admits(limits, listing))
                              && !placement.rootInsideSource && !placement.stagedExists;
                && (!staged ==> events == old(events))
                && (staged && processor.Err? ==>
                      events == old(events) + ["staged", "processing_started"] && r.error == processor.error)
                && (staged && processor.Ok? ==>
                      && events == old(events) + ["staged", "processing_started", "processing_completed"]
                      && r.error == match SnapshotOf(hash, limits, processor.value)
                                    case Err(code) => code
                                    case Ok(_) => "SOURCE_CHANGED")
    {
      var staged := Stage(source, listing, placement, copySource);
      if staged.Err? {
        return Err(staged.error);
      }
      ghost var start := old(events);
      assert start + ["staged"] + ["processing_started"] == start + ["staged", "processing_started"];
      assert start + ["staged", "processing_started"] + ["processing_completed"]
          == start + ["staged", "processing_started", "processing_completed"];
      var before := manifest.value.source;
      events := events + ["processing_started"];
      if processor.Err? {
        return Err(processor.error);
      }
      events := events + ["processing_completed"];
      var after := TakeSnapshot(processor.value);
      if after.Err? {
        return Err(after.error);
      }
      var verdict := Verdict(before, after.value);
      if verdict.Some? {
        return Err(verdict.value);
      }
      events := events + ["source_verified"];
      manifest := Some(manifest.value.(verification := Some(after.value)));
      return Ok(manifest.value);
    }
  }

  // ------------------------------------------------------- what a verdict means

  ghost predicate NoCollision(hash: Hash, x: Bytes, y: Bytes)
  {
    hash(x) == hash(y) ==> x == y
  }

  /** The entry and the mode a scan records for a node. */
  function EntryOf(hash: Hash, p: Placed): Entry
  {
    if p.node.FileNode? then FileEntry(p.path, |p.node.content|, hash(p.node.content)) else DirectoryEntry(p.path)
  }

  function ModesOf(nodes: seq<Placed>): map<Name, int>
    requires forall p :: p in nodes ==> p.node.FileNode? || p.node.DirNode?
  {
    if nodes == [] then map[]
    else
      var p := nodes[|nodes| - 1];
      ModesOf(nodes[..|nodes| - 1])[p.path := p.node.mode]
  }

  function BytesIn(nodes: seq<Placed>): nat
  {
    if nodes == [] then 0
    else
      var node := nodes[|nodes| - 1].node;
      BytesIn(nodes[..|nodes| - 1]) + (if node.FileNode? then |node.content| else 0)
  }

  /** What one more node adds to a scan. */
  lemma ScanStep(hash: Hash, limits: Limits, init: seq<Placed>, p: Placed)
    requires ScanNodes(hash, limits, init + [p]).Ok?
    ensures p.node.FileNode? || p.node.DirNode?
    ensures p.node.FileNode? ==> |p.node.content| <= limits.maxFile
    ensures var before, after := ScanNodes(hash, limits, init), ScanNodes(hash, limits, init + [p]).value;
            && before.Ok?
            && after.entries == before.value.entries + [EntryOf(hash, p)]
            && after.modes == before.value.modes[p.path := p.node.mode]
            && after.total == before.value.total + (if p.node.FileNode? then |p.node.content| else 0)
            && (before.value.total <= limits.maxTotal ==> after.total <= limits.maxTotal)
  {
    assert (init + [p])[..|init|] == init;
  }

  lemma RecordsAppend(init: seq<Placed>, p: Placed)
    requires forall q :: q in init + [p] ==> q.node.FileNode? || q.node.DirNode?
    ensures forall q :: q in init ==> q in init + [p]
    ensures ModesOf(init + [p]) == ModesOf(init)[p.path := p.node.mode]
    ensures BytesIn(init + [p]) == BytesIn(init) + (if p.node.FileNode? then |p.node.content| else 0)
  {
    assert (init + [p])[..|init|] == init;
  }

  lemma NothingScanned(hash: Hash, limits: Limits)
    ensures ScanNodes(hash, limits, []) == Ok(Scan([], map[], 0))
    ensures EntriesOf(hash, []) == [] && ModesOf([]) == map[] && BytesIn([]) == 0
  {
  }

  /** A scan that succeeds records every node once, in order, and found each file and their sum within
      the limits. */
  lemma {:induction false} ScanRecords(hash: Hash, limits: Limits, nodes: seq<Placed>)
    requires ScanNodes(hash, limits, nodes).Ok?
    ensures forall p :: p in nodes ==> p.node.FileNode? || p.node.DirNode?
    ensures var st := ScanNodes(hash, limits, nodes).value;
            && st.entries == EntriesOf(hash, nodes)
            && st.modes == ModesOf(nodes)
            && st.total == BytesIn(nodes) <= limits.maxTotal
    ensures forall p :: p in nodes && p.node.FileNode? ==> |p.node.content| <= limits.maxFile
  {
    hide *;
    if nodes == [] {
      NothingScanned(hash, limits);
    } else {
      var init, p := nodes[..|nodes| - 1], nodes[|nodes| - 1];
      assert nodes == init + [p];
      ScanStep(hash, limits, init, p);
      ScanRecords(hash, limits, init);
      EntriesAppend(hash, init, p);
      RecordsAppend(init, p);
    }
  }

  function EntriesOf(hash: Hash, nodes: seq<Placed>): seq<Entry>
  {
    seq(|nodes|, i requires 0 <= i < |nodes| => EntryOf(hash, nodes[i]))
  }

  lemma EntriesAppend(hash: Hash, init: seq<Placed>, p: Placed)
    ensures EntriesOf(hash, init + [p]) == EntriesOf(hash, init) + [EntryOf(hash, p)]
  {
    hide EntryOf;
  }

  lemma {:induction false} ModesAreTheNodes(nodes: seq<Placed>)
    requires forall p :: p in nodes ==> p.node.FileNode? || p.node.DirNode?
    requires ProperTree(nodes)
    ensures forall p :: p in nodes ==> p.path in ModesOf(nodes) && ModesOf(nodes)[p.path] == p.node.mode
    ensures DOT !in ModesOf(nodes)
  {
    if nodes != [] {
      var init, last := nodes[..|nodes| - 1], nodes[|nodes| - 1];
      assert nodes == init + [last];
      ModesAreTheNodes(init);
      forall p | p in nodes ensures p.path in ModesOf(nodes) && ModesOf(nodes)[p.path] == p.node.mode {
        if p in init {
          var i :| 0 <= i < |init| && init[i] == p;
          assert nodes[i].path != nodes[|init|].path;
        }
      }
    }
  }

  /** The files of the two trees, taken position by position, do not collide. */
  ghost predicate FilesDoNotCollide(hash: Hash, a: seq<Placed>, b: seq<Placed>)
  {
    forall i :: 0 <= i < |a| && i < |b| && a[i].node.FileNode? && b[i].node.FileNode? ==>
                  NoCollision(hash, a[i].node.content, b[i].node.content)
  }

  /** The preimage of the source digest: the file itself, or the concatenated records of the tree. */
  function DigestInput(hash: Hash, limits: Limits, source: Source): Bytes
    requires SnapshotOf(hash, limits, source).Ok?
  {
    match source
    case FileSource(content, _) => content
    case TreeSource(nodes) => Preimage(ScanNodes(hash, limits, nodes).value.entries)
  }

  ghost predicate Proper(source: Source)
  {
    source.TreeSource? ==> ProperTree(source.nodes)
  }

  lemma EqualTreesFromEqualScans(hash: Hash, limits: Limits, a: seq<Placed>, b: seq<Placed>)
    requires ProperTree(a) && ProperTree(b) && FilesDoNotCollide(hash, a, b)
    requires ScanNodes(hash, limits, a).Ok? && ScanNodes(hash, limits, b).Ok?
    requires ScanNodes(hash, limits, a).value.entries == ScanNodes(hash, limits, b).value.entries
    requires ScanNodes(hash, limits, a).value.modes == ScanNodes(hash, limits, b).value.modes
    ensures a == b
  {
    ScanRecords(hash, limits, a);
    ScanRecords(hash, limits, b);
    ModesAreTheNodes(a);
    ModesAreTheNodes(b);
    var entries := ScanNodes(hash, limits, a).value.entries;
    forall i | 0 <= i < |a| ensures a[i] == b[i] {
      assert entries[i] == EntryOf(hash, a[i]) == EntryOf(hash, b[i]);
      assert a[i] in a && b[i] in b;
    }
  }

  /** Exactly when a run verifies. A directory source verifies only when nothing in it changed,
      modes included. A file source verifies also when it was replaced by a directory whose
      records spell the file's bytes, and its mode is not looked at. */
  lemma VerifiesExactly(hash: Hash, limits: Limits, before: Source, after: Source)
    requires SnapshotOf(hash, limits, before).Ok? && SnapshotOf(hash, limits, after).Ok?
    requires Proper(before) && Proper(after)
    requires NoCollision(hash, DigestInput(hash, limits, before), DigestInput(hash, limits, after))
    requires before.TreeSource? && after.TreeSource? ==> FilesDoNotCollide(hash, before.nodes, after.nodes)
    ensures Verdict(SnapshotOf(hash, limits, before).value, SnapshotOf(hash, limits, after).value).None? <==>
              if before.TreeSource? then after == before
              else if after.FileSource? then after.content == before.content
              else DigestInput(hash, limits, after) == before.content
  {
    var s, t := SnapshotOf(hash, limits, before).value, SnapshotOf(hash, limits, after).value;
    if Verdict(s, t).None? && before.TreeSource? {
      ScanRecords(hash, limits, before.nodes);
      ModesAreTheNodes(before.nodes);
      assert DOT !in s.modes;
      assert after.FileSource? ==> DOT in t.modes;
      if after.TreeSource? {
        PreimageIsInjective(s.entries, t.entries);
        EqualTreesFromEqualScans(hash, limits, before.nodes, after.nodes);
      }
    }
  }

  /** The claim "the source is unchanged" fails for a file source: an empty file replaced by an empty
      directory verifies under every hash, and so does a change of the file's mode. */
  lemma FileSourceMayChangeUnnoticed(hash: Hash, limits: Limits, mode: int, mode': int)
    ensures var file := SnapshotOf(hash, limits, FileSource([], mode));
            var dir := SnapshotOf(hash, limits, TreeSource([]));
            var other := SnapshotOf(hash, limits, FileSource([], mode'));
            && file.Ok? && dir.Ok? && other.Ok?
            && Verdict(file.value, dir.value).None?
            && Verdict(file.value, other.value).None?
  {
    assert ScanNodes(hash, limits, []) == Ok(Scan([], map[], 0));
    assert Preimage([]) == [];
  }
}
