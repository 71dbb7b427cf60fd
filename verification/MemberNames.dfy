/**
 Archive member names: the three sanitizers that decide which names may be
 extracted, and what an accepted name means as a place in the file tree.
 */
module MemberNames {
  import opened Text

  /** IndexFault is Python's IndexError from `parts[0]` on a name without components. */
  datatype Outcome = Accepted(path: string) | Rejected(code: string) | IndexFault

  const TRAVERSAL := "PATH_TRAVERSAL_REJECTED"
  const INVALID := "ARCHIVE_MEMBER_INVALID"

  /** `name.replace("\\", "/")` */
  function Slashes(name: string): (n: string)
    ensures |n| == |name|
  {
    seq(|name|, i requires 0 <= i < |name| => if name[i] == '\\' then '/' else name[i])
  }

  predicate IsAbsolute(n: string) { n != "" && n[0] == '/' }

  predicate Skipped(c: string) { c == "" || c == "." }

  /** A component that names an entry, as opposed to staying or climbing. */
  predicate Plain(c: string) { !Skipped(c) && c != ".." }

  /** PurePosixPath drops empty and `.` components of a relative path and keeps `..`. */
  function Parts(comps: seq<string>): seq<string>
  {
    if comps == [] then []
    else if Skipped(comps[0]) then Parts(comps[1..])
    else [comps[0]] + Parts(comps[1..])
  }

  function PosixParts(n: string): seq<string> { Parts(Split('/', n)) }

  function StagingMember(name: string): Outcome
  {
    var n := Slashes(name);
    var parts := PosixParts(n);
    if n == "" || IsAbsolute(n) then Rejected(TRAVERSAL)
    else if parts == [] then IndexFault
    else if ':' in parts[0] || exists c :: c in parts && c in ["", ".", ".."] then Rejected(TRAVERSAL)
    else Accepted(Join('/', parts))
  }

  /** The same tests, with the colon test last. */
  function VelociraptorMember(name: string): Outcome
  {
    var n := Slashes(name);
    var parts := PosixParts(n);
    if n == "" || IsAbsolute(n) || exists c :: c in parts && c in ["", ".", ".."] then Rejected(TRAVERSAL)
    else if parts == [] then IndexFault
    else if ':' in parts[0] then Rejected(TRAVERSAL)
    else Accepted(Join('/', parts))
  }

  /** One iteration of `posixpath.normpath` on a relative path. */
  function Push(stack: seq<string>, c: string): seq<string>
  {
    if Skipped(c) then stack
    else if c != ".." || stack == [] || stack[|stack| - 1] == ".." then stack + [c]
    else stack[..|stack| - 1]
  }

  function NormStack(comps: seq<string>): seq<string>
  {
    if comps == [] then [] else Push(NormStack(comps[..|comps| - 1]), comps[|comps| - 1])
  }

  function NormPath(n: string): string
  {
    var r := Join('/', NormStack(Split('/', n)));
    if r == "" then "." else r
  }

  predicate DrivePrefixed(n: string) { |n| >= 2 && n[1] == ':' }

  function UacMember(name: string): Outcome
  {
    var n := Slashes(name);
    if IsAbsolute(n) || DrivePrefixed(n) then Rejected(TRAVERSAL)
    else
      var r := NormPath(n);
      if r == "" || r == "." then Rejected(INVALID)
      else if r == ".." || "../" <= r then Rejected(TRAVERSAL)
      else Accepted(r)
  }

  /** The loop of `posixpath.normpath`, run on a relative path. */
  method NormalizePath(n: string) returns (path: string)
    requires !IsAbsolute(n)
    ensures path == NormPath(n)
  {
    var comps := Split('/', n);
    var stack: seq<string> := [];
    for i := 0 to |comps|
      invariant stack == NormStack(comps[..i])
    {
      var comp := comps[i];
      assert comps[..i + 1][..i] == comps[..i];
      if comp == "" || comp == "." {
      } else if comp != ".." || stack == [] || stack[|stack| - 1] == ".." {
        stack := stack + [comp];
      } else {
        stack := stack[..|stack| - 1];
      }
    }
    assert comps[..|comps|] == comps;
    path := Join('/', stack);
    if path == "" {
      path := ".";
    }
  }

  // ---------------------------------------------------------------- locations

  /** A location is the list of names from the file-system root; `..` at the root stays there. */
  type Location = seq<string>

  function Enter(loc: Location, c: string): Location
  {
    if Skipped(c) then loc
    else if c == ".." then (if loc == [] then [] else loc[..|loc| - 1])
    else loc + [c]
  }

  /** Walking a path component by component. */
  function Walk(loc: Location, comps: seq<string>): Location
  {
    if comps == [] then loc else Enter(Walk(loc, comps[..|comps| - 1]), comps[|comps| - 1])
  }

  ghost predicate AllPlain(comps: seq<string>)
  {
    forall i :: 0 <= i < |comps| ==> Plain(comps[i])
  }

  lemma {:induction false} WalkPlain(loc: Location, comps: seq<string>)
    requires AllPlain(comps)
    ensures Walk(loc, comps) == loc + comps
  {
    if comps != [] {
      WalkPlain(loc, comps[..|comps| - 1]);
      assert comps == comps[..|comps| - 1] + [comps[|comps| - 1]];
    }
  }

  /** No component is empty or `.`, and `..` occurs only as a prefix. */
  ghost predicate ClimbsFirst(s: seq<string>)
  {
    && (forall i :: 0 <= i < |s| ==> !Skipped(s[i]))
    && (forall i, j :: 0 <= i < j < |s| && s[j] == ".." ==> s[i] == "..")
  }

  lemma PushKeepsShape(s: seq<string>, c: string)
    requires ClimbsFirst(s)
    ensures ClimbsFirst(Push(s, c))
  {
    var t := Push(s, c);
    if t == s + [c] {
      assert t[|s|] == c;
      forall i, j | 0 <= i < j < |t| && t[j] == ".." ensures t[i] == ".." {
        if j == |s| && i < |s| - 1 {
          assert s[|s| - 1] == "..";
        }
      }
    }
  }

  /** Normalisation leaves `..` only as a prefix. */
  lemma {:induction false} StackShape(comps: seq<string>)
    ensures ClimbsFirst(NormStack(comps))
    ensures forall i :: 0 <= i < |NormStack(comps)| ==> NormStack(comps)[i] in comps
  {
    if comps != [] {
      var init, c := comps[..|comps| - 1], comps[|comps| - 1];
      StackShape(init);
      PushKeepsShape(NormStack(init), c);
    }
  }

  /** Normalisation does not change where a path leads, from any start. */
  lemma {:induction false} NormalisationKeepsMeaning(loc: Location, comps: seq<string>)
    ensures Walk(loc, NormStack(comps)) == Walk(loc, comps)
  {
    if comps != [] {
      var init, c := comps[..|comps| - 1], comps[|comps| - 1];
      var s := NormStack(init);
      NormalisationKeepsMeaning(loc, init);
      StackShape(init);
      if Push(s, c) == s + [c] {
        assert (s + [c])[..|s|] == s;
      }
    }
  }

  /** The string tests of `_safe_member` on the normalised name are tests on its first component. */
  lemma {:induction false} JoinedPrefix(s: seq<string>)
    requires AllFree('/', s) && forall i :: 0 <= i < |s| ==> s[i] != ""
    ensures Join('/', s) == "" <==> s == []
    ensures Join('/', s) == "." <==> s == ["."]
    ensures (Join('/', s) == ".." || "../" <= Join('/', s)) <==> s != [] && s[0] == ".."
  {
    if |s| >= 2 {
      var r := Join('/', s);
      assert r == s[0] + ['/'] + Join('/', s[1..]);
      assert r[|s[0]|] == '/';
      if "../" <= r {
        assert r == ".." + ['/'] + r[3..];
        HeadUnique('/', s[0], Join('/', s[1..]), "..", r[3..]);
      }
      if s[0] == ".." {
        assert r[..3] == "../";
      }
    } else if |s| == 1 {
      assert "../" <= s[0] ==> s[0][2] in s[0];
    }
  }

  /** Exactly which names UAC accepts, and the components of what it returns. */
  lemma UacAcceptsExactly(name: string)
    ensures var n := Slashes(name);
            var s := NormStack(Split('/', n));
            && (UacMember(name).Accepted? <==> !IsAbsolute(n) && !DrivePrefixed(n) && s != [] && s[0] != "..")
            && (UacMember(name).Accepted? ==> UacMember(name).path == Join('/', s) && AllPlain(s)
                                              && Split('/', UacMember(name).path) == s)
  {
    var comps := Split('/', Slashes(name));
    var s := NormStack(comps);
    SplitFree('/', Slashes(name));
    StackShape(comps);
    assert AllFree('/', s) by {
      forall i | 0 <= i < |s| ensures '/' !in s[i] {
        assert s[i] in comps;
      }
    }
    JoinedPrefix(s);
    if UacMember(name).Accepted? {
      SplitJoin('/', s);
    }
  }

  /** An accepted name has only plain components, lies strictly below any root it is
      joined to, and is the place the raw name leads to from that root. */
  lemma UacAcceptedNameStaysBelowRoot(name: string, root: Location)
    requires UacMember(name).Accepted?
    ensures var comps := Split('/', UacMember(name).path);
            && comps != [] && AllPlain(comps)
            && Walk(root, comps) == root + comps
            && Walk(root, Split('/', Slashes(name))) == root + comps
            && root < root + comps
  {
    UacAcceptsExactly(name);
    var raw := Split('/', Slashes(name));
    NormalisationKeepsMeaning(root, raw);
    WalkPlain(root, NormStack(raw));
  }

  /** Re-sanitizing an accepted name is the identity unless a `..` has brought a drive-like second
      character to the front. */
  lemma UacIdempotentExactly(name: string)
    requires UacMember(name).Accepted?
    ensures var r := UacMember(name).path; UacMember(r) == Accepted(r) <==> !DrivePrefixed(r)
  {
    UacAcceptsExactly(name);
    var raw := Slashes(name);
    var s := NormStack(Split('/', raw));
    var r := UacMember(name).path;
    StackKeepsCharacters(raw);
    SplitFree('/', raw);
    StackShape(Split('/', raw));
    assert Slashes(r) == r by {
      forall i | 0 <= i < |r| ensures r[i] != '\\' {
        JoinCharacters(s, r[i]);
      }
    }
    PlainIsFixed(s);
    UacAcceptsExactly(r);
    assert s[0] != "" && !IsAbsolute(r) by {
      if |s| > 1 { assert r == s[0] + ['/'] + Join('/', s[1..]); }
      assert r[0] == s[0][0];
    }
  }

  lemma UacIdempotenceFails()
    ensures UacMember("x/../c:y") == Accepted("c:y") && UacMember("c:y") == Rejected(TRAVERSAL)
  {
    var name := "x/../c:y";
    SplitSample();
    StackSample();
    hide Split, NormStack;
    assert Join('/', ["c:y"]) == "c:y";
    assert NormPath(name) == "c:y";
    assert name[0] == 'x' && name[1] == '/';
    var r := "c:y";
    assert r[0] == 'c' && r[1] == ':';
    assert r != "" && r != "." && r != ".." && !("../" <= r);
    assert Slashes(r) == r;
  }

  lemma StackSample()
    ensures NormStack(["x", "..", "c:y"]) == ["c:y"]
  {
    var comps := ["x", "..", "c:y"];
    var x, up, cy := "x", "..", "c:y";
    assert x[0] == 'x' && cy[0] == 'c';
    assert comps[..2] == [x, up] && [x, up][..1] == [x];
    assert NormStack([x]) == [x];
    assert NormStack([x, up]) == [];
  }

  lemma SplitSample()
    ensures Slashes("x/../c:y") == "x/../c:y" && Split('/', "x/../c:y") == ["x", "..", "c:y"]
  {
    hide Split;
    SplitHead('/', "x", "../c:y");
    assert "x" + ['/'] + "../c:y" == "x/../c:y";
    SplitHead('/', "..", "c:y");
    assert ".." + ['/'] + "c:y" == "../c:y";
    SplitWhole('/', "c:y");
  }

  lemma {:induction false} PlainIsFixed(s: seq<string>)
    requires AllPlain(s)
    ensures NormStack(s) == s
  {
    if s != [] {
      PlainIsFixed(s[..|s| - 1]);
      assert s == s[..|s| - 1] + [s[|s| - 1]];
    }
  }

  lemma {:induction false} JoinCharacters(s: seq<string>, c: char)
    requires c in Join('/', s)
    ensures c == '/' || exists i :: 0 <= i < |s| && c in s[i]
  {
    if |s| > 1 && c !in s[0] && c != '/' {
      JoinCharacters(s[1..], c);
      var i :| 0 <= i < |s[1..]| && c in s[1..][i];
      assert c in s[i + 1];
    } else if |s| >= 1 {
      if c in s[0] {} else { assert c == '/'; }
    }
  }

  lemma {:induction false} SplitCharacters(s: string, c: char)
    requires c !in s
    ensures forall i :: 0 <= i < |Split('/', s)| ==> c !in Split('/', s)[i]
  {
    if s != "" {
      SplitCharacters(s[1..], c);
    }
  }

  lemma StackKeepsCharacters(n: string)
    requires '\\' !in n
    ensures forall i :: 0 <= i < |NormStack(Split('/', n))| ==> '\\' !in NormStack(Split('/', n))[i]
  {
    SplitCharacters(n, '\\');
    StackShape(Split('/', n));
  }

  // ------------------------------------------------------- sanitizer agreement

  /** The components PurePosixPath keeps, and which comes first. */
  lemma {:induction false} PartsExactly(comps: seq<string>) returns (i: nat)
    ensures forall c :: c in Parts(comps) <==> c in comps && !Skipped(c)
    ensures Parts(comps) != [] ==> i < |comps| && comps[i] == Parts(comps)[0] && !Skipped(comps[i])
    ensures Parts(comps) != [] ==> forall j :: 0 <= j < i ==> Skipped(comps[j])
  {
    i := 0;
    if comps != [] {
      var k := PartsExactly(comps[1..]);
      assert comps == [comps[0]] + comps[1..];
      i := if Skipped(comps[0]) then k + 1 else 0;
      assert forall j :: 0 < j < |comps| ==> comps[j] == comps[1..][j - 1];
    }
  }

  /** The first component that is neither empty nor `.`. */
  ghost predicate First(comps: seq<string>, i: nat)
  {
    i < |comps| && comps[i] != "" && comps[i] != "." && forall j :: 0 <= j < i ==> comps[j] == "" || comps[j] == "."
  }

  lemma FirstIsUnique(comps: seq<string>, i: nat, k: nat)
    requires First(comps, i) && First(comps, k)
    ensures i == k
  {
  }

  /** Exactly which names staging accepts: relative ones that never climb, with some component that names an entry,
      the first of which has no colon. A name all of whose components are empty or `.` is an index error. */
  lemma StagingAcceptsExactly(name: string)
    ensures var n := Slashes(name);
            var comps := Split('/', n);
            var relative := n != "" && n[0] != '/';
            && (StagingMember(name).Accepted? <==>
                  relative && ".." !in comps && exists i: nat :: First(comps, i) && ':' !in comps[i])
            && (StagingMember(name).IndexFault? <==> relative && forall c :: c in comps ==> c == "" || c == ".")
  {
    var n := Slashes(name);
    var comps := Split('/', n);
    var k := PartsExactly(comps);
    hide Parts, Split, Slashes;
    var parts := PosixParts(n);
    if parts != [] {
      assert First(comps, k);
      forall i: nat | First(comps, i) ensures i == k {
        FirstIsUnique(comps, i, k);
      }
      assert parts[0] in parts;
    } else {
      assert forall i :: 0 <= i < |comps| ==> comps[i] in comps;
    }
    assert ".." in comps <==> ".." in parts;
  }

  lemma StagingAndVelociraptorAgree(name: string)
    ensures StagingMember(name) == VelociraptorMember(name)
  {
  }

  lemma {:induction false} PartsAppend(comps: seq<string>, c: string)
    ensures Parts(comps + [c]) == Parts(comps) + (if Skipped(c) then [] else [c])
  {
    if comps == [] {
      assert ([] + [c])[1..] == [];
    } else {
      assert (comps + [c])[1..] == comps[1..] + [c];
      PartsAppend(comps[1..], c);
    }
  }

  /** Without `..` the stack never pops, so it is the component list of PurePosixPath. */
  lemma {:induction false} PartsAreTheStack(comps: seq<string>)
    requires ".." !in Parts(comps)
    ensures NormStack(comps) == Parts(comps)
  {
    if comps != [] {
      var init, c := comps[..|comps| - 1], comps[|comps| - 1];
      assert comps == init + [c];
      PartsAppend(init, c);
      PartsAreTheStack(init);
    }
  }

  lemma {:induction false} DriveIsAColonInTheFirstPart(n: string)
    requires DrivePrefixed(n) && !IsAbsolute(n)
    ensures PosixParts(n) != [] && ':' in PosixParts(n)[0]
  {
    var rest := Split('/', n[1..]);
    assert n[1..][0] == ':';
    assert rest[0][0] == ':';
    assert Split('/', n)[0] == [n[0]] + rest[0];
    assert Split('/', n)[0][1] == ':';
  }

  /** What staging and Velociraptor accept, UAC accepts with the same normalised name. */
  lemma UacAcceptsWhatStagingAccepts(name: string)
    requires StagingMember(name).Accepted?
    ensures UacMember(name) == StagingMember(name)
  {
    var n := Slashes(name);
    if DrivePrefixed(n) {
      DriveIsAColonInTheFirstPart(n);
    }
    PartsAreTheStack(Split('/', n));
    assert NormStack(Split('/', n))[0] in PosixParts(n);
    UacAcceptsExactly(name);
  }
}
