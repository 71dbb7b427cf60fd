/**
 The three idempotency keys. Each is a digest of `|`-joined components; what is proved is
 when the joined material, and so the key, determines the components.

 `digest` stands for the printed SHA-256 digest (hexadecimal cut to 43 characters, or unpadded
 base64url). A lemma that needs it not to collide says so for the two materials at hand.
 */
module IdempotencyKeys {
  import opened Text

  type Digest = string -> string

  /** `[A-Za-z0-9][A-Za-z0-9_.:-]*`, matched in full. */
  predicate SafeId(s: string)
  {
    && s != ""
    && AlphaNumeric(s[0])
    && forall i :: 1 <= i < |s| ==> AlphaNumeric(s[i]) || s[i] in "_.:-"
  }

  predicate HexCharacter(c: char)
  {
    'A' <= c <= 'F' || 'a' <= c <= 'f' || '0' <= c <= '9'
  }

  /** The schema pattern `^[a-fA-F0-9]{64}$`; `$` also matches before one final newline. */
  predicate SchemaSha(s: string)
  {
    && (|s| == 64 || (|s| == 65 && s[64] == '\n'))
    && forall i :: 0 <= i < 64 ==> HexCharacter(s[i])
  }

  function Key(digest: Digest, parts: seq<string>): string
  {
    "v1:" + digest(Join('|', parts))
  }

  /** `digest` maps these two materials to different texts unless they are equal. */
  ghost predicate NoCollision(digest: Digest, a: seq<string>, b: seq<string>)
  {
    digest(Join('|', a)) == digest(Join('|', b)) ==> Join('|', a) == Join('|', b)
  }

  lemma KeyDeterminesParts(digest: Digest, a: seq<string>, b: seq<string>)
    requires |a| == |b| && InitFree('|', a) && InitFree('|', b)
    requires NoCollision(digest, a, b)
    ensures Key(digest, a) == Key(digest, b) <==> a == b
  {
    if Key(digest, a) == Key(digest, b) {
      assert digest(Join('|', a)) == Key(digest, a)[3..];
      assert digest(Join('|', b)) == Key(digest, b)[3..];
      JoinInjective('|', a, b);
    }
  }

  // ----------------------------------------------------------------- OpenRelik

  datatype OpenRelikJob = OpenRelikJob(tenant: string, caseId: string, evidence: string, sha256: string,
                                       workflow: string)
  {
    function Components(): seq<string> { [tenant, caseId, evidence, sha256, workflow] }

    /** What `_validate_ids` and the request schema establish about the components. */
    predicate Validated()
    {
      SafeId(tenant) && SafeId(caseId) && SafeId(evidence) && SchemaSha(sha256) && workflow != ""
    }
  }

  lemma OpenRelikKeyIsInjective(digest: Digest, a: OpenRelikJob, b: OpenRelikJob)
    requires a.Validated() && b.Validated()
    requires NoCollision(digest, a.Components(), b.Components())
    ensures Key(digest, a.Components()) == Key(digest, b.Components()) <==> a == b
  {
    KeyDeterminesParts(digest, a.Components(), b.Components());
    if a.Components() == b.Components() {
      assert a.tenant == b.Components()[0] && a.caseId == b.Components()[1] && a.evidence == b.Components()[2];
      assert a.sha256 == b.Components()[3] && a.workflow == b.Components()[4];
    }
  }

  // --------------------------------------------------------------------- MXRay

  datatype MxrayJob = MxrayJob(tenant: string, caseId: string, evidence: string, source: string, sha256: string,
                               workerVersion: string)
  {
    function Components(): seq<string> { [tenant, caseId, evidence, source, sha256, workerVersion] }

    predicate Validated()
    {
      && SafeId(tenant) && |tenant| <= 128 && SafeId(caseId) && |caseId| <= 128
      && SafeId(evidence) && |evidence| <= 128 && SafeId(source) && |source| <= 128
      && SchemaSha(sha256) && workerVersion != ""
    }
  }

  lemma MxrayKeyIsInjective(digest: Digest, a: MxrayJob, b: MxrayJob)
    requires a.Validated() && b.Validated()
    requires NoCollision(digest, a.Components(), b.Components())
    ensures Key(digest, a.Components()) == Key(digest, b.Components()) <==> a == b
  {
    KeyDeterminesParts(digest, a.Components(), b.Components());
    if a.Components() == b.Components() {
      assert a.tenant == b.Components()[0] && a.caseId == b.Components()[1] && a.evidence == b.Components()[2];
      assert a.source == b.Components()[3] && a.sha256 == b.Components()[4] && a.workerVersion == b.Components()[5];
    }
  }

  // ------------------------------------------------------------------- interop

  /** `interop.idempotency_key`: only non-emptiness of the six components is checked. */
  function InteropKey(digest: Digest, parts: seq<string>): Result<string, string>
    requires |parts| == 6
  {
    if exists i :: 0 <= i < 6 && parts[i] == "" then Err("idempotency inputs must be non-empty strings")
    else Ok(Key(digest, parts))
  }

  /** Tuples whose components, the last excepted, are free of the bar do not collide with each other. */
  lemma InteropKeyIsInjectiveWithoutBars(digest: Digest, a: seq<string>, b: seq<string>)
    requires |a| == |b| == 6 && InitFree('|', a) && InitFree('|', b)
    requires InteropKey(digest, a).Ok? && InteropKey(digest, b).Ok?
    requires NoCollision(digest, a, b)
    ensures InteropKey(digest, a) == InteropKey(digest, b) <==> a == b
  {
    KeyDeterminesParts(digest, a, b);
  }

  ghost predicate NonEmpty(a: seq<string>) { forall i :: 0 <= i < |a| ==> a[i] != "" }

  /** The bar at `j` of component `i` can become the separator: the text after it moves into the next
      component, or the text before it into the previous one. */
  predicate Splits(a: seq<string>, i: nat, j: nat)
  {
    i < |a| && j < |a[i]| && a[i][j] == '|' && ((i < |a| - 1 && j > 0) || (i > 0 && j < |a[i]| - 1))
  }

  ghost predicate Ambiguous(a: seq<string>) { exists i, j :: Splits(a, i, j) }

  // ------------------------------------------------- an ambiguous tuple has a double

  lemma {:induction false} JoinAt(a: seq<string>, i: nat, u: string, v: string)
    requires i + 1 < |a| && a[i] + (['|'] + a[i + 1]) == u + (['|'] + v)
    ensures Join('|', a[i := u][i + 1 := v]) == Join('|', a)
    decreases i
  {
    var b := a[i := u][i + 1 := v];
    if i > 0 {
      JoinAt(a[1..], i - 1, u, v);
      assert b[1..] == a[1..][i - 1 := u][i := v];
    } else {
      assert a == [a[0], a[1]] + a[2..] && b == [u, v] + a[2..];
      JoinTwo(a[0], a[1], a[2..]);
      JoinTwo(u, v, a[2..]);
    }
  }

  lemma JoinTwo(x: string, y: string, rest: seq<string>)
    ensures Join('|', [x, y] + rest) == (x + (['|'] + y)) + (if rest == [] then "" else ['|'] + Join('|', rest))
  {
    var a := [x, y] + rest;
    assert a[1..] == [y] + rest;
    JoinHead(a);
    if rest != [] {
      JoinFront(y, rest);
    }
    hide Join;
  }

  lemma AmbiguousHasDouble(a: seq<string>, i: nat, j: nat) returns (b: seq<string>)
    requires NonEmpty(a) && Splits(a, i, j)
    ensures |b| == |a| && NonEmpty(b) && b != a && Join('|', b) == Join('|', a)
  {
    var x, y := a[i][..j], a[i][j + 1..];
    assert a[i] == x + ['|'] + y;
    if i < |a| - 1 && j > 0 {
      b := a[i := x][i + 1 := y + ['|'] + a[i + 1]];
      assert a[i] + (['|'] + a[i + 1]) == x + (['|'] + (y + ['|'] + a[i + 1]));
      JoinAt(a, i, x, y + ['|'] + a[i + 1]);
      assert |b[i]| < |a[i]|;
    } else {
      b := a[i - 1 := a[i - 1] + ['|'] + x][i := y];
      assert a[i - 1] + (['|'] + a[i]) == (a[i - 1] + ['|'] + x) + (['|'] + y);
      JoinAt(a, i - 1, a[i - 1] + ['|'] + x, y);
      assert |b[i]| < |a[i]|;
    }
  }

  // ------------------------------------------- an unambiguous tuple is the only one

  ghost predicate BarsOnlyAtEnd(s: string)
  {
    forall j :: 0 <= j < |s| - 1 ==> s[j] != '|'
  }

  /** A tail of an unambiguous tuple: every component but the last is free of the bar or is one bar,
      and the last has at most a bar at its end. */
  ghost predicate Rigid(a: seq<string>)
  {
    && a != [] && NonEmpty(a)
    && (forall i :: 0 <= i < |a| - 1 ==> '|' !in a[i] || a[i] == "|")
    && BarsOnlyAtEnd(a[|a| - 1])
  }

  lemma RigidTail(a: seq<string>)
    requires Rigid(a) && |a| >= 2
    ensures Rigid(a[1..])
  {
    assert a[1..][|a| - 2] == a[|a| - 1];
  }

  lemma NonEmptyTail(a: seq<string>)
    requires NonEmpty(a) && a != []
    ensures NonEmpty(a[1..])
  {
  }

  lemma JoinHead(a: seq<string>)
    requires |a| >= 2
    ensures Join('|', a) == a[0] + (['|'] + Join('|', a[1..]))
  {
  }

  lemma JoinNonEmpty(a: seq<string>)
    requires a != [] && NonEmpty(a)
    ensures Join('|', a) != ""
  {
  }

  /** The joined text of `x` in front of the components of `b`. */
  lemma JoinFront(x: string, b: seq<string>)
    requires b != []
    ensures Join('|', [x] + b) == x + (['|'] + Join('|', b))
  {
    assert ([x] + b)[1..] == b;
  }

  /** What text `u` is followed by a bar and `s`, when `v` is a proper prefix also followed by a bar. */
  lemma LongerHead(v: string, s: string, u: string, r: string) returns (x: string)
    requires v + (['|'] + s) == u + (['|'] + r) && |v| < |u|
    ensures u == v + (['|'] + x) && s == x + (['|'] + r)
  {
    x := u[|v| + 1..];
    var whole := u + (['|'] + r);
    assert whole[|v|] == '|' && u[|v|] == whole[|v|];
    assert v == whole[..|v|] == u[..|v|];
    assert u == v + (['|'] + x);
    assert u + (['|'] + r) == v + (['|'] + (x + (['|'] + r)));
    assert (v + (['|'] + s))[|v| + 1..] == s;
    assert (v + (['|'] + (x + (['|'] + r))))[|v| + 1..] == x + (['|'] + r);
  }

  lemma SameHead(v: string, s: string, u: string, r: string)
    requires v + (['|'] + s) == u + (['|'] + r) && |v| == |u|
    ensures u == v && s == r
  {
    assert v == (v + (['|'] + s))[..|v|] && u == (u + (['|'] + r))[..|u|];
    assert s == (v + (['|'] + s))[|v| + 1..] && r == (u + (['|'] + r))[|u| + 1..];
  }

  /** When a longer head leaves `b` behind, it has fewer components. */
  lemma {:induction false} LongerHeadLosesOne(a: seq<string>, b: seq<string>, x: string)
    requires Rigid(a) && b != [] && NonEmpty(b)
    requires Join('|', a) == x + (['|'] + Join('|', b))
    ensures |b| < |a|
    decreases |a|, 1
  {
    if x == "" {
      Behind(a, b);
    } else {
      JoinFront(x, b);
      assert NonEmpty([x] + b);
      RigidSplitsMost(a, [x] + b);
    }
  }

  lemma {:induction false} Behind(a: seq<string>, b: seq<string>)
    requires Rigid(a) && b != [] && NonEmpty(b)
    requires Join('|', a) == ['|'] + Join('|', b)
    ensures |b| < |a|
    decreases |a|, 0
  {
    JoinNonEmpty(b);
    var whole := Join('|', a);
    assert whole[0] == '|' && |whole| >= 2;
    if |a| == 1 {
      assert false;
    } else {
      JoinHead(a);
      assert a[0][0] == (a[0] + (['|'] + Join('|', a[1..])))[0] == '|';
      assert a[0] == "|";
      RigidTail(a);
      assert (['|'] + Join('|', b))[1..] == Join('|', b);
      assert (a[0] + (['|'] + Join('|', a[1..])))[1..] == ['|'] + Join('|', a[1..]);
      assert Join('|', b) == ['|'] + Join('|', a[1..]);
      if |b| >= 2 {
        JoinHead(b);
        NonEmptyTail(b);
        assert b[0][0] == (b[0] + (['|'] + Join('|', b[1..])))[0] == '|';
        var x := LongerHead("", Join('|', a[1..]), b[0], Join('|', b[1..]));
        LongerHeadLosesOne(a[1..], b[1..], x);
      }
    }
  }

  /** A rigid list splits its text into the most components, and in one way only. */
  lemma {:induction false} RigidSplitsMost(a: seq<string>, b: seq<string>)
    requires Rigid(a) && b != [] && NonEmpty(b) && Join('|', a) == Join('|', b)
    ensures |b| <= |a|
    ensures |b| == |a| ==> b == a
    decreases |a|, 0
  {
    if |b| >= 2 {
      JoinHead(b);
      NonEmptyTail(b);
      JoinNonEmpty(b[1..]);
      var joined := Join('|', b);
      assert joined[|b[0]|] == '|' && |joined| > |b[0]| + 1;
      if |a| == 1 {
        assert false;
      } else {
        JoinHead(a);
        RigidTail(a);
        HeadNotShorter(a, b);
        if |b[0]| == |a[0]| {
          SameHead(a[0], Join('|', a[1..]), b[0], Join('|', b[1..]));
          RigidSplitsMost(a[1..], b[1..]);
          assert a == [a[0]] + a[1..] && b == [b[0]] + b[1..];
        } else {
          var x := LongerHead(a[0], Join('|', a[1..]), b[0], Join('|', b[1..]));
          LongerHeadLosesOne(a[1..], b[1..], x);
        }
      }
    } else if |a| == 1 {
      assert a == [a[0]] && b == [b[0]];
    }
  }

  /** A head that is free of bars, or has one at its start only, is not longer than any other. */
  lemma HeadNotShorter(a: seq<string>, b: seq<string>)
    requires |a| >= 2 && |b| >= 2 && NonEmpty(b) && a[0] != "" && '|' !in a[0][1..]
    requires Join('|', a) == Join('|', b)
    ensures |a[0]| <= |b[0]|
  {
    JoinHead(a);
    JoinHead(b);
    assert Join('|', b)[|b[0]|] == '|';
  }

  /** What the absence of a split says about the components. */
  lemma UnambiguousTail(a: seq<string>)
    requires |a| >= 2 && NonEmpty(a) && !Ambiguous(a)
    ensures '|' !in a[0][1..] && Rigid(a[1..])
  {
    if c :| 1 <= c < |a[0]| && a[0][c] == '|' {
      assert Splits(a, 0, c);
    }
    var t := a[1..];
    forall i | 0 <= i < |t| - 1 ensures '|' !in t[i] || t[i] == "|" {
      if j :| 0 <= j < |t[i]| && t[i][j] == '|' {
        assert !Splits(a, i + 1, j);
        assert t[i] == "|";
      }
    }
    var last := t[|t| - 1];
    forall j | 0 <= j < |last| - 1 ensures last[j] != '|' {
      assert !Splits(a, |a| - 1, j);
    }
  }

  lemma UnambiguousIsAlone(a: seq<string>, b: seq<string>)
    requires |a| == |b| >= 2 && NonEmpty(a) && NonEmpty(b) && !Ambiguous(a)
    requires Join('|', a) == Join('|', b)
    ensures a == b
  {
    hide Ambiguous;
    UnambiguousTail(a);
    JoinHead(a);
    JoinHead(b);
    NonEmptyTail(b);
    HeadNotShorter(a, b);
    if |b[0]| == |a[0]| {
      SameHead(a[0], Join('|', a[1..]), b[0], Join('|', b[1..]));
      RigidSplitsMost(a[1..], b[1..]);
      assert a == [a[0]] + a[1..] && b == [b[0]] + b[1..];
    } else {
      var x := LongerHead(a[0], Join('|', a[1..]), b[0], Join('|', b[1..]));
      LongerHeadLosesOne(a[1..], b[1..], x);
      assert false;
    }
  }

  /** `b` is another accepted tuple with the same material, so with the same key. */
  ghost predicate Double(digest: Digest, a: seq<string>, b: seq<string>)
  {
    |b| == 6 && b != a && InteropKey(digest, b).Ok? && Join('|', b) == Join('|', a)
  }

  /** An accepted tuple shares its material with another one exactly when some bar in it can become a
      separator. */
  lemma InteropCollidesExactly(digest: Digest, a: seq<string>)
    requires |a| == 6 && InteropKey(digest, a).Ok?
    ensures (exists b :: Double(digest, a, b)) <==> Ambiguous(a)
    ensures forall b :: Double(digest, a, b) ==> InteropKey(digest, b) == InteropKey(digest, a)
  {
    hide Splits, Join;
    assert NonEmpty(a);
    if Ambiguous(a) {
      var i, j :| Splits(a, i, j);
      var b := AmbiguousHasDouble(a, i, j);
      assert Double(digest, a, b);
    } else {
      forall b ensures !Double(digest, a, b) {
        if Double(digest, a, b) {
          UnambiguousIsAlone(a, b);
          assert false;
        }
      }
    }
  }

  /** With a digest that tells these two materials apart, an unambiguous tuple has a key of its own. */
  lemma InteropKeyIsInjective(digest: Digest, a: seq<string>, b: seq<string>)
    requires |a| == |b| == 6 && InteropKey(digest, a).Ok? && InteropKey(digest, b).Ok?
    requires !Ambiguous(a) && NoCollision(digest, a, b)
    ensures InteropKey(digest, a) == InteropKey(digest, b) <==> a == b
  {
    hide Ambiguous, Join;
    if InteropKey(digest, a) == InteropKey(digest, b) {
      assert digest(Join('|', a)) == Key(digest, a)[3..] && digest(Join('|', b)) == Key(digest, b)[3..];
      UnambiguousIsAlone(a, b);
    }
  }
}
