/**
 The tier classifier of the factory gate: how much blast radius a diff has, from
 its paths alone.
 */
module TierGate {
  import opened Basics
  import opened Paths

  datatype Tier = T1 | T2 | T3 | Amendment

  const SPEC_PREFIX := "openspec/specs/"
  const CHANGE_PREFIX := "openspec/changes/"
  const DOC_PREFIXES := ["docs/", ".github/ISSUE_TEMPLATE/"]
  const TEST_PREFIXES := ["test/", "e2e/", "web/e2e/"]
  const TEST_SUFFIXES := ["_test.go", ".test.ts", ".spec.ts"]
  const PUBLIC_SURFACES := ["proto/", "api/", "deploy/", "docker/", "gen/", "internal/server/"]

  // ----- paths -----

  predicate HasSuffix(p: string, suffix: string) {
    |suffix| <= |p| && p[|p| - |suffix|..] == suffix
  }

  predicate HasAnyPrefix(p: string, prefixes: seq<string>) {
    exists k :: 0 <= k < |prefixes| && prefixes[k] <= p
  }

  predicate HasAnySuffix(p: string, suffixes: seq<string>) {
    exists k :: 0 <= k < |suffixes| && HasSuffix(p, suffixes[k])
  }

  predicate IsDoc(p: string) {
    HasAnyPrefix(p, DOC_PREFIXES) || HasSuffix(p, ".md")
  }

  predicate IsTest(p: string) {
    HasAnyPrefix(p, TEST_PREFIXES) || HasAnySuffix(p, TEST_SUFFIXES)
  }

  /** A path that is neither documentation, nor a test, nor a change's own artifact. */
  predicate IsCode(p: string) {
    !IsDoc(p) && !IsTest(p) && !(CHANGE_PREFIX <= p)
  }

  predicate IsSurface(p: string) {
    HasAnyPrefix(p, PUBLIC_SURFACES)
  }

  function Slashed(parts: seq<string>): string {
    if parts == [] then "" else if |parts| == 1 then parts[0] else parts[0] + "/" + Slashed(parts[1..])
  }

  /** path.Dir: everything before the last component, cleaned; never empty. */
  function Dir(p: string): (r: string)
    ensures r != ""
  {
    var parts := Split(p, '/');
    var rooted := |parts| > 1 && parts[0] == "";
    var dir := (if rooted then "/" else "") + Slashed(CleanFrom(rooted, [], parts[..|parts| - 1]));
    if dir == "" then "." else dir
  }

  /** The unit of implementation a path belongs to. */
  function CapabilityOf(p: string): (r: string)
    ensures r != ""
  {
    var parts := Split(p, '/');
    if ("internal/" <= p || "cmd/" <= p) && |parts| >= 2 then parts[0] + "/" + parts[1]
    else if "web/src/" <= p then "web"
    else if "packages/" <= p && |parts| >= 2 then parts[0] + "/" + parts[1]
    else Dir(p)
  }

  /** Which paths count as code. */
  lemma CodeIff(p: string)
    ensures IsCode(p) <==> && !("docs/" <= p) && !(".github/ISSUE_TEMPLATE/" <= p) && !HasSuffix(p, ".md")
                           && !("test/" <= p) && !("e2e/" <= p) && !("web/e2e/" <= p)
                           && !HasSuffix(p, "_test.go") && !HasSuffix(p, ".test.ts") && !HasSuffix(p, ".spec.ts")
                           && !("openspec/changes/" <= p)
  {
    var docs, prefixes, suffixes := DOC_PREFIXES, TEST_PREFIXES, TEST_SUFFIXES;
    assert docs[0] == "docs/" && docs[1] == ".github/ISSUE_TEMPLATE/";
    assert prefixes[0] == "test/" && prefixes[1] == "e2e/" && prefixes[2] == "web/e2e/";
    assert suffixes[0] == "_test.go" && suffixes[1] == ".test.ts" && suffixes[2] == ".spec.ts";
  }

  /** A path below a package directory belongs to that package. */
  lemma PackageCapability(root: string, pkg: string, rest: string)
    requires root in {"internal", "cmd", "packages"} && '/' !in pkg
    ensures CapabilityOf(root + "/" + pkg + "/" + rest) == root + "/" + pkg
  {
    var p := root + "/" + pkg + "/" + rest;
    assert p == root + ['/'] + (pkg + ['/'] + rest);
    SplitFirst(root, pkg + ['/'] + rest, '/');
    SplitFirst(pkg, rest, '/');
    assert root + "/" <= p;
  }

  /** Everything below web/src belongs to web. */
  lemma {:induction false} WebCapability(rest: string)
    ensures CapabilityOf("web/src/" + rest) == "web"
  {
    var p := "web/src/" + rest;
    assert p[0] == 'w' && "web/src/" <= p;
  }

  /** Any other path belongs to its directory: here for a file in a top-level directory, and for a top-level file. */
  lemma {:induction false} DirectoryCapability(dir: string, file: string)
    requires '/' !in dir && '/' !in file && dir !in {"", ".", ".."}
    ensures Dir(dir + "/" + file) == dir && Dir(file) == "."
    ensures forall p :: !("internal/" <= p) && !("cmd/" <= p) && !("packages/" <= p) && !("web/src/" <= p) ==> CapabilityOf(p) == Dir(p)
  {
    assert dir + "/" + file == dir + ['/'] + file;
    SplitFirst(dir, file, '/');
    SplitWhole(file, '/');
    assert [dir, file][..1] == [dir] && [file][..0] == [] && [dir][1..] == [];
    assert CleanFrom(false, [], [dir]) == CleanFrom(false, [] + [dir], []);
  }

  // ----- the tier of a set of paths -----

  ghost function Capabilities(paths: set<string>): set<string> {
    set p | p in paths && IsCode(p) :: CapabilityOf(p)
  }

  ghost predicate Amends(paths: set<string>) {
    exists p :: p in paths && SPEC_PREFIX <= p
  }

  ghost predicate TouchesSurface(paths: set<string>) {
    exists p :: p in paths && IsCode(p) && IsSurface(p)
  }

  ghost function TierOf(paths: set<string>): Tier {
    if Amends(paths) then Amendment
    else if Capabilities(paths) == {} then T1
    else if TouchesSurface(paths) || |Capabilities(paths)| > 1 then T3
    else T2
  }

  function Rank(t: Tier): nat {
    match t
    case T1 => 1
    case T2 => 2
    case T3 => 3
    case Amendment => 4
  }

  lemma CodeHasCapability(paths: set<string>, p: string)
    requires p in paths && IsCode(p)
    ensures CapabilityOf(p) in Capabilities(paths)
  {
  }

  /** Touching more paths never lowers the tier. */
  lemma TierIsMonotone(a: set<string>, b: set<string>)
    requires a <= b
    ensures Rank(TierOf(a)) <= Rank(TierOf(b))
  {
    assert Capabilities(a) <= Capabilities(b);
    SubsetSize(Capabilities(a), Capabilities(b));
    if Amends(a) {
      assert Amends(b);
    }
    if TouchesSurface(a) {
      assert TouchesSurface(b);
    }
  }

  /** T2: no spec and no public surface is touched, and the code paths belong to exactly one capability. */
  lemma T2Iff(paths: set<string>)
    ensures TierOf(paths) == T2
            <==> && (forall p :: p in paths ==> !(SPEC_PREFIX <= p) && !(IsCode(p) && IsSurface(p)))
                 && (exists p :: p in paths && IsCode(p))
                 && (forall p, q :: p in paths && q in paths && IsCode(p) && IsCode(q) ==> CapabilityOf(p) == CapabilityOf(q))
  {
    var caps := Capabilities(paths);
    if TierOf(paths) == T2 {
      var c :| c in caps;
      forall p | p in paths && IsCode(p) ensures CapabilityOf(p) == c {
        CodeHasCapability(paths, p);
        SubsetSize({c, CapabilityOf(p)}, caps);
      }
      assert exists p :: p in paths && IsCode(p);
    } else if p :| p in paths && IsCode(p) {
      CodeHasCapability(paths, p);
      if forall q :: q in paths && IsCode(q) ==> CapabilityOf(q) == CapabilityOf(p) {
        assert caps == {CapabilityOf(p)};
      }
    }
  }

  /** When the other tiers are given. */
  lemma OtherTiersIff(paths: set<string>)
    ensures TierOf(paths) == Amendment <==> exists p :: p in paths && "openspec/specs/" <= p
    ensures TierOf(paths) == T1 <==> forall p :: p in paths ==> !("openspec/specs/" <= p) && !IsCode(p)
    ensures TierOf(paths) == T3
            <==> && (forall p :: p in paths ==> !("openspec/specs/" <= p))
                 && (|| (exists p :: p in paths && IsCode(p) && IsSurface(p))
                     || (exists p, q :: p in paths && q in paths && IsCode(p) && IsCode(q) && CapabilityOf(p) != CapabilityOf(q)))
  {
    T2Iff(paths);
    if TierOf(paths) == T1 {
      forall p | p in paths ensures !IsCode(p) {
        if IsCode(p) {
          CodeHasCapability(paths, p);
        }
      }
    } else if p :| p in paths && IsCode(p) {
      CodeHasCapability(paths, p);
    }
  }

  // ----- the classifier -----

  ghost function PathSet(changed: seq<string>): set<string> {
    set p | p in changed
  }

  lemma {:induction false} SurveyOne(changed: seq<string>, i: nat)
    requires i < |changed|
    ensures var p, before, after := changed[i], PathSet(changed[..i]), PathSet(changed[..i + 1]);
            && Capabilities(after) == (if IsCode(p) then Capabilities(before) + {CapabilityOf(p)} else Capabilities(before))
            && (TouchesSurface(after) <==> TouchesSurface(before) || (IsCode(p) && IsSurface(p)))
  {
    var p, before, after := changed[i], PathSet(changed[..i]), PathSet(changed[..i + 1]);
    assert changed[..i + 1] == changed[..i] + [p];
    assert after == before + {p};
  }

  /** The second loop: what the code paths among the changed ones touch. */
  method Survey(changed: seq<string>) returns (codeChanged: bool, surfaces: nat, capabilities: set<string>)
    ensures capabilities == Capabilities(PathSet(changed))
    ensures codeChanged <==> capabilities != {}
    ensures surfaces > 0 <==> TouchesSurface(PathSet(changed))
  {
    codeChanged, surfaces, capabilities := false, 0, {};
    for i := 0 to |changed|
      invariant capabilities == Capabilities(PathSet(changed[..i]))
      invariant codeChanged <==> capabilities != {}
      invariant surfaces > 0 <==> TouchesSurface(PathSet(changed[..i]))
    {
      var p := changed[i];
      SurveyOne(changed, i);
      if IsDoc(p) || IsTest(p) || CHANGE_PREFIX <= p {
        continue;
      }
      codeChanged := true;
      if IsSurface(p) {
        surfaces := surfaces + 1;
      }
      capabilities := capabilities + {CapabilityOf(p)};
    }
    assert changed[..|changed|] == changed;
  }

  /** The loops of ClassifyTier; order and repetition of the paths do not matter. */
  method ClassifyTier(changed: seq<string>) returns (tier: Tier)
    ensures tier == TierOf(PathSet(changed))
  {
    if |changed| == 0 {
      return T1;
    }
    var amended := 0;
    for i := 0 to |changed|
      invariant amended > 0 <==> exists k :: 0 <= k < i && SPEC_PREFIX <= changed[k]
    {
      if SPEC_PREFIX <= changed[i] {
        amended := amended + 1;
      }
    }
    if amended > 0 {
      ghost var k :| 0 <= k < |changed| && SPEC_PREFIX <= changed[k];
      assert changed[k] in PathSet(changed);
      return Amendment;
    }
    assert !Amends(PathSet(changed));
    var codeChanged, surfaces, capabilities := Survey(changed);
    if !codeChanged {
      return T1;
    }
    if surfaces > 0 {
      return T3;
    }
    if |capabilities| > 1 {
      return T3;
    }
    return T2;
  }
}
