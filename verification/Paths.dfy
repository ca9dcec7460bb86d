/** securePaths and stripRoot of internal/decryptor/decryptor.go, on strings, over path/filepath's lexical Clean and Join and a symlink-free SecureJoin. */
module Paths {
  import opened Text

  type Components = seq<string>

  // ------------------------------------------------------------ path/filepath

  predicate IsAbs(path: string) {
    HasPrefix(path, "/")
  }

  /** The components that mean something: not empty and not ".". */
  function Meaningful(parts: Components): Components {
    if parts == [] then []
    else (if parts[0] == "" || parts[0] == "." then [] else [parts[0]]) + Meaningful(parts[1..])
  }

  function Comps(path: string): Components {
    Meaningful(Split(path, '/'))
  }

  /** Follows components down from a stack; ".." at the root stays there. */
  function Walk(stack: Components, comps: Components): Components
    decreases |comps|
  {
    if comps == [] then stack
    else if comps[0] == ".." then Walk(if stack == [] then [] else stack[..|stack| - 1], comps[1..])
    else Walk(stack + [comps[0]], comps[1..])
  }

  /** The same for a relative path, which keeps leading ".." components. */
  function WalkRelative(stack: Components, comps: Components): Components
    decreases |comps|
  {
    if comps == [] then stack
    else if comps[0] == ".." && stack != [] && stack[|stack| - 1] != ".." then
      WalkRelative(stack[..|stack| - 1], comps[1..])
    else WalkRelative(stack + [comps[0]], comps[1..])
  }

  function Absolute(comps: Components): string {
    "/" + Join(comps, '/')
  }

  function Relative(comps: Components): string {
    if comps == [] then "." else Join(comps, '/')
  }

  function Clean(path: string): string {
    if IsAbs(path) then Absolute(Walk([], Comps(path))) else Relative(WalkRelative([], Comps(path)))
  }

  function FilepathJoin(a: string, b: string): string {
    if a == "" && b == "" then ""
    else if a == "" then Clean(b)
    else if b == "" then Clean(a)
    else Clean(a + "/" + b)
  }

  /** securejoin.SecureJoin without symlinks: the path is walked with root as its "/". */
  function SecureJoin(root: string, path: string): string {
    FilepathJoin(root, Absolute(Walk([], Comps(path))))
  }

  // ------------------------------------------------------------ stripRoot and securePaths

  function StripRoot(root: string, path: string): string {
    var root, path := Clean("/" + root), Clean("/" + path);
    var path :=
      if path == root then "/"
      else if root == "/" then path
      else if HasPrefix(path, root + "/") then path[|root + "/"|..]
      else path;
    Clean(FilepathJoin("./", path))
  }

  function SecurePaths(root: string, path: string): (string, string) {
    var path := if IsAbs(path) then StripRoot(root, path) else path;
    var abs := SecureJoin(root, path);
    (abs, StripRoot(root, abs))
  }

  // ------------------------------------------------------------ what they mean on components

  /** A component that names something. */
  ghost predicate Named(c: string) {
    c != "" && c != "." && c != ".." && '/' !in c
  }

  ghost predicate AllNamed(comps: Components) {
    forall i :: 0 <= i < |comps| ==> Named(comps[i])
  }

  /** Named, or "..". */
  ghost predicate AllSteps(comps: Components) {
    forall i :: 0 <= i < |comps| ==> Named(comps[i]) || comps[i] == ".."
  }

  function Strip(root: Components, comps: Components): Components {
    if root <= comps then comps[|root|..] else comps
  }

  /** Where a path lands below root. */
  function Landing(root: string, path: string): Components {
    if IsAbs(path) then Strip(Walk([], Comps(root)), Walk([], Comps(path))) else Walk([], Comps(path))
  }

  // ------------------------------------------------------------ lemmas on text

  lemma {:induction false} MeaningfulConcat(a: Components, b: Components)
    ensures Meaningful(a + b) == Meaningful(a) + Meaningful(b)
  {
    if a == [] {
      assert a + b == b;
    } else {
      assert (a + b)[1..] == a[1..] + b;
      MeaningfulConcat(a[1..], b);
    }
  }

  lemma CompsConcat(a: string, b: string)
    ensures Comps(a + "/" + b) == Comps(a) + Comps(b)
  {
    SplitConcat(a, b, '/');
    MeaningfulConcat(Split(a, '/'), Split(b, '/'));
  }

  lemma CompsOfRooted(path: string)
    ensures Comps("/" + path) == Comps(path)
  {
    assert "" + "/" + path == "/" + path;
    CompsConcat("", path);
    assert Split("", '/') == [""];
  }

  lemma {:induction false} MeaningfulSteps(parts: Components)
    requires AllFree(parts, '/')
    ensures AllSteps(Meaningful(parts))
  {
    if parts != [] {
      MeaningfulSteps(parts[1..]);
    }
  }

  lemma CompsSteps(path: string)
    ensures AllSteps(Comps(path))
  {
    JoinOfSplit(path, '/');
    MeaningfulSteps(Split(path, '/'));
  }

  lemma {:induction false} MeaningfulNamed(comps: Components)
    requires AllNamed(comps)
    ensures Meaningful(comps) == comps
  {
    if comps != [] {
      MeaningfulNamed(comps[1..]);
    }
  }

  /** Components of a joined path are those it was joined from. */
  lemma CompsOfJoin(comps: Components)
    requires AllNamed(comps)
    ensures Comps(Join(comps, '/')) == comps
    ensures Comps(Absolute(comps)) == comps && Comps(Relative(comps)) == comps
  {
    if comps == [] {
      assert Split("", '/') == [""];
      SplitFree(".", '/');
      assert Meaningful(["."]) == [] && Meaningful([""]) == [];
    } else {
      SplitOfJoin(comps, '/');
      MeaningfulNamed(comps);
    }
    CompsOfRooted(Join(comps, '/'));
  }

  lemma {:induction false} JoinConcat(a: Components, b: Components)
    requires a != [] && b != []
    ensures Join(a + b, '/') == Join(a, '/') + "/" + Join(b, '/')
  {
    if |a| == 1 {
      assert (a + b)[1..] == b;
    } else {
      assert (a + b)[1..] == a[1..] + b;
      JoinConcat(a[1..], b);
    }
  }

  // ------------------------------------------------------------ lemmas on walks

  lemma {:induction false} WalkNamed(stack: Components, comps: Components)
    requires AllNamed(stack) && AllSteps(comps)
    ensures AllNamed(Walk(stack, comps))
    decreases |comps|
  {
    if comps != [] {
      WalkNamed(if comps[0] != ".." then stack + [comps[0]] else if stack == [] then [] else stack[..|stack| - 1],
                comps[1..]);
    }
  }

  lemma {:induction false} WalkAppends(stack: Components, comps: Components)
    requires AllNamed(comps)
    ensures Walk(stack, comps) == stack + comps
    ensures WalkRelative(stack, comps) == stack + comps
    decreases |comps|
  {
    if comps != [] {
      assert stack + comps == stack + [comps[0]] + comps[1..];
      WalkAppends(stack + [comps[0]], comps[1..]);
    }
  }

  lemma {:induction false} WalkConcat(stack: Components, a: Components, b: Components)
    ensures Walk(stack, a + b) == Walk(Walk(stack, a), b)
    decreases |a|
  {
    if a == [] {
      assert a + b == b;
    } else {
      assert (a + b)[1..] == a[1..] + b;
      WalkConcat(if a[0] != ".." then stack + [a[0]] else if stack == [] then [] else stack[..|stack| - 1], a[1..], b);
    }
  }

  lemma DownAndUp(base: Components, c: string)
    requires c != ".."
    ensures Walk(base, [c, ".."]) == base
  {
    calc {
      Walk(base, [c, ".."]);
      Walk(base + [c], [".."]);
      Walk((base + [c])[..|base|], []);
      base;
    }
  }

  /** Cleaning a relative path first does not change where a rooted walk of it ends. */
  lemma {:induction false} WalkOfRelative(stack: Components, comps: Components)
    requires AllSteps(stack) && AllSteps(comps)
    ensures Walk([], WalkRelative(stack, comps)) == Walk([], stack + comps)
    ensures AllSteps(WalkRelative(stack, comps))
    decreases |comps|
  {
    if comps == [] {
      assert stack + comps == stack;
    } else {
      assert stack + comps == stack + [comps[0]] + comps[1..];
      if comps[0] == ".." && stack != [] && stack[|stack| - 1] != ".." {
        var n := |stack| - 1;
        WalkOfRelative(stack[..n], comps[1..]);
        assert stack + [comps[0]] == stack[..n] + [stack[n], ".."];
        WalkConcat([], stack[..n], [stack[n], ".."]);
        var base := Walk([], stack[..n]);
        DownAndUp(base, stack[n]);
        WalkConcat([], stack + [comps[0]], comps[1..]);
        WalkConcat([], stack[..n], comps[1..]);
      } else {
        WalkOfRelative(stack + [comps[0]], comps[1..]);
      }
    }
  }

  // ------------------------------------------------------------ what they compute

  lemma NotAbs(comps: Components)
    requires AllSteps(comps)
    ensures !IsAbs(Relative(comps))
  {
    if comps == [] {
      assert "."[..1] == ".";
    } else {
      var s := Join(comps, '/');
      assert comps[0] != "" && comps[0][0] != '/';
      assert s[0] == comps[0][0];
      assert s[..1] == [s[0]];
    }
  }

  /** The last line of stripRoot turns what is left into a clean relative path. */
  lemma DotJoin(path: string, comps: Components)
    requires path != "" && AllNamed(comps) && Comps(path) == comps
    ensures Clean(FilepathJoin("./", path)) == Relative(comps)
  {
    var s := "./" + "/" + path;
    CompsConcat("./", path);
    assert Comps("./") == [] by {
      assert "." + "/" + "" == "./";
      CompsConcat(".", "");
      SplitFree(".", '/');
      assert Meaningful(["."]) == [] && Meaningful([""]) == [];
    }
    assert Comps(s) == comps;
    assert s[..1] == ".";
    WalkAppends([], comps);
    assert FilepathJoin("./", path) == Relative(comps);
    NotAbs(comps);
    CompsOfJoin(comps);
  }

  lemma AbsoluteInjective(a: Components, b: Components)
    requires AllNamed(a) && AllNamed(b) && Absolute(a) == Absolute(b)
    ensures a == b
  {
    CompsOfJoin(a);
    CompsOfJoin(b);
  }

  /** The textual prefix test of stripRoot is the component prefix test. */
  lemma PrefixMeaning(root: Components, comps: Components)
    requires root != [] && root != comps && AllNamed(root) && AllNamed(comps)
    ensures HasPrefix(Absolute(comps), Absolute(root) + "/") <==> root <= comps
    ensures root <= comps ==> Absolute(comps)[|Absolute(root) + "/"|..] == Join(comps[|root|..], '/')
  {
    var p := Absolute(root) + "/";
    if root <= comps {
      var rest := comps[|root|..];
      assert comps == root + rest;
      JoinConcat(root, rest);
      assert Absolute(comps) == p + Join(rest, '/');
    } else if HasPrefix(Absolute(comps), p) {
      var rest := Absolute(comps)[|p|..];
      assert Absolute(comps) == p + rest;
      assert Absolute(comps) == Absolute(root) + "/" + rest;
      CompsConcat(Absolute(root), rest);
      CompsOfJoin(root);
      CompsOfJoin(comps);
    }
  }

  lemma RootOf(path: string)
    ensures AllNamed(Walk([], Comps(path)))
    ensures Clean("/" + path) == Absolute(Walk([], Comps(path)))
  {
    CompsSteps(path);
    WalkNamed([], Comps(path));
    CompsOfRooted(path);
    assert ("/" + path)[..1] == "/";
  }

  lemma StripRootMeaning(root: string, path: string)
    ensures StripRoot(root, path) == Relative(Strip(Walk([], Comps(root)), Walk([], Comps(path))))
  {
    hide Walk, WalkRelative, Comps, Clean, FilepathJoin;
    var r, p := Walk([], Comps(root)), Walk([], Comps(path));
    RootOf(root);
    RootOf(path);
    CompsOfJoin(p);
    if p == r {
      CompsOfJoin([]);
      assert Absolute([]) == "/";
      DotJoin("/", []);
    } else {
      if Absolute(p) == Absolute(r) {
        AbsoluteInjective(p, r);
      }
      if r == [] {
        DotJoin(Absolute(p), p);
      } else {
        if Absolute(r) == "/" {
          AbsoluteInjective(r, []);
        }
        PrefixMeaning(r, p);
        if r <= p {
          CompsOfJoin(p[|r|..]);
          NotAbs(p[|r|..]);
          assert p[|r|..] != [];
          assert Join(p[|r|..], '/') != "";
          DotJoin(Join(p[|r|..], '/'), p[|r|..]);
        } else {
          DotJoin(Absolute(p), p);
        }
      }
    }
  }

  /** securePaths always lands at or below root, for every path whatsoever. */
  lemma SecurePathsMeaning(root: string, path: string)
    requires IsAbs(root)
    ensures AllNamed(Landing(root, path))
    ensures SecurePaths(root, path)
            == (Absolute(Walk([], Comps(root)) + Landing(root, path)), Relative(Landing(root, path)))
  {
    var r := Walk([], Comps(root));
    RootOf(root);
    RootOf(path);
    var landing := Landing(root, path);
    if IsAbs(path) {
      StripRootMeaning(root, path);
      CompsOfJoin(landing);
      WalkAppends([], landing);
      NotAbs(landing);
    }
    var abs := SecureJoin(root, if IsAbs(path) then StripRoot(root, path) else path);
    SecureJoinMeaning(root, if IsAbs(path) then StripRoot(root, path) else path, landing);
    assert abs == Absolute(r + landing);
    CompsOfJoin(r + landing);
    WalkAppends([], r + landing);
    StripRootMeaning(root, abs);
    assert r <= r + landing && (r + landing)[|r|..] == landing;
  }

  lemma SecureJoinMeaning(root: string, path: string, landing: Components)
    requires IsAbs(root) && landing == Walk([], Comps(path)) && AllNamed(landing)
    ensures SecureJoin(root, path) == Absolute(Walk([], Comps(root)) + landing)
  {
    var s := root + "/" + Absolute(landing);
    CompsConcat(root, Absolute(landing));
    CompsOfJoin(landing);
    WalkConcat([], Comps(root), landing);
    WalkAppends(Walk([], Comps(root)), landing);
    assert s[..1] == root[..1];
  }

  /** securePaths is a fixed point on its own absolute and on its own relative result. */
  lemma SecurePathsFixedPoint(root: string, path: string)
    requires IsAbs(root)
    ensures SecurePaths(root, SecurePaths(root, path).0) == SecurePaths(root, path)
    ensures SecurePaths(root, SecurePaths(root, path).1) == SecurePaths(root, path)
  {
    hide SecurePaths, Relative, Join;
    var landing := Landing(root, path);
    SecurePathsMeaning(root, path);
    AbsoluteLanding(root, landing);
    RelativeLandingNamed(root, landing);
    SecurePathsMeaning(root, Absolute(Walk([], Comps(root)) + landing));
    SecurePathsMeaning(root, Relative(landing));
  }

  lemma AbsoluteLanding(root: string, dir: Components)
    requires AllNamed(dir)
    ensures Landing(root, Absolute(Walk([], Comps(root)) + dir)) == dir
  {
    var r := Walk([], Comps(root));
    RootOf(root);
    CompsOfJoin(r + dir);
    WalkAppends([], r + dir);
    assert Absolute(r + dir)[..1] == "/";
    assert (r + dir)[|r|..] == dir;
  }

  lemma RelativeLandingNamed(root: string, dir: Components)
    requires AllNamed(dir)
    ensures Landing(root, Relative(dir)) == dir
  {
    NotAbs(dir);
    CompsOfJoin(dir);
    WalkAppends([], dir);
  }

  // ------------------------------------------------------------ absolute or relative form

  /** How far above its starting point a walk from this depth ever climbs, up to a limit. */
  function Climb(limit: nat, climbed: nat, depth: nat, comps: Components): nat
    decreases |comps|
  {
    if comps == [] then climbed
    else if comps[0] != ".." then Climb(limit, climbed, depth + 1, comps[1..])
    else if depth > 0 then Climb(limit, climbed, depth - 1, comps[1..])
    else Climb(limit, if climbed < limit then climbed + 1 else climbed, 0, comps[1..])
  }

  /** A walk below root and the same walk clamped at root differ only by the part of root
      that the walk climbed out of. */
  lemma {:induction false} WalkBelow(root: Components, climbed: nat, below: Components, comps: Components)
    requires climbed <= |root|
    ensures climbed <= Climb(|root|, climbed, |below|, comps) <= |root|
    ensures Walk(root[..|root| - climbed] + below, comps)
            == root[..|root| - Climb(|root|, climbed, |below|, comps)] + Walk(below, comps)
    decreases |comps|
  {
    if comps != [] {
      var base := root[..|root| - climbed];
      var stack := base + below;
      if comps[0] != ".." {
        assert stack + [comps[0]] == base + (below + [comps[0]]);
        WalkBelow(root, climbed, below + [comps[0]], comps[1..]);
      } else if below != [] {
        assert stack[..|stack| - 1] == base + below[..|below| - 1];
        WalkBelow(root, climbed, below[..|below| - 1], comps[1..]);
      } else {
        var more := if climbed < |root| then climbed + 1 else climbed;
        assert (if stack == [] then [] else stack[..|stack| - 1]) == root[..|root| - more] + [];
        WalkBelow(root, more, [], comps[1..]);
      }
    }
  }

  /** The two forms a directory below root is passed around in. */
  ghost function AbsoluteForm(root: string, dir: Components): string {
    Absolute(Walk([], Comps(root)) + dir)
  }

  lemma JoinMeaning(path: string, ref: string)
    requires path != ""
    ensures FilepathJoin(path, ref)
            == if IsAbs(path) then Absolute(Walk([], Comps(path) + Comps(ref)))
               else Relative(WalkRelative([], Comps(path) + Comps(ref)))
  {
    CompsConcat(path, ref);
    assert (path + "/" + ref)[..1] == path[..1];
    if ref == "" {
      assert Split("", '/') == [""] && Meaningful([""]) == [];
      assert Comps(path) + [] == Comps(path);
    }
  }

  lemma JoinAbsolute(root: string, dir: Components, ref: string)
    requires AllNamed(dir)
    ensures Landing(root, FilepathJoin(AbsoluteForm(root, dir), ref))
            == Strip(Walk([], Comps(root)), Walk(Walk([], Comps(root)) + dir, Comps(ref)))
  {
    var r := Walk([], Comps(root));
    RootOf(root);
    var abs := AbsoluteForm(root, dir);
    CompsOfJoin(r + dir);
    assert abs[..1] == "/";
    JoinMeaning(abs, ref);
    var walked := Walk(r + dir, Comps(ref));
    WalkConcat([], r + dir, Comps(ref));
    WalkAppends([], r + dir);
    assert FilepathJoin(abs, ref) == Absolute(walked);
    CompsSteps(ref);
    WalkNamed(r + dir, Comps(ref));
    CompsOfJoin(walked);
    WalkAppends([], walked);
    assert Absolute(walked)[..1] == "/";
  }

  lemma JoinRelative(root: string, dir: Components, ref: string)
    requires AllNamed(dir)
    ensures Landing(root, FilepathJoin(Relative(dir), ref)) == Walk(dir, Comps(ref))
  {
    var ds := dir + Comps(ref);
    CompsOfJoin(dir);
    NotAbs(dir);
    CompsSteps(ref);
    assert Relative(dir) != "" by {
      if dir != [] {
        assert dir[0] != "";
      }
    }
    JoinMeaning(Relative(dir), ref);
    WalkOfRelative([], ds);
    assert [] + ds == ds;
    RelativeLanding(root, WalkRelative([], ds));
    WalkConcat([], dir, Comps(ref));
    WalkAppends([], dir);
  }

  /** Two paths resolve to the same place exactly when they land on the same components. */
  lemma SameLanding(root: string, a: string, b: string)
    requires IsAbs(root)
    ensures SecurePaths(root, a) == SecurePaths(root, b) <==> Landing(root, a) == Landing(root, b)
  {
    hide SecurePaths, Landing, Comps, Absolute, Relative;
    var r := Walk([], Comps(root));
    RootOf(root);
    SecurePathsMeaning(root, a);
    SecurePathsMeaning(root, b);
    if SecurePaths(root, a) == SecurePaths(root, b) {
      var x, y := Landing(root, a), Landing(root, b);
      AbsoluteInjective(r + x, r + y);
      assert (r + x)[|r|..] == x && (r + y)[|r|..] == y;
    }
  }

  lemma RelativeLanding(root: string, steps: Components)
    requires AllSteps(steps)
    ensures Landing(root, Relative(steps)) == Walk([], steps)
  {
    NotAbs(steps);
    if steps == [] {
      CompsOfJoin([]);
    } else {
      SplitOfJoin(steps, '/');
      MeaningfulOfSteps(steps);
    }
  }

  lemma {:induction false} MeaningfulOfSteps(steps: Components)
    requires AllSteps(steps)
    ensures Meaningful(steps) == steps
  {
    if steps != [] {
      MeaningfulOfSteps(steps[1..]);
    }
  }

  /** Join(path, ref) resolves alike from the absolute and from the root-relative form of path. */
  ghost predicate ResolvesAlike(root: string, dir: Components, ref: string) {
    SecurePaths(root, FilepathJoin(AbsoluteForm(root, dir), ref)) == SecurePaths(root, FilepathJoin(Relative(dir), ref))
  }

  /** It does exactly when the reference never climbs above root, or climbs past all of it and
      does not come back into a path that starts like root. */
  lemma FormsAgree(root: string, dir: Components, ref: string)
    requires IsAbs(root) && AllNamed(dir)
    ensures var r := Walk([], Comps(root));
            var climb := Climb(|r|, 0, |dir|, Comps(ref));
            ResolvesAlike(root, dir, ref) <==> climb == 0 || (climb == |r| && !(r <= Walk(dir, Comps(ref))))
  {
    hide *;
    ResolvesAlikeMeans(root, dir, ref);
    var r := Walk([], Comps(root));
    WalkBelowRoot(r, dir, Comps(ref));
    StripAgrees(r, Climb(|r|, 0, |dir|, Comps(ref)), Walk(dir, Comps(ref)));
  }

  lemma ResolvesAlikeMeans(root: string, dir: Components, ref: string)
    requires IsAbs(root) && AllNamed(dir)
    ensures ResolvesAlike(root, dir, ref) <==>
            Strip(Walk([], Comps(root)), Walk(Walk([], Comps(root)) + dir, Comps(ref))) == Walk(dir, Comps(ref))
  {
    hide SecurePaths, FilepathJoin, Landing, Comps, AbsoluteForm, Relative, Walk, Strip;
    JoinAbsolute(root, dir, ref);
    JoinRelative(root, dir, ref);
    SameLanding(root, FilepathJoin(AbsoluteForm(root, dir), ref), FilepathJoin(Relative(dir), ref));
  }

  lemma WalkBelowRoot(root: Components, dir: Components, comps: Components)
    ensures Climb(|root|, 0, |dir|, comps) <= |root|
    ensures Walk(root + dir, comps) == root[..|root| - Climb(|root|, 0, |dir|, comps)] + Walk(dir, comps)
  {
    assert root[..|root| - 0] == root;
    WalkBelow(root, 0, dir, comps);
  }

  lemma StripAgrees(root: Components, climb: nat, landing: Components)
    requires climb <= |root|
    ensures Strip(root, root[..|root| - climb] + landing) == landing
            <==> climb == 0 || (climb == |root| && !(root <= landing))
  {
    var walked := root[..|root| - climb] + landing;
    if climb == 0 {
      assert walked == root + landing && walked[|root|..] == landing;
    } else if climb == |root| {
      assert walked == landing;
    } else {
      assert |Strip(root, walked)| != |landing|;
    }
  }

  lemma CompsOfSteps(steps: Components)
    requires steps != [] && AllSteps(steps)
    ensures Comps(Join(steps, '/')) == steps
  {
    SplitOfJoin(steps, '/');
    MeaningfulOfSteps(steps);
  }

  /** The condition is needed: below /a/b, the reference ../../x of directory s resolves to a/x
      from the absolute form of s and to x from the relative one. */
  lemma FormsDiffer()
    ensures !ResolvesAlike("/a/b", ["s"], "../../x")
  {
    hide ResolvesAlike, Walk, Comps, Strip, Meaningful, Split;
    ClimbingExample();
    assert Comps("/a/b") == ["a", "b"] by {
      assert Join(["a", "b"], '/') == "a/b" by {
        assert ["a", "b"][1..] == ["b"];
      }
      assert "/" + "a/b" == "/a/b";
      CompsOfRooted("a/b");
      CompsOfSteps(["a", "b"]);
    }
    assert Comps("../../x") == ["..", "..", "x"] by {
      assert Join(["..", "..", "x"], '/') == "../../x" by {
        assert ["..", "..", "x"][1..] == ["..", "x"] && ["..", "x"][1..] == ["x"];
      }
      CompsOfSteps(["..", "..", "x"]);
    }
    WalkAppends([], ["a", "b"]);
    assert [] + ["a", "b"] == ["a", "b"];
    ResolvesAlikeMeans("/a/b", ["s"], "../../x");
  }

  lemma ClimbingExample()
    ensures var root, dir, ref := ["a", "b"], ["s"], ["..", "..", "x"];
            && Climb(|root|, 0, |dir|, ref) == 1
            && Strip(root, Walk(root + dir, ref)) == ["a", "x"]
            && Walk(dir, ref) == ["x"]
  {
    var root, dir, ref := ["a", "b"], ["s"], ["..", "..", "x"];
    assert ref[1..] == ["..", "x"] && ref[1..][1..] == ["x"] && ref[1..][1..][1..] == [];
    assert (root + dir)[..2] == root && root[..1] == ["a"] && dir[..0] == [];
    assert Walk(root + dir, ref) == Walk(root, ref[1..]) == Walk(["a"], ["x"]) == ["a", "x"];
    assert Walk(dir, ref) == Walk([], ref[1..]) == Walk([], ["x"]) == ["x"];
    assert Climb(2, 0, 1, ref) == Climb(2, 0, 0, ref[1..]) == Climb(2, 1, 0, ["x"]) == 1;
    assert root[0] != "x" && ["a", "x"][1] != root[1];
  }

  // ------------------------------------------------------------ references that stay below root

  /** The component walk never climbs above its starting point. */
  predicate StaysBelow(depth: nat, comps: Components)
    decreases |comps|
  {
    comps == [] ||
    if comps[0] == ".." then depth > 0 && StaysBelow(depth - 1, comps[1..]) else StaysBelow(depth + 1, comps[1..])
  }

  lemma {:induction false} StaysBelowNeverClimbs(limit: nat, depth: nat, comps: Components)
    requires StaysBelow(depth, comps)
    ensures Climb(limit, 0, depth, comps) == 0
    decreases |comps|
  {
    if comps != [] {
      StaysBelowNeverClimbs(limit, if comps[0] == ".." then depth - 1 else depth + 1, comps[1..]);
    }
  }

  /** How much deeper these components lead, counting ".." as one up. */
  ghost function Descent(comps: Components): int {
    if comps == [] then 0 else (if comps[0] == ".." then -1 else 1) + Descent(comps[1..])
  }

  /** No part of the walk ends above the start. */
  lemma {:induction false} StaysBelowMeans(depth: nat, comps: Components)
    ensures StaysBelow(depth, comps) <==> forall n :: 0 <= n <= |comps| ==> depth + Descent(comps[..n]) >= 0
    decreases |comps|
  {
    if comps != [] {
      var up := comps[0] == "..";
      forall n | 0 < n <= |comps|
        ensures Descent(comps[..n]) == (if up then -1 else 1) + Descent(comps[1..][..n - 1])
      {
        assert comps[..n][1..] == comps[1..][..n - 1];
      }
      if up && depth == 0 {
        assert Descent(comps[..1]) == -1 + Descent(comps[1..][..0]) == -1;
      } else {
        var next := if up then depth - 1 else depth + 1;
        StaysBelowMeans(next, comps[1..]);
        if StaysBelow(depth, comps) {
          forall n | 0 <= n <= |comps|
            ensures depth + Descent(comps[..n]) >= 0
          {
            if n > 0 {
              assert next + Descent(comps[1..][..n - 1]) >= 0;
            }
          }
        }
        if forall n :: 0 <= n <= |comps| ==> depth + Descent(comps[..n]) >= 0 {
          forall m | 0 <= m <= |comps[1..]|
            ensures next + Descent(comps[1..][..m]) >= 0
          {
            assert depth + Descent(comps[..m + 1]) >= 0;
          }
        }
      }
    }
  }

  /** A walk climbs above its start exactly when it does not stay below it. */
  lemma {:induction false} ClimbsUnlessBelow(limit: nat, climbed: nat, depth: nat, comps: Components)
    requires limit > 0 && climbed <= limit
    ensures Climb(limit, climbed, depth, comps) >= climbed
    ensures Climb(limit, 0, depth, comps) == 0 <==> StaysBelow(depth, comps)
    decreases |comps|
  {
    if comps != [] {
      if comps[0] != ".." {
        ClimbsUnlessBelow(limit, climbed, depth + 1, comps[1..]);
      } else if depth > 0 {
        ClimbsUnlessBelow(limit, climbed, depth - 1, comps[1..]);
      } else {
        ClimbsUnlessBelow(limit, if climbed < limit then climbed + 1 else climbed, 0, comps[1..]);
        ClimbsUnlessBelow(limit, 1, 0, comps[1..]);
      }
    }
  }

  /** path is some spelling of the directory, absolute or relative to root. */
  ghost predicate Spells(root: string, path: string, dir: Components) {
    && AllNamed(dir)
    && if IsAbs(path) then Walk([], Comps(path)) == Walk([], Comps(root)) + dir
       else path != "" && WalkRelative([], Comps(path)) == dir
  }

  /** A reference that stays below root from this directory. */
  predicate Scoped(root: string, dir: Components, ref: string) {
    if IsAbs(ref) then Walk([], Comps(root)) <= Walk([], Comps(ref)) else StaysBelow(|dir|, Comps(ref))
  }

  /** What such a reference means, whatever the spelling of the directory. */
  function Meant(root: string, dir: Components, ref: string): Components {
    if IsAbs(ref) then Landing(root, ref) else Walk(dir, Comps(ref))
  }

  lemma SpellsLanding(root: string, path: string, dir: Components)
    requires Spells(root, path, dir)
    ensures Landing(root, path) == dir
  {
    var r := Walk([], Comps(root));
    if IsAbs(path) {
      assert (r + dir)[|r|..] == dir;
    } else {
      CompsSteps(path);
      WalkOfRelative([], Comps(path));
      assert [] + Comps(path) == Comps(path);
      WalkAppends([], dir);
    }
  }

  lemma {:induction false} WalkRelativeConcat(stack: Components, a: Components, b: Components)
    ensures WalkRelative(stack, a + b) == WalkRelative(WalkRelative(stack, a), b)
    decreases |a|
  {
    if a == [] {
      assert a + b == b;
    } else {
      assert (a + b)[1..] == a[1..] + b;
      WalkRelativeConcat(if a[0] == ".." && stack != [] && stack[|stack| - 1] != ".." then stack[..|stack| - 1]
                         else stack + [a[0]], a[1..], b);
    }
  }

  lemma {:induction false} WalkRelativeBelow(stack: Components, comps: Components)
    requires AllNamed(stack) && AllSteps(comps) && StaysBelow(|stack|, comps)
    ensures WalkRelative(stack, comps) == Walk(stack, comps)
    decreases |comps|
  {
    if comps != [] {
      WalkRelativeBelow(if comps[0] == ".." then stack[..|stack| - 1] else stack + [comps[0]], comps[1..]);
    }
  }

  lemma AbsoluteFormSpells(root: string, dir: Components)
    requires AllNamed(dir)
    ensures Spells(root, AbsoluteForm(root, dir), dir)
  {
    var r := Walk([], Comps(root));
    RootOf(root);
    CompsOfJoin(r + dir);
    WalkAppends([], r + dir);
    assert Absolute(r + dir)[..1] == "/";
  }

  lemma RelativeSpells(root: string, dir: Components)
    requires AllNamed(dir)
    ensures Spells(root, Relative(dir), dir)
  {
    NotAbs(dir);
    CompsOfJoin(dir);
    WalkAppends([], dir);
    if dir != [] {
      assert dir[0] != "";
    }
  }

  /** Joining a scoped reference to a spelling of a directory spells the directory it means. */
  lemma JoinSpells(root: string, path: string, dir: Components, ref: string)
    requires Spells(root, path, dir) && !IsAbs(ref) && StaysBelow(|dir|, Comps(ref))
    ensures Spells(root, FilepathJoin(path, ref), Walk(dir, Comps(ref)))
  {
    hide *;
    var target := Walk(dir, Comps(ref));
    CompsSteps(ref);
    SpellsNamed(root, path, dir);
    WalkNamed(dir, Comps(ref));
    if IsAbs(path) {
      JoinToAbsolute(root, path, dir, ref);
      AbsoluteFormSpells(root, target);
    } else {
      JoinToRelative(root, path, dir, ref);
      RelativeSpells(root, target);
    }
  }

  lemma SpellsNamed(root: string, path: string, dir: Components)
    requires Spells(root, path, dir)
    ensures AllNamed(dir) && path != ""
  {
  }

  lemma JoinToAbsolute(root: string, path: string, dir: Components, ref: string)
    requires Spells(root, path, dir) && IsAbs(path) && StaysBelow(|dir|, Comps(ref))
    ensures FilepathJoin(path, ref) == AbsoluteForm(root, Walk(dir, Comps(ref)))
  {
    hide Comps, FilepathJoin, StaysBelow, Climb, Walk, Join;
    var r := Walk([], Comps(root));
    JoinMeaning(path, ref);
    WalkConcat([], Comps(path), Comps(ref));
    WalkBelowRoot(r, dir, Comps(ref));
    StaysBelowNeverClimbs(|r|, |dir|, Comps(ref));
    assert r[..|r| - 0] == r;
  }

  lemma JoinToRelative(root: string, path: string, dir: Components, ref: string)
    requires Spells(root, path, dir) && !IsAbs(path) && StaysBelow(|dir|, Comps(ref))
    ensures FilepathJoin(path, ref) == Relative(Walk(dir, Comps(ref)))
  {
    hide Comps, FilepathJoin, StaysBelow, Walk, WalkRelative, Join, AllSteps, AllNamed;
    CompsSteps(ref);
    JoinMeaning(path, ref);
    WalkRelativeConcat([], Comps(path), Comps(ref));
    WalkRelativeBelow(dir, Comps(ref));
  }

  lemma AbsoluteSpells(root: string, ref: string)
    requires IsAbs(ref) && Walk([], Comps(root)) <= Walk([], Comps(ref))
    ensures Spells(root, ref, Landing(root, ref))
  {
    RootOf(ref);
    var r, w := Walk([], Comps(root)), Walk([], Comps(ref));
    assert w == r + w[|r|..];
  }

  /** The directory a walk starts in, SecureJoin(root, spec.path), is spelled in absolute form. */
  lemma SecureJoinSpells(root: string, path: string)
    requires IsAbs(root)
    ensures Spells(root, SecureJoin(root, path), Walk([], Comps(path)))
  {
    RootOf(path);
    SecureJoinMeaning(root, path, Walk([], Comps(path)));
    AbsoluteFormSpells(root, Walk([], Comps(path)));
  }
}
