/** Which parts of a document a selection takes, in terms of the document and its text alone. */
module SharedParts {
  import opened Wrappers
  import opened Json
  import opened JsonText
  import opened TreeEdits
  import opened TreeSelection

  /** A large container under one of the four names: at least 512 bytes of canonical text. */
  predicate Large(s: Step, c: Tree) {
    && s in {Key("parent_classification"), Key("calendar"), Key("forecast"), Key("future_demand")}
    && (c.Array? || c.Object?) && |Encode(Printed(c))| >= 512
  }

  predicate LargeAt(v: Tree, p: Path) {
    p != [] && Has(v, p) && Large(p[|p| - 1], Get(v, p))
  }

  lemma ExtractedIsLarge(s: Step, c: Tree)
    ensures Extracted(s, c) <==> Large(s, c)
  {
    TextLength(c);
  }

  /** A large part that lies inside no other one. */
  predicate Outermost(v: Tree, p: Path) {
    LargeAt(v, p) && forall n :: 0 < n < |p| ==> !LargeAt(v, p[..n])
  }

  predicate SelectedAt(v: Tree, p: Path)
    requires Selected(v, []).Some?
  {
    exists k :: 0 <= k < |Selected(v, []).value| && Selected(v, []).value[k].path == p
  }

  lemma SelectedIsLarge(v: Tree, k: nat)
    requires Proper(v) && Selected(v, []).Some? && k < |Selected(v, []).value|
    ensures var x := Selected(v, []).value[k]; LargeAt(v, x.path) && x.value == Get(v, x.path)
  {
    var xs := Selected(v, []).value;
    SelectedAreParts(v, []);
    assert Part(v, [], 0, xs[k]) && xs[k].path[0..] == xs[k].path;
    ExtractedIsLarge(xs[k].path[|xs[k].path| - 1], xs[k].value);
  }

  /** Something selected leads to every large part. */
  lemma LargeIsCovered(v: Tree, p: Path) returns (k: nat)
    requires Proper(v) && Selected(v, []).Some? && LargeAt(v, p)
    ensures k < |Selected(v, []).value| && Selected(v, []).value[k].path <= p
  {
    ExtractedIsLarge(p[|p| - 1], Get(v, p));
    k := SelectedCovers(v, [], p);
    assert [] + p == p;
  }

  lemma NoneAround(v: Tree, k: nat, n: nat)
    requires Proper(v) && Selected(v, []).Some? && k < |Selected(v, []).value|
    requires n <= |Selected(v, []).value[k].path| && LargeAt(v, Selected(v, []).value[k].path[..n])
    ensures n == |Selected(v, []).value[k].path|
  {
    var xs := Selected(v, []).value;
    var j := LargeIsCovered(v, xs[k].path[..n]);
    assert xs[j].path <= xs[k].path;
    SelectedAreParts(v, []);
    assert j == k;
  }

  /** Exactly the outermost large parts are selected. */
  lemma SelectionIsExact(v: Tree, p: Path)
    requires Proper(v) && Selected(v, []).Some?
    ensures SelectedAt(v, p) <==> Outermost(v, p)
  {
    var xs := Selected(v, []).value;
    if k :| 0 <= k < |xs| && xs[k].path == p {
      SelectedIsLarge(v, k);
      forall n | 0 < n < |p|
        ensures !LargeAt(v, p[..n])
      {
        if LargeAt(v, xs[k].path[..n]) {
          NoneAround(v, k, n);
        }
      }
    }
    if Outermost(v, p) {
      var k := LargeIsCovered(v, p);
      SelectedIsLarge(v, k);
      assert p[..|xs[k].path|] == xs[k].path;
      assert |xs[k].path| == |p|;
    }
  }

  // The order of a selection.

  /** At the first difference, the child that comes first. */
  predicate Before(v: Tree, p: Path, q: Path)
    decreases |p|
  {
    && p != [] && q != [] && Position(v, p[0]).Some? && Position(v, q[0]).Some?
    && var i, j := Position(v, p[0]).value, Position(v, q[0]).value;
       i < j || (i == j && Before(Child(v, i), p[1..], q[1..]))
  }

  predicate InOrder(v: Tree, path: Path, xs: seq<Chosen>) {
    forall j, k {:trigger xs[j], xs[k]} :: 0 <= j < k < |xs| ==>
      |path| <= |xs[j].path| && |path| <= |xs[k].path| && Before(v, xs[j].path[|path|..], xs[k].path[|path|..])
  }

  lemma {:induction false} SelectedInOrder(v: Tree, path: Path)
    requires Proper(v) && Selected(v, path).Some?
    ensures InOrder(v, path, Selected(v, path).value)
    decreases v, Arity(v) + 1
  {
    SelectedFromInOrder(v, path, 0);
  }

  lemma {:induction false} SelectedFromInOrder(v: Tree, path: Path, i: nat)
    requires Proper(v) && i <= Arity(v) && SelectedFrom(v, path, i).Some?
    ensures InOrder(v, path, SelectedFrom(v, path, i).value)
    decreases v, Arity(v) - i
  {
    if i < Arity(v) {
      var s, c := StepAt(v, i), Child(v, i);
      SelectedFromInOrder(v, path, i + 1);
      SelectedFromAreParts(v, path, i + 1);
      var here := if Extracted(s, c) then [Chosen(path + [s], c)] else Selected(c, path + [s]).value;
      var rest := SelectedFrom(v, path, i + 1).value;
      if Extracted(s, c) {
        PartHere(v, path, i);
      } else {
        SelectedInOrder(c, path + [s]);
        SelectedAreParts(c, path + [s]);
      }
      forall k | 0 <= k < |here|
        ensures AtChild(v, path, i, here[k])
      {
        if Extracted(s, c) {
          assert here[k].path[|path|..] == [s];
          PositionOf(v, i);
        } else {
          ChildOfPart(v, path, i, here[k]);
        }
      }
      if !Extracted(s, c) {
        OrderedBelow(v, path, i, here);
      }
      forall k | 0 <= k < |rest|
        ensures After(v, path, i, rest[k])
      {
        assert Part(v, path, i + 1, rest[k]);
      }
      OrderJoins(v, path, i, here, rest);
    }
  }

  predicate AtChild(v: Tree, path: Path, i: nat, x: Chosen) {
    |path| < |x.path| && Position(v, x.path[|path|..][0]) == Some(i)
  }

  predicate After(v: Tree, path: Path, i: nat, x: Chosen) {
    |path| < |x.path| && Position(v, x.path[|path|..][0]).Some? && Position(v, x.path[|path|..][0]).value > i
  }

  lemma ChildOfPart(v: Tree, path: Path, i: nat, x: Chosen)
    requires Proper(v) && i < Arity(v) && Part(Child(v, i), path + [StepAt(v, i)], 0, x)
    ensures AtChild(v, path, i, x) && x.path[|path|..][1..] == x.path[|path| + 1..]
  {
    PartBelow(v, path, i, x);
    PositionOf(v, i);
  }

  lemma OrderedBelow(v: Tree, path: Path, i: nat, here: seq<Chosen>)
    requires Proper(v) && i < Arity(v) && InOrder(Child(v, i), path + [StepAt(v, i)], here)
    requires Parts(Child(v, i), path + [StepAt(v, i)], 0, here)
    ensures InOrder(v, path, here)
  {
    forall j, k | 0 <= j < k < |here|
      ensures |path| <= |here[j].path| && |path| <= |here[k].path| && Before(v, here[j].path[|path|..], here[k].path[|path|..])
    {
      ChildOfPart(v, path, i, here[j]);
      ChildOfPart(v, path, i, here[k]);
    }
  }

  lemma OrderJoins(v: Tree, path: Path, i: nat, here: seq<Chosen>, rest: seq<Chosen>)
    requires i < Arity(v) && InOrder(v, path, rest) && (|here| > 1 ==> InOrder(v, path, here))
    requires forall k {:trigger here[k]} :: 0 <= k < |here| ==> AtChild(v, path, i, here[k])
    requires forall k {:trigger rest[k]} :: 0 <= k < |rest| ==> After(v, path, i, rest[k])
    ensures InOrder(v, path, here + rest)
  {
    var xs := here + rest;
    forall j, k | 0 <= j < k < |xs|
      ensures |path| <= |xs[j].path| && |path| <= |xs[k].path| && Before(v, xs[j].path[|path|..], xs[k].path[|path|..])
    {
      if k < |here| {
        assert xs[j] == here[j] && xs[k] == here[k];
      } else if j < |here| {
        assert xs[j] == here[j] && xs[k] == rest[k - |here|];
      } else {
        assert xs[j] == rest[j - |here|] && xs[k] == rest[k - |here|];
      }
    }
  }

  // When there is no selection.

  /** A place that no large part contains. */
  predicate Open(v: Tree, p: Path)
    decreases |p|
  {
    p == [] || (Position(v, p[0]).Some?
                && !Large(p[0], Child(v, Position(v, p[0]).value)) && Open(Child(v, Position(v, p[0]).value), p[1..]))
  }

  /** A document is refused exactly when it has an open place below the greatest depth. */
  lemma DepthIsLimited(v: Tree)
    requires Proper(v)
    ensures Selected(v, []).None? <==> exists p :: Open(v, p) && |p| > 64
  {
    if Selected(v, []).None? {
      var p := TooDeep(v, []);
      assert Open(v, p) && |p| > 64;
    }
    if p :| Open(v, p) && |p| > 64 {
      DeepIsRefused(v, [], p);
    }
  }

  lemma {:induction false} TooDeep(v: Tree, path: Path) returns (p: Path)
    requires Proper(v) && Selected(v, path).None?
    ensures Open(v, p) && |path| + |p| > MAX_DEPTH
    decreases v, Arity(v) + 1
  {
    if |path| > MAX_DEPTH {
      p := [];
    } else {
      p := TooDeepFrom(v, path, 0);
    }
  }

  lemma {:induction false} TooDeepFrom(v: Tree, path: Path, i: nat) returns (p: Path)
    requires Proper(v) && i <= Arity(v) && SelectedFrom(v, path, i).None?
    ensures Open(v, p) && |path| + |p| > MAX_DEPTH
    decreases v, Arity(v) - i
  {
    var s, c := StepAt(v, i), Child(v, i);
    ExtractedIsLarge(s, c);
    if !Extracted(s, c) && Selected(c, path + [s]).None? {
      var q := TooDeep(c, path + [s]);
      p := [s] + q;
      PositionOf(v, i);
      assert p[1..] == q;
    } else {
      p := TooDeepFrom(v, path, i + 1);
    }
  }

  lemma {:induction false} DeepIsRefused(v: Tree, path: Path, p: Path)
    requires Proper(v) && Open(v, p) && |path| + |p| > MAX_DEPTH
    ensures Selected(v, path).None?
    decreases |p|
  {
    if |path| <= MAX_DEPTH {
      var i := Position(v, p[0]).value;
      ExtractedIsLarge(p[0], Child(v, i));
      DeepIsRefused(Child(v, i), path + [p[0]], p[1..]);
      RefusedFrom(v, path, 0, i);
    }
  }

  lemma {:induction false} RefusedFrom(v: Tree, path: Path, i: nat, j: nat)
    requires i <= j < Arity(v) && !Extracted(StepAt(v, j), Child(v, j)) && Selected(Child(v, j), path + [StepAt(v, j)]).None?
    ensures SelectedFrom(v, path, i).None?
    decreases j - i
  {
    if i < j {
      RefusedFrom(v, path, i + 1, j);
    }
  }
}
