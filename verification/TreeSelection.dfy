/** Which parts of a tree are shared: large containers under the closed list of field names. */
module TreeSelection {
  import opened Wrappers
  import opened Json
  import opened TreeEdits

  const SHARED_FIELDS: set<string> := {"parent_classification", "calendar", "forecast", "future_demand"}
  const MIN_SHARED_BYTES: nat := 512
  const MAX_DEPTH: nat := 64

  datatype Chosen = Chosen(path: Path, value: Tree)

  predicate Extracted(s: Step, c: Tree) {
    s.Key? && s.key in SHARED_FIELDS && c.IsContainer() && Size(c) >= MIN_SHARED_BYTES
  }

  /** The shared parts in document order; None when the tree is too deep. */
  function Selected(v: Tree, path: Path): Option<seq<Chosen>>
    decreases v, Arity(v) + 1
  {
    if |path| > MAX_DEPTH then None else SelectedFrom(v, path, 0)
  }

  function SelectedFrom(v: Tree, path: Path, i: nat): Option<seq<Chosen>>
    requires i <= Arity(v)
    decreases v, Arity(v) - i
  {
    if i == Arity(v) then Some([])
    else
      var s, c := StepAt(v, i), Child(v, i);
      var here := if Extracted(s, c) then Some([Chosen(path + [s], c)]) else Selected(c, path + [s]);
      var rest := SelectedFrom(v, path, i + 1);
      if here.Some? && rest.Some? then Some(here.value + rest.value) else None
  }

  /** A part of `v`, at or after its child `i`, that a selection may hold. */
  predicate Part(v: Tree, path: Path, i: nat, x: Chosen) {
    && path < x.path
    && var below := x.path[|path|..];
       && Has(v, below) && Get(v, below) == x.value
       && Position(v, below[0]).Some? && i <= Position(v, below[0]).value
       && Extracted(below[|below| - 1], x.value)
  }

  predicate Parts(v: Tree, path: Path, i: nat, xs: seq<Chosen>) {
    && (forall k {:trigger xs[k]} :: 0 <= k < |xs| ==> Part(v, path, i, xs[k]))
    && (forall j, k {:trigger xs[j], xs[k]} :: 0 <= j < |xs| && 0 <= k < |xs| && j != k ==> Apart(xs[j].path, xs[k].path))
  }

  lemma OneStep(v: Tree, p: Path)
    requires |p| == 1 && Has(v, p)
    ensures Get(v, p) == Child(v, Position(v, p[0]).value)
  {
    assert p[1..] == [];
  }

  lemma PartHere(v: Tree, path: Path, i: nat)
    requires Proper(v) && i < Arity(v) && Extracted(StepAt(v, i), Child(v, i))
    ensures Parts(v, path, i, [Chosen(path + [StepAt(v, i)], Child(v, i))])
  {
    PositionOf(v, i);
    var s := StepAt(v, i);
    var x := Chosen(path + [s], Child(v, i));
    assert x.path[|path|..] == [s] && [s][1..] == [];
    OneStep(v, [s]);
    assert Part(v, path, i, x);
  }

  lemma PartBelow(v: Tree, path: Path, i: nat, x: Chosen)
    requires Proper(v) && i < Arity(v) && Part(Child(v, i), path + [StepAt(v, i)], 0, x)
    ensures Part(v, path, i, x) && x.path[|path|] == StepAt(v, i)
  {
    PositionOf(v, i);
    var s := StepAt(v, i);
    var lower := x.path[|path + [s]|..];
    var below := x.path[|path|..];
    assert x.path[|path|] == (path + [s])[|path|] == s;
    assert path < x.path by {
      assert path == (path + [s])[..|path|];
    }
    assert below == [s] + lower;
    assert below[1..] == lower;
    assert below[|below| - 1] == lower[|lower| - 1];
  }

  lemma PartLater(v: Tree, path: Path, i: nat, x: Chosen)
    requires Proper(v) && i < Arity(v) && Part(v, path, i + 1, x)
    ensures Part(v, path, i, x) && x.path[|path|] != StepAt(v, i)
  {
    PositionOf(v, i);
  }

  lemma DifferAt(p: Path, q: Path, n: nat)
    requires n < |p| && n < |q| && p[n] != q[n]
    ensures Apart(p, q)
  {
  }

  lemma PartsJoin(v: Tree, path: Path, i: nat, here: seq<Chosen>, rest: seq<Chosen>)
    requires Proper(v) && i < Arity(v) && Parts(v, path, i, here) && Parts(v, path, i + 1, rest)
    requires forall k :: 0 <= k < |here| ==> here[k].path[|path|] == StepAt(v, i)
    ensures Parts(v, path, i, here + rest)
  {
    var xs := here + rest;
    forall k | |here| <= k < |xs|
      ensures Part(v, path, i, xs[k]) && xs[k].path[|path|] != StepAt(v, i)
    {
      PartLater(v, path, i, rest[k - |here|]);
    }
    forall j, k | 0 <= j < |xs| && 0 <= k < |xs| && j != k
      ensures Apart(xs[j].path, xs[k].path)
    {
      if j < |here| <= k || k < |here| <= j {
        DifferAt(xs[j].path, xs[k].path, |path|);
      }
    }
  }

  /** The selected paths lead to shared parts, and none of them lies inside another. */
  lemma {:induction false} SelectedAreParts(v: Tree, path: Path)
    requires Proper(v) && Selected(v, path).Some?
    ensures Parts(v, path, 0, Selected(v, path).value)
    decreases v, Arity(v) + 1
  {
    SelectedFromAreParts(v, path, 0);
  }

  lemma {:induction false} SelectedFromAreParts(v: Tree, path: Path, i: nat)
    requires Proper(v) && i <= Arity(v) && SelectedFrom(v, path, i).Some?
    ensures Parts(v, path, i, SelectedFrom(v, path, i).value)
    decreases v, Arity(v) - i
  {
    if i < Arity(v) {
      var s, c := StepAt(v, i), Child(v, i);
      SelectedFromAreParts(v, path, i + 1);
      var rest := SelectedFrom(v, path, i + 1).value;
      if Extracted(s, c) {
        PartHere(v, path, i);
        PartsJoin(v, path, i, [Chosen(path + [s], c)], rest);
      } else {
        SelectedAreParts(c, path + [s]);
        var here := Selected(c, path + [s]).value;
        forall k | 0 <= k < |here|
          ensures Part(v, path, i, here[k]) && here[k].path[|path|] == s
        {
          PartBelow(v, path, i, here[k]);
        }
        PartsJoin(v, path, i, here, rest);
      }
    }
  }

  lemma PathSplit(path: Path, p: Path)
    requires p != []
    ensures path + p == (path + [p[0]]) + p[1..] && path + [p[0]] <= path + p
    ensures p[1..] != [] ==> p[1..][|p[1..]| - 1] == p[|p| - 1]
  {
    assert p == [p[0]] + p[1..];
  }

  /** Every shared part is selected, alone or inside a selected part around it. */
  lemma {:induction false} SelectedCovers(v: Tree, path: Path, p: Path) returns (k: nat)
    requires Proper(v) && Selected(v, path).Some?
    requires p != [] && Has(v, p) && Extracted(p[|p| - 1], Get(v, p))
    ensures k < |Selected(v, path).value| && Selected(v, path).value[k].path <= path + p
    decreases v, Arity(v) + 1
  {
    k := SelectedFromCovers(v, path, p, 0);
  }

  lemma {:induction false} SelectedFromCovers(v: Tree, path: Path, p: Path, i: nat) returns (k: nat)
    requires Proper(v) && i <= Arity(v) && SelectedFrom(v, path, i).Some?
    requires p != [] && Has(v, p) && Extracted(p[|p| - 1], Get(v, p)) && i <= Position(v, p[0]).value
    ensures k < |SelectedFrom(v, path, i).value| && SelectedFrom(v, path, i).value[k].path <= path + p
    decreases v, Arity(v) - i
  {
    var s, c := StepAt(v, i), Child(v, i);
    if |p| == 1 {
      OneStep(v, p);
    }
    PathSplit(path, p);
    if Position(v, p[0]).value > i {
      var j := SelectedFromCovers(v, path, p, i + 1);
      k := |SelectedFrom(v, path, i).value| - |SelectedFrom(v, path, i + 1).value| + j;
    } else if Extracted(s, c) {
      k := 0;
    } else {
      k := SelectedCovers(c, path + [s], p[1..]);
    }
  }
}
