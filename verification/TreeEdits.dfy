/** Replacing many parts of a tree that lie apart from each other. */
module TreeEdits {
  import opened Wrappers
  import opened Json

  datatype Edit = Edit(path: Path, value: Tree)

  /** A replacement of a part that is there; otherwise nothing happens. */
  function Put(v: Tree, e: Edit): Tree {
    if Has(v, e.path) then Set(v, e.path, e.value) else v
  }

  function Assign(v: Tree, edits: seq<Edit>): Tree {
    if edits == [] then v else Put(Assign(v, edits[..|edits| - 1]), edits[|edits| - 1])
  }

  predicate Everywhere(v: Tree, edits: seq<Edit>) {
    forall k {:trigger edits[k]} :: 0 <= k < |edits| ==> Has(v, edits[k].path)
  }

  predicate AllApart(edits: seq<Edit>) {
    forall j, k {:trigger edits[j], edits[k]} :: 0 <= j < |edits| && 0 <= k < |edits| && j != k ==> Apart(edits[j].path, edits[k].path)
  }

  /** A part that lies apart from all edits. */
  predicate ApartFrom(p: Path, edits: seq<Edit>) {
    forall k {:trigger edits[k]} :: 0 <= k < |edits| ==> Apart(p, edits[k].path)
  }

  lemma {:induction false} AssignElsewhere(v: Tree, edits: seq<Edit>, p: Path)
    requires ApartFrom(p, edits)
    ensures Has(Assign(v, edits), p) == Has(v, p)
    ensures Has(v, p) ==> Get(Assign(v, edits), p) == Get(v, p)
  {
    if edits != [] {
      var before, e := edits[..|edits| - 1], edits[|edits| - 1];
      AssignElsewhere(v, before, p);
      var w := Assign(v, before);
      if Has(w, e.path) {
        SetElsewhere(w, e.path, p, e.value);
      }
    }
  }

  lemma ApartFromRest(edits: seq<Edit>)
    requires AllApart(edits) && edits != []
    ensures var before := edits[..|edits| - 1];
            AllApart(before) && ApartFrom(edits[|edits| - 1].path, before)
  {
  }

  lemma {:induction false} PutThenAssign(v: Tree, edits: seq<Edit>, e: Edit)
    requires ApartFrom(e.path, edits) && Has(v, e.path)
    ensures Assign(Put(v, e), edits) == Put(Assign(v, edits), e)
  {
    AssignElsewhere(v, edits, e.path);
    if edits != [] {
      var before, last := edits[..|edits| - 1], edits[|edits| - 1];
      PutThenAssign(v, before, e);
      AssignElsewhere(v, before, e.path);
      var w := Assign(v, before);
      if Has(w, last.path) {
        SetsCommute(w, e.path, last.path, e.value, last.value);
      } else {
        SetElsewhere(w, e.path, last.path, e.value);
      }
    }
  }

  predicate Holds(v: Tree, e: Edit) {
    Has(v, e.path) && Get(v, e.path) == e.value
  }

  predicate AllHold(v: Tree, edits: seq<Edit>) {
    edits == [] || (AllHold(v, edits[..|edits| - 1]) && Holds(v, edits[|edits| - 1]))
  }

  lemma {:induction false} AllHoldAt(v: Tree, edits: seq<Edit>, k: nat)
    requires AllHold(v, edits) && k < |edits|
    ensures Holds(v, edits[k])
  {
    if k < |edits| - 1 {
      AllHoldAt(v, edits[..|edits| - 1], k);
    }
  }

  lemma {:induction false} PutKeepsHolding(w: Tree, edits: seq<Edit>, e: Edit)
    requires Has(w, e.path) && ApartFrom(e.path, edits) && AllHold(w, edits)
    ensures AllHold(Set(w, e.path, e.value), edits)
  {
    if edits != [] {
      PutKeepsHolding(w, edits[..|edits| - 1], e);
      SetElsewhere(w, e.path, edits[|edits| - 1].path, e.value);
    }
  }

  lemma {:induction false} AssignHolds(v: Tree, edits: seq<Edit>)
    requires AllApart(edits) && Everywhere(v, edits)
    ensures AllHold(Assign(v, edits), edits)
  {
    if edits != [] {
      var before, e := edits[..|edits| - 1], edits[|edits| - 1];
      ApartFromRest(edits);
      AssignHolds(v, before);
      AssignElsewhere(v, before, e.path);
      SetThenGet(Assign(v, before), e.path, e.value);
      PutKeepsHolding(Assign(v, before), before, e);
    }
  }

  lemma AssignHas(v: Tree, edits: seq<Edit>)
    requires AllApart(edits) && Everywhere(v, edits)
    ensures Everywhere(Assign(v, edits), edits)
    ensures forall k {:trigger edits[k]} :: 0 <= k < |edits| ==> Get(Assign(v, edits), edits[k].path) == edits[k].value
  {
    AssignHolds(v, edits);
    forall k | 0 <= k < |edits|
      ensures Holds(Assign(v, edits), edits[k])
    {
      AllHoldAt(Assign(v, edits), edits, k);
    }
  }

  /** The same places, with what stood there before. */
  predicate Undoes(v: Tree, edits: seq<Edit>, undo: seq<Edit>) {
    && |undo| == |edits|
    && forall k {:trigger edits[k]} {:trigger undo[k]} :: 0 <= k < |edits| ==>
         undo[k].path == edits[k].path && Has(v, edits[k].path) && Get(v, edits[k].path) == undo[k].value
  }

  lemma {:induction false} AssignThenUndo(v: Tree, edits: seq<Edit>, undo: seq<Edit>)
    requires AllApart(edits) && Undoes(v, edits, undo)
    ensures Assign(Assign(v, edits), undo) == v
  {
    if edits != [] {
      var n := |edits| - 1;
      var before, e, undone, u := edits[..n], edits[n], undo[..n], undo[n];
      ApartFromRest(edits);
      AssignThenUndo(v, before, undone);
      var w := Assign(v, before);
      AssignElsewhere(v, before, e.path);
      assert ApartFrom(e.path, undone) by {
        assert forall k :: 0 <= k < n ==> undone[k].path == before[k].path;
      }
      PutThenAssign(w, undone, e);
      SetThenGet(v, e.path, e.value);
      SetTwice(v, e.path, e.value, u.value);
      SetWhatIsThere(v, e.path);
    }
  }

  /** What the edits add to the length of the text. */
  function Growth(v: Tree, edits: seq<Edit>): int
    requires Everywhere(v, edits)
  {
    if edits == [] then 0
    else
      var e := edits[|edits| - 1];
      Growth(v, edits[..|edits| - 1]) + Size(e.value) - Size(Get(v, e.path))
  }

  lemma {:induction false} SizeOfAssign(v: Tree, edits: seq<Edit>)
    requires AllApart(edits) && Everywhere(v, edits)
    ensures Size(Assign(v, edits)) == Size(v) + Growth(v, edits)
  {
    if edits != [] {
      var before, e := edits[..|edits| - 1], edits[|edits| - 1];
      ApartFromRest(edits);
      SizeOfAssign(v, before);
      AssignElsewhere(v, before, e.path);
      SizeOfSet(Assign(v, before), e.path, e.value);
    }
  }

  lemma {:induction false} SetProper(v: Tree, p: Path, x: Tree)
    requires Has(v, p) && Proper(v) && Proper(x)
    ensures Proper(Set(v, p, x))
    decreases |p|
  {
    if p != [] {
      SetProper(Child(v, Position(v, p[0]).value), p[1..], x);
    }
  }

  lemma {:induction false} AssignProper(v: Tree, edits: seq<Edit>)
    requires Proper(v) && forall k :: 0 <= k < |edits| ==> Proper(edits[k].value)
    ensures Proper(Assign(v, edits))
  {
    if edits != [] {
      var before, e := edits[..|edits| - 1], edits[|edits| - 1];
      AssignProper(v, before);
      if Has(Assign(v, before), e.path) {
        SetProper(Assign(v, before), e.path, e.value);
      }
    }
  }
}
