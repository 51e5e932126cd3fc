/**
 What a directory tree costs when several names may share one inode: every inode
 is charged once, at the largest charge among its links.
 */
module LinkAccounting {

  /** `peak` is the largest charge among the links of `inode`; 0 when it has none. */
  ghost predicate IsPeak<Name(!new)>(tree: map<Name, nat>, charge: map<Name, nat>, inode: nat, peak: nat)
    requires tree.Keys <= charge.Keys
  {
    && (forall p :: p in tree && tree[p] == inode ==> charge[p] <= peak)
    && (peak == 0 || exists p :: p in tree && tree[p] == inode && charge[p] == peak)
  }

  lemma {:induction false} PeakExists<Name(!new)>(tree: map<Name, nat>, charge: map<Name, nat>, inode: nat)
    requires tree.Keys <= charge.Keys
    ensures exists peak :: IsPeak(tree, charge, inode, peak)
    decreases |tree|
  {
    if tree == map[] {
      assert IsPeak(tree, charge, inode, 0);
    } else {
      var p :| p in tree;
      var rest := tree - {p};
      assert tree == rest[p := tree[p]];
      PeakExists(rest, charge, inode);
      var below :| IsPeak(rest, charge, inode, below);
      var peak := if tree[p] == inode && charge[p] > below then charge[p] else below;
      assert IsPeak(tree, charge, inode, peak);
    }
  }

  ghost function Peak<Name(!new)>(tree: map<Name, nat>, charge: map<Name, nat>, inode: nat): (peak: nat)
    requires tree.Keys <= charge.Keys
    ensures IsPeak(tree, charge, inode, peak)
  {
    PeakExists(tree, charge, inode);
    var peak :| IsPeak(tree, charge, inode, peak);
    peak
  }

  /** The bill of all inodes numbered below `bound`. */
  ghost function Total<Name(!new)>(tree: map<Name, nat>, charge: map<Name, nat>, bound: nat): nat
    requires tree.Keys <= charge.Keys
  {
    if bound == 0 then 0 else Total(tree, charge, bound - 1) + Peak(tree, charge, bound - 1)
  }

  /** Two trees agree on an inode when it has the same links at the same charges in both. */
  ghost predicate SameLinks<Name(!new)>(
    tree: map<Name, nat>, charge: map<Name, nat>, tree': map<Name, nat>, charge': map<Name, nat>, inode: nat)
    requires tree.Keys <= charge.Keys && tree'.Keys <= charge'.Keys
  {
    && (forall p :: p in tree && tree[p] == inode ==> p in tree' && tree'[p] == inode && charge'[p] == charge[p])
    && (forall p :: p in tree' && tree'[p] == inode ==> p in tree && tree[p] == inode)
  }

  lemma PeakUnique<Name(!new)>(tree: map<Name, nat>, charge: map<Name, nat>, inode: nat, peak: nat)
    requires tree.Keys <= charge.Keys && IsPeak(tree, charge, inode, peak)
    ensures Peak(tree, charge, inode) == peak
  {
    var other := Peak(tree, charge, inode);
    assert IsPeak(tree, charge, inode, other);
    assert other <= peak && peak <= other;
  }

  /** Changing the links of one inode changes the bill by the change of that inode's peak. */
  lemma {:induction false} TotalChangesAtOne<Name(!new)>(
    tree: map<Name, nat>, charge: map<Name, nat>, tree': map<Name, nat>, charge': map<Name, nat>,
    bound: nat, inode: nat)
    requires tree.Keys <= charge.Keys && tree'.Keys <= charge'.Keys
    requires forall i :: 0 <= i < bound && i != inode ==> SameLinks(tree, charge, tree', charge', i)
    ensures inode < bound ==>
              Total(tree', charge', bound) + Peak(tree, charge, inode)
              == Total(tree, charge, bound) + Peak(tree', charge', inode)
    ensures inode >= bound ==> Total(tree', charge', bound) == Total(tree, charge, bound)
  {
    if bound > 0 {
      TotalChangesAtOne(tree, charge, tree', charge', bound - 1, inode);
      if bound - 1 != inode {
        assert SameLinks(tree, charge, tree', charge', bound - 1);
        var peak := Peak(tree, charge, bound - 1);
        assert IsPeak(tree, charge, bound - 1, peak);
        assert IsPeak(tree', charge', bound - 1, peak);
        PeakUnique(tree', charge', bound - 1, peak);
      }
    }
  }

  function Max(a: nat, b: nat): nat {
    if a < b then b else a
  }

  /** One more link costs what it raises its inode's peak by. */
  lemma AddLink<Name(!new)>(
    tree: map<Name, nat>, charge: map<Name, nat>, charge': map<Name, nat>, bound: nat, p: Name, inode: nat)
    requires p !in tree && inode < bound
    requires tree.Keys <= charge.Keys && tree.Keys + {p} <= charge'.Keys
    requires forall q :: q in tree ==> charge'[q] == charge[q]
    ensures Peak(tree[p := inode], charge', inode) == Max(Peak(tree, charge, inode), charge'[p])
    ensures Total(tree[p := inode], charge', bound) + Peak(tree, charge, inode)
            == Total(tree, charge, bound) + Max(Peak(tree, charge, inode), charge'[p])
  {
    var tree' := tree[p := inode];
    var was := Peak(tree, charge, inode);
    assert IsPeak(tree, charge, inode, was);
    assert IsPeak(tree', charge', inode, Max(was, charge'[p])) by {
      if Max(was, charge'[p]) != 0 {
        if was <= charge'[p] {
          assert p in tree' && tree'[p] == inode && charge'[p] == Max(was, charge'[p]);
        } else {
          var q :| q in tree && tree[q] == inode && charge[q] == was;
          assert q in tree' && tree'[q] == inode && charge'[q] == was;
        }
      }
    }
    PeakUnique(tree', charge', inode, Max(was, charge'[p]));
    TotalChangesAtOne(tree, charge, tree', charge', bound, inode);
  }

  /** One more link leaves the peaks of the other inodes alone. */
  lemma AddLinkElsewhere<Name(!new)>(tree: map<Name, nat>, charge: map<Name, nat>, p: Name, inode: nat, other: nat)
    requires p !in tree && tree.Keys + {p} <= charge.Keys && other != inode
    ensures Peak(tree[p := inode], charge, other) == Peak(tree, charge, other)
  {
    var peak := Peak(tree, charge, other);
    assert IsPeak(tree, charge, other, peak);
    if peak != 0 {
      var q :| q in tree && tree[q] == other && charge[q] == peak;
      assert tree[p := inode][q] == other;
    }
    assert IsPeak(tree[p := inode], charge, other, peak);
    PeakUnique(tree[p := inode], charge, other, peak);
  }

  lemma {:induction false} NoLinksNoBill<Name(!new)>(charge: map<Name, nat>, bound: nat)
    ensures Total(map[], charge, bound) == 0
    ensures forall i: nat :: Peak(map[], charge, i) == 0
  {
    forall i: nat
      ensures Peak(map[], charge, i) == 0
    {
      assert IsPeak(map[], charge, i, 0);
      PeakUnique(map[], charge, i, 0);
    }
    if bound > 0 {
      NoLinksNoBill(charge, bound - 1);
    }
  }

  /** Removing a link never costs, and changes nothing when a link of at least its charge stays. */
  lemma RemoveLink<Name(!new)>(
    tree: map<Name, nat>, charge: map<Name, nat>, charge': map<Name, nat>, bound: nat, p: Name)
    requires p in tree && tree[p] < bound
    requires tree.Keys <= charge.Keys && tree.Keys - {p} <= charge'.Keys
    requires forall q :: q in tree && q != p ==> charge'[q] == charge[q]
    ensures Total(tree - {p}, charge', bound) <= Total(tree, charge, bound)
    ensures (exists q :: q in tree && q != p && tree[q] == tree[p] && charge[p] <= charge[q])
            ==> Total(tree - {p}, charge', bound) == Total(tree, charge, bound)
    ensures charge[p] == 0 ==> Total(tree - {p}, charge', bound) == Total(tree, charge, bound)
    ensures (forall q :: q in tree && tree[q] == tree[p] ==> q == p)
            ==> Total(tree - {p}, charge', bound) + charge[p] == Total(tree, charge, bound)
  {
    var tree', inode := tree - {p}, tree[p];
    var was, now := Peak(tree, charge, inode), Peak(tree', charge', inode);
    assert IsPeak(tree, charge, inode, was) && IsPeak(tree', charge', inode, now);
    TotalChangesAtOne(tree, charge, tree', charge', bound, inode);
    assert now <= was;
    if now != was {
      assert exists q :: q in tree && tree[q] == inode && charge[q] == was;
      assert forall q :: q in tree' && tree'[q] == inode ==> charge'[q] <= now;
    }
    assert now == 0 || exists q :: q in tree' && tree'[q] == inode && charge'[q] == now;
  }

  /** Renaming a link to a fresh name of the same charge costs nothing. */
  lemma RenameLink<Name(!new)>(
    tree: map<Name, nat>, charge: map<Name, nat>, charge': map<Name, nat>, bound: nat, p: Name, q: Name)
    requires p in tree && q !in tree && tree[p] < bound
    requires tree.Keys <= charge.Keys && tree.Keys - {p} + {q} <= charge'.Keys
    requires forall x :: x in tree && x != p ==> charge'[x] == charge[x]
    requires charge'[q] == charge[p]
    ensures Total((tree - {p})[q := tree[p]], charge', bound) == Total(tree, charge, bound)
  {
    var tree', inode := (tree - {p})[q := tree[p]], tree[p];
    var was := Peak(tree, charge, inode);
    assert IsPeak(tree, charge, inode, was);
    if was != 0 {
      var x :| x in tree && tree[x] == inode && charge[x] == was;
      var y := if x == p then q else x;
      assert y in tree' && tree'[y] == inode && charge'[y] == was;
    }
    assert IsPeak(tree', charge', inode, was);
    PeakUnique(tree', charge', inode, was);
    TotalChangesAtOne(tree, charge, tree', charge', bound, inode);
  }

  /** Inodes nobody links are free, so the bound may be any number above those in use. */
  lemma {:induction false} BoundIsSlack<Name(!new)>(
    tree: map<Name, nat>, charge: map<Name, nat>, bound: nat, bound': nat)
    requires tree.Keys <= charge.Keys && bound <= bound'
    requires forall p :: p in tree ==> tree[p] < bound
    ensures Total(tree, charge, bound') == Total(tree, charge, bound)
  {
    if bound < bound' {
      BoundIsSlack(tree, charge, bound, bound' - 1);
      assert IsPeak(tree, charge, bound' - 1, 0);
      PeakUnique(tree, charge, bound' - 1, 0);
    }
  }

  function Lookup(peaks: map<nat, nat>, inode: nat): nat {
    if inode in peaks then peaks[inode] else 0
  }

  /** A running total over the links seen so far, with the peak of each inode met among them. */
  ghost predicate Bill<Name(!new)>(
    seen: map<Name, nat>, charge: map<Name, nat>, bound: nat, total: nat, peaks: map<nat, nat>)
  {
    && seen.Keys <= charge.Keys
    && total == Total(seen, charge, bound)
    && forall i: nat :: Lookup(peaks, i) == Peak(seen, charge, i)
  }

  lemma EmptyBill<Name(!new)>(charge: map<Name, nat>, bound: nat)
    ensures Bill(map[], charge, bound, 0, map[])
  {
    NoLinksNoBill(charge, bound);
  }

  /** Accounting one more link raises the total by what it raises its inode's peak. */
  lemma BillStep<Name(!new)>(
    seen: map<Name, nat>, charge: map<Name, nat>, bound: nat, total: nat, peaks: map<nat, nat>, p: Name, inode: nat)
    requires Bill(seen, charge, bound, total, peaks) && p !in seen && p in charge && inode < bound
    ensures var peak := Max(Lookup(peaks, inode), charge[p]);
            Bill(seen[p := inode], charge, bound, total + peak - Lookup(peaks, inode), peaks[inode := peak])
  {
    AddLink(seen, charge, charge, bound, p, inode);
    var peaks' := peaks[inode := Max(Lookup(peaks, inode), charge[p])];
    forall i: nat
      ensures Lookup(peaks', i) == Peak(seen[p := inode], charge, i)
    {
      if i != inode {
        AddLinkElsewhere(seen, charge, p, inode, i);
      }
    }
  }
}
