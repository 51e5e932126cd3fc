/** The audit of a pool's files: the incremental account of each link against the bill of all inodes. */
module UsageAudit {
  import opened Wrappers
  import opened LinkAccounting
  import opened Disk
  import opened PoolState
  import opened PoolRecovery

  /** An audit with the files in `left` still to come. */
  ghost predicate Auditing(d: Disk, left: set<Path>, accounted: map<nat, (nat, nat)>, usage: Tally) {
    && d.WellFormed() && left <= d.tree.Keys && Audited(d, d.tree.Keys - left)
    && Accounts(Charges(d), Sizes(d), d.next, d.tree - left, accounted, usage)
  }

  lemma AuditStarts(d: Disk)
    requires d.WellFormed()
    ensures Auditing(d, d.tree.Keys, map[], Tally(0, 0, 0, 0))
  {
    assert d.tree - d.tree.Keys == map[];
    NothingAccounted(Charges(d), Sizes(d), d.next);
  }

  lemma AuditStep(d: Disk, left: set<Path>, accounted: map<nat, (nat, nat)>, usage: Tally, p: Path)
    requires Auditing(d, left, accounted, usage) && p in left && Auditable(d, p)
    ensures Auditing(d, left - {p}, Remembered(accounted, d.tree[p], Charge(d, p), d.At(p).Size()),
                     Charged(accounted, usage, d.tree[p], Charge(d, p), d.At(p).Size(), p.Binary?))
  {
    AuditedOne(d, left, p);
    AccountsStep(d.tree, Charges(d), Sizes(d), d.next, left, accounted, usage, p);
  }

  lemma AccountsStep(tree: map<Path, nat>, charges: map<Path, nat>, sizes: map<Path, nat>, bound: nat,
                     left: set<Path>, accounted: map<nat, (nat, nat)>, usage: Tally, p: Path)
    requires Accounts(charges, sizes, bound, tree - left, accounted, usage)
    requires p in left && p in tree && p in charges && p in sizes && tree[p] < bound
    ensures Accounts(charges, sizes, bound, tree - (left - {p}),
                     Remembered(accounted, tree[p], charges[p], sizes[p]),
                     Charged(accounted, usage, tree[p], charges[p], sizes[p], p.Binary?))
  {
    AccountOne(charges, sizes, bound, tree - left, accounted, usage, p, tree[p]);
    assert tree - (left - {p}) == (tree - left)[p := tree[p]];
  }

  lemma AuditedOne(d: Disk, left: set<Path>, p: Path)
    requires d.WellFormed() && left <= d.tree.Keys && Audited(d, d.tree.Keys - left)
    requires p in left && Auditable(d, p)
    ensures Audited(d, d.tree.Keys - (left - {p}))
  {
  }

  lemma AuditCounts(d: Disk, left: set<Path>, accounted: map<nat, (nat, nat)>, usage: Tally)
    requires Auditing(d, left, accounted, usage)
    ensures usage.files + |left| == |d.tree|
  {
    assert (d.tree - left).Keys == d.tree.Keys - left;
  }

  lemma AuditEnds(d: Disk, accounted: map<nat, (nat, nat)>, usage: Tally)
    requires Auditing(d, {}, accounted, usage)
    ensures Audited(d, d.tree.Keys) && usage.files == |d.tree|
    ensures usage.raw == RawUsage(d) && usage.physical == PhysicalUsage(d)
    ensures usage.quarantined == |Binaries(d.tree)|
  {
    assert d.tree - {} == d.tree;
  }

  // One call of the account step: the larger of an inode's charges counts once.

  function Previous(accounted: map<nat, (nat, nat)>, inode: nat): (nat, nat) {
    if inode in accounted then accounted[inode] else (0, 0)
  }

  function Remembered(accounted: map<nat, (nat, nat)>, inode: nat, charge: nat, size: nat): map<nat, (nat, nat)> {
    var previous := Previous(accounted, inode);
    accounted[inode := (Max(previous.0, charge), Max(previous.1, size))]
  }

  function Charged(accounted: map<nat, (nat, nat)>, usage: Tally, inode: nat, charge: nat, size: nat, retained: bool): Tally {
    var previous := Previous(accounted, inode);
    Tally(usage.raw + (Max(previous.0, charge) - previous.0),
          usage.physical + (Max(previous.1, size) - previous.1),
          usage.files + 1,
          usage.quarantined + if retained then 1 else 0)
  }

  function Raws(accounted: map<nat, (nat, nat)>): map<nat, nat> {
    map i | i in accounted :: accounted[i].0
  }

  function Physicals(accounted: map<nat, (nat, nat)>): map<nat, nat> {
    map i | i in accounted :: accounted[i].1
  }

  function Binaries(tree: map<Path, nat>): set<Path> {
    set p | p in tree && p.Binary?
  }

  /** The running sums are the bills of the links seen so far. */
  ghost predicate Accounts(charges: map<Path, nat>, sizes: map<Path, nat>, bound: nat,
                           seen: map<Path, nat>, accounted: map<nat, (nat, nat)>, usage: Tally)
  {
    && Bill(seen, charges, bound, usage.raw, Raws(accounted))
    && Bill(seen, sizes, bound, usage.physical, Physicals(accounted))
    && usage.files == |seen| && usage.quarantined == |Binaries(seen)|
  }

  lemma NothingAccounted(charges: map<Path, nat>, sizes: map<Path, nat>, bound: nat)
    ensures Accounts(charges, sizes, bound, map[], map[], Tally(0, 0, 0, 0))
  {
    EmptyBill(charges, bound);
    EmptyBill(sizes, bound);
    assert Raws(map[]) == map[] && Physicals(map[]) == map[];
  }

  lemma AccountOne(charges: map<Path, nat>, sizes: map<Path, nat>, bound: nat,
                   seen: map<Path, nat>, accounted: map<nat, (nat, nat)>, usage: Tally, p: Path, inode: nat)
    requires Accounts(charges, sizes, bound, seen, accounted, usage)
    requires p !in seen && p in charges && p in sizes && inode < bound
    ensures Accounts(charges, sizes, bound, seen[p := inode], Remembered(accounted, inode, charges[p], sizes[p]),
                     Charged(accounted, usage, inode, charges[p], sizes[p], p.Binary?))
  {
    BillStep(seen, charges, bound, usage.raw, Raws(accounted), p, inode);
    BillStep(seen, sizes, bound, usage.physical, Physicals(accounted), p, inode);
    RememberedSplits(accounted, inode, charges[p], sizes[p]);
    BinariesGrow(seen, p, inode);
  }

  lemma BinariesGrow(seen: map<Path, nat>, p: Path, inode: nat)
    requires p !in seen
    ensures Binaries(seen[p := inode]) == Binaries(seen) + if p.Binary? then {p} else {}
    ensures |Binaries(seen[p := inode])| == |Binaries(seen)| + if p.Binary? then 1 else 0
  {
    assert Binaries(seen[p := inode]) == Binaries(seen) + if p.Binary? then {p} else {};
  }

  lemma RememberedSplits(accounted: map<nat, (nat, nat)>, inode: nat, charge: nat, size: nat)
    ensures var accounted' := Remembered(accounted, inode, charge, size);
            && Raws(accounted') == Raws(accounted)[inode := Max(Lookup(Raws(accounted), inode), charge)]
            && Physicals(accounted') == Physicals(accounted)[inode := Max(Lookup(Physicals(accounted), inode), size)]
    ensures Previous(accounted, inode) == (Lookup(Raws(accounted), inode), Lookup(Physicals(accounted), inode))
  {
  }

  function AuditCode(d: Disk, p: Path): Code
    requires p in d.tree && d.tree[p] in d.files
  {
    if d.At(p).Size() > MAX_RAW_BYTES then FileTooLarge
    else if p.StoreTemp? || p.JobTemp? then UnexpectedFile
    else if p.Artifact? then CompressedFileInvalid
    else QuarantineInvalid
  }
}
