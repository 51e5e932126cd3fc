/** What each step of a recovery does to the disk, to its exposure and to its published objects. */
module PoolRecovery {
  import opened Wrappers
  import opened LinkAccounting
  import opened Disk
  import opened PoolState

  datatype Code =
    | PendingInvalid
    | QuarantineConflict
    | QuarantineInvalid
    | FileTooLarge
    | UnexpectedFile
    | CompressedFileInvalid
    | FileCountExceeded
    | RawBudgetExceeded
    | ObjectTooLarge
    | ArgumentsTooLarge
    | ArtifactSizeLimit
    | ArtifactConflict
    | StoreOutsidePool
    | JobHashMismatch
    | InvocationStopped

  datatype Outcome = Done | Crashed | Raised(code: Code) {
    predicate IsFailure() {
      !Done?
    }

    function PropagateFailure(): Outcome
      requires IsFailure()
    {
      this
    }
  }

  /** What an operation learns from outside the disk: live processes and the two clocks. */
  datatype Moment = Moment(live: set<ProcessId>, monotonic: Nanos, wall: Nanos)

  datatype Tally = Tally(raw: nat, physical: nat, files: nat, quarantined: nat)

  predicate Lapsed(p: Path, now: Moment) {
    p.JobFile? && (p.owner !in now.live || now.monotonic >= p.deadline)
  }

  function LapsedJobs(d: Disk, now: Moment): set<Path> {
    set p | p in d.tree && Lapsed(p, now)
  }

  /** What a recovery at this moment moves into quarantine. */
  function Work(d: Disk, now: Moment): set<Path> {
    set p | p in d.tree && (p.IsTemp() || Lapsed(p, now))
  }

  /** A reservation the next recovery can read back; otherwise no recovery ever succeeds. */
  predicate Readable(d: Disk) {
    PendingOf(d).Some? ==> |PendingOf(d).value.payload.bytes| <= MAX_RAW_BYTES
  }

  /** No inode is rewritten and no published name is removed or relinked. */
  ghost predicate KeepsObjects(d: Disk, d': Disk) {
    && d.stores <= d'.stores && d.next <= d'.next
    && (forall p :: p in d.tree && p.Artifact? ==> p in d'.tree && d'.tree[p] == d.tree[p])
    && (forall i :: i in d.files ==> i in d'.files && d'.files[i] == d.files[i])
  }

  /** Nor is a name published. */
  ghost predicate SameObjects(d: Disk, d': Disk) {
    KeepsObjects(d, d') && forall p :: p in d'.tree && p.Artifact? ==> p in d.tree
  }

  /** The file that was at `p` is in quarantine, recorded with its reserve and content. */
  ghost predicate Moved(d: Disk, d': Disk, p: Path) {
    && p in d.tree && d.tree[p] in d.files && p !in d'.tree
    && Binary(p) in d'.tree && d'.tree[Binary(p)] == d.tree[p]
    && Metadata(p) in d'.tree && d'.tree[Metadata(p)] in d'.files && d'.At(Metadata(p)).RecordDoc?
    && RecordAgrees(d, p, d'.At(Metadata(p)).record)
  }

  /** Exactly the files in `moved` have gone into quarantine; every other link is as it was. */
  ghost predicate Retains(d: Disk, d': Disk, moved: set<Path>) {
    && d.WellFormed() && moved <= d.tree.Keys && d'.WellFormed()
    && d'.stores == d.stores && d.next <= d'.next
    && (forall i :: i in d.files ==> i in d'.files && d'.files[i] == d.files[i])
    && (forall p :: p in d.tree && p !in moved ==> p in d'.tree && d'.tree[p] == d.tree[p])
    && (forall p {:trigger Moved(d, d', p)} :: p in moved ==> Moved(d, d', p))
    && (forall p :: p in d'.tree ==> p in d.tree || ((p.Binary? || p.Metadata?) && p.of in moved))
  }

  /** The record of `p` is dated now, or it is the one that was there. */
  ghost predicate DatedAs(d: Disk, d': Disk, p: Path, wall: Nanos) {
    && Metadata(p) in d'.tree && d'.tree[Metadata(p)] in d'.files
    && if Metadata(p) in d.tree then d'.tree[Metadata(p)] == d.tree[Metadata(p)]
       else d'.At(Metadata(p)).RecordDoc? && d'.At(Metadata(p)).record.since == wall
  }

  ghost predicate Dated(d: Disk, d': Disk, moved: set<Path>, wall: Nanos) {
    forall p {:trigger DatedAs(d, d', p, wall)} :: p in moved ==> DatedAs(d, d', p, wall)
  }

  /** The file that was at `p` is in quarantine, under a record of its charge, its content and its date. */
  ghost predicate Filed(d: Disk, d': Disk, p: Path, wall: Nanos) {
    Moved(d, d', p) && DatedAs(d, d', p, wall)
  }

  /** What was in quarantine is still there. */
  ghost predicate KeepsQuarantine(d: Disk, d': Disk) {
    forall p :: p in d.tree && (p.Metadata? || p.Binary?) ==> p in d'.tree && d'.tree[p] == d.tree[p]
  }

  /** A control write that stopped has left nothing, or its temporary with a part of the document. */
  ghost predicate Interrupted(d: Disk, d': Disk, temp: Path, doc: Content) {
    d' == d || exists c :: d' == Placed(d, temp, c) && c.Size() <= doc.Size()
  }

  lemma InterruptedWrite(d: Disk, d': Disk, limit: nat, temp: Path, doc: Content)
    requires Inv(d, limit) && Interrupted(d, d', temp, doc)
    requires temp.IsControlTemp() && temp.Drawn(d.next + 1) && !temp.Drawn(d.next) && doc.Size() <= MAX_RAW_BYTES
    ensures Inv(d', limit) && SameObjects(d, d') && PendingOf(d') == PendingOf(d) && Jobs(d') == Jobs(d)
    ensures Exposure(d') <= Exposure(d) + doc.Size() + RECORD_ALLOWANCE
    ensures Headcount(d') <= Headcount(d) + 2
  {
    if d' != d {
      var c :| d' == Placed(d, temp, c) && c.Size() <= doc.Size();
      PlaceTemp(d, limit, temp, c);
      NewTemporary(d, temp, c);
    }
  }

  lemma NewTemporary(d: Disk, temp: Path, c: Content)
    requires d.WellFormed() && temp.IsTemp() && !temp.Drawn(d.next)
    ensures var d' := Placed(d, temp, c);
            && SameObjects(d, d') && PendingOf(d') == PendingOf(d) && Jobs(d') == Jobs(d)
            && temp !in d.tree && Metadata(temp) !in d'.tree
  {
    assert !Metadata(temp).Drawn(d.next);
    assert Jobs(Placed(d, temp, c)) == Jobs(d);
  }

  /** The disk once `p` has a record: the one it already had, or `q`. */
  function Recorded(d: Disk, p: Path, q: Record): Disk {
    if Metadata(p) in d.tree then d else Placed(d, Metadata(p), RecordDoc(q))
  }

  function Quarantined(d: Disk, p: Path, q: Record): Disk
    requires p in d.tree
  {
    Renamed(Recorded(d, p, q), p, Binary(p))
  }

  lemma RecordSafe(d: Disk, limit: nat, p: Path, q: Record)
    requires Inv(d, limit) && p in d.tree && p.IsRetained() && q.original == p && RecordAgrees(d, p, q)
    ensures var d' := Recorded(d, p, q);
            && Inv(d', limit) && SameObjects(d, d') && PendingOf(d') == PendingOf(d)
            && p in d'.tree && Metadata(p) in d'.tree && Binary(p) !in d'.tree
            && Exposure(d') <= Exposure(d) + (if p.JobFile? then RECORD_ALLOWANCE else 0)
            && Headcount(d') <= Headcount(d) + (if p.JobFile? then 1 else 0)
            && d'.At(Metadata(p)).RecordDoc? && RecordAgrees(d, p, d'.At(Metadata(p)).record)
            && Jobs(d') == Jobs(d)
    ensures RecordDoc(q).Size() <= RECORD_ALLOWANCE && d.At(p).Size() <= MAX_RAW_BYTES
  {
    ReservedBounded(d, limit, p);
    RecordFits(q);
    NotYetRetained(d, limit, p);
    if Metadata(p) in d.tree {
      assert LinkOk(d, Metadata(p));
    } else {
      PlaceRecord(d, limit, p, q);
      RecordLeaves(d, p, q);
    }
  }

  lemma RecordLeaves(d: Disk, p: Path, q: Record)
    requires d.WellFormed() && p in d.tree && p.IsRetained() && Metadata(p) !in d.tree && Binary(p) !in d.tree
    requires RecordAgrees(d, p, q)
    ensures var d' := Placed(d, Metadata(p), RecordDoc(q));
            && SameObjects(d, d') && PendingOf(d') == PendingOf(d) && Jobs(d') == Jobs(d)
            && p in d'.tree && Metadata(p) in d'.tree && Binary(p) !in d'.tree
            && d'.Holds(Metadata(p), RecordDoc(q))
  {
    assert Jobs(Placed(d, Metadata(p), RecordDoc(q))) == Jobs(d);
  }

  lemma RecordedRetains(d: Disk, e: Disk, p: Path)
    requires d.WellFormed() && e.WellFormed() && SameObjects(d, e) && p in d.tree && p.IsRetained()
    requires e.stores == d.stores && (e.tree == d.tree || e.tree == d.tree[Metadata(p) := d.next])
    requires Metadata(p) in e.tree && e.At(Metadata(p)).RecordDoc?
    requires RecordAgrees(d, p, e.At(Metadata(p)).record)
    requires Metadata(p) in d.tree ==> e.tree == d.tree
    requires Renamed(e, p, Binary(p)).WellFormed() && Binary(p) !in d.tree
    ensures Retains(d, Renamed(e, p, Binary(p)), {p}) && SameObjects(d, Renamed(e, p, Binary(p)))
  {
  }

  lemma RecordedShape(d: Disk, p: Path, q: Record)
    ensures var e := Recorded(d, p, q);
            && e.stores == d.stores && (e.tree == d.tree || e.tree == d.tree[Metadata(p) := d.next])
            && (Metadata(p) in d.tree ==> e.tree == d.tree)
            && (p in d.tree ==> p in e.tree)
  {
  }

  lemma QuarantineSafe(d: Disk, limit: nat, p: Path, q: Record)
    requires Inv(d, limit) && p in d.tree && p.IsRetained() && q.original == p && RecordAgrees(d, p, q)
    ensures var d' := Quarantined(d, p, q);
            && RecoveryStopped(d, d', limit) && Retains(d, d', {p}) && MovesOnly(d, d', {p})
            && Dated(d, d', {p}, q.since)
  {
    QuarantineRetains(d, limit, p, q);
    QuarantineDates(d, p, q);
    RetainsQuarantine(d, Quarantined(d, p, q), {p});
    RecordSafe(d, limit, p, q);
    MoveKeeps(Recorded(d, p, q), limit, p);
    RenamedPending(Recorded(d, p, q), p);
    QuarantineOwes(d, limit, p, q);
  }

  lemma QuarantineDates(d: Disk, p: Path, q: Record)
    requires d.WellFormed() && p in d.tree && p.IsRetained()
    ensures Dated(d, Quarantined(d, p, q), {p}, q.since)
  {
    assert DatedAs(d, Quarantined(d, p, q), p, q.since);
  }

  lemma RetainsQuarantine(d: Disk, d': Disk, moved: set<Path>)
    requires Retains(d, d', moved) && forall p :: p in moved ==> p.IsRetained()
    ensures KeepsQuarantine(d, d')
  {
  }

  lemma QuarantineRetains(d: Disk, limit: nat, p: Path, q: Record)
    requires Inv(d, limit) && p in d.tree && p.IsRetained() && q.original == p && RecordAgrees(d, p, q)
    ensures var d' := Quarantined(d, p, q);
            d'.WellFormed() && Retains(d, d', {p}) && SameObjects(d, d')
  {
    NotYetRetained(d, limit, p);
    RecordSafe(d, limit, p, q);
    RecordedShape(d, p, q);
    QuarantineMoves(d, Recorded(d, p, q), limit, p);
  }

  lemma QuarantineOwes(d: Disk, limit: nat, p: Path, q: Record)
    requires Inv(d, limit) && p in d.tree && p.IsRetained() && q.original == p && RecordAgrees(d, p, q)
    requires Quarantined(d, p, q).WellFormed()
    ensures MovesOnly(d, Quarantined(d, p, q), {p})
  {
    RecordOwes(d, limit, p, q);
    MoveOwesNoMore(Recorded(d, p, q), limit, p);
    JobLeaves(Recorded(d, p, q), p);
  }

  /** Recording a job's file takes up the reserve its record was owed. */
  lemma RecordOwes(d: Disk, limit: nat, p: Path, q: Record)
    requires Inv(d, limit) && p in d.tree && p.IsRetained() && q.original == p && RecordAgrees(d, p, q)
    ensures var e := Recorded(d, p, q);
            && Inv(e, limit) && p in e.tree && Metadata(p) in e.tree && Jobs(e) == Jobs(d)
            && Liability(e) <= Liability(d) + (if p.JobFile? then RECORD_ALLOWANCE else 0)
            && FileLiability(e) <= FileLiability(d) + (if p.JobFile? then 1 else 0)
  {
    RecordSafe(d, limit, p, q);
  }

  lemma MoveKeeps(e: Disk, limit: nat, p: Path)
    requires Inv(e, limit) && p in e.tree && p.IsRetained() && Metadata(p) in e.tree
    ensures Inv(Renamed(e, p, Binary(p)), limit)
  {
    MoveToQuarantine(e, limit, p);
  }

  /** Moving a recorded file owes nothing new. */
  lemma MoveOwesNoMore(e: Disk, limit: nat, p: Path)
    requires Inv(e, limit) && p in e.tree && p.IsRetained() && Metadata(p) in e.tree
    requires Renamed(e, p, Binary(p)).WellFormed()
    ensures var d' := Renamed(e, p, Binary(p));
            && Liability(d') + (if p.JobFile? then RECORD_ALLOWANCE else 0) == Liability(e)
            && FileLiability(d') + (if p.JobFile? then 1 else 0) == FileLiability(e)
  {
    MoveToQuarantine(e, limit, p);
    JobLeaves(e, p);
  }

  lemma JobLeaves(e: Disk, p: Path)
    requires p in e.tree && p.IsRetained()
    ensures var d' := Renamed(e, p, Binary(p));
            Jobs(d') == Jobs(e) - {p} && |Jobs(d')| == |Jobs(e)| - (if p.JobFile? then 1 else 0)
  {
    assert Jobs(Renamed(e, p, Binary(p))) == Jobs(e) - {p};
    assert p.JobFile? ==> p in Jobs(e);
  }

  lemma QuarantineMoves(d: Disk, e: Disk, limit: nat, p: Path)
    requires d.WellFormed() && Inv(e, limit) && SameObjects(d, e) && p in d.tree && p.IsRetained()
    requires e.stores == d.stores && (e.tree == d.tree || e.tree == d.tree[Metadata(p) := d.next])
    requires p in e.tree && Metadata(p) in e.tree && e.At(Metadata(p)).RecordDoc?
    requires RecordAgrees(d, p, e.At(Metadata(p)).record)
    requires Metadata(p) in d.tree ==> e.tree == d.tree
    requires Binary(p) !in d.tree
    ensures Renamed(e, p, Binary(p)).WellFormed() && Retains(d, Renamed(e, p, Binary(p)), {p})
    ensures SameObjects(d, Renamed(e, p, Binary(p)))
  {
    DrawnAgain(e, p);
    RecordedRetains(d, e, p);
  }

  lemma DrawnAgain(e: Disk, p: Path)
    requires e.WellFormed() && p in e.tree
    ensures Renamed(e, p, Binary(p)).WellFormed()
  {
  }

  lemma RenamedPending(e: Disk, p: Path)
    requires p in e.tree && p != PendingFile
    ensures PendingOf(Renamed(e, p, Binary(p))) == PendingOf(e)
  {
  }

  /** Where a quarantine can stop: before its record, while writing it, or before the move. */
  ghost predicate QuarantineStopped(d: Disk, d': Disk, p: Path, q: Record) {
    d' == Recorded(d, p, q) || Interrupted(d, d', QuarantineTemp(d.next), RecordDoc(q))
  }

  lemma StoppedKeepsQuarantine(d: Disk, d': Disk, p: Path, q: Record)
    requires QuarantineStopped(d, d', p, q)
    ensures KeepsQuarantine(d, d')
  {
  }

  lemma StoppedSafe(d: Disk, d': Disk, limit: nat, p: Path, q: Record)
    requires Inv(d, limit) && p in d.tree && p.IsRetained() && q.original == p && RecordAgrees(d, p, q)
    requires QuarantineStopped(d, d', p, q)
    ensures Inv(d', limit) && SameObjects(d, d') && PendingOf(d') == PendingOf(d) && Jobs(d') == Jobs(d)
    ensures KeepsQuarantine(d, d')
    ensures Liability(d') <= Liability(d) + 2 * RECORD_ALLOWANCE
    ensures FileLiability(d') <= FileLiability(d) + 2
  {
    StoppedKeepsQuarantine(d, d', p, q);
    if d' == Recorded(d, p, q) {
      RecordSafe(d, limit, p, q);
    } else {
      ReservedBounded(d, limit, p);
      RecordFits(q);
      InterruptedWrite(d, d', limit, QuarantineTemp(d.next), RecordDoc(q));
    }
  }

  /** Nothing in a reachable state stands in the way of a quarantine. */
  predicate Quarantinable(d: Disk, p: Path, q: Record)
    requires d.tree.Keys >= {p} && d.tree[p] in d.files
    requires Metadata(p) in d.tree ==> d.tree[Metadata(p)] in d.files
  {
    && d.At(p).Size() <= MAX_RAW_BYTES && Binary(p) !in d.tree
    && (Metadata(p) in d.tree ==>
          d.At(Metadata(p)).RecordDoc? && d.At(Metadata(p)).record.(since := q.since) == q)
  }

  lemma ReachableIsQuarantinable(d: Disk, limit: nat, p: Path, q: Record)
    requires Inv(d, limit) && p in d.tree && p.IsRetained() && q.original == p && RecordAgrees(d, p, q)
    ensures Quarantinable(d, p, q)
  {
    ReservedBounded(d, limit, p);
    NotYetRetained(d, limit, p);
    if Metadata(p) in d.tree {
      assert LinkOk(d, Metadata(p));
    }
  }

  function Filled(d: Disk, p: Path, c: Content): Disk
    requires p in d.tree
  {
    d.(files := d.files[d.tree[p] := c])
  }

  lemma FilledPlaced(d: Disk, p: Path, part: Content, c: Content)
    ensures Filled(Placed(d, p, part), p, c) == Placed(d, p, c)
  {
  }

  lemma RenamedPlaced(d: Disk, p: Path, q: Path, c: Content)
    requires p !in d.tree && p != q
    ensures Renamed(Placed(d, p, c), p, q) == Placed(d, q, c)
  {
    assert (d.tree[p := d.next] - {p})[q := d.next] == d.tree[q := d.next];
  }

  lemma ObjectsStay(d: Disk, e: Disk, f: Disk)
    requires SameObjects(d, e) && SameObjects(e, f)
    ensures SameObjects(d, f)
  {
  }

  lemma RetainsMore(d: Disk, e: Disk, f: Disk, moved: set<Path>, more: set<Path>)
    requires Retains(d, e, moved) && Retains(e, f, more) && PendingOf(d) == PendingOf(e)
    requires more <= d.tree.Keys - moved
    requires forall p :: p in moved + more ==> p.IsRetained()
    ensures Retains(d, f, moved + more)
  {
    forall p | p in moved + more
      ensures Moved(d, f, p)
    {
      if p in moved {
        assert Moved(d, e, p);
        MovedStays(d, e, f, more, p);
      } else {
        assert Moved(e, f, p);
        MovedLater(d, e, f, moved, p);
      }
    }
  }

  lemma MovedStays(d: Disk, e: Disk, f: Disk, more: set<Path>, p: Path)
    requires Moved(d, e, p) && Retains(e, f, more) && p.IsRetained()
    requires forall x :: x in more ==> x.IsRetained()
    ensures Moved(d, f, p)
  {
    assert p !in f.tree;
    assert Metadata(p) !in more && Binary(p) !in more;
  }

  lemma MovedLater(d: Disk, e: Disk, f: Disk, moved: set<Path>, p: Path)
    requires Retains(d, e, moved) && Moved(e, f, p) && PendingOf(d) == PendingOf(e)
    requires p in d.tree && p !in moved
    ensures Moved(d, f, p)
  {
  }

  /** A recovery that crashed can be run again. */
  ghost predicate RecoveryStopped(d: Disk, d': Disk, limit: nat) {
    && Inv(d, limit) && Inv(d', limit) && SameObjects(d, d') && PendingOf(d') == PendingOf(d)
    && KeepsQuarantine(d, d')
  }

  /** How far a recovery of `d` has come once it has moved `moved`. */
  ghost predicate Progress(d: Disk, d': Disk, limit: nat, moved: set<Path>, wall: Nanos) {
    RecoveryStopped(d, d', limit) && Retains(d, d', moved) && MovesOnly(d, d', moved) && Dated(d, d', moved, wall)
  }

  /** Only files that may be retained have moved, and no more is owed than before. */
  ghost predicate MovesOnly(d: Disk, d': Disk, moved: set<Path>)
    requires d.WellFormed() && d'.WellFormed()
  {
    && (forall p :: p in moved ==> p.IsRetained()) && Jobs(d') == Jobs(d) - moved
    && Liability(d') <= Liability(d) && FileLiability(d') <= FileLiability(d)
  }

  /** What a crash in the middle of the next quarantine adds to that. */
  ghost predicate Stopped(d: Disk, d': Disk, limit: nat, moved: set<Path>) {
    && Inv(d, limit) && Inv(d', limit) && SameObjects(d, d') && PendingOf(d') == PendingOf(d)
    && KeepsQuarantine(d, d')
    && Jobs(d) - moved <= Jobs(d') <= Jobs(d)
    && Liability(d') <= Liability(d) + 2 * RECORD_ALLOWANCE && FileLiability(d') <= FileLiability(d) + 2
  }

  lemma NoProgress(d: Disk, limit: nat, wall: Nanos)
    requires Inv(d, limit)
    ensures Progress(d, d, limit, {}, wall)
  {
  }

  /** The next file to move is still where it was, under the reserve it had. */
  lemma NextFile(d: Disk, e: Disk, limit: nat, moved: set<Path>, p: Path, wall: Nanos)
    requires Progress(d, e, limit, moved, wall) && p in d.tree && p !in moved && p.IsRetained()
    ensures p in e.tree && e.At(p) == d.At(p) && Reserved(e, p) == Reserved(d, p)
  {
  }

  lemma ProgressStep(d: Disk, e: Disk, limit: nat, moved: set<Path>, p: Path, q: Record)
    requires Progress(d, e, limit, moved, q.since) && p in d.tree && p !in moved && p.IsRetained()
    requires p in e.tree && q.original == p && RecordAgrees(e, p, q)
    ensures Progress(d, Quarantined(e, p, q), limit, moved + {p}, q.since)
  {
    QuarantineSafe(e, limit, p, q);
    ProgressThen(d, e, Quarantined(e, p, q), limit, moved, p, q.since);
  }

  lemma ProgressThen(d: Disk, e: Disk, f: Disk, limit: nat, moved: set<Path>, p: Path, wall: Nanos)
    requires Progress(d, e, limit, moved, wall) && p in d.tree && p !in moved && p.IsRetained()
    requires RecoveryStopped(e, f, limit) && Retains(e, f, {p}) && MovesOnly(e, f, {p}) && Dated(e, f, {p}, wall)
    ensures Progress(d, f, limit, moved + {p}, wall)
  {
    StillStopped(d, e, f, limit);
    RetainsOneMore(d, e, f, moved, p);
    MovesOneMore(d, e, f, moved, p);
    DatedOneMore(d, e, f, moved, p, wall);
  }

  lemma DatedOneMore(d: Disk, e: Disk, f: Disk, moved: set<Path>, p: Path, wall: Nanos)
    requires Retains(d, e, moved) && Dated(d, e, moved, wall) && Retains(e, f, {p}) && Dated(e, f, {p}, wall)
    requires p in d.tree && p !in moved && p.IsRetained() && forall y :: y in moved ==> y.IsRetained()
    ensures Dated(d, f, moved + {p}, wall)
  {
    forall x | x in moved + {p}
      ensures DatedAs(d, f, x, wall)
    {
      if x in moved {
        assert DatedAs(d, e, x, wall);
        DatedStays(d, e, f, x, p, wall);
      } else {
        assert DatedAs(e, f, x, wall);
        DatedLater(d, e, f, moved, x, wall);
      }
    }
  }

  lemma DatedStays(d: Disk, e: Disk, f: Disk, x: Path, p: Path, wall: Nanos)
    requires DatedAs(d, e, x, wall) && Retains(e, f, {p}) && p.IsRetained()
    ensures DatedAs(d, f, x, wall)
  {
    assert Metadata(x) !in {p};
  }

  lemma DatedLater(d: Disk, e: Disk, f: Disk, moved: set<Path>, x: Path, wall: Nanos)
    requires Retains(d, e, moved) && DatedAs(e, f, x, wall) && x !in moved
    requires forall y :: y in moved ==> y.IsRetained()
    ensures DatedAs(d, f, x, wall)
  {
    assert Metadata(x) !in moved;
    assert Metadata(x) in d.tree <==> Metadata(x) in e.tree;
  }

  lemma StillStopped(d: Disk, e: Disk, f: Disk, limit: nat)
    requires RecoveryStopped(d, e, limit) && RecoveryStopped(e, f, limit)
    ensures RecoveryStopped(d, f, limit)
  {
    ObjectsStay(d, e, f);
  }

  lemma MovesOneMore(d: Disk, e: Disk, f: Disk, moved: set<Path>, p: Path)
    requires d.WellFormed() && e.WellFormed() && f.WellFormed()
    requires MovesOnly(d, e, moved) && MovesOnly(e, f, {p}) && p.IsRetained()
    ensures MovesOnly(d, f, moved + {p})
  {
    MinusBoth(Jobs(d), moved, p);
  }

  lemma RetainsOneMore(d: Disk, e: Disk, f: Disk, moved: set<Path>, p: Path)
    requires Retains(d, e, moved) && Retains(e, f, {p}) && PendingOf(d) == PendingOf(e)
    requires p in d.tree && p !in moved && p.IsRetained() && forall x :: x in moved ==> x.IsRetained()
    ensures Retains(d, f, moved + {p})
  {
    RetainsMore(d, e, f, moved, {p});
  }

  lemma MinusBoth<T>(a: set<T>, b: set<T>, x: T)
    ensures a - b - {x} == a - (b + {x})
  {
  }

  lemma StoppedStep(d: Disk, e: Disk, f: Disk, limit: nat, moved: set<Path>, p: Path, q: Record, wall: Nanos)
    requires Progress(d, e, limit, moved, wall) && p in e.tree && p.IsRetained()
    requires q.original == p && RecordAgrees(e, p, q) && QuarantineStopped(e, f, p, q)
    ensures Stopped(d, f, limit, moved)
  {
    StoppedSafe(e, f, limit, p, q);
    ObjectsStay(d, e, f);
  }

  /** The files one directory pass of a recovery picks up. */
  datatype Pass = StoresPass | RootPass | QuarantinePass | JobsPass

  predicate Picks(pass: Pass, p: Path, now: Moment) {
    match pass
    case StoresPass => p.StoreTemp?
    case RootPass => p.RootTemp?
    case QuarantinePass => p.QuarantineTemp?
    case JobsPass => p.JobTemp? || Lapsed(p, now)
  }

  function Found(d: Disk, pass: Pass, now: Moment): set<Path> {
    set p | p in d.tree && Picks(pass, p, now)
  }

  lemma FoundUnchanged(d: Disk, e: Disk, limit: nat, moved: set<Path>, pass: Pass, now: Moment)
    requires Progress(d, e, limit, moved, now.wall) && forall p :: p in moved ==> !Picks(pass, p, now)
    ensures Found(e, pass, now) == Found(d, pass, now)
  {
    FoundRetained(d, e, moved, pass, now);
  }

  lemma FoundRetained(d: Disk, e: Disk, moved: set<Path>, pass: Pass, now: Moment)
    requires Retains(d, e, moved) && forall p :: p in moved ==> !Picks(pass, p, now)
    ensures Found(e, pass, now) == Found(d, pass, now)
  {
    forall p | Picks(pass, p, now)
      ensures p in e.tree <==> p in d.tree
    {
      assert !p.Binary? && !p.Metadata?;
    }
  }

  lemma AllFound(d: Disk, now: Moment)
    ensures var a, b := Found(d, StoresPass, now), Found(d, RootPass, now);
            var c, e := Found(d, QuarantinePass, now), Found(d, JobsPass, now);
            Work(d, now) == a + b + c + e && |Work(d, now)| == |a| + |b| + |c| + |e|
  {
    var a, b := Found(d, StoresPass, now), Found(d, RootPass, now);
    var c, e := Found(d, QuarantinePass, now), Found(d, JobsPass, now);
    WorkIsFound(d, now);
    DisjointSizes(a, b, c, e);
  }

  lemma WorkIsFound(d: Disk, now: Moment)
    ensures var a, b := Found(d, StoresPass, now), Found(d, RootPass, now);
            var c, e := Found(d, QuarantinePass, now), Found(d, JobsPass, now);
            Work(d, now) == a + b + c + e && a !! b !! c !! e
  {
  }

  /** No pass finds what an earlier one has moved. */
  lemma EarlierPasses(d: Disk, now: Moment)
    ensures var a, b, c := Found(d, StoresPass, now), Found(d, RootPass, now), Found(d, QuarantinePass, now);
            && a + b + c <= Work(d, now)
            && (forall p :: p in a ==> !Picks(RootPass, p, now))
            && (forall p :: p in a + b ==> !Picks(QuarantinePass, p, now))
            && (forall p :: p in a + b + c ==> !Picks(JobsPass, p, now))
  {
  }

  lemma DisjointSizes<T>(a: set<T>, b: set<T>, c: set<T>, e: set<T>)
    requires a !! b !! c !! e
    ensures |a + b + c + e| == |a| + |b| + |c| + |e|
  {
    assert |a + b| == |a| + |b| && |a + b + c| == |a + b| + |c|;
  }

  /** A completed recovery: everything it found is in quarantine and the reservation is gone. */
  ghost predicate Recovered(d: Disk, d': Disk, limit: nat, now: Moment) {
    && Inv(d, limit) && Inv(d', limit) && SameObjects(d, d')
    && Settled(d') && LapsedJobs(d', now) == {}
    && Dated(d, d', Work(d, now), now.wall) && KeepsQuarantine(d, d')
    && (exists e :: Retains(d, e, Work(d, now)) && d' == Unlinked(e, PendingFile))
  }

  /** A completed recovery has filed what it found and left every other file where it was. */
  lemma RecoveredFiles(d: Disk, d': Disk, limit: nat, now: Moment, p: Path)
    requires Recovered(d, d', limit, now) && p in d.tree && p != PendingFile
    ensures p in Work(d, now) ==> Filed(d, d', p, now.wall)
    ensures p !in Work(d, now) ==> p in d'.tree && d'.tree[p] == d.tree[p]
  {
    var e :| Retains(d, e, Work(d, now)) && d' == Unlinked(e, PendingFile);
    if p in Work(d, now) {
      assert Moved(d, e, p);
      assert DatedAs(d, d', p, now.wall);
    }
  }

  /** A recovery costs nothing, but for one record and its temporary that a crash leaves outstanding. */
  ghost predicate Carries(d: Disk, d': Disk, now: Moment, crashed: bool)
    requires d.WellFormed() && d'.WellFormed()
  {
    var busy := if crashed && Work(d, now) != {} then 2 else 0;
    && Jobs(d) - LapsedJobs(d, now) <= Jobs(d') <= Jobs(d)
    && Liability(d') <= Liability(d) + RECORD_ALLOWANCE * busy && FileLiability(d') <= FileLiability(d) + busy
  }

  lemma RecoveryEnds(d: Disk, e: Disk, limit: nat, now: Moment)
    requires Progress(d, e, limit, Work(d, now), now.wall)
    ensures Recovered(d, Unlinked(e, PendingFile), limit, now)
    ensures Carries(d, Unlinked(e, PendingFile), now, false)
    ensures PendingFile !in e.tree ==> Unlinked(e, PendingFile) == e
  {
    LapsedIsWork(d, now);
    NothingLeft(d, e, limit, now);
    PendingLast(e, limit);
    var f := Unlinked(e, PendingFile);
    assert LapsedJobs(f, now) == {};
    PendingIsNoObject(d, e, f);
    PendingHasNoDate(d, e, Work(d, now), now.wall);
  }

  lemma PendingLast(e: Disk, limit: nat)
    requires Inv(e, limit) && forall p :: p in e.tree ==> !p.IsTemp()
    ensures var f := Unlinked(e, PendingFile);
            && Inv(f, limit) && Settled(f) && Jobs(f) == Jobs(e)
            && Liability(f) == Liability(e) && FileLiability(f) == FileLiability(e)
    ensures PendingFile !in e.tree ==> Unlinked(e, PendingFile) == e
  {
    if PendingFile in e.tree {
      DropPending(e, limit);
      assert Jobs(Unlinked(e, PendingFile)) == Jobs(e);
    } else {
      assert e.tree - {PendingFile} == e.tree;
    }
  }

  lemma PendingIsNoObject(d: Disk, e: Disk, f: Disk)
    requires SameObjects(d, e) && f == Unlinked(e, PendingFile)
    ensures SameObjects(d, f)
  {
  }

  lemma PendingHasNoDate(d: Disk, e: Disk, moved: set<Path>, wall: Nanos)
    requires Dated(d, e, moved, wall)
    ensures Dated(d, Unlinked(e, PendingFile), moved, wall)
  {
    forall p | p in moved
      ensures DatedAs(d, Unlinked(e, PendingFile), p, wall)
    {
      assert DatedAs(d, e, p, wall);
    }
  }

  lemma NothingLeft(d: Disk, e: Disk, limit: nat, now: Moment)
    requires Progress(d, e, limit, Work(d, now), now.wall)
    ensures forall p :: p in e.tree ==> !p.IsTemp() && !Lapsed(p, now)
  {
    forall p | p in e.tree
      ensures !p.IsTemp() && !Lapsed(p, now)
    {
      if p.IsTemp() || Lapsed(p, now) {
        StayedBehind(d, e, Work(d, now), p);
      }
    }
  }

  lemma StayedBehind(d: Disk, e: Disk, moved: set<Path>, p: Path)
    requires Retains(d, e, moved) && p in e.tree && !p.Binary? && !p.Metadata?
    ensures p in d.tree && p !in moved
  {
    assert p in moved ==> Moved(d, e, p);
  }

  lemma StoppedRecovery(d: Disk, e: Disk, limit: nat, moved: set<Path>, now: Moment)
    requires Stopped(d, e, limit, moved) && moved <= Work(d, now) && moved != {}
    ensures RecoveryStopped(d, e, limit) && Carries(d, e, now, true)
  {
    LapsedIsWork(d, now);
  }

  lemma LapsedIsWork(d: Disk, now: Moment)
    ensures Jobs(d) - Work(d, now) == Jobs(d) - LapsedJobs(d, now)
  {
  }

  lemma FoundIsWork(d: Disk, pass: Pass, now: Moment)
    ensures Found(d, pass, now) <= Work(d, now)
  {
  }

  lemma EndStopped(d: Disk, e: Disk, limit: nat, now: Moment)
    requires Progress(d, e, limit, Work(d, now), now.wall)
    ensures RecoveryStopped(d, e, limit) && Carries(d, e, now, true)
  {
    LapsedIsWork(d, now);
  }

  lemma OneMore(past: set<Path>, left: set<Path>, p: Path)
    requires p in left && past !! left
    ensures (past + {p}) + (left - {p}) == past + left && past + {p} !! left - {p}
    ensures |past + {p}| == |past| + 1 && |left - {p}| == |left| - 1
  {
  }

  lemma StoppedLater(d: Disk, e: Disk, limit: nat, past: set<Path>, all: set<Path>)
    requires Stopped(d, e, limit, past) && past <= all
    ensures Stopped(d, e, limit, all)
  {
  }

  lemma FreshName(d: Disk, p: Path)
    requires d.WellFormed() && !p.Drawn(d.next)
    ensures p !in d.tree
  {
  }

  lemma SettledHasNoWork(d: Disk, now: Moment)
    ensures Settled(d) && LapsedJobs(d, now) == {} ==> Work(d, now) == {} && PendingOf(d) == None
  {
    assert forall p :: p in d.tree && Lapsed(p, now) ==> p in LapsedJobs(d, now);
  }

  lemma PendingIsThere(d: Disk, limit: nat)
    requires Inv(d, limit)
    ensures PendingFile in d.tree <==> PendingOf(d).Some?
  {
    if PendingFile in d.tree {
      assert LinkOk(d, PendingFile);
    }
  }
}
