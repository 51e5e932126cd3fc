/** Stores, jobs and the purge of expired quarantine: the edits beside publication. */
module PoolUpkeep {
  import opened Wrappers
  import opened LinkAccounting
  import opened Disk
  import opened Decimals
  import opened PoolState
  import opened PoolRecovery
  import opened PoolPublication

  function WithStore(d: Disk, store: StoreId): Disk {
    d.(stores := d.stores + {store})
  }

  lemma StoreSafe(d: Disk, limit: nat, store: StoreId)
    requires Inv(d, limit)
    ensures var d' := WithStore(d, store);
            && Inv(d', limit) && SameObjects(d, d') && Jobs(d') == Jobs(d) && PendingOf(d') == PendingOf(d)
            && Bounded(d, d', limit, false)
  {
    var d' := WithStore(d, store);
    assert forall p :: p in d.tree ==> d'.At(p) == d.At(p);
    forall p | p in d'.tree
      ensures LinkOk(d', p) && Forecast(d', p) == Forecast(d, p)
    {
      StoreLink(d, limit, store, p);
    }
    assert Forecasts(d') == Forecasts(d);
    SameNames(d, d');
  }

  lemma StoreLink(d: Disk, limit: nat, store: StoreId, p: Path)
    requires Inv(d, limit) && p in d.tree
    ensures LinkOk(WithStore(d, store), p) && Forecast(WithStore(d, store), p) == Forecast(d, p)
  {
    assert LinkOk(d, p);
  }

  lemma SameNames(d: Disk, d': Disk)
    requires d'.tree == d.tree
    ensures Unrecorded(d') == Unrecorded(d) && Jobs(d') == Jobs(d)
  {
  }

  lemma InitialUsage(limit: nat, store: StoreId)
    requires 0 < limit <= MAX_EXPERIMENT_RAW_BYTES
    ensures var d := WithStore(Initial(limit), store); d.WellFormed() && RawUsage(d) <= 314
  {
    PowersOfTen();
    assert Power10(11) == 10 * Power10(10);
    DigitsWithin(limit, 11);
    var d := WithStore(Initial(limit), store);
    var charges, size := Charges(d), PolicyDoc(limit).Size();
    assert d.tree[PolicyFile] == 0 && charges[PolicyFile] == size;
    PeakUnique(d.tree, charges, 0, size);
    PeakUnique(d.tree, charges, 1, 0);
    assert Total(d.tree, charges, 1) == Total(d.tree, charges, 0) + Peak(d.tree, charges, 0);
    assert Total(d.tree, charges, 2) == Total(d.tree, charges, 1) + Peak(d.tree, charges, 1);
  }

  lemma InitialHasRoom(limit: nat, name: ArtifactName, payload: Payload)
    requires 10_000 <= limit <= MAX_EXPERIMENT_RAW_BYTES && RawSize(payload, name) == Some(1)
    ensures var d := WithStore(Initial(limit), "S"); d.WellFormed() && Admits(d, limit, Artifact("S", name), payload)
  {
    InitialUsage(limit, "S");
    ReservationFits(Reservation("S", name, 1, payload));
    assert |Initial(limit).tree| == 2;
  }

  /** One text byte in a frame of one byte more than the limit for stored bytes. */
  function LongFrame(): (payload: Payload)
    ensures |payload.bytes| == MAX_RAW_BYTES + 1
    ensures RawSize(payload, Object(ZERO_HASH, false, true)) == Some(1)
  {
    Blob(seq(MAX_RAW_BYTES + 1, i => 0), Some([0]))
  }

  /** A frame longer than the text it decodes to can be admitted; no recovery reads its reservation back. */
  lemma LongFrameIsAdmitted(limit: nat)
    requires 10_000 <= limit <= MAX_EXPERIMENT_RAW_BYTES
    ensures var d := WithStore(Initial(limit), "S");
            && Inv(d, limit) && Settled(d)
            && Admits(d, limit, Artifact("S", Object(ZERO_HASH, false, true)), LongFrame())
            && |LongFrame().bytes| > MAX_RAW_BYTES
  {
    InitialIsSound(limit);
    StoreSafe(Initial(limit), limit, "S");
    InitialHasRoom(limit, Object(ZERO_HASH, false, true), LongFrame());
  }

  /** What every operation but a publication keeps: the objects, the invariant and the bounds. */
  ghost predicate Kept(d: Disk, d': Disk, limit: nat, crashed: bool) {
    && Inv(d, limit) && Inv(d', limit) && SameObjects(d, d') && Bounded(d, d', limit, crashed)
    && (Readable(d) ==> Readable(d'))
  }

  lemma NothingBounded(d: Disk, limit: nat)
    requires Inv(d, limit)
    ensures Kept(d, d, limit, false)
  {
  }

  lemma SettledIsReadable(d: Disk)
    requires Settled(d)
    ensures Readable(d)
  {
  }

  /** A completed recovery, then one more edit of the recovered disk. */
  lemma KeptThen(d: Disk, e: Disk, f: Disk, limit: nat, crashed: bool, more: set<Path>)
    requires Kept(d, e, limit, false) && Jobs(e) <= Jobs(d)
    requires Inv(f, limit) && SameObjects(e, f) && PendingOf(f) == None && Jobs(f) <= Jobs(e) + more
    requires Bounded(e, f, limit, crashed)
    ensures Kept(d, f, limit, crashed) && Jobs(f) <= Jobs(d) + more
  {
    ObjectsStay(d, e, f);
    BoundedThen(d, e, f, limit, crashed);
  }

  lemma KeptStill(d: Disk, e: Disk, f: Disk, limit: nat, crashed: bool)
    requires Kept(d, e, limit, false) && Jobs(e) <= Jobs(d)
    requires Inv(f, limit) && SameObjects(e, f) && PendingOf(f) == None && Jobs(f) <= Jobs(e)
    requires Bounded(e, f, limit, crashed)
    ensures Kept(d, f, limit, crashed) && Jobs(f) <= Jobs(d)
  {
    KeptThen(d, e, f, limit, crashed, {});
  }

  // Jobs.

  /** What the admission of a job leaves room for: its arguments and the record it will need. */
  ghost predicate JobAdmitted(d: Disk, limit: nat, arguments: seq<Byte>) {
    && Inv(d, limit) && Settled(d) && 0 < |arguments| <= MAX_RAW_BYTES
    && RawUsage(d) + |arguments| + RECORD_ALLOWANCE <= limit && |d.tree| + 4 <= MAX_RESOURCE_FILES
  }

  lemma JobWritten(d: Disk, limit: nat, p: Path, arguments: seq<Byte>)
    requires JobAdmitted(d, limit, arguments) && p.JobFile? && p.id == d.next
    ensures var d' := Placed(d, p, JobDoc(arguments));
            && Inv(d', limit) && SameObjects(d, d') && Jobs(d') == Jobs(d) + {p} && p !in d.tree
            && Bounded(d, d', limit, false) && PendingOf(d') == None
  {
    var d' := Placed(d, p, JobDoc(arguments));
    SettledExposure(d);
    PlaceJob(d, limit, p, arguments);
    FreshName(d, p);
    JobCounts(d, d', p, arguments);
  }

  /** A name that a later disk has not drawn yet is new to this one as well. */
  lemma NewLater(d: Disk, e: Disk, p: Path)
    requires d.WellFormed() && d.next <= e.next && !p.Drawn(e.next)
    ensures p !in d.tree
  {
    DrawnLater(d, e.next);
  }

  lemma JobCounts(d: Disk, d': Disk, p: Path, arguments: seq<Byte>)
    requires d.WellFormed() && p !in d.tree && p.JobFile? && d' == Placed(d, p, JobDoc(arguments)) && Settled(d)
    ensures SameObjects(d, d') && Jobs(d') == Jobs(d) + {p} && |Jobs(d')| == |Jobs(d)| + 1 && PendingOf(d') == None
  {
    assert Jobs(d') == Jobs(d) + {p};
  }

  lemma JobStopped(d: Disk, d': Disk, limit: nat, arguments: seq<Byte>)
    requires JobAdmitted(d, limit, arguments) && Interrupted(d, d', JobTemp(d.next), JobDoc(arguments))
    ensures Inv(d', limit) && SameObjects(d, d') && Jobs(d') == Jobs(d)
    ensures Bounded(d, d', limit, true) && PendingOf(d') == None
  {
    SettledHasNoPending(d);
    InterruptedWrite(d, d', limit, JobTemp(d.next), JobDoc(arguments));
    AdmittedIsExposed(d, limit, arguments);
    JobInterruptedOwes(d, d', limit, arguments);
  }

  lemma AdmittedIsExposed(d: Disk, limit: nat, arguments: seq<Byte>)
    requires JobAdmitted(d, limit, arguments)
    ensures Exposure(d) + |arguments| + RECORD_ALLOWANCE <= limit && Headcount(d) + 4 <= MAX_RESOURCE_FILES
  {
    SettledExposure(d);
  }

  lemma JobInterruptedOwes(d: Disk, d': Disk, limit: nat, arguments: seq<Byte>)
    requires d.WellFormed() && d'.WellFormed() && Jobs(d') == Jobs(d)
    requires Exposure(d) + |arguments| + RECORD_ALLOWANCE <= limit && Headcount(d) + 4 <= MAX_RESOURCE_FILES
    requires Exposure(d') <= Exposure(d) + |arguments| + RECORD_ALLOWANCE && Headcount(d') <= Headcount(d) + 2
    ensures Bounded(d, d', limit, true)
  {
  }

  lemma LapsedIsFiled(d: Disk, e: Disk, limit: nat, now: Moment, job: Path)
    requires Recovered(d, e, limit, now) && job.JobFile? && job in d.tree && job !in e.tree
    ensures Filed(d, e, job, now.wall)
  {
    RecoveredFiles(d, e, limit, now, job);
  }

  /** A job that a recovery left in place is filed as if there had been no recovery. */
  lemma FiledAfterRecovery(d: Disk, e: Disk, f: Disk, limit: nat, now: Moment, job: Path)
    requires Recovered(d, e, limit, now) && job.JobFile? && job in d.tree && job in e.tree
    requires Filed(e, f, job, now.wall) && KeepsQuarantine(e, f)
    ensures Filed(d, f, job, now.wall)
  {
    RecoveredFiles(d, e, limit, now, job);
    assert job in Work(d, now) ==> Moved(d, e, job);
    NoRecordOfOthers(d, e, limit, now, job);
  }

  /** A recovery gives a record to no file that it leaves in place. */
  lemma NoRecordOfOthers(d: Disk, e: Disk, limit: nat, now: Moment, job: Path)
    requires Recovered(d, e, limit, now) && job in d.tree && job !in Work(d, now)
    ensures Metadata(job) in e.tree <==> Metadata(job) in d.tree
  {
    var f :| Retains(d, f, Work(d, now)) && e == Unlinked(f, PendingFile);
    assert Metadata(job) !in Work(d, now);
  }

  lemma NoWorseIsBounded(d: Disk, e: Disk, limit: nat, crashed: bool)
    requires d.WellFormed() && e.WellFormed()
    requires Liability(e) <= Liability(d) + (if crashed then 2 * RECORD_ALLOWANCE else 0)
    requires FileLiability(e) <= FileLiability(d) + (if crashed then 2 else 0)
    ensures Bounded(d, e, limit, crashed)
  {
  }

  /** Retiring moves the job's file; the record it needs was owed already. */
  lemma RetireSafe(d: Disk, limit: nat, p: Path, q: Record)
    requires Inv(d, limit) && Settled(d) && p in d.tree && p.JobFile? && q.original == p && RecordAgrees(d, p, q)
    ensures var d' := Quarantined(d, p, q);
            && Inv(d', limit) && SameObjects(d, d') && Jobs(d') == Jobs(d) - {p} && PendingOf(d') == None
            && Bounded(d, d', limit, false) && Filed(d, d', p, q.since) && KeepsQuarantine(d, d') && Settled(d')
  {
    SettledHasNoPending(d);
    QuarantineSafe(d, limit, p, q);
    NoWorseIsBounded(d, Quarantined(d, p, q), limit, false);
    assert Moved(d, Quarantined(d, p, q), p) && DatedAs(d, Quarantined(d, p, q), p, q.since);
    RetireSettles(d, p, q);
  }

  lemma RetireSettles(d: Disk, p: Path, q: Record)
    requires Settled(d) && p in d.tree && p.JobFile?
    ensures Settled(Quarantined(d, p, q))
  {
  }

  lemma RetireStopped(d: Disk, d': Disk, limit: nat, p: Path, q: Record)
    requires Inv(d, limit) && Settled(d) && p in d.tree && p.JobFile? && q.original == p && RecordAgrees(d, p, q)
    requires QuarantineStopped(d, d', p, q)
    ensures Inv(d', limit) && SameObjects(d, d') && Jobs(d') <= Jobs(d) && PendingOf(d') == None
    ensures Bounded(d, d', limit, true)
  {
    SettledHasNoPending(d);
    StoppedSafe(d, d', limit, p, q);
    NoWorseIsBounded(d, d', limit, true);
  }

  lemma SettledHasNoPending(d: Disk)
    requires Settled(d)
    ensures PendingOf(d) == None
  {
  }

  // Purging.

  /** The record has been kept for the whole retention time. */
  predicate Expired(d: Disk, m: Path, cutoff: int)
    requires m in d.tree && d.tree[m] in d.files
  {
    m.Metadata? && d.At(m).RecordDoc? && d.At(m).record.since <= cutoff
  }

  /** In quarantine, under a record that is younger than the cutoff. */
  predicate Young(d: Disk, p: Path, cutoff: int) {
    && p in d.tree && (p.Metadata? || p.Binary?)
    && Metadata(p.of) in d.tree && d.tree[Metadata(p.of)] in d.files
    && d.At(Metadata(p.of)).RecordDoc? && d.At(Metadata(p.of)).record.since > cutoff
  }

  /** Whatever is young is still there. */
  ghost predicate KeepsYoung(d: Disk, d': Disk, cutoff: int) {
    forall p {:trigger Young(d, p, cutoff)} :: Young(d, p, cutoff) ==> p in d'.tree && d'.tree[p] == d.tree[p]
  }

  lemma RecoveredYoung(d: Disk, e: Disk, p: Path, cutoff: int)
    requires KeepsQuarantine(d, e) && KeepsObjects(d, e) && Young(d, p, cutoff)
    ensures Young(e, p, cutoff) && e.tree[p] == d.tree[p]
  {
  }

  lemma YoungThrough(d: Disk, e: Disk, f: Disk, cutoff: int)
    requires KeepsQuarantine(d, e) && KeepsObjects(d, e) && KeepsYoung(e, f, cutoff)
    ensures KeepsYoung(d, f, cutoff)
  {
    forall p | Young(d, p, cutoff)
      ensures p in f.tree && f.tree[p] == d.tree[p]
    {
      RecoveredYoung(d, e, p, cutoff);
    }
  }

  /** Expired records and their files are all that a purge takes. */
  lemma PurgeKeepsYoung(d: Disk, gone: set<Path>, cutoff: int)
    requires d.WellFormed() && gone <= Purged(d, Records(d), cutoff)
    ensures KeepsYoung(d, Without(d, gone), cutoff)
  {
  }

  lemma PurgedGrows(d: Disk, some: set<Path>, all: set<Path>, cutoff: int)
    requires d.WellFormed() && some <= all <= Records(d)
    ensures Purged(d, some, cutoff) <= Purged(d, all, cutoff)
  {
  }

  function Records(d: Disk): set<Path> {
    set p | p in d.tree && p.Metadata?
  }

  /** The expired records among `records`, and the files they belong to. */
  ghost function Purged(d: Disk, records: set<Path>, cutoff: int): set<Path>
    requires d.WellFormed() && records <= Records(d)
  {
    set p | p in d.tree && (p.Metadata? || p.Binary?) && Metadata(p.of) in records && Expired(d, Metadata(p.of), cutoff)
  }

  function Without(d: Disk, gone: set<Path>): Disk {
    d.(tree := d.tree - gone)
  }

  /** Only quarantined files and their records are gone, each file no later than its record. */
  ghost predicate Purging(d: Disk, d': Disk, limit: nat, gone: set<Path>) {
    && Inv(d, limit) && Settled(d) && Inv(d', limit) && Settled(d') && d' == Without(d, gone)
    && (forall p :: p in gone ==> p in d.tree && (p.Metadata? || p.Binary?))
    && Exposure(d') <= Exposure(d) && |d'.tree| <= |d.tree|
  }

  lemma PurgeStarts(d: Disk, limit: nat, cutoff: int)
    requires Inv(d, limit) && Settled(d)
    ensures Purging(d, d, limit, {}) && Purged(d, {}, cutoff) == {}
  {
    assert d.tree - {} == d.tree;
  }

  lemma PurgeStep(d: Disk, e: Disk, limit: nat, gone: set<Path>, p: Path)
    requires Purging(d, e, limit, gone) && p in e.tree
    requires p.Binary? || (p.Metadata? && Binary(p.of) !in e.tree)
    ensures Purging(d, Unlinked(e, p), limit, gone + {p})
  {
    PurgeOne(e, limit, p);
    SettledExposure(e);
    SettledExposure(Unlinked(e, p));
    WithoutOneMore(d, gone, p);
  }

  lemma WithoutOneMore(d: Disk, gone: set<Path>, p: Path)
    ensures Unlinked(Without(d, gone), p) == Without(d, gone + {p})
  {
    assert d.tree - gone - {p} == d.tree - (gone + {p});
  }

  lemma PurgedNext(d: Disk, past: set<Path>, m: Path, cutoff: int)
    requires d.WellFormed() && past <= Records(d) && m in Records(d) && m !in past
    ensures var b := Binary(m.of);
            && (Expired(d, m, cutoff) ==>
                  Purged(d, past + {m}, cutoff) == Purged(d, past, cutoff) + (if b in d.tree then {b} else {}) + {m})
            && (!Expired(d, m, cutoff) ==> Purged(d, past + {m}, cutoff) == Purged(d, past, cutoff))
            && m !in Purged(d, past, cutoff) && b !in Purged(d, past, cutoff)
  {
  }

  /** One expired record and its file. */
  function Pair(d: Disk, m: Path): set<Path>
    requires m.Metadata?
  {
    (if Binary(m.of) in d.tree then {Binary(m.of)} else {}) + {m}
  }

  /** A purge between two records. */
  ghost predicate PurgedSoFar(d: Disk, d': Disk, limit: nat, past: set<Path>, left: set<Path>, gone: set<Path>, cutoff: int) {
    && Purging(d, d', limit, gone)
    && past + left == Records(d) && past !! left && gone == Purged(d, past, cutoff)
  }

  lemma OneRecordLess(all: set<Path>, past: set<Path>, left: set<Path>, m: Path)
    requires past + left == all && past !! left && m in left
    ensures past + {m} + (left - {m}) == all && past + {m} !! left - {m} && m in all && m !in past && past <= all
  {
  }

  lemma WithoutKeeps(d: Disk, gone: set<Path>, m: Path, cutoff: int)
    requires m in d.tree && d.tree[m] in d.files && m.Metadata? && m !in gone && Binary(m.of) !in gone
    ensures var d' := Without(d, gone);
            && m in d'.tree && d'.tree[m] in d'.files
            && Pair(d', m) == Pair(d, m) && Expired(d', m, cutoff) == Expired(d, m, cutoff)
  {
  }

  lemma StillThere(d: Disk, d': Disk, limit: nat, past: set<Path>, left: set<Path>, gone: set<Path>, cutoff: int, m: Path)
    requires PurgedSoFar(d, d', limit, past, left, gone, cutoff) && m in left
    ensures m in d'.tree && m.Metadata? && Pair(d', m) == Pair(d, m) && Expired(d', m, cutoff) == Expired(d, m, cutoff)
    ensures !Expired(d, m, cutoff) ==> PurgedSoFar(d, d', limit, past + {m}, left - {m}, gone, cutoff)
  {
    OneRecordLess(Records(d), past, left, m);
    PurgedNext(d, past, m, cutoff);
    WithoutKeeps(d, gone, m, cutoff);
  }

  lemma PairIsNext(d: Disk, past: set<Path>, m: Path, cutoff: int)
    requires d.WellFormed() && past <= Records(d) && m in Records(d) && m !in past && Expired(d, m, cutoff)
    ensures Purged(d, past + {m}, cutoff) == Purged(d, past, cutoff) + Pair(d, m)
  {
    PurgedNext(d, past, m, cutoff);
  }

  lemma PairAdds(d: Disk, gone: set<Path>, m: Path)
    requires m.Metadata?
    ensures gone + Pair(d, m) == (if Binary(m.of) in d.tree then gone + {Binary(m.of)} else gone) + {m}
  {
  }

  lemma PairPurged(d: Disk, e': Disk, limit: nat, past: set<Path>, left: set<Path>, gone: set<Path>, cutoff: int, m: Path)
    requires d.WellFormed() && past + left == Records(d) && past !! left && gone == Purged(d, past, cutoff)
    requires m in left && m.Metadata? && Expired(d, m, cutoff)
    requires Purging(d, e', limit, gone + Pair(d, m))
    ensures PurgedSoFar(d, e', limit, past + {m}, left - {m}, gone + Pair(d, m), cutoff)
  {
    OneRecordLess(Records(d), past, left, m);
    PairIsNext(d, past, m, cutoff);
  }

  lemma CrashedPurge(d: Disk, past: set<Path>, left: set<Path>, removed: set<Path>, gone: set<Path>, pair: set<Path>,
                     cutoff: int, m: Path)
    requires d.WellFormed() && past + left == Records(d) && past !! left && removed == Purged(d, past, cutoff)
    requires m in left && m.Metadata? && Expired(d, m, cutoff) && pair == Pair(d, m) && gone <= removed + pair
    ensures gone <= Purged(d, Records(d), cutoff)
  {
    OneRecordLess(Records(d), past, left, m);
    PairIsNext(d, past, m, cutoff);
    PurgedGrows(d, past + {m}, Records(d), cutoff);
  }

  lemma PurgeBegins(d: Disk, limit: nat, cutoff: int)
    requires Inv(d, limit) && Settled(d)
    ensures PurgedSoFar(d, d, limit, {}, Records(d), {}, cutoff)
  {
    PurgeStarts(d, limit, cutoff);
  }

  lemma PurgeEnds(d: Disk, d': Disk, limit: nat, past: set<Path>, gone: set<Path>, cutoff: int)
    requires PurgedSoFar(d, d', limit, past, {}, gone, cutoff)
    ensures gone == Purged(d, Records(d), cutoff) && d' == Without(d, gone)
  {
    assert past == Records(d);
  }

  lemma PurgedIsSafe(d: Disk, e: Disk, limit: nat, gone: set<Path>)
    requires Purging(d, e, limit, gone)
    ensures SameObjects(d, e) && Jobs(e) == Jobs(d) && PendingOf(e) == None && Bounded(d, e, limit, false)
  {
    assert Jobs(e) == Jobs(d);
    SettledExposure(d);
    SettledExposure(e);
  }
}
