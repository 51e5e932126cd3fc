/**
 One quota for all stores below a private root. Every system call may be the last
 one of its process: `fuel` counts the calls that are left before the crash, and a
 call that finds none returns `Crashed` with the disk as the previous call left it.
 The lock is exclusive and the system releases it at a crash.
 */
module ResourcePool {
  import opened Wrappers
  import opened LinkAccounting
  import opened Disk
  import opened PoolState
  import opened PoolRecovery
  import opened UsageAudit
  import opened PoolPublication
  import opened PoolUpkeep

  class LocalRobustnessResourcePool {
    var disk: Disk
    var fuel: nat
    const limit: nat

    /** A pool at the end of its first initialisation. */
    constructor (rawLimit: nat)
      requires 0 < rawLimit <= MAX_EXPERIMENT_RAW_BYTES
      ensures limit == rawLimit && disk == Initial(rawLimit) && Inv(disk, limit) && Settled(disk) && Jobs(disk) == {}
    {
      limit := rawLimit;
      disk := Initial(rawLimit);
      fuel := 0;
      InitialIsSound(rawLimit);
    }

    // System calls.

    method CreateFile(p: Path, whole: Content) returns (r: Outcome)
      requires p !in disk.tree
      modifies this
      ensures r.Done? ==> disk == Placed(old(disk), p, Torn(whole, 0))
      ensures r.Crashed? ==> disk == old(disk)
      ensures !r.Raised? && fuel + 1 >= old(fuel) && (old(fuel) >= 1 ==> r.Done?)
    {
      if fuel == 0 { return Crashed; }
      fuel := fuel - 1;
      disk := Placed(disk, p, Torn(whole, 0));
      return Done;
    }

    /** A crash during the write leaves any prefix of the document. */
    method WriteFile(p: Path, whole: Content) returns (r: Outcome)
      requires p in disk.tree
      modifies this
      ensures r.Done? ==> disk == Filled(old(disk), p, whole)
      ensures r.Crashed? ==> exists k :: 0 <= k <= whole.Size() && disk == Filled(old(disk), p, Torn(whole, k))
      ensures !r.Raised? && fuel + 1 >= old(fuel) && (old(fuel) >= 1 ==> r.Done?)
    {
      if fuel == 0 {
        var k: nat :| k <= whole.Size();
        disk := Filled(disk, p, Torn(whole, k));
        return Crashed;
      }
      fuel := fuel - 1;
      disk := Filled(disk, p, whole);
      return Done;
    }

    method Rename(p: Path, q: Path) returns (r: Outcome)
      requires p in disk.tree
      modifies this
      ensures r.Done? ==> disk == Renamed(old(disk), p, q)
      ensures r.Crashed? ==> disk == old(disk)
      ensures !r.Raised? && fuel + 1 >= old(fuel) && (old(fuel) >= 1 ==> r.Done?)
    {
      if fuel == 0 { return Crashed; }
      fuel := fuel - 1;
      disk := Renamed(disk, p, q);
      return Done;
    }

    method Link(p: Path, q: Path) returns (r: Outcome)
      requires p in disk.tree && q !in disk.tree
      modifies this
      ensures r.Done? ==> disk == Linked(old(disk), p, q)
      ensures r.Crashed? ==> disk == old(disk)
      ensures !r.Raised? && fuel + 1 >= old(fuel) && (old(fuel) >= 1 ==> r.Done?)
    {
      if fuel == 0 { return Crashed; }
      fuel := fuel - 1;
      disk := Linked(disk, p, q);
      return Done;
    }

    method Unlink(p: Path) returns (r: Outcome)
      requires p in disk.tree
      modifies this
      ensures r.Done? ==> disk == Unlinked(old(disk), p)
      ensures r.Crashed? ==> disk == old(disk)
      ensures !r.Raised? && fuel + 1 >= old(fuel) && (old(fuel) >= 1 ==> r.Done?)
    {
      if fuel == 0 { return Crashed; }
      fuel := fuel - 1;
      disk := Unlinked(disk, p);
      return Done;
    }

    /** Replaces a control document atomically; a crash leaves at most the temporary. */
    method WriteControl(temp: Path, destination: Path, doc: Content) returns (r: Outcome)
      requires disk.WellFormed() && temp !in disk.tree && temp != destination
      modifies this
      ensures r.Done? ==> disk == Placed(old(disk), destination, doc)
      ensures r.Crashed? ==> Interrupted(old(disk), disk, temp, doc)
      ensures r.Raised? <==> destination in old(disk).tree && old(disk).At(destination).Size() > MAX_RAW_BYTES
      ensures r.Raised? ==> disk == old(disk)
      ensures fuel + 3 >= old(fuel) && (old(fuel) >= 3 ==> !r.Crashed?)
    {
      if destination in disk.tree && disk.At(destination).Size() > MAX_RAW_BYTES {
        return Raised(FileTooLarge);
      }
      ghost var before := disk;
      :- CreateFile(temp, doc);
      r := WriteFile(temp, doc);
      if r.Crashed? {
        ghost var k :| 0 <= k <= doc.Size() && disk == Filled(Placed(before, temp, Torn(doc, 0)), temp, Torn(doc, k));
        FilledPlaced(before, temp, Torn(doc, 0), Torn(doc, k));
        return;
      }
      FilledPlaced(before, temp, Torn(doc, 0), doc);
      RenamedPlaced(before, temp, destination, doc);
      r := Rename(temp, destination);
    }

    /**
     Moves a file into quarantine under a record of its name, its reserve and its content.
     A record left by an interrupted attempt is kept when it says the same.
     */
    method Quarantine(p: Path, raw: nat, now: Moment) returns (r: Outcome)
      requires disk.WellFormed() && p in disk.tree && p.IsRetained()
      modifies this
      ensures var q := Record(p, raw, old(disk).At(p), now.wall);
              && (r.Done? ==> disk == Quarantined(old(disk), p, q))
              && (r.Crashed? ==> QuarantineStopped(old(disk), disk, p, q))
              && (r.Raised? ==> !Quarantinable(old(disk), p, q))
              && (!Quarantinable(old(disk), p, q) ==> !r.Done?)
      ensures fuel + 4 >= old(fuel) && (old(fuel) >= 4 ==> !r.Crashed?)
    {
      var record := Record(p, raw, disk.At(p), now.wall);
      if disk.At(p).Size() > MAX_RAW_BYTES {
        return Raised(FileTooLarge);
      }
      if Metadata(p) in disk.tree {
        var kept := disk.At(Metadata(p));
        if !(kept.RecordDoc? && kept.record.(since := now.wall) == record) {
          return Raised(QuarantineConflict);
        }
      } else {
        FreshName(disk, QuarantineTemp(disk.next));
        :- WriteControl(QuarantineTemp(disk.next), Metadata(p), RecordDoc(record));
      }
      if Binary(p) in disk.tree {
        return Raised(QuarantineConflict);
      }
      r := Rename(p, Binary(p));
    }
  
    /** Quarantines the next file a recovery of `start` finds, at the charge that is reserved for it. */
    method QuarantineFound(p: Path, pending: Option<Reservation>, now: Moment,
                           ghost start: Disk, ghost moved: set<Path>) returns (r: Outcome)
      requires Progress(start, disk, limit, moved, now.wall) && pending == PendingOf(start)
      requires p in start.tree && p !in moved && p.IsRetained()
      modifies this
      ensures !r.Raised?
      ensures r.Done? ==> Progress(start, disk, limit, moved + {p}, now.wall)
      ensures r.Crashed? ==> Stopped(start, disk, limit, moved)
      ensures fuel + 4 >= old(fuel) && (old(fuel) >= 4 ==> !r.Crashed?)
    {
      NextFile(start, disk, limit, moved, p, now.wall);
      var raw :=
        if p.StoreTemp? then
          if pending.Some? && pending.value.store == p.store then pending.value.raw else MAX_RAW_BYTES
        else disk.At(p).Size();
      ghost var q := Record(p, raw, disk.At(p), now.wall);
      ReachableIsQuarantinable(disk, limit, p, q);
      r := Quarantine(p, raw, now);
      if r.Done? {
        ProgressStep(start, old(disk), limit, moved, p, q);
      } else {
        StoppedStep(start, old(disk), disk, limit, moved, p, q, now.wall);
      }
    }

    /** One directory pass of a recovery, after the passes that moved `moved`. */
    method QuarantineEach(found: set<Path>, pending: Option<Reservation>, now: Moment,
                          ghost start: Disk, ghost moved: set<Path>) returns (r: Outcome)
      requires Progress(start, disk, limit, moved, now.wall) && pending == PendingOf(start)
      requires forall p :: p in found ==> p in start.tree && p !in moved && p.IsRetained()
      modifies this
      ensures !r.Raised?
      ensures r.Done? ==> Progress(start, disk, limit, moved + found, now.wall)
      ensures r.Crashed? ==> Stopped(start, disk, limit, moved + found)
      ensures found == {} ==> r.Done? && disk == old(disk)
      ensures r.Done? ==> fuel + 4 * |found| >= old(fuel)
      ensures old(fuel) >= 4 * |found| ==> r.Done?
    {
      var left := found;
      ghost var past := moved;
      while left != {}
        invariant past + left == moved + found && past !! left && moved !! found
        invariant |past| + |left| == |moved| + |found|
        invariant Progress(start, disk, limit, past, now.wall)
        invariant fuel + 4 * (|past| - |moved|) >= old(fuel)
        invariant left == found ==> disk == old(disk)
        decreases left
      {
        var p :| p in left;
        OneMore(past, left, p);
        r := QuarantineFound(p, pending, now, start, past);
        if !r.Done? {
          StoppedLater(start, disk, limit, past, moved + found);
          return;
        }
        past, left := past + {p}, left - {p};
      }
      return Done;
    }

    /** One of the four directory passes of a recovery of `start`. */
    method RunPass(pass: Pass, pending: Option<Reservation>, now: Moment,
                   ghost start: Disk, ghost moved: set<Path>, ghost all: set<Path>) returns (r: Outcome)
      requires Progress(start, disk, limit, moved, now.wall) && pending == PendingOf(start)
      requires all == moved + Found(start, pass, now)
      requires moved <= Work(start, now) && forall p :: p in moved ==> !Picks(pass, p, now)
      modifies this
      ensures !r.Raised?
      ensures r.Done? ==> Progress(start, disk, limit, all, now.wall)
      ensures r.Crashed? ==> RecoveryStopped(start, disk, limit) && Carries(start, disk, now, true)
      ensures Found(start, pass, now) == {} ==> r.Done? && disk == old(disk)
      ensures r.Done? ==> fuel + 4 * |Found(start, pass, now)| >= old(fuel)
      ensures old(fuel) >= 4 * |Found(start, pass, now)| ==> r.Done?
    {
      FoundUnchanged(start, disk, limit, moved, pass, now);
      var found := Found(disk, pass, now);
      r := QuarantineEach(found, pending, now, start, moved);
      if r.Crashed? {
        FoundIsWork(start, pass, now);
        StoppedRecovery(start, disk, limit, moved + found, now);
      }
    }

    /** The passes over the quarantine and the jobs, after those over the stores and the root. */
    method RunLaterPasses(pending: Option<Reservation>, now: Moment, ghost start: Disk, ghost moved: set<Path>) returns (r: Outcome)
      requires Progress(start, disk, limit, moved, now.wall) && pending == PendingOf(start)
      requires moved == Found(start, StoresPass, now) + Found(start, RootPass, now)
      modifies this
      ensures !r.Raised?
      ensures r.Done? ==> Progress(start, disk, limit, Work(start, now), now.wall)
      ensures r.Crashed? ==> RecoveryStopped(start, disk, limit) && Carries(start, disk, now, true)
      ensures Found(start, QuarantinePass, now) == Found(start, JobsPass, now) == {} ==> r.Done? && disk == old(disk)
      ensures r.Done? ==> fuel + 4 * (|Found(start, QuarantinePass, now)| + |Found(start, JobsPass, now)|) >= old(fuel)
      ensures old(fuel) >= 4 * (|Found(start, QuarantinePass, now)| + |Found(start, JobsPass, now)|) ==> r.Done?
    {
      EarlierPasses(start, now);
      WorkIsFound(start, now);
      ghost var most := moved + Found(start, QuarantinePass, now);
      :- RunPass(QuarantinePass, pending, now, start, moved, most);
      r := RunPass(JobsPass, pending, now, start, most, Work(start, now));
    }

    /** The four passes: stores, the root, the quarantine and the jobs. */
    method RunPasses(pending: Option<Reservation>, now: Moment) returns (r: Outcome)
      requires Inv(disk, limit) && pending == PendingOf(disk)
      modifies this
      ensures !r.Raised?
      ensures r.Done? ==> Progress(old(disk), disk, limit, Work(old(disk), now), now.wall)
      ensures r.Crashed? ==> RecoveryStopped(old(disk), disk, limit) && Carries(old(disk), disk, now, true)
      ensures Work(old(disk), now) == {} ==> r.Done? && disk == old(disk)
      ensures r.Done? ==> fuel + 4 * |Work(old(disk), now)| >= old(fuel)
      ensures old(fuel) >= 4 * |Work(old(disk), now)| ==> r.Done?
    {
      ghost var start := disk;
      NoProgress(disk, limit, now.wall);
      AllFound(start, now);
      EarlierPasses(start, now);
      ghost var a := Found(start, StoresPass, now);
      ghost var some := a + Found(start, RootPass, now);
      :- RunPass(StoresPass, pending, now, start, {}, a);
      :- RunPass(RootPass, pending, now, start, a, some);
      r := RunLaterPasses(pending, now, start, some);
    }

    /** Recomputes the directory from its files: interrupted writers first, the reservation last. */
    method Reconcile(now: Moment) returns (r: Outcome)
      requires Inv(disk, limit)
      modifies this
      ensures r.Done? ==> Readable(old(disk)) && Recovered(old(disk), disk, limit, now)
      ensures r.Crashed? ==> Readable(old(disk)) && RecoveryStopped(old(disk), disk, limit)
      ensures !r.Raised? ==> Carries(old(disk), disk, now, r.Crashed?) && KeepsQuarantine(old(disk), disk)
      ensures r.Raised? ==> r == Raised(PendingInvalid) && !Readable(old(disk)) && disk == old(disk)
      ensures Settled(old(disk)) && LapsedJobs(old(disk), now) == {} ==> r.Done? && disk == old(disk)
      ensures old(fuel) > 4 * |Work(old(disk), now)| ==> !r.Crashed?
      ensures r.Done? ==> fuel + 4 * |Work(old(disk), now)| + 1 >= old(fuel)
    {
      var pending := PendingOf(disk);
      if pending.Some? && |pending.value.payload.bytes| > MAX_RAW_BYTES {
        return Raised(PendingInvalid);
      }
      SettledHasNoWork(disk, now);
      :- RunPasses(pending, now);
      RecoveryEnds(old(disk), disk, limit, now);
      EndStopped(old(disk), disk, limit, now);
      PendingIsThere(disk, limit);
      if pending.Some? {
        r := Unlink(PendingFile);
      } else {
        r := Done;
      }
    }

    /** Accounts every file once per inode, in whatever order the directories list them. */
    method Usage() returns (r: Outcome, usage: Tally)
      requires disk.WellFormed()
      ensures !r.Crashed?
      ensures r.Done? <==> |disk.tree| <= MAX_RESOURCE_FILES && Audited(disk, disk.tree.Keys)
      ensures r.Done? ==>
                && usage.raw == RawUsage(disk) && usage.physical == PhysicalUsage(disk)
                && usage.files == |disk.tree|
                && usage.quarantined == |Binaries(disk.tree)|
    {
      var d := disk;
      var left := d.tree.Keys;
      var accounted: map<nat, (nat, nat)> := map[];
      usage := Tally(0, 0, 0, 0);
      AuditStarts(d);
      while left != {}
        invariant Auditing(d, left, accounted, usage) && usage.files <= MAX_RESOURCE_FILES
        decreases left
      {
        var p :| p in left;
        if !Auditable(d, p) {
          return Raised(AuditCode(d, p)), usage;
        }
        AuditStep(d, left, accounted, usage, p);
        var inode, charge, size := d.tree[p], Charge(d, p), d.At(p).Size();
        left := left - {p};
        usage, accounted := Charged(accounted, usage, inode, charge, size, p.Binary?),
                            Remembered(accounted, inode, charge, size);
        if usage.files > MAX_RESOURCE_FILES {
          AuditCounts(d, left, accounted, usage);
          return Raised(FileCountExceeded), usage;
        }
      }
      AuditEnds(d, accounted, usage);
      return Done, usage;
    }

    /** The link-based writer of the stores: the object appears under its name complete or not at all. */
    method PublishFile(store: StoreId, name: ArtifactName, payload: Payload) returns (r: Outcome)
      requires disk.WellFormed()
      modifies this
      ensures r.Done? ==>
                var a := Artifact(store, name);
                && 0 < |payload.bytes| <= MAX_RAW_BYTES
                && if a in old(disk).tree then
                     disk == old(disk) && disk.At(a).ArtifactBytes? && disk.At(a).payload.bytes == payload.bytes
                   else
                     disk == Published(old(disk), store, name, payload)
      ensures r.Crashed? ==>
                && 0 < |payload.bytes| <= MAX_RAW_BYTES && Artifact(store, name) !in old(disk).tree
                && PublicationStopped(old(disk), disk, store, name, payload)
      ensures r.Raised? ==> disk == old(disk)
      ensures r == Raised(ArtifactSizeLimit) <==> !(0 < |payload.bytes| <= MAX_RAW_BYTES)
      ensures r == Raised(ArtifactConflict) <==>
                && 0 < |payload.bytes| <= MAX_RAW_BYTES && Artifact(store, name) in old(disk).tree
                && !(old(disk).At(Artifact(store, name)).ArtifactBytes?
                     && old(disk).At(Artifact(store, name)).payload.bytes == payload.bytes)
      ensures r.Raised? ==> r.code in {ArtifactSizeLimit, ArtifactConflict}
      ensures fuel + 4 >= old(fuel) && (old(fuel) >= 4 ==> !r.Crashed?)
    {
      var a := Artifact(store, name);
      if !(0 < |payload.bytes| <= MAX_RAW_BYTES) {
        return Raised(ArtifactSizeLimit);
      }
      if a in disk.tree {
        if !(disk.At(a).ArtifactBytes? && disk.At(a).payload.bytes == payload.bytes) {
          return Raised(ArtifactConflict);
        }
        return Done;
      }
      ghost var before := disk;
      var temp := StoreTemp(store, disk.next);
      FreshName(disk, temp);
      :- CreateFile(temp, ArtifactBytes(payload));
      r := WriteFile(temp, ArtifactBytes(payload));
      if r.Crashed? {
        ghost var whole := ArtifactBytes(payload);
        ghost var k :| 0 <= k <= whole.Size() && disk == Filled(Placed(before, temp, Torn(whole, 0)), temp, Torn(whole, k));
        FilledPlaced(before, temp, Torn(whole, 0), Torn(whole, k));
        return;
      }
      FilledPlaced(before, temp, Torn(ArtifactBytes(payload), 0), ArtifactBytes(payload));
      :- Link(temp, a);
      LinkedThenUnlinked(before, temp, a, ArtifactBytes(payload));
      r := Unlink(temp);
    }

    /** The audited usage, if `extra` more raw bytes still fit. */
    method Admit(extra: nat) returns (r: Outcome, usage: Tally)
      requires disk.WellFormed()
      ensures !r.Crashed?
      ensures r.Done? <==>
                && |disk.tree| <= MAX_RESOURCE_FILES && Audited(disk, disk.tree.Keys)
                && RawUsage(disk) + extra <= limit
      ensures r.Done? ==> usage.raw == RawUsage(disk) && usage.files == |disk.tree|
    {
      r, usage := Usage();
      if r.Done? && usage.raw + extra > limit {
        r := Raised(RawBudgetExceeded);
      }
    }

    /** Reservation, object, recovery: the part of a publication that an admission has paid for. */
    method PublishReserved(reservation: Reservation, after: Moment) returns (r: Outcome)
      requires Admitted(disk, limit, reservation)
      modifies this
      ensures Inv(disk, limit) && KeepsObjects(old(disk), disk)
      ensures OnlyNew(old(disk), disk, Artifact(reservation.store, reservation.name), reservation.payload)
      ensures LapsedJobs(old(disk), after) == {} ==> WithinQuota(disk, limit)
      ensures Owing(old(disk), disk, limit, r.Crashed?) && Jobs(disk) <= Jobs(old(disk))
      ensures r.Done? ==>
                Settled(disk) && disk.Holds(Artifact(reservation.store, reservation.name), ArtifactBytes(reservation.payload))
      ensures |reservation.payload.bytes| <= MAX_RAW_BYTES ==> !r.Raised? && Readable(disk)
      ensures |reservation.payload.bytes| > MAX_RAW_BYTES && !r.Crashed? ==>
                r == Raised(PendingInvalid) && !Readable(disk)
      ensures old(fuel) > 7 + 4 * |LapsedJobs(old(disk), after)| ==> !r.Crashed?
    {
      ghost var d := disk;
      FreshName(disk, RootTemp(disk.next));
      r := WriteControl(RootTemp(disk.next), PendingFile, PendingDoc(reservation));
      if !r.Done? {
        ReservationStopped(d, disk, limit, reservation);
        WithinQuotaOwes(d, disk, limit, r.Crashed?);
        return;
      }
      ghost var e := disk;
      ReservationWritten(d, limit, reservation);
      r := PublishFile(reservation.store, reservation.name, reservation.payload);
      if r.Crashed? {
        StoppedWithinQuota(d, e, disk, limit, reservation);
        WithinQuotaOwes(d, disk, limit, true);
        return;
      }
      if r.Done? {
        PublishedWithinQuota(d, e, limit, reservation);
      }
      assert Written(d, disk, limit, reservation);
      var written := r;
      r := ReconcileAfterWriting(reservation, after, d);
      if r.Done? {
        r := written;
      }
    }

    /** The recovery that ends a publication, whether its writer returned or raised. */
    method ReconcileAfterWriting(ghost reservation: Reservation, after: Moment, ghost d: Disk) returns (r: Outcome)
      requires Written(d, disk, limit, reservation)
      modifies this
      ensures Inv(disk, limit) && KeepsObjects(d, disk)
      ensures OnlyNew(d, disk, Artifact(reservation.store, reservation.name), reservation.payload)
      ensures LapsedJobs(d, after) == {} ==> WithinQuota(disk, limit)
      ensures Owing(d, disk, limit, r.Crashed?) && Jobs(disk) <= Jobs(d)
      ensures r.Done? ==> Settled(disk) && forall a: Path, c: Content :: a.Artifact? && old(disk).Holds(a, c) ==> disk.Holds(a, c)
      ensures |reservation.payload.bytes| <= MAX_RAW_BYTES ==> !r.Raised? && Readable(disk)
      ensures |reservation.payload.bytes| > MAX_RAW_BYTES ==> r == Raised(PendingInvalid) && !Readable(disk)
      ensures old(fuel) > 4 * |LapsedJobs(d, after)| ==> !r.Crashed?
    {
      OnlyJobsLapse(disk, after);
      SameJobsSameLapses(d, disk, after);
      r := Reconcile(after);
      if r.Raised? {
        WithinQuotaOwes(d, disk, limit, false);
      } else {
        RecoveryAfterWriting(d, old(disk), disk, limit, reservation);
        CarriesQuota(d, old(disk), disk, limit, after, r.Crashed?);
        PendingIsThere(disk, limit);
      }
    }

    /** A publication on a recovered disk. */
    method PublishSettled(store: StoreId, name: ArtifactName, payload: Payload, after: Moment)
      returns (r: Outcome, ghost admitted: bool)
      requires Inv(disk, limit) && Settled(disk) && store in disk.stores
      modifies this
      ensures !r.Crashed? ==> Decided(old(disk), limit, Artifact(store, name), payload, admitted, r.Done?)
      ensures !admitted ==> disk == old(disk) && !r.Crashed?
      ensures Inv(disk, limit) && KeepsObjects(old(disk), disk) && OnlyNew(old(disk), disk, Artifact(store, name), payload)
      ensures admitted ==> Owing(old(disk), disk, limit, r.Crashed?)
      ensures Jobs(disk) <= Jobs(old(disk))
      ensures admitted && LapsedJobs(old(disk), after) == {} ==> WithinQuota(disk, limit)
      ensures r.Done? ==> Settled(disk) && Shows(disk, Artifact(store, name), payload)
      ensures admitted && |payload.bytes| > MAX_RAW_BYTES && !r.Crashed? ==> r == Raised(PendingInvalid) && !Readable(disk)
      ensures admitted && |payload.bytes| <= MAX_RAW_BYTES ==> !r.Raised?
      ensures |payload.bytes| <= MAX_RAW_BYTES ==> Readable(disk)
      ensures old(fuel) > 7 + 4 * |LapsedJobs(old(disk), after)| ==> !r.Crashed?
    {
      admitted := false;
      var a := Artifact(store, name);
      var usage;
      SettledIsAuditable(disk, limit);
      if a in disk.tree {
        ShownFits(disk, limit, a);
        r, usage := Admit(0);
        if r.Done? {
          r := PublishFile(store, name, payload);
        }
        return;
      }
      var size := RawSize(payload, name);
      if size == None {
        return Raised(CompressedFileInvalid), admitted;
      }
      if !(0 < size.value <= MAX_RAW_BYTES) {
        return Raised(ObjectTooLarge), admitted;
      }
      var reservation := Reservation(store, name, size.value, payload);
      r, usage := Admit(size.value + PendingDoc(reservation).Size() + RECORD_ALLOWANCE);
      if !r.Done? {
        return;
      }
      if usage.files + 4 > MAX_RESOURCE_FILES {
        return Raised(FileCountExceeded), admitted;
      }
      admitted := true;
      r := PublishReserved(reservation, after);
    }

    method Publish(store: StoreId, name: ArtifactName, payload: Payload, before: Moment, after: Moment)
      returns (r: Outcome, ghost admitted: bool, ghost recovered: Disk)
      requires Inv(disk, limit)
      modifies this
      ensures Inv(disk, limit)
      ensures PublicationKept(old(disk), disk, limit, Artifact(store, name), payload, r.Crashed?)
      ensures store in old(disk).stores && Readable(old(disk)) && !r.Crashed? ==>
                && Recovered(old(disk), recovered, limit, before)
                && Decided(recovered, limit, Artifact(store, name), payload, admitted, r.Done?)
      ensures store !in old(disk).stores ==> r == Raised(StoreOutsidePool) && disk == old(disk)
      ensures old(fuel) > 4 * (|Work(old(disk), before)| + |Jobs(old(disk))|) + 8 ==> !r.Crashed?
      ensures admitted && NoneLapses(old(disk), before, after) ==> WithinQuota(disk, limit)
      ensures admitted ==> LapsedJobs(disk, before) == {}
      ensures admitted && |payload.bytes| <= MAX_RAW_BYTES ==> Readable(disk)
      ensures r.Done? ==> Settled(disk) && Shows(disk, Artifact(store, name), payload)
      ensures admitted && |payload.bytes| > MAX_RAW_BYTES && !r.Crashed? ==> r == Raised(PendingInvalid) && !Readable(disk)
      ensures admitted && |payload.bytes| <= MAX_RAW_BYTES ==> !r.Raised?
      ensures Readable(old(disk)) && |payload.bytes| <= MAX_RAW_BYTES ==> Readable(disk)
      ensures !Readable(old(disk)) ==> r.Raised? && disk == old(disk)
    {
      admitted, recovered := false, disk;
      NothingPublished(disk, limit, Artifact(store, name), payload);
      if store !in disk.stores {
        return Raised(StoreOutsidePool), admitted, recovered;
      }
      r := Reconcile(before);
      recovered := disk;
      if r.Raised? {
        return;
      }
      ghost var e := disk;
      RecoveredKept(old(disk), e, limit, before, after, Artifact(store, name), payload, r.Crashed?);
      if r.Crashed? {
        return;
      }
      r, admitted := PublishSettled(store, name, payload, after);
      PublishedBounded(old(disk), e, disk, limit, before, after, Artifact(store, name), payload, admitted, r.Crashed?);
    }

    method StoreRoot(store: StoreId) returns (r: Outcome)
      requires Inv(disk, limit)
      modifies this
      ensures Kept(old(disk), disk, limit, false) && Jobs(disk) == Jobs(old(disk))
      ensures r.Done? ==> disk == WithStore(old(disk), store)
      ensures r.Crashed? ==> disk == old(disk)
      ensures !r.Raised? && (old(fuel) >= 1 ==> r.Done?)
    {
      StoreSafe(disk, limit, store);
      if fuel == 0 { return Crashed; }
      fuel := fuel - 1;
      disk := WithStore(disk, store);
      return Done;
    }

    method Inspect(now: Moment) returns (r: Outcome, usage: Tally)
      requires Inv(disk, limit)
      modifies this
      ensures Kept(old(disk), disk, limit, r.Crashed?) && Jobs(disk) <= Jobs(old(disk))
      ensures r.Done? ==> Settled(disk) && usage.raw == RawUsage(disk) && usage.files == |disk.tree|
      ensures !r.Crashed? ==> (r.Done? <==> Readable(old(disk)) && |disk.tree| <= MAX_RESOURCE_FILES)
      ensures !r.Crashed? && Readable(old(disk)) ==> Recovered(old(disk), disk, limit, now)
      ensures old(fuel) > 4 * |Work(old(disk), now)| ==> !r.Crashed?
    {
      usage := Tally(0, 0, 0, 0);
      r := Recover(now);
      if r.Done? {
        SettledIsAuditable(disk, limit);
        r, usage := Usage();
      }
    }

    /** The recovery at the start of every operation. */
    method Recover(now: Moment) returns (r: Outcome)
      requires Inv(disk, limit)
      modifies this
      ensures Kept(old(disk), disk, limit, r.Crashed?) && Jobs(disk) <= Jobs(old(disk))
      ensures r.Done? ==> Settled(disk) && Recovered(old(disk), disk, limit, now)
      ensures r.Raised? <==> !Readable(old(disk))
      ensures r.Raised? ==> r == Raised(PendingInvalid) && disk == old(disk)
      ensures KeepsQuarantine(old(disk), disk)
      ensures old(fuel) > 4 * |Work(old(disk), now)| ==> !r.Crashed?
      ensures r.Done? ==> fuel + 4 * |Work(old(disk), now)| + 1 >= old(fuel)
    {
      r := Reconcile(now);
      if r.Raised? {
        NothingBounded(disk, limit);
      } else {
        CarriesBounded(old(disk), disk, limit, now, r.Crashed?);
        if r.Done? {
          SettledIsReadable(disk);
        }
      }
    }

    method PrepareJob(arguments: seq<Byte>, owner: ProcessId, deadline: Nanos, stopsEarly: bool, stopsLate: bool, now: Moment)
      returns (r: Outcome, job: Path, ghost recovered: Disk)
      requires Inv(disk, limit)
      modifies this
      ensures 0 < |arguments| <= MAX_RAW_BYTES && !stopsEarly && Readable(old(disk)) && !r.Crashed? ==>
                && Recovered(old(disk), recovered, limit, now)
                && (r.Done? <==> JobAdmitted(recovered, limit, arguments) && !stopsLate)
      ensures !Readable(old(disk)) ==> r.Raised? && disk == old(disk)
      ensures old(fuel) > 4 * |Work(old(disk), now)| + 3 ==> !r.Crashed?
      ensures Kept(old(disk), disk, limit, r.Crashed?) && Jobs(disk) <= Jobs(old(disk)) + {job}
      ensures r.Done? ==>
                && job.JobFile? && job.owner == owner && job.deadline == deadline
                && job !in old(disk).tree && disk.Holds(job, JobDoc(arguments))
      ensures !(0 < |arguments| <= MAX_RAW_BYTES) || stopsEarly ==> r.Raised? && disk == old(disk)
    {
      job, recovered := JobFile(owner, deadline, disk.next), disk;
      NothingBounded(disk, limit);
      if !(0 < |arguments| <= MAX_RAW_BYTES) {
        return Raised(ArgumentsTooLarge), job, recovered;
      }
      if stopsEarly {
        return Raised(InvocationStopped), job, recovered;
      }
      r := Recover(now);
      recovered := disk;
      if !r.Done? {
        return;
      }
      ghost var e := disk;
      r, job := PrepareSettled(arguments, owner, deadline, stopsLate);
      KeptThen(old(disk), e, disk, limit, r.Crashed?, {job});
      if r.Done? {
        NewLater(old(disk), e, job);
      }
    }

    method PrepareSettled(arguments: seq<Byte>, owner: ProcessId, deadline: Nanos, stopsLate: bool)
      returns (r: Outcome, job: Path)
      requires Inv(disk, limit) && Settled(disk) && 0 < |arguments| <= MAX_RAW_BYTES
      modifies this
      ensures Inv(disk, limit) && SameObjects(old(disk), disk) && PendingOf(disk) == None
      ensures Jobs(disk) <= Jobs(old(disk)) + {job}
      ensures Bounded(old(disk), disk, limit, r.Crashed?)
      ensures r.Done? ==>
                && job.JobFile? && job.owner == owner && job.deadline == deadline
                && !job.Drawn(old(disk).next) && disk.Holds(job, JobDoc(arguments))
      ensures !r.Crashed? ==> (r.Done? <==> JobAdmitted(old(disk), limit, arguments) && !stopsLate)
      ensures old(fuel) >= 3 ==> !r.Crashed?
    {
      job := JobFile(owner, deadline, disk.next);
      SettledIsAuditable(disk, limit);
      NothingBounded(disk, limit);
      var usage;
      r, usage := Admit(|arguments| + RECORD_ALLOWANCE);
      if !r.Done? {
        return;
      }
      if usage.files + 4 > MAX_RESOURCE_FILES {
        return Raised(FileCountExceeded), job;
      }
      if stopsLate {
        return Raised(InvocationStopped), job;
      }
      ghost var e := disk;
      JobWritten(e, limit, job, arguments);
      r := WriteControl(JobTemp(disk.next), job, JobDoc(arguments));
      if r.Crashed? {
        JobStopped(e, disk, limit, arguments);
      }
    }

    method RetireJob(job: Path, arguments: seq<Byte>, now: Moment) returns (r: Outcome)
      requires Inv(disk, limit) && job.JobFile?
      modifies this
      ensures Kept(old(disk), disk, limit, r.Crashed?) && Jobs(disk) <= Jobs(old(disk))
      ensures r.Done? ==> Settled(disk) && job !in disk.tree
      ensures r.Done? && job in old(disk).tree ==> Filed(old(disk), disk, job, now.wall)
      ensures r == Raised(JobHashMismatch) <==>
                Readable(old(disk)) && !r.Crashed? && job in disk.tree && !disk.Holds(job, JobDoc(arguments))
      ensures r.Raised? ==> r == Raised(JobHashMismatch) || (r == Raised(PendingInvalid) && !Readable(old(disk)))
      ensures old(fuel) > 4 * |Work(old(disk), now)| + 4 ==> !r.Crashed?
    {
      r := Recover(now);
      if !r.Done? {
        return;
      }
      ghost var e := disk;
      if job in old(disk).tree && job !in e.tree {
        LapsedIsFiled(old(disk), e, limit, now, job);
      }
      r := RetireSettled(job, arguments, now);
      KeptStill(old(disk), e, disk, limit, r.Crashed?);
      if r.Done? && job in old(disk).tree && job in e.tree {
        FiledAfterRecovery(old(disk), e, disk, limit, now, job);
      }
    }

    method RetireSettled(job: Path, arguments: seq<Byte>, now: Moment) returns (r: Outcome)
      requires Inv(disk, limit) && Settled(disk) && job.JobFile?
      modifies this
      ensures Inv(disk, limit) && SameObjects(old(disk), disk) && PendingOf(disk) == None
      ensures Jobs(disk) <= Jobs(old(disk)) && Bounded(old(disk), disk, limit, r.Crashed?)
      ensures r.Done? ==> Settled(disk) && job !in disk.tree
      ensures r.Done? && job in old(disk).tree ==> Filed(old(disk), disk, job, now.wall) && KeepsQuarantine(old(disk), disk)
      ensures r.Done? && job !in old(disk).tree ==> disk == old(disk)
      ensures r.Raised? <==> job in old(disk).tree && !old(disk).Holds(job, JobDoc(arguments))
      ensures r.Raised? ==> r == Raised(JobHashMismatch) && disk == old(disk)
      ensures old(fuel) >= 4 ==> !r.Crashed?
    {
      NothingBounded(disk, limit);
      if job !in disk.tree {
        return Done;
      }
      if disk.At(job) != JobDoc(arguments) {
        return Raised(JobHashMismatch);
      }
      ghost var e := disk;
      ghost var q := Record(job, disk.At(job).Size(), disk.At(job), now.wall);
      ReachableIsQuarantinable(e, limit, job, q);
      r := Quarantine(job, disk.At(job).Size(), now);
      if r.Done? {
        RetireSafe(e, limit, job, q);
      } else {
        RetireStopped(e, disk, limit, job, q);
      }
    }

    /** Removes what has been in quarantine for the retention time, and nothing else. */
    method Purge(now: Moment) returns (r: Outcome, removed: set<Path>, ghost recovered: Disk)
      requires Inv(disk, limit)
      modifies this
      ensures Kept(old(disk), disk, limit, r.Crashed?) && Jobs(disk) <= Jobs(old(disk))
      ensures r.Done? ==>
                && Recovered(old(disk), recovered, limit, now)
                && removed == Purged(recovered, Records(recovered), now.wall as int - RETENTION_NS)
                && disk == Without(recovered, removed)
      ensures r.Raised? ==> disk == recovered && (Readable(old(disk)) ==> |disk.tree| > MAX_RESOURCE_FILES)
      ensures KeepsYoung(old(disk), disk, now.wall as int - RETENTION_NS)
      ensures old(fuel) > 4 * |Work(old(disk), now)| + 2 * |Records(recovered)| ==> !r.Crashed?
    {
      removed := {};
      r := Recover(now);
      recovered := disk;
      if !r.Done? {
        return;
      }
      r, removed := PurgeSettled(now.wall as int - RETENTION_NS);
      YoungThrough(old(disk), recovered, disk, now.wall as int - RETENTION_NS);
      KeptStill(old(disk), recovered, disk, limit, r.Crashed?);
    }

    method PurgeSettled(cutoff: int) returns (r: Outcome, removed: set<Path>)
      requires Inv(disk, limit) && Settled(disk)
      modifies this
      ensures Inv(disk, limit) && SameObjects(old(disk), disk) && PendingOf(disk) == None
      ensures Jobs(disk) == Jobs(old(disk)) && Bounded(old(disk), disk, limit, r.Crashed?)
      ensures r.Raised? <==> |old(disk).tree| > MAX_RESOURCE_FILES
      ensures r.Raised? ==> disk == old(disk)
      ensures r.Done? ==>
                && removed == Purged(old(disk), Records(old(disk)), cutoff)
                && disk == Without(old(disk), removed)
      ensures KeepsYoung(old(disk), disk, cutoff)
      ensures old(fuel) >= 2 * |Records(old(disk))| ==> !r.Crashed?
    {
      removed := {};
      var usage;
      SettledIsAuditable(disk, limit);
      r, usage := Usage();
      if !r.Done? {
        NothingBounded(disk, limit);
        return;
      }
      ghost var gone;
      r, removed, gone := PurgeEach(cutoff);
      PurgeKeepsYoung(old(disk), gone, cutoff);
      PurgedIsSafe(old(disk), disk, limit, gone);
    }

    method PurgeEach(cutoff: int) returns (r: Outcome, removed: set<Path>, ghost gone: set<Path>)
      requires Inv(disk, limit) && Settled(disk)
      modifies this
      ensures !r.Raised?
      ensures Purging(old(disk), disk, limit, gone) && gone <= Purged(old(disk), Records(old(disk)), cutoff)
      ensures r.Done? ==> gone == removed == Purged(old(disk), Records(old(disk)), cutoff)
      ensures old(fuel) >= 2 * |Records(old(disk))| ==> r.Done?
    {
      ghost var start := disk;
      var left := Records(disk);
      ghost var past: set<Path> := {};
      removed := {};
      PurgeBegins(disk, limit, cutoff);
      while left != {}
        invariant PurgedSoFar(start, disk, limit, past, left, removed, cutoff)
        invariant old(fuel) >= 2 * |Records(start)| ==> fuel >= 2 * |left|
        decreases left
      {
        var m :| m in left;
        StillThere(start, disk, limit, past, left, removed, cutoff, m);
        if Expired(disk, m, cutoff) {
          var pair := Pair(disk, m);
          r, gone := PurgeRecord(m, start, removed);
          if r.Crashed? {
            CrashedPurge(start, past, left, removed, gone, pair, cutoff, m);
            return;
          }
          PairPurged(start, disk, limit, past, left, removed, cutoff, m);
          removed := removed + pair;
        }
        OneMore(past, left, m);
        past, left := past + {m}, left - {m};
      }
      PurgeEnds(start, disk, limit, past, removed, cutoff);
      return Done, removed, removed;
    }

    method PurgeRecord(m: Path, ghost start: Disk, ghost gone: set<Path>) returns (r: Outcome, ghost gone': set<Path>)
      requires Purging(start, disk, limit, gone) && m.Metadata? && m in disk.tree
      modifies this
      ensures !r.Raised?
      ensures Purging(start, disk, limit, gone') && gone' <= gone + Pair(old(disk), m)
      ensures r.Done? ==> gone' == gone + Pair(old(disk), m)
      ensures fuel + 2 >= old(fuel) && (old(fuel) >= 2 ==> r.Done?)
    {
      PairAdds(disk, gone, m);
      gone' := gone;
      var b := Binary(m.of);
      if b in disk.tree {
        PurgeStep(start, disk, limit, gone, b);
        r := Unlink(b);
        if !r.Done? {
          return;
        }
        gone' := gone + {b};
      }
      PurgeStep(start, disk, limit, gone', m);
      r := Unlink(m);
      if r.Done? {
        gone' := gone' + {m};
      }
    }
  }
}
