/** What publishing one object adds to the disk, wherever its writer stops. */
module PoolPublication {
  import opened Wrappers
  import opened LinkAccounting
  import opened Disk
  import opened PoolState
  import opened PoolRecovery

  /** A reservation for these bytes is in place and the name is free. */
  ghost predicate Reserving(d: Disk, limit: nat, store: StoreId, name: ArtifactName, payload: Payload) {
    && Inv(d, limit) && store in d.stores && Artifact(store, name) !in d.tree
    && 0 < |payload.bytes| <= MAX_RAW_BYTES
    && PendingOf(d).Some? && PendingOf(d).value.store == store
    && RawSize(payload, name) == Some(PendingOf(d).value.raw)
  }

  /** Where a publication can stop: before or while writing its temporary, or before removing it. */
  ghost predicate PublicationStopped(d: Disk, d': Disk, store: StoreId, name: ArtifactName, payload: Payload) {
    var temp := StoreTemp(store, d.next);
    || d' == d
    || (exists c :: d' == Placed(d, temp, c) && c.Size() <= |payload.bytes|)
    || d' == Linked(Placed(d, temp, ArtifactBytes(payload)), temp, Artifact(store, name))
  }

  function Published(d: Disk, store: StoreId, name: ArtifactName, payload: Payload): Disk {
    Placed(d, Artifact(store, name), ArtifactBytes(payload))
  }

  /** Only `a` may be a published name that was not there before, and then with the whole payload. */
  ghost predicate OnlyNew(d: Disk, d': Disk, a: Path, payload: Payload) {
    && (forall p :: p in d'.tree && p.Artifact? ==> p in d.tree || p == a)
    && (a in d'.tree && a !in d.tree ==> Shows(d', a, payload))
  }

  lemma LinkedThenUnlinked(d: Disk, temp: Path, a: Path, c: Content)
    requires temp !in d.tree && a != temp
    ensures Unlinked(Linked(Placed(d, temp, c), temp, a), temp) == Placed(d, a, c)
  {
    assert d.tree[temp := d.next][a := d.next] - {temp} == d.tree[a := d.next];
  }

  /** However far it came, a publication leaves everything else in its place. */
  ghost predicate LeavesOthers(d: Disk, d': Disk, a: Path, payload: Payload) {
    KeepsObjects(d, d') && OnlyNew(d, d', a, payload) && PendingOf(d') == PendingOf(d) && Jobs(d') == Jobs(d)
  }

  lemma PublicationLeavesOthers(d: Disk, d': Disk, store: StoreId, name: ArtifactName, payload: Payload)
    requires d.WellFormed() && Artifact(store, name) !in d.tree
    requires PublicationStopped(d, d', store, name, payload) || d' == Published(d, store, name, payload)
    ensures LeavesOthers(d, d', Artifact(store, name), payload)
  {
    assert Jobs(d') == Jobs(d);
  }

  lemma TemporaryCosts(d: Disk, limit: nat, store: StoreId, name: ArtifactName, payload: Payload, c: Content)
    requires Reserving(d, limit, store, name, payload) && c.Size() <= |payload.bytes|
    ensures var temp, d' := StoreTemp(store, d.next), Placed(d, StoreTemp(store, d.next), c);
            && Inv(d', limit) && PendingOf(d') == PendingOf(d)
            && Exposure(d') == Exposure(d) + PendingOf(d).value.raw + RECORD_ALLOWANCE
            && Headcount(d') == Headcount(d) + 2
            && temp !in d.tree && Metadata(temp) !in d'.tree
  {
    NewTemporary(d, StoreTemp(store, d.next), c);
    PlaceTemp(d, limit, StoreTemp(store, d.next), c);
  }

  lemma LinkCosts(d: Disk, limit: nat, store: StoreId, name: ArtifactName, payload: Payload)
    requires Reserving(d, limit, store, name, payload)
    ensures var temp, a := StoreTemp(store, d.next), Artifact(store, name);
            var d' := Linked(Placed(d, temp, ArtifactBytes(payload)), temp, a);
            && Inv(d', limit)
            && Exposure(d') == Exposure(d) + PendingOf(d).value.raw + RECORD_ALLOWANCE
            && Headcount(d') == Headcount(d) + 3
  {
    TemporaryCosts(d, limit, store, name, payload, ArtifactBytes(payload));
    LinkArtifact(Placed(d, StoreTemp(store, d.next), ArtifactBytes(payload)), limit, StoreTemp(store, d.next), name, payload);
  }

  lemma StoppedCosts(d: Disk, d': Disk, limit: nat, store: StoreId, name: ArtifactName, payload: Payload)
    requires Reserving(d, limit, store, name, payload) && PublicationStopped(d, d', store, name, payload)
    ensures Inv(d', limit)
    ensures Exposure(d') <= Exposure(d) + PendingOf(d).value.raw + RECORD_ALLOWANCE
    ensures Headcount(d') <= Headcount(d) + 3
  {
    var temp := StoreTemp(store, d.next);
    if d' == Linked(Placed(d, temp, ArtifactBytes(payload)), temp, Artifact(store, name)) {
      LinkCosts(d, limit, store, name, payload);
    } else if d' != d {
      var c :| d' == Placed(d, temp, c) && c.Size() <= |payload.bytes|;
      TemporaryCosts(d, limit, store, name, payload, c);
    }
  }

  lemma PublishedCosts(d: Disk, limit: nat, store: StoreId, name: ArtifactName, payload: Payload)
    requires Reserving(d, limit, store, name, payload)
    ensures var d' := Published(d, store, name, payload);
            && Inv(d', limit)
            && Exposure(d') == Exposure(d) + PendingOf(d).value.raw
            && Headcount(d') == Headcount(d) + 1
  {
    var temp, a := StoreTemp(store, d.next), Artifact(store, name);
    LinkCosts(d, limit, store, name, payload);
    FreshNames(d, temp);
    LinkedCharges(d, store, name, payload);
    UnlinkTemp(Linked(Placed(d, temp, ArtifactBytes(payload)), temp, a), limit, temp, a);
    LinkedThenUnlinked(d, temp, a, ArtifactBytes(payload));
  }

  lemma FreshNames(d: Disk, p: Path)
    requires d.WellFormed() && !p.Drawn(d.next)
    ensures p !in d.tree && Metadata(p) !in d.tree
  {
    assert !Metadata(p).Drawn(d.next);
  }

  lemma LinkedCharges(d: Disk, store: StoreId, name: ArtifactName, payload: Payload)
    requires d.WellFormed() && StoreTemp(store, d.next) !in d.tree
    requires PendingOf(d).Some? && PendingOf(d).value.store == store
    requires RawSize(payload, name) == Some(PendingOf(d).value.raw)
    ensures var temp, a := StoreTemp(store, d.next), Artifact(store, name);
            var f := Linked(Placed(d, temp, ArtifactBytes(payload)), temp, a);
            && temp in f.tree && a in f.tree && f.tree[a] == f.tree[temp] && f.tree[a] in f.files
            && Forecast(f, temp) == Forecast(f, a)
            && (Metadata(temp) !in d.tree ==> Metadata(temp) !in f.tree)
  {
    var temp, a := StoreTemp(store, d.next), Artifact(store, name);
    var f := Linked(Placed(d, temp, ArtifactBytes(payload)), temp, a);
    assert PendingOf(f).Some? && PendingOf(f).value.store == store && PendingOf(f).value.raw == PendingOf(d).value.raw by {
      PendingElsewhere(d, temp, a, ArtifactBytes(payload));
    }
  }

  lemma PendingElsewhere(d: Disk, temp: Path, a: Path, c: Content)
    requires PendingOf(d).Some? && temp.StoreTemp? && a.Artifact? && d.tree[PendingFile] != d.next
    ensures PendingOf(Linked(Placed(d, temp, c), temp, a)) == PendingOf(d)
  {
  }

  /** A recovery of this disk ends within the quota. */
  ghost predicate WithinQuota(d: Disk, limit: nat)
    requires d.WellFormed()
  {
    Exposure(d) <= limit && Headcount(d) <= MAX_RESOURCE_FILES
  }

  /** What an admission leaves room for: the object, its reservation and one record. */
  ghost predicate Admitted(d: Disk, limit: nat, r: Reservation) {
    && Inv(d, limit) && Settled(d) && r.store in d.stores && Artifact(r.store, r.name) !in d.tree
    && RawSize(r.payload, r.name) == Some(r.raw) && 0 < r.raw <= MAX_RAW_BYTES && 0 < |r.payload.bytes|
    && RawUsage(d) + r.raw + PendingDoc(r).Size() + RECORD_ALLOWANCE <= limit
    && |d.tree| + 4 <= MAX_RESOURCE_FILES
  }

  predicate Fits(d: Disk, limit: nat, a: Path, payload: Payload, raw: nat, used: nat)
    requires a.Artifact?
  {
    && 0 < raw <= MAX_RAW_BYTES && |d.tree| + 4 <= MAX_RESOURCE_FILES
    && used + raw + PendingDoc(Reservation(a.store, a.name, raw, payload)).Size() + RECORD_ALLOWANCE <= limit
  }

  /** When a recovered disk has room for a new object. */
  ghost predicate Admits(d: Disk, limit: nat, a: Path, payload: Payload)
    requires d.WellFormed() && a.Artifact?
  {
    && a !in d.tree && RawSize(payload, a.name).Some?
    && Fits(d, limit, a, payload, RawSize(payload, a.name).value, RawUsage(d))
  }

  /** A recovered disk that an audit accepts without anything more. */
  ghost predicate Affordable(d: Disk, limit: nat)
    requires d.WellFormed()
  {
    RawUsage(d) <= limit && |d.tree| <= MAX_RESOURCE_FILES
  }

  /** A new object is admitted when there is room for it; one that is there has to be the same. */
  ghost predicate Decided(d: Disk, limit: nat, a: Path, payload: Payload, admitted: bool, done: bool)
    requires d.WellFormed() && a.Artifact?
  {
    && (admitted <==> Admits(d, limit, a, payload))
    && (a in d.tree ==> (done <==> Affordable(d, limit) && Shows(d, a, payload)))
  }

  lemma ShownFits(d: Disk, limit: nat, a: Path)
    requires Inv(d, limit) && a in d.tree && a.Artifact?
    ensures d.At(a).ArtifactBytes? && 0 < |d.At(a).payload.bytes| <= MAX_RAW_BYTES
  {
    assert LinkOk(d, a);
  }

  /** The name holds exactly these bytes. */
  predicate Shows(d: Disk, a: Path, payload: Payload) {
    a in d.tree && d.tree[a] in d.files && d.At(a).ArtifactBytes? && d.At(a).payload.bytes == payload.bytes
  }

  /** A publisher that has linked its object and not yet removed its temporary. */
  function LinkedNotUnlinked(d: Disk, r: Reservation): Disk {
    var e := Placed(d, PendingFile, PendingDoc(r));
    Linked(Placed(e, StoreTemp(r.store, e.next), ArtifactBytes(r.payload)), StoreTemp(r.store, e.next), Artifact(r.store, r.name))
  }

  /** How much of the reserve the worst crash of a publisher takes: the object, a record and three files. */
  lemma WorstPublisherCrash(d: Disk, limit: nat, r: Reservation)
    requires Admitted(d, limit, r) && |r.payload.bytes| <= MAX_RAW_BYTES
    ensures var e := LinkedNotUnlinked(d, r);
            && Inv(e, limit)
            && Exposure(e) == RawUsage(d) + r.raw + RECORD_ALLOWANCE && Headcount(e) == |d.tree| + 3
  {
    ReservationWritten(d, limit, r);
    LinkCosts(Placed(d, PendingFile, PendingDoc(r)), limit, r.store, r.name, r.payload);
  }

  /** The worst crash before that takes the reservation and a record: the two are never needed together. */
  lemma WorstReservationCrash(d: Disk, limit: nat, r: Reservation)
    requires Admitted(d, limit, r)
    ensures var e := Placed(d, RootTemp(d.next), Torn(PendingDoc(r), PendingDoc(r).Size()));
            && Inv(e, limit)
            && Exposure(e) == RawUsage(d) + PendingDoc(r).Size() + RECORD_ALLOWANCE && Headcount(e) == |d.tree| + 2
  {
    SettledExposure(d);
    ReservationFits(r);
    PlaceTemp(d, limit, RootTemp(d.next), Torn(PendingDoc(r), PendingDoc(r).Size()));
  }

  /** While the reservation itself is being written, and once it is there. */
  lemma ReservationWritten(d: Disk, limit: nat, r: Reservation)
    requires Admitted(d, limit, r)
    ensures var e := Placed(d, PendingFile, PendingDoc(r));
            && Inv(e, limit) && KeepsObjects(d, e) && Jobs(e) == Jobs(d) && OnlyNew(d, e, Artifact(r.store, r.name), r.payload)
            && PendingOf(e) == Some(r) && Exposure(e) == RawUsage(d) && Headcount(e) == |d.tree|
            && (|r.payload.bytes| <= MAX_RAW_BYTES ==> Reserving(e, limit, r.store, r.name, r.payload))
            && forall p :: p in e.tree ==> !p.IsTemp()
  {
    SettledExposure(d);
    ReservationFits(r);
    PlacePending(d, limit, r);
    assert Jobs(Placed(d, PendingFile, PendingDoc(r))) == Jobs(d);
  }

  lemma ReservationStopped(d: Disk, d': Disk, limit: nat, r: Reservation)
    requires Admitted(d, limit, r) && Interrupted(d, d', RootTemp(d.next), PendingDoc(r))
    ensures Inv(d', limit) && KeepsObjects(d, d') && Jobs(d') == Jobs(d) && OnlyNew(d, d', Artifact(r.store, r.name), r.payload)
    ensures WithinQuota(d', limit) && PendingOf(d') == None
  {
    SettledExposure(d);
    ReservationFits(r);
    InterruptedWrite(d, d', limit, RootTemp(d.next), PendingDoc(r));
  }

  /** The writer has returned: the reservation and no temporary is left. */
  ghost predicate Written(d: Disk, e: Disk, limit: nat, r: Reservation) {
    && d.WellFormed() && Inv(e, limit) && KeepsObjects(d, e) && OnlyNew(d, e, Artifact(r.store, r.name), r.payload)
    && Jobs(e) == Jobs(d) && WithinQuota(e, limit) && PendingOf(e) == Some(r)
    && forall p :: p in e.tree ==> !p.IsTemp()
  }

  /** From the reservation on, every disk an interrupted publication can leave behind. */
  lemma StoppedWithinQuota(d: Disk, e: Disk, e': Disk, limit: nat, r: Reservation)
    requires Admitted(d, limit, r) && |r.payload.bytes| <= MAX_RAW_BYTES
    requires e == Placed(d, PendingFile, PendingDoc(r))
    requires PublicationStopped(e, e', r.store, r.name, r.payload)
    ensures Inv(e', limit) && KeepsObjects(d, e') && Jobs(e') == Jobs(d) && OnlyNew(d, e', Artifact(r.store, r.name), r.payload)
    ensures WithinQuota(e', limit) && PendingOf(e') == Some(r)
  {
    ReservationWritten(d, limit, r);
    StoppedCosts(e, e', limit, r.store, r.name, r.payload);
    PublicationLeavesOthers(e, e', r.store, r.name, r.payload);
    KeepsNew(d, e, e', Artifact(r.store, r.name), r.payload);
  }

  lemma PublishedWithinQuota(d: Disk, e: Disk, limit: nat, r: Reservation)
    requires Admitted(d, limit, r) && |r.payload.bytes| <= MAX_RAW_BYTES
    requires e == Placed(d, PendingFile, PendingDoc(r))
    ensures var e' := Published(e, r.store, r.name, r.payload);
            Written(d, e', limit, r) && e'.Holds(Artifact(r.store, r.name), ArtifactBytes(r.payload))
  {
    ReservationWritten(d, limit, r);
    PublishedHolds(e, r.store, r.name, r.payload);
    PublishedCosts(e, limit, r.store, r.name, r.payload);
    PublicationLeavesOthers(e, Published(e, r.store, r.name, r.payload), r.store, r.name, r.payload);
    KeepsNew(d, e, Published(e, r.store, r.name, r.payload), Artifact(r.store, r.name), r.payload);
  }

  lemma PublishedHolds(e: Disk, store: StoreId, name: ArtifactName, payload: Payload)
    requires forall p :: p in e.tree ==> !p.IsTemp()
    ensures var e' := Published(e, store, name, payload);
            e'.Holds(Artifact(store, name), ArtifactBytes(payload)) && forall p :: p in e'.tree ==> !p.IsTemp()
  {
  }

  lemma KeepsNew(d: Disk, e: Disk, f: Disk, a: Path, payload: Payload)
    requires a.Artifact? && KeepsObjects(d, e) && OnlyNew(d, e, a, payload) && KeepsObjects(e, f) && OnlyNew(e, f, a, payload)
    ensures KeepsObjects(d, f) && OnlyNew(d, f, a, payload)
  {
  }

  lemma SameJobsSameLapses(d: Disk, e: Disk, now: Moment)
    requires Jobs(e) == Jobs(d)
    ensures LapsedJobs(e, now) == LapsedJobs(d, now)
  {
    assert LapsedJobs(d, now) == set p | p in Jobs(d) && Lapsed(p, now);
    assert LapsedJobs(e, now) == set p | p in Jobs(e) && Lapsed(p, now);
  }

  lemma CarriesQuota(d: Disk, e: Disk, e': Disk, limit: nat, now: Moment, crashed: bool)
    requires d.WellFormed() && e.WellFormed() && e'.WellFormed() && WithinQuota(e, limit) && Jobs(e) == Jobs(d)
    requires forall p :: p in e.tree ==> !p.IsTemp()
    requires Carries(e, e', now, crashed)
    ensures Owing(d, e', limit, crashed) && Jobs(e') <= Jobs(d)
    ensures LapsedJobs(d, now) == {} ==> WithinQuota(e', limit)
  {
    SameJobsSameLapses(d, e, now);
    CarriesOwing(d, e, e', limit, now, crashed);
    if LapsedJobs(d, now) == {} {
      NoTempsNoWork(e, now);
      CarriesNothing(e, e', limit, now, crashed);
    }
  }

  lemma CarriesOwing(d: Disk, e: Disk, e': Disk, limit: nat, now: Moment, crashed: bool)
    requires d.WellFormed() && e.WellFormed() && e'.WellFormed() && WithinQuota(e, limit) && Jobs(e) == Jobs(d)
    requires Carries(e, e', now, crashed)
    ensures Owing(d, e', limit, crashed) && Jobs(e') <= Jobs(d)
  {
  }

  lemma CarriesNothing(e: Disk, e': Disk, limit: nat, now: Moment, crashed: bool)
    requires e.WellFormed() && e'.WellFormed() && WithinQuota(e, limit)
    requires Work(e, now) == {} && LapsedJobs(e, now) == {} && Carries(e, e', now, crashed)
    ensures WithinQuota(e', limit)
  {
    assert Jobs(e) - {} == Jobs(e);
    assert Jobs(e') == Jobs(e);
  }

  /** The recovery at the end of a publication finds nothing but the reservation and lapsed jobs. */
  lemma RecoveryAfterWriting(d: Disk, e: Disk, e': Disk, limit: nat, r: Reservation)
    requires Written(d, e, limit, r) && SameObjects(e, e')
    ensures KeepsObjects(d, e') && OnlyNew(d, e', Artifact(r.store, r.name), r.payload)
    ensures forall a: Path, c: Content :: a.Artifact? && e.Holds(a, c) ==> e'.Holds(a, c)
  {
    HeldStays(e, e');
    KeepsNew(d, e, e', Artifact(r.store, r.name), r.payload);
  }

  lemma HeldStays(e: Disk, e': Disk)
    requires KeepsObjects(e, e')
    ensures forall a: Path, c: Content :: a.Artifact? && e.Holds(a, c) ==> e'.Holds(a, c)
  {
  }

  lemma OnlyJobsLapse(e: Disk, now: Moment)
    requires forall p :: p in e.tree ==> !p.IsTemp()
    ensures Work(e, now) == LapsedJobs(e, now)
  {
  }

  lemma LapsedAreJobs(d: Disk, e: Disk, now: Moment)
    ensures Jobs(e) <= Jobs(d) ==> |LapsedJobs(e, now)| <= |Jobs(d)|
  {
    if Jobs(e) <= Jobs(d) {
      assert LapsedJobs(e, now) <= Jobs(d);
      assert Jobs(d) == LapsedJobs(e, now) + (Jobs(d) - LapsedJobs(e, now));
    }
  }

  lemma NoTempsNoWork(e: Disk, now: Moment)
    requires (forall p :: p in e.tree ==> !p.IsTemp()) && LapsedJobs(e, now) == {}
    ensures Work(e, now) == {}
  {
    assert forall p :: p in e.tree && Lapsed(p, now) ==> p in LapsedJobs(e, now);
  }

  /** The limit, a record for each job of `d`, and one interrupted record after a crash. */
  ghost predicate Owing(d: Disk, d': Disk, limit: nat, crashed: bool)
    requires d.WellFormed() && d'.WellFormed()
  {
    var once := if crashed then 2 else 0;
    && Liability(d') <= limit + RECORD_ALLOWANCE * (|Jobs(d)| + once)
    && FileLiability(d') <= MAX_RESOURCE_FILES + |Jobs(d)| + once
  }

  lemma WithinQuotaOwes(d: Disk, d': Disk, limit: nat, crashed: bool)
    requires d.WellFormed() && d'.WellFormed() && WithinQuota(d', limit) && Jobs(d') == Jobs(d)
    ensures Owing(d, d', limit, crashed)
  {
  }

  // Over whole runs.

  ghost function Ceiling(d: Disk, limit: nat): nat
    requires d.WellFormed()
  {
    Max(Liability(d), limit + RECORD_ALLOWANCE * |Jobs(d)|)
  }

  ghost function FileCeiling(d: Disk): int {
    if FileLiability(d) < MAX_RESOURCE_FILES + |Jobs(d)| then MAX_RESOURCE_FILES + |Jobs(d)| else FileLiability(d)
  }

  /** An operation never owes more than before or than the limit, but for what one crash leaves outstanding. */
  ghost predicate Bounded(d: Disk, d': Disk, limit: nat, crashed: bool)
    requires d.WellFormed() && d'.WellFormed()
  {
    var once := if crashed then 2 else 0;
    && Liability(d') <= Ceiling(d, limit) + RECORD_ALLOWANCE * once
    && FileLiability(d') <= FileCeiling(d) + once
  }

  lemma CarriesBounded(d: Disk, e: Disk, limit: nat, now: Moment, crashed: bool)
    requires d.WellFormed() && e.WellFormed() && Carries(d, e, now, crashed)
    ensures Bounded(d, e, limit, crashed) && Jobs(e) <= Jobs(d)
  {
  }

  lemma FewerJobs(d: Disk, e: Disk)
    requires Jobs(e) <= Jobs(d)
    ensures |Jobs(e)| <= |Jobs(d)|
  {
    assert Jobs(d) == Jobs(e) + (Jobs(d) - Jobs(e));
  }

  /** After a completed recovery, an operation that stays within the limit is bounded from the start. */
  lemma OwingBounded(d: Disk, e: Disk, f: Disk, limit: nat, crashed: bool)
    requires d.WellFormed() && e.WellFormed() && f.WellFormed() && Jobs(e) <= Jobs(d) && Owing(e, f, limit, crashed)
    ensures Bounded(d, f, limit, crashed)
  {
    FewerJobs(d, e);
  }

  lemma BoundedThen(d: Disk, e: Disk, f: Disk, limit: nat, crashed: bool)
    requires d.WellFormed() && e.WellFormed() && f.WellFormed() && Jobs(e) <= Jobs(d)
    requires Bounded(d, e, limit, false) && Bounded(e, f, limit, crashed)
    ensures Bounded(d, f, limit, crashed)
  {
    FewerJobs(d, e);
  }

  /** No job that was alive at `before` ends by `after`. */
  predicate NoneLapses(d: Disk, before: Moment, after: Moment) {
    forall p :: p in Jobs(d) && Lapsed(p, after) ==> Lapsed(p, before)
  }

  lemma NoneLapsesLater(d: Disk, e: Disk, before: Moment, after: Moment)
    requires NoneLapses(d, before, after) && Jobs(e) <= Jobs(d) && LapsedJobs(e, before) == {}
    ensures LapsedJobs(e, after) == {}
  {
    forall p | p in LapsedJobs(e, after)
      ensures p in LapsedJobs(e, before)
    {
      assert p in Jobs(e);
    }
  }

  lemma FewerLapse(e: Disk, f: Disk, now: Moment)
    requires LapsedJobs(e, now) == {}
    ensures Jobs(f) <= Jobs(e) ==> LapsedJobs(f, now) == {}
  {
    if Jobs(f) <= Jobs(e) {
      assert LapsedJobs(f, now) == set p | p in Jobs(f) && Lapsed(p, now);
      assert LapsedJobs(e, now) == set p | p in Jobs(e) && Lapsed(p, now);
    }
  }

  lemma SameIsOnlyNew(d: Disk, e: Disk, a: Path, payload: Payload)
    requires a.Artifact? && SameObjects(d, e)
    ensures KeepsObjects(d, e) && OnlyNew(d, e, a, payload)
  {
  }

  /** What a publication of this payload under this name keeps, however it ends. */
  ghost predicate PublicationKept(d: Disk, f: Disk, limit: nat, a: Path, payload: Payload, crashed: bool)
    requires d.WellFormed() && f.WellFormed()
  {
    KeepsObjects(d, f) && OnlyNew(d, f, a, payload) && Jobs(f) <= Jobs(d) && Bounded(d, f, limit, crashed)
  }

  lemma NothingPublished(d: Disk, limit: nat, a: Path, payload: Payload)
    requires d.WellFormed()
    ensures PublicationKept(d, d, limit, a, payload, false)
  {
  }

  /** The recovery before a publication publishes nothing. */
  lemma RecoveredKept(d: Disk, e: Disk, limit: nat, before: Moment, after: Moment, a: Path, payload: Payload, crashed: bool)
    requires d.WellFormed() && e.WellFormed() && a.Artifact? && SameObjects(d, e) && Carries(d, e, before, crashed)
    ensures PublicationKept(d, e, limit, a, payload, crashed) && |LapsedJobs(e, after)| <= |Jobs(d)|
  {
    CarriesBounded(d, e, limit, before, crashed);
    SameIsOnlyNew(d, e, a, payload);
    LapsedAreJobs(d, e, after);
  }

  /** A recovery, then a publication that either changed nothing or was admitted. */
  lemma PublishedBounded(d: Disk, e: Disk, f: Disk, limit: nat, before: Moment, after: Moment, a: Path,
                         payload: Payload, admitted: bool, crashed: bool)
    requires d.WellFormed() && e.WellFormed() && f.WellFormed()
    requires a.Artifact? && PublicationKept(d, e, limit, a, payload, false) && LapsedJobs(e, before) == {}
    requires KeepsObjects(e, f) && OnlyNew(e, f, a, payload) && Jobs(f) <= Jobs(e)
    requires admitted ==> Owing(e, f, limit, crashed)
    requires !admitted ==> f == e
    ensures PublicationKept(d, f, limit, a, payload, crashed)
    ensures NoneLapses(d, before, after) ==> LapsedJobs(e, after) == {}
    ensures LapsedJobs(f, before) == {}
  {
    FewerLapse(e, f, before);
    KeepsNew(d, e, f, a, payload);
    if admitted {
      OwingBounded(d, e, f, limit, crashed);
    }
    if NoneLapses(d, before, after) {
      NoneLapsesLater(d, e, before, after);
    }
  }
}
