/**
 The invariant of a resource pool's disk, the charges of its files, and the exposure:
 what the disk will be charged once an uninterrupted recovery has run.
 */
module PoolState {
  import opened Wrappers
  import opened LinkAccounting
  import opened Disk
  import opened Decimals

  function PendingOf(d: Disk): Option<Reservation> {
    if PendingFile in d.tree && d.tree[PendingFile] in d.files && d.At(PendingFile).PendingDoc? then
      Some(d.At(PendingFile).reservation)
    else
      None
  }

  /** The raw bytes a recovery reserves for a file it moves into quarantine. */
  function Reserved(d: Disk, p: Path): nat
    requires p in d.tree && d.tree[p] in d.files
  {
    if p.StoreTemp? then
      match PendingOf(d)
      case Some(r) => if r.store == p.store then r.raw else MAX_RAW_BYTES
      case None => MAX_RAW_BYTES
    else
      d.At(p).Size()
  }

  /** The raw bytes one link is charged by a usage audit. */
  function Charge(d: Disk, p: Path): nat
    requires p in d.tree && d.tree[p] in d.files
  {
    match p
    case Artifact(_, name) =>
      if d.At(p).ArtifactBytes? then
        match RawSize(d.At(p).payload, name)
        case Some(n) => n
        case None => 0
      else 0
    case Binary(of) =>
      if Metadata(of) in d.tree && d.tree[Metadata(of)] in d.files && d.At(Metadata(of)).RecordDoc? then
        d.At(Metadata(of)).record.raw
      else
        MAX_RAW_BYTES
    case _ => d.At(p).Size()
  }

  /** The charge the same inode will carry after a recovery. */
  function Forecast(d: Disk, p: Path): nat
    requires p in d.tree && d.tree[p] in d.files
  {
    if p.PendingFile? then 0 else if p.StoreTemp? then Reserved(d, p) else Charge(d, p)
  }

  predicate RecordAgrees(d: Disk, p: Path, q: Record)
    requires p in d.tree && d.tree[p] in d.files
  {
    q.raw == Reserved(d, p) && q.stored == d.At(p)
  }

  predicate LinkOk(d: Disk, p: Path)
    requires p in d.tree && d.tree[p] in d.files
  {
    match p
    case StoreTemp(store, _) =>
      && store in d.stores && d.At(p).Size() <= MAX_RAW_BYTES
      && PendingOf(d).Some? && PendingOf(d).value.store == store
    case Artifact(store, name) =>
      && store in d.stores && d.At(p).ArtifactBytes? && 0 < d.At(p).Size() <= MAX_RAW_BYTES
      && RawSize(d.At(p).payload, name).Some?
    case PendingFile =>
      && d.At(p).PendingDoc? && d.At(p).Size() <= MAX_RAW_BYTES
      && 0 < d.At(p).reservation.raw <= MAX_RAW_BYTES && 0 < |d.At(p).reservation.payload.bytes|
    case Metadata(of) =>
      && of.IsRetained() && d.At(p).RecordDoc?
      && d.At(p).record.original == of && d.At(p).record.raw <= MAX_RAW_BYTES
      && d.At(p).record.stored.Size() <= MAX_RAW_BYTES
      && (of in d.tree && d.tree[of] in d.files ==> RecordAgrees(d, of, d.At(p).record))
    case Binary(of) =>
      && of.IsRetained() && of !in d.tree && Metadata(of) in d.tree && d.tree[Metadata(of)] in d.files
      && d.At(Metadata(of)).RecordDoc? && d.At(Metadata(of)).record.stored == d.At(p)
    case JobFile(_, _, _) => d.At(p).JobDoc? && d.At(p).Size() <= MAX_RAW_BYTES
    case _ => d.At(p).Size() <= MAX_RAW_BYTES
  }

  /** What holds of the disk between any two system calls. */
  ghost predicate Inv(d: Disk, limit: nat) {
    && d.WellFormed()
    && d.Holds(PolicyFile, PolicyDoc(limit))
    && forall p {:trigger LinkOk(d, p)} :: p in d.tree ==> LinkOk(d, p)
  }

  /** A recovery never guesses a reserve, and an audit never guesses a charge. */
  lemma FallbacksNeverApply(d: Disk, limit: nat, p: Path)
    requires Inv(d, limit) && p in d.tree
    ensures p.StoreTemp? ==> PendingOf(d).Some? && Reserved(d, p) == PendingOf(d).value.raw
    ensures p.Binary? ==>
              && Metadata(p.of) in d.tree && d.At(Metadata(p.of)).RecordDoc?
              && Charge(d, p) == d.At(Metadata(p.of)).record.raw && d.At(Metadata(p.of)).record.stored == d.At(p)
  {
    assert LinkOk(d, p);
  }

  function Unrecorded(d: Disk): set<Path> {
    set p | p in d.tree && p.IsTemp() && Metadata(p) !in d.tree
  }

  ghost function Charges(d: Disk): map<Path, nat>
    requires d.WellFormed()
  {
    map p | p in d.tree :: Charge(d, p)
  }

  ghost function Forecasts(d: Disk): map<Path, nat>
    requires d.WellFormed()
  {
    map p | p in d.tree :: Forecast(d, p)
  }

  /** Raw bytes: every inode once, at the largest charge among its links. */
  ghost function RawUsage(d: Disk): nat
    requires d.WellFormed()
  {
    Total(d.tree, Charges(d), d.next)
  }

  ghost function Sizes(d: Disk): map<Path, nat>
    requires d.WellFormed()
  {
    map p | p in d.tree :: d.At(p).Size()
  }

  /** Bytes on the device: every inode once. */
  ghost function PhysicalUsage(d: Disk): nat
    requires d.WellFormed()
  {
    Total(d.tree, Sizes(d), d.next)
  }

  /** A file an audit can account for. */
  predicate Auditable(d: Disk, p: Path)
    requires p in d.tree && d.tree[p] in d.files
  {
    && d.At(p).Size() <= MAX_RAW_BYTES
    && match p
       case StoreTemp(_, _) => false
       case JobTemp(_) => false
       case Artifact(_, name) => d.At(p).ArtifactBytes? && RawSize(d.At(p).payload, name).Some?
       case Metadata(_) => d.At(p).RecordDoc?
       case Binary(of) =>
         Metadata(of) in d.tree && d.tree[Metadata(of)] in d.files ==>
           && d.At(Metadata(of)).RecordDoc?
           && d.At(Metadata(of)).record.raw <= MAX_RAW_BYTES && d.At(Metadata(of)).record.stored == d.At(p)
       case _ => true
  }

  ghost predicate Audited(d: Disk, names: set<Path>)
    requires d.WellFormed() && names <= d.tree.Keys
  {
    forall p {:trigger Auditable(d, p)} :: p in names ==> Auditable(d, p)
  }

  lemma SettledIsAuditable(d: Disk, limit: nat)
    requires Inv(d, limit) && Settled(d)
    ensures Audited(d, d.tree.Keys)
  {
    forall p | p in d.tree
      ensures Auditable(d, p)
    {
      assert LinkOk(d, p);
      if p.Binary? {
        assert LinkOk(d, Metadata(p.of));
      } else if p.Metadata? {
        RecordFits(d.At(p).record);
      }
    }
  }

  /** Raw usage after a recovery, plus the reserve of each record that is still to be written. */
  ghost function Exposure(d: Disk): nat
    requires d.WellFormed()
  {
    Total(d.tree, Forecasts(d), d.next) + RECORD_ALLOWANCE * |Unrecorded(d)|
  }

  /** File count after a recovery. */
  ghost function Headcount(d: Disk): int {
    |d.tree| - (if PendingFile in d.tree then 1 else 0) + |Unrecorded(d)|
  }

  function Jobs(d: Disk): set<Path> {
    set p | p in d.tree && p.JobFile?
  }

  /** Exposure once every job has ended too: each of them will need a record. */
  ghost function Liability(d: Disk): nat
    requires d.WellFormed()
  {
    Exposure(d) + RECORD_ALLOWANCE * |Jobs(d)|
  }

  ghost function FileLiability(d: Disk): int {
    Headcount(d) + |Jobs(d)|
  }

  /** Nothing is left for a recovery to do, except for jobs that may lapse. */
  predicate Settled(d: Disk) {
    PendingFile !in d.tree && forall p :: p in d.tree ==> !p.IsTemp()
  }

  lemma SettledExposure(d: Disk)
    requires d.WellFormed() && Settled(d)
    ensures Exposure(d) == RawUsage(d)
    ensures Headcount(d) == |d.tree|
  {
    assert Forecasts(d) == Charges(d);
    assert Unrecorded(d) == {};
  }

  // The edits a writer makes, as functions of the disk.

  /** A new file at `p`. */
  function Placed(d: Disk, p: Path, c: Content): Disk {
    d.(tree := d.tree[p := d.next], files := d.files[d.next := c], next := d.next + 1)
  }

  function Renamed(d: Disk, p: Path, q: Path): Disk
    requires p in d.tree
  {
    d.(tree := (d.tree - {p})[q := d.tree[p]])
  }

  function Linked(d: Disk, p: Path, q: Path): Disk
    requires p in d.tree
  {
    d.(tree := d.tree[q := d.tree[p]])
  }

  function Unlinked(d: Disk, p: Path): Disk {
    d.(tree := d.tree - {p})
  }

  /**
   An edit leaves the link `x` alone: its content, and whatever its consistency and
   its charge depend on, are the same before and after.
   */
  predicate Untouched(d: Disk, d': Disk, x: Path) {
    && x in d.tree && d.tree[x] in d.files && x in d'.tree && d'.tree[x] in d'.files && d'.At(x) == d.At(x)
    && match x
       case StoreTemp(_, _) => PendingOf(d') == PendingOf(d)
       case Metadata(of) =>
         of in d'.tree && d'.tree[of] in d'.files ==>
           && of in d.tree && d.tree[of] in d.files && d'.At(of) == d.At(of)
           && (of.StoreTemp? ==> PendingOf(d') == PendingOf(d))
       case Binary(of) =>
         && of !in d'.tree
         && Metadata(of) in d.tree && d.tree[Metadata(of)] in d.files
         && Metadata(of) in d'.tree && d'.tree[Metadata(of)] in d'.files
         && d'.At(Metadata(of)) == d.At(Metadata(of))
       case _ => true
  }

  lemma UntouchedLink(d: Disk, d': Disk, x: Path)
    requires Untouched(d, d', x) && d.stores == d'.stores && LinkOk(d, x)
    ensures LinkOk(d', x) && Forecast(d', x) == Forecast(d, x)
  {
  }

  /** The invariant survives an edit of one link that leaves that link consistent. */
  lemma EditKeepsInv(d: Disk, d': Disk, limit: nat, p: Path)
    requires Inv(d, limit) && d'.WellFormed() && d.stores == d'.stores && p != PolicyFile
    requires d'.Holds(PolicyFile, PolicyDoc(limit))
    requires forall x {:trigger Untouched(d, d', x)} :: x in d'.tree && x != p ==> Untouched(d, d', x)
    requires p in d'.tree ==> LinkOk(d', p)
    ensures Inv(d', limit)
    ensures forall x :: x in d'.tree && x != p ==> x in d.tree && Forecast(d', x) == Forecast(d, x)
  {
    forall x | x in d'.tree && x != p
      ensures LinkOk(d', x) && x in d.tree && Forecast(d', x) == Forecast(d, x)
    {
      assert Untouched(d, d', x);
      UntouchedLink(d, d', x);
    }
  }

  lemma PlacedTotals(d: Disk, d': Disk, p: Path, c: Content)
    requires d.WellFormed() && p !in d.tree && d' == Placed(d, p, c) && d'.WellFormed()
    requires forall q :: q in d.tree ==> Forecast(d', q) == Forecast(d, q)
    ensures Total(d'.tree, Forecasts(d'), d'.next) == Total(d.tree, Forecasts(d), d.next) + Forecast(d', p)
    ensures |d'.tree| == |d.tree| + 1
  {
    BoundIsSlack(d.tree, Forecasts(d), d.next, d'.next);
    assert IsPeak(d.tree, Forecasts(d), d.next, 0);
    PeakUnique(d.tree, Forecasts(d), d.next, 0);
    AddLink(d.tree, Forecasts(d), Forecasts(d'), d'.next, p, d.next);
  }

  lemma PlacedWellFormed(d: Disk, p: Path, c: Content)
    requires d.WellFormed() && p.Drawn(d.next + 1)
    ensures Placed(d, p, c).WellFormed()
  {
    DrawnLater(d, d.next + 1);
  }

  /** Nothing on the disk depends on a name that is new to it. */
  lemma PlacedUntouched(d: Disk, d': Disk, limit: nat, p: Path, c: Content)
    requires Inv(d, limit) && p !in d.tree && Metadata(p) !in d.tree && Binary(p) !in d.tree
    requires d' == Placed(d, p, c)
    requires p == PendingFile ==> forall x :: x in d.tree ==> !x.IsTemp()
    ensures p != PendingFile ==> PendingOf(d') == PendingOf(d)
    ensures forall x {:trigger Untouched(d, d', x)} :: x in d.tree ==> Untouched(d, d', x)
  {
    forall x | x in d.tree
      ensures Untouched(d, d', x)
    {
      assert LinkOk(d, x);
    }
  }

  /** What placing a new file does, given that it is consistent in its new place. */
  lemma PlaceNew(d: Disk, d': Disk, limit: nat, p: Path, c: Content)
    requires Inv(d, limit) && p !in d.tree && Metadata(p) !in d.tree && Binary(p) !in d.tree
    requires p != PolicyFile && p.Drawn(d.next + 1) && d' == Placed(d, p, c)
    requires p == PendingFile ==> forall x :: x in d.tree ==> !x.IsTemp()
    requires LinkOk(d', p)
    ensures Inv(d', limit)
    ensures Total(d'.tree, Forecasts(d'), d'.next) == Total(d.tree, Forecasts(d), d.next) + Forecast(d', p)
    ensures |d'.tree| == |d.tree| + 1
  {
    PlacedWellFormed(d, p, c);
    PlacedUntouched(d, d', limit, p, c);
    assert PolicyFile in d.tree && d'.Holds(PolicyFile, PolicyDoc(limit));
    EditKeepsInv(d, d', limit, p);
    PlacedTotals(d, d', p, c);
  }

  lemma DrawnLater(d: Disk, later: nat)
    requires d.WellFormed() && d.next <= later
    ensures forall p :: p in d.tree ==> p.Drawn(later)
  {
    forall p | p in d.tree
      ensures p.Drawn(later)
    {
      DrawnStays(p, d.next, later);
    }
  }

  lemma {:induction false} DrawnStays(p: Path, next: nat, later: nat)
    requires p.Drawn(next) && next <= later
    ensures p.Drawn(later)
  {
    match p
    case Metadata(of) => DrawnStays(of, next, later);
    case Binary(of) => DrawnStays(of, next, later);
    case _ =>
  }

  /** An interrupted writer's file: exposed for its reserve and for the record it will need. */
  lemma PlaceTemp(d: Disk, limit: nat, p: Path, c: Content)
    requires Inv(d, limit) && p.IsTemp() && !p.Drawn(d.next) && p.Drawn(d.next + 1)
    requires c.Size() <= MAX_RAW_BYTES
    requires p.StoreTemp? ==> p.store in d.stores && PendingOf(d).Some? && PendingOf(d).value.store == p.store
    ensures var d' := Placed(d, p, c);
            && Inv(d', limit)
            && Exposure(d') == Exposure(d) + Forecast(d', p) + RECORD_ALLOWANCE
            && Headcount(d') == Headcount(d) + 2
            && Forecast(d', p) == if p.StoreTemp? then PendingOf(d).value.raw else c.Size()
  {
    var d' := Placed(d, p, c);
    FreshTemp(d, d', p, c);
    PlaceNew(d, d', limit, p, c);
    UnrecordedGrows(d, d', p, c);
  }

  lemma FreshTemp(d: Disk, d': Disk, p: Path, c: Content)
    requires d.WellFormed() && d' == Placed(d, p, c) && p.IsTemp() && !p.Drawn(d.next)
    requires c.Size() <= MAX_RAW_BYTES
    requires p.StoreTemp? ==> p.store in d.stores && PendingOf(d).Some? && PendingOf(d).value.store == p.store
    ensures p !in d.tree && Metadata(p) !in d.tree && Binary(p) !in d.tree
    ensures LinkOk(d', p)
    ensures Forecast(d', p) == if p.StoreTemp? then PendingOf(d).value.raw else c.Size()
  {
    assert !Metadata(p).Drawn(d.next) && !Binary(p).Drawn(d.next);
    assert PendingOf(d') == PendingOf(d);
  }

  lemma UnrecordedGrows(d: Disk, d': Disk, p: Path, c: Content)
    requires p !in d.tree && Metadata(p) !in d.tree && d' == Placed(d, p, c) && p.IsTemp()
    ensures |Unrecorded(d')| == |Unrecorded(d)| + 1
  {
    assert Unrecorded(d') == Unrecorded(d) + {p};
  }

  /** The reservation is a control file that a recovery removes. */
  lemma PlacePending(d: Disk, limit: nat, r: Reservation)
    requires Inv(d, limit) && Settled(d)
    requires 0 < r.raw <= MAX_RAW_BYTES && 0 < |r.payload.bytes| && PendingDoc(r).Size() <= MAX_RAW_BYTES
    ensures var d' := Placed(d, PendingFile, PendingDoc(r));
            Inv(d', limit) && Exposure(d') == Exposure(d) && Headcount(d') == Headcount(d)
  {
    var d' := Placed(d, PendingFile, PendingDoc(r));
    NoRecordOfRecords(d, limit, PendingFile);
    PlaceNew(d, d', limit, PendingFile, PendingDoc(r));
    assert Unrecorded(d') == Unrecorded(d);
  }

  lemma NoRecordOfRecords(d: Disk, limit: nat, p: Path)
    requires Inv(d, limit) && !p.IsRetained()
    ensures Metadata(p) !in d.tree && Binary(p) !in d.tree
  {
    var m, b := Metadata(p), Binary(p);
    assert forall x :: x in d.tree && (x == m || x == b) ==> LinkOk(d, x);
  }

  lemma NotYetRetained(d: Disk, limit: nat, p: Path)
    requires Inv(d, limit) && p in d.tree
    ensures Binary(p) !in d.tree
  {
    if Binary(p) in d.tree {
      RetainedHasLeft(d, limit, Binary(p));
      assert false;
    }
  }

  lemma RetainedHasLeft(d: Disk, limit: nat, b: Path)
    requires Inv(d, limit) && b.Binary? && b in d.tree
    ensures b.of !in d.tree && Metadata(b.of) in d.tree
  {
    assert LinkOk(d, b);
  }

  lemma ReservedBounded(d: Disk, limit: nat, p: Path)
    requires Inv(d, limit) && p in d.tree && p.IsRetained()
    ensures Reserved(d, p) <= MAX_RAW_BYTES && d.At(p).Size() <= MAX_RAW_BYTES
  {
    assert LinkOk(d, p);
    if p.StoreTemp? {
      assert LinkOk(d, PendingFile);
    }
  }

  /** A record takes the place of the reserve that was held for it. */
  lemma PlaceRecord(d: Disk, limit: nat, p: Path, q: Record)
    requires Inv(d, limit) && p in d.tree && p.IsRetained() && Metadata(p) !in d.tree
    requires q.original == p && RecordAgrees(d, p, q)
    ensures var d' := Placed(d, Metadata(p), RecordDoc(q));
            && Inv(d', limit)
            && Exposure(d') + (if p.IsTemp() then RECORD_ALLOWANCE else 0) == Exposure(d) + RecordDoc(q).Size()
            && Headcount(d') == Headcount(d) + (if p.IsTemp() then 0 else 1)
            && RecordDoc(q).Size() <= RECORD_ALLOWANCE
            && Reserved(d', p) == Reserved(d, p)
  {
    var d' := Placed(d, Metadata(p), RecordDoc(q));
    ReservedBounded(d, limit, p);
    RecordFits(q);
    NotYetRetained(d, limit, p);
    NoRecordOfRecords(d, limit, Metadata(p));
    FreshRecord(d, d', p, q);
    PlaceNew(d, d', limit, Metadata(p), RecordDoc(q));
    UnrecordedShrinks(d, d', p, RecordDoc(q));
  }

  lemma FreshRecord(d: Disk, d': Disk, p: Path, q: Record)
    requires d.WellFormed() && p in d.tree && p.IsRetained() && Metadata(p) !in d.tree
    requires d' == Placed(d, Metadata(p), RecordDoc(q)) && q.original == p && RecordAgrees(d, p, q)
    requires q.raw <= MAX_RAW_BYTES && q.stored.Size() <= MAX_RAW_BYTES
    ensures Metadata(p).Drawn(d.next + 1) && LinkOk(d', Metadata(p)) && Reserved(d', p) == Reserved(d, p)
  {
    DrawnStays(p, d.next, d.next + 1);
    assert PendingOf(d') == PendingOf(d);
  }

  lemma UnrecordedShrinks(d: Disk, d': Disk, p: Path, c: Content)
    requires p in d.tree && Metadata(p) !in d.tree && d' == Placed(d, Metadata(p), c)
    ensures |Unrecorded(d')| == |Unrecorded(d)| - (if p.IsTemp() then 1 else 0)
  {
    assert Unrecorded(d') == Unrecorded(d) - {p};
    assert p.IsTemp() ==> p in Unrecorded(d);
  }

  lemma PlaceJob(d: Disk, limit: nat, p: Path, arguments: seq<Byte>)
    requires Inv(d, limit) && p.JobFile? && !p.Drawn(d.next) && p.Drawn(d.next + 1)
    requires |arguments| <= MAX_RAW_BYTES
    ensures var d' := Placed(d, p, JobDoc(arguments));
            && Inv(d', limit)
            && Exposure(d') == Exposure(d) + |arguments|
            && Headcount(d') == Headcount(d) + 1
  {
    var d' := Placed(d, p, JobDoc(arguments));
    assert !Metadata(p).Drawn(d.next) && !Binary(p).Drawn(d.next);
    PlaceNew(d, d', limit, p, JobDoc(arguments));
    assert Unrecorded(d') == Unrecorded(d);
  }

  /** A recorded file keeps its inode and its charge when it moves into quarantine. */
  lemma MoveToQuarantine(d: Disk, limit: nat, p: Path)
    requires Inv(d, limit) && p in d.tree && p.IsRetained() && Metadata(p) in d.tree
    ensures Binary(p) !in d.tree
    ensures var d' := Renamed(d, p, Binary(p));
            Inv(d', limit) && Exposure(d') == Exposure(d) && Headcount(d') == Headcount(d)
  {
    var d' := Renamed(d, p, Binary(p));
    NotYetRetained(d, limit, p);
    assert LinkOk(d, Metadata(p));
    RenamedUntouched(d, d', limit, p);
    EditKeepsInv(d, d', limit, Binary(p));
    RenameLink(d.tree, Forecasts(d), Forecasts(d'), d.next, p, Binary(p));
    RenamedCounts(d, d', p);
  }

  lemma RenamedCounts(d: Disk, d': Disk, p: Path)
    requires p in d.tree && Metadata(p) in d.tree && Binary(p) !in d.tree && p.IsRetained()
    requires d' == Renamed(d, p, Binary(p))
    ensures Unrecorded(d') == Unrecorded(d) && Headcount(d') == Headcount(d)
  {
    assert d'.tree.Keys == d.tree.Keys - {p} + {Binary(p)};
    assert |d'.tree.Keys| == |d.tree.Keys|;
  }

  lemma RenamedUntouched(d: Disk, d': Disk, limit: nat, p: Path)
    requires Inv(d, limit) && p in d.tree && p.IsRetained() && Metadata(p) in d.tree && Binary(p) !in d.tree
    requires d' == Renamed(d, p, Binary(p))
    ensures d'.WellFormed() && d'.Holds(PolicyFile, PolicyDoc(limit))
    ensures forall x {:trigger Untouched(d, d', x)} :: x in d'.tree && x != Binary(p) ==> Untouched(d, d', x)
    ensures LinkOk(d', Binary(p)) && Forecast(d', Binary(p)) == Forecast(d, p)
  {
    assert LinkOk(d, Metadata(p));
    forall x | x in d'.tree && x != Binary(p)
      ensures Untouched(d, d', x)
    {
      assert LinkOk(d, x);
    }
  }

  /** Removing one link, given that no remaining link depends on it. */
  lemma RemoveOne(d: Disk, limit: nat, p: Path)
    requires Inv(d, limit) && p in d.tree && p != PolicyFile
    requires forall x :: x in d.tree && x != p ==> Untouched(d, Unlinked(d, p), x)
    ensures var d' := Unlinked(d, p);
            && Inv(d', limit)
            && Total(d'.tree, Forecasts(d'), d'.next) <= Total(d.tree, Forecasts(d), d.next)
            && (Forecast(d, p) == 0 || (exists q :: q in d.tree && q != p && d.tree[q] == d.tree[p] && Forecast(d, p) <= Forecast(d, q))
                ==> Total(d'.tree, Forecasts(d'), d'.next) == Total(d.tree, Forecasts(d), d.next))
            && |d'.tree| + 1 == |d.tree|
  {
    var d' := Unlinked(d, p);
    EditKeepsInv(d, d', limit, p);
    RemoveLink(d.tree, Forecasts(d), Forecasts(d'), d.next, p);
    if q :| q in d.tree && q != p && d.tree[q] == d.tree[p] && Forecast(d, p) <= Forecast(d, q) {
      assert Forecasts(d)[p] <= Forecasts(d)[q];
    }
    assert d'.tree.Keys == d.tree.Keys - {p};
  }

  lemma DropPending(d: Disk, limit: nat)
    requires Inv(d, limit) && PendingFile in d.tree && (forall p :: p in d.tree ==> !p.IsTemp())
    ensures var d' := Unlinked(d, PendingFile);
            Inv(d', limit) && Settled(d') && Exposure(d') == Exposure(d) && Headcount(d') == Headcount(d)
  {
    var d' := Unlinked(d, PendingFile);
    forall x | x in d.tree && x != PendingFile
      ensures Untouched(d, d', x)
    {
      assert LinkOk(d, x);
    }
    RemoveOne(d, limit, PendingFile);
    assert Unrecorded(d') == Unrecorded(d);
  }

  /** Publishing links the temporary's inode a second time, at the same charge. */
  lemma LinkArtifact(d: Disk, limit: nat, p: Path, name: ArtifactName, payload: Payload)
    requires Inv(d, limit) && p in d.tree && p.StoreTemp? && Artifact(p.store, name) !in d.tree
    requires d.At(p) == ArtifactBytes(payload) && 0 < |payload.bytes|
    requires PendingOf(d).Some? && RawSize(payload, name) == Some(PendingOf(d).value.raw)
    ensures var d' := Linked(d, p, Artifact(p.store, name));
            Inv(d', limit) && Exposure(d') == Exposure(d) && Headcount(d') == Headcount(d) + 1
  {
    var a := Artifact(p.store, name);
    var d' := Linked(d, p, a);
    LinkedUntouched(d, d', limit, p, a);
    LinkedForecast(d, d', limit, p, name, payload);
    EditKeepsInv(d, d', limit, a);
    AddLink(d.tree, Forecasts(d), Forecasts(d'), d.next, a, d.tree[p]);
    assert IsPeak(d.tree, Forecasts(d), d.tree[p], Peak(d.tree, Forecasts(d), d.tree[p]));
    assert Forecasts(d)[p] <= Peak(d.tree, Forecasts(d), d.tree[p]);
    assert Unrecorded(d') == Unrecorded(d);
  }

  lemma LinkedUntouched(d: Disk, d': Disk, limit: nat, p: Path, a: Path)
    requires Inv(d, limit) && p in d.tree && a.Artifact? && a !in d.tree && d' == Linked(d, p, a)
    ensures d'.WellFormed() && d'.Holds(PolicyFile, PolicyDoc(limit))
    ensures forall x {:trigger Untouched(d, d', x)} :: x in d'.tree && x != a ==> Untouched(d, d', x)
  {
    forall x | x in d'.tree && x != a
      ensures Untouched(d, d', x)
    {
      assert LinkOk(d, x);
    }
  }

  lemma LinkedForecast(d: Disk, d': Disk, limit: nat, p: Path, name: ArtifactName, payload: Payload)
    requires Inv(d, limit) && p in d.tree && p.StoreTemp? && Artifact(p.store, name) !in d.tree
    requires d.At(p) == ArtifactBytes(payload) && 0 < |payload.bytes|
    requires PendingOf(d).Some? && RawSize(payload, name) == Some(PendingOf(d).value.raw)
    requires d' == Linked(d, p, Artifact(p.store, name))
    ensures LinkOk(d', Artifact(p.store, name)) && Forecast(d', Artifact(p.store, name)) == Forecast(d, p)
  {
    assert LinkOk(d, p);
  }

  /** Removing the temporary of a published object frees only the reserve for its record. */
  lemma UnlinkTemp(d: Disk, limit: nat, p: Path, a: Path)
    requires Inv(d, limit) && p in d.tree && p.StoreTemp? && Metadata(p) !in d.tree
    requires a in d.tree && a.Artifact? && d.tree[a] == d.tree[p] && Forecast(d, p) <= Forecast(d, a)
    ensures var d' := Unlinked(d, p);
            && Inv(d', limit)
            && Exposure(d') + RECORD_ALLOWANCE == Exposure(d)
            && Headcount(d') + 2 == Headcount(d)
  {
    var d' := Unlinked(d, p);
    forall x | x in d.tree && x != p
      ensures Untouched(d, d', x)
    {
      assert LinkOk(d, x);
    }
    RemoveOne(d, limit, p);
    assert Unrecorded(d') == Unrecorded(d) - {p};
    assert p in Unrecorded(d);
  }

  /** A purge removes the retained bytes before their record, and only ever frees. */
  lemma PurgeOne(d: Disk, limit: nat, p: Path)
    requires Inv(d, limit) && Settled(d) && p in d.tree && (p.Binary? || (p.Metadata? && Binary(p.of) !in d.tree))
    ensures var d' := Unlinked(d, p);
            Inv(d', limit) && Settled(d') && Exposure(d') <= Exposure(d) && Headcount(d') + 1 == Headcount(d)
  {
    var d' := Unlinked(d, p);
    forall x | x in d.tree && x != p
      ensures Untouched(d, d', x)
    {
      assert LinkOk(d, x);
    }
    RemoveOne(d, limit, p);
    assert Unrecorded(d') == Unrecorded(d) == {};
  }

  /** The root directory once the pool has been initialised. */
  function Initial(limit: nat): Disk {
    Disk({}, map[PolicyFile := 0, ResourceLock := 1], map[0 := PolicyDoc(limit), 1 := Empty], 2)
  }

  lemma InitialIsSound(limit: nat)
    requires 0 < limit <= MAX_EXPERIMENT_RAW_BYTES
    ensures Inv(Initial(limit), limit) && Settled(Initial(limit)) && Jobs(Initial(limit)) == {}
  {
    PowersOfTen();
    assert Power10(11) == 10 * Power10(10);
    DigitsWithin(limit, 11);
    var d := Initial(limit);
    assert d.At(PolicyFile).Size() <= 314 && LinkOk(d, PolicyFile) && LinkOk(d, ResourceLock);
  }
}
