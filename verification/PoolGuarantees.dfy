/** What a pool does to single files and bytes, without the terms in which its steps are described. */
module PoolGuarantees {
  import opened Wrappers
  import opened LinkAccounting
  import opened Decimals
  import opened Disk
  import opened PoolState
  import opened PoolRecovery
  import opened PoolPublication
  import opened PoolUpkeep
  import opened PoolDocuments
  import opened ResourcePool
  import JsonText

  // Charges.

  predicate EndsWith(s: string, end: string) {
    |end| <= |s| && s[|s| - |end|..] == end
  }

  lemma EndsOtherwise(s: string, end: string)
    requires s != "" && end != "" && s[|s| - 1] != end[|end| - 1]
    ensures !EndsWith(s, end)
  {
    assert |end| <= |s| ==> s[|s| - |end|..][|end| - 1] == s[|s| - 1];
  }

  lemma CompressedByName(name: ArtifactName)
    ensures name.Compressed() <==> EndsWith(name.FileName(), ".gz")
  {
    var s := name.FileName();
    match name
    case Object(hash, shared, gz) =>
      var stem := "object-" + hash + (if shared then ".shared" else "") + ".json";
      if gz {
        assert s == stem + ".gz" && s[|s| - 3..] == ".gz";
      } else {
        assert s == stem + "" && s[|s| - 1] == 'n';
        EndsOtherwise(s, ".gz");
      }
    case Chunk(hash) =>
      assert s == "shared-" + hash + ".json" + ".gz" && s[|s| - 3..] == ".gz";
    case Slot(hash) =>
      assert s[|s| - 1] == 'n';
      EndsOtherwise(s, ".gz");
  }

  /** A published file is charged what its frame decodes to if its name ends in `.gz`, else what it stores. */
  lemma ArtifactIsCharged(d: Disk, limit: nat, a: Path)
    requires Inv(d, limit) && a in d.tree && a.Artifact?
    ensures d.At(a).ArtifactBytes?
    ensures var payload := d.At(a).payload;
            if EndsWith(a.name.FileName(), ".gz") then payload.frame.Some? && Charges(d)[a] == |payload.frame.value|
            else Charges(d)[a] == |payload.bytes|
  {
    assert LinkOk(d, a);
    CompressedByName(a.name);
  }

  /** A quarantined file is charged what its record says, and every other file its own bytes. */
  lemma OtherIsCharged(d: Disk, limit: nat, p: Path)
    requires Inv(d, limit) && p in d.tree && !p.Artifact?
    ensures p.Binary? ==>
              && Metadata(p.of) in d.tree && d.At(Metadata(p.of)).RecordDoc?
              && Charges(d)[p] == d.At(Metadata(p.of)).record.raw
    ensures p.PolicyFile? ==> Charges(d)[p] == |JsonText.CanonicalText(PolicyTree(limit))|
    ensures p.PendingFile? ==>
              d.At(p).PendingDoc? && Charges(d)[p] == |JsonText.CanonicalText(ReservationTree(d.At(p).reservation))|
    ensures p.Metadata? ==>
              && d.At(p).RecordDoc? && d.At(p).record.original.IsRetained()
              && Charges(d)[p] == |JsonText.CanonicalText(RecordTree(d.At(p).record))|
    ensures p.JobFile? ==> d.At(p).JobDoc? && Charges(d)[p] == |d.At(p).arguments|
    ensures p.IsTemp() ==> Charges(d)[p] == d.At(p).Size()
  {
    assert LinkOk(d, p);
    match p
    case PolicyFile => PolicyLength(limit);
    case PendingFile => ReservationLength(d.At(p).reservation);
    case Metadata(_) => RecordLength(d.At(p).record);
    case _ =>
  }

  /** The raw bytes of a payload under a name, if it has any. */
  function Weight(name: ArtifactName, payload: Payload): Option<nat> {
    if !EndsWith(name.FileName(), ".gz") then Some(|payload.bytes|)
    else if |payload.bytes| >= 18 && payload.frame.Some? then Some(|payload.frame.value|)
    else None
  }

  /**
   What an admission of a new object asks for: its raw bytes, the text of its reservation and 4096 bytes
   within the limit, and four more files.
   */
  lemma AdmissionAsks(d: Disk, limit: nat, store: StoreId, name: ArtifactName, payload: Payload)
    requires d.WellFormed()
    ensures Admits(d, limit, Artifact(store, name), payload) <==>
              && Artifact(store, name) !in d.tree
              && Weight(name, payload).Some? && 0 < Weight(name, payload).value <= 128_000_000
              && |d.tree| + 4 <= 100_000
              && var r := Reservation(store, name, Weight(name, payload).value, payload);
                 RawUsage(d) + r.raw + |JsonText.CanonicalText(ReservationTree(r))| + 4096 <= limit
  {
    CompressedByName(name);
    if Weight(name, payload).Some? {
      ReservationLength(Reservation(store, name, Weight(name, payload).value, payload));
    }
  }

  // Recovery.

  /** A job stays exactly while its owner lives and its deadline has not come. */
  lemma LivingJobsStay(d: Disk, d': Disk, limit: nat, now: Moment, owner: ProcessId, deadline: Nanos, id: nat)
    requires Recovered(d, d', limit, now) && JobFile(owner, deadline, id) in d.tree
    ensures JobFile(owner, deadline, id) in d'.tree <==> owner in now.live && now.monotonic < deadline
  {
    RecoveredFiles(d, d', limit, now, JobFile(owner, deadline, id));
  }

  /** A job that was filed, by a recovery or by its owner, is charged its arguments from then on. */
  lemma JobIsFiled(d: Disk, d': Disk, limit: nat, job: Path, wall: Nanos)
    requires Inv(d, limit) && Inv(d', limit) && Filed(d, d', job, wall) && job.JobFile?
    ensures job !in d'.tree && Binary(job) in d'.tree && d'.tree[Binary(job)] == d.tree[job]
    ensures Metadata(job) in d'.tree && d'.At(Metadata(job)).RecordDoc? && d.At(job).JobDoc?
    ensures var record := d'.At(Metadata(job)).record;
            && record.original == job && record.stored == d.At(job) && record.raw == |d.At(job).arguments|
            && (Metadata(job) !in d.tree ==> record.since == wall)
  {
    assert LinkOk(d, job) && LinkOk(d', Metadata(job));
  }

  lemma LapsedJobsAreFiled(d: Disk, d': Disk, limit: nat, now: Moment, owner: ProcessId, deadline: Nanos, id: nat)
    requires Recovered(d, d', limit, now) && JobFile(owner, deadline, id) in d.tree
    requires owner !in now.live || deadline <= now.monotonic
    ensures Filed(d, d', JobFile(owner, deadline, id), now.wall)
  {
    RecoveredFiles(d, d', limit, now, JobFile(owner, deadline, id));
  }

  /** Every leftover is in quarantine, charged the reservation of its writer or its own bytes, and dated now. */
  lemma LeftoversAreFiled(d: Disk, d': Disk, limit: nat, now: Moment, p: Path)
    requires Recovered(d, d', limit, now) && p in d.tree && p.IsTemp()
    ensures p !in d'.tree && Binary(p) in d'.tree && d'.tree[Binary(p)] == d.tree[p]
    ensures Metadata(p) in d'.tree && d'.At(Metadata(p)).RecordDoc?
    ensures var record := d'.At(Metadata(p)).record;
            && record.original == p && record.stored == d.At(p)
            && (p.StoreTemp? ==> PendingOf(d).Some? && record.raw == PendingOf(d).value.raw)
            && (!p.StoreTemp? ==> record.raw == d.At(p).Size())
            && (Metadata(p) !in d.tree ==> record.since == now.wall)
            && (Metadata(p) in d.tree ==> record == d.At(Metadata(p)).record)
  {
    RecoveredFiles(d, d', limit, now, p);
    assert LinkOk(d, p) && LinkOk(d', Metadata(p));
  }

  // Retention.

  /** A leftover, or a job whose owner is gone or whose deadline has come. */
  predicate LeftBehind(p: Path, now: Moment) {
    p.IsTemp() || (p.JobFile? && (p.owner !in now.live || p.deadline <= now.monotonic))
  }

  /** Filed by a recovery at `now`: in quarantine under a record of that time. */
  ghost predicate FiledAt(d: Disk, p: Path, now: Moment) {
    && Binary(p) in d.tree && Metadata(p) in d.tree && d.tree[Metadata(p)] in d.files
    && d.At(Metadata(p)).RecordDoc? && d.At(Metadata(p)).record.since == now.wall
  }

  ghost predicate AllFiledAt(start: Disk, d: Disk, now: Moment) {
    forall p {:trigger FiledAt(d, p, now)} :: p in start.tree && LeftBehind(p, now) && Metadata(p) !in start.tree ==> FiledAt(d, p, now)
  }

  /** No retained file is gone that was filed less than a day ago. */
  predicate StillFiled(d: Disk, p: Path) {
    Binary(p) in d.tree && Metadata(p) in d.tree
  }

  ghost predicate AllStillFiled(start: Disk, d: Disk, now: Moment) {
    forall p {:trigger StillFiled(d, p)} :: p in start.tree && LeftBehind(p, now) && Metadata(p) !in start.tree ==> StillFiled(d, p)
  }

  predicate Gone(d: Disk, p: Path) {
    Binary(p) !in d.tree && Metadata(p) !in d.tree
  }

  ghost predicate AllGone(start: Disk, d: Disk, now: Moment) {
    forall p {:trigger Gone(d, p)} :: p in start.tree && LeftBehind(p, now) && Metadata(p) !in start.tree ==> Gone(d, p)
  }

  lemma RecoveryFiles(d: Disk, d': Disk, limit: nat, now: Moment)
    requires Recovered(d, d', limit, now)
    ensures AllFiledAt(d, d', now)
  {
    forall p | p in d.tree && LeftBehind(p, now) && Metadata(p) !in d.tree
      ensures FiledAt(d', p, now)
    {
      LeftIsFiled(d, d', limit, now, p);
    }
  }

  lemma LeftIsFiled(d: Disk, d': Disk, limit: nat, now: Moment, p: Path)
    requires Recovered(d, d', limit, now) && p in d.tree && LeftBehind(p, now) && Metadata(p) !in d.tree
    ensures FiledAt(d', p, now)
  {
    RecoveredFiles(d, d', limit, now, p);
    FiledIsDated(d, d', p, now);
  }

  lemma FiledIsDated(d: Disk, d': Disk, p: Path, now: Moment)
    requires Filed(d, d', p, now.wall) && Metadata(p) !in d.tree
    ensures FiledAt(d', p, now)
  {
  }

  lemma YoungStays(start: Disk, d: Disk, d': Disk, now: Moment, cutoff: int)
    requires AllFiledAt(start, d, now) && KeepsYoung(d, d', cutoff) && cutoff < now.wall
    ensures AllStillFiled(start, d', now)
  {
    forall p | p in start.tree && LeftBehind(p, now) && Metadata(p) !in start.tree
      ensures StillFiled(d', p)
    {
      assert FiledAt(d, p, now);
      assert Young(d, Metadata(p), cutoff) && Young(d, Binary(p), cutoff);
    }
  }

  lemma OldGoes(start: Disk, d: Disk, e: Disk, d': Disk, now: Moment, cutoff: int)
    requires e.WellFormed() && AllFiledAt(start, d, now) && KeepsQuarantine(d, e) && KeepsObjects(d, e) && now.wall as int <= cutoff
    requires d' == Without(e, Purged(e, Records(e), cutoff))
    ensures AllGone(start, d', now)
  {
    forall p | p in start.tree && LeftBehind(p, now) && Metadata(p) !in start.tree
      ensures Gone(d', p)
    {
      assert FiledAt(d, p, now);
      assert Metadata(p) in Records(e) && e.At(Metadata(p)) == d.At(Metadata(p));
      assert Expired(e, Metadata(p), cutoff);
    }
  }

  /**
   What a recovery files stays for a day: no purge before that takes it, wherever the purge
   stops, and a purge that completes after that takes it.
   */
  method RecoverThenPurge(pool: LocalRobustnessResourcePool, now: Moment, later: Moment, calls: nat)
    returns (recovered: Outcome, purged: Outcome)
    requires Inv(pool.disk, pool.limit)
    modifies pool
    ensures recovered.Done? && later.wall < now.wall + 86_400 * 1_000_000_000 ==>
              AllStillFiled(old(pool.disk), pool.disk, now)
    ensures recovered.Done? && purged.Done? && now.wall + 86_400 * 1_000_000_000 <= later.wall ==>
              AllGone(old(pool.disk), pool.disk, now)
  {
    recovered := pool.Reconcile(now);
    purged := recovered;
    if recovered.Done? {
      ghost var d := pool.disk;
      ghost var cutoff := later.wall as int - RETENTION_NS;
      RecoveryFiles(old(pool.disk), d, pool.limit, now);
      pool.fuel := calls;
      var removed;
      ghost var e;
      purged, removed, e := pool.Purge(later);
      if cutoff < now.wall as int {
        YoungStays(old(pool.disk), d, pool.disk, now, cutoff);
      } else if purged.Done? {
        OldGoes(old(pool.disk), d, e, pool.disk, now, cutoff);
      }
    }
  }

  /** What an admission of a job asks for: its arguments and 4096 bytes within the limit, and four more files. */
  lemma JobAdmissionAsks(d: Disk, limit: nat, arguments: seq<Byte>)
    requires Inv(d, limit) && Settled(d)
    ensures JobAdmitted(d, limit, arguments) <==>
              && 0 < |arguments| <= 128_000_000 && |d.tree| + 4 <= 100_000
              && RawUsage(d) + |arguments| + 4096 <= limit
  {
  }

  /** On the device an inode takes what any of its links shows, and one without links takes nothing. */
  lemma PhysicalIsStored(d: Disk, inode: nat)
    requires d.WellFormed()
    ensures (forall p :: p in d.tree && d.tree[p] == inode ==> Peak(d.tree, Sizes(d), inode) == d.At(p).Size())
    ensures (forall p :: p in d.tree ==> d.tree[p] != inode) ==> Peak(d.tree, Sizes(d), inode) == 0
  {
  }
}
