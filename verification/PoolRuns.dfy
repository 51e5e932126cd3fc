/** Whole runs of a pool: any operations in any order, each with a crash anywhere. */
module PoolRuns {
  import opened Wrappers
  import opened LinkAccounting
  import opened Disk
  import opened PoolState
  import opened PoolRecovery
  import opened PoolPublication
  import opened PoolUpkeep
  import opened ResourcePool

  datatype Command =
    | OpenStore(store: StoreId)
    | Look(now: Moment)
    | Put(store: StoreId, name: ArtifactName, payload: Payload, before: Moment, after: Moment)
    | Begin(arguments: seq<Byte>, owner: ProcessId, deadline: Nanos, stopsEarly: bool, stopsLate: bool, now: Moment)
    | Finish(owner: ProcessId, deadline: Nanos, id: nat, arguments: seq<Byte>, now: Moment)
    | Clean(now: Moment)
  {
    /** The reservation of this publication, if it makes one, can be read back. */
    predicate Reads() {
      Put? ==> |payload.bytes| <= MAX_RAW_BYTES
    }
  }

  /** One operation and the number of its system calls that a crash leaves. */
  datatype Step = Step(command: Command, calls: nat)

  function Begun(script: seq<Step>): nat {
    if script == [] then 0 else Begun(script[..|script| - 1]) + (if script[|script| - 1].command.Begin? then 1 else 0)
  }

  /** What any run keeps, and what it owes after `begun` jobs and `crashes` crashes. */
  ghost predicate Sound(d: Disk, d': Disk, limit: nat, begun: nat, crashes: nat) {
    && d.WellFormed() && Inv(d', limit) && KeepsObjects(d, d')
    && |Jobs(d')| <= |Jobs(d)| + begun
    && Liability(d') <= Ceiling(d, limit) + RECORD_ALLOWANCE * (begun + 2 * crashes)
    && FileLiability(d') <= FileCeiling(d) + begun + 2 * crashes
  }

  lemma SoundThen(d: Disk, e: Disk, f: Disk, limit: nat, begun: nat, crashes: nat, more: set<Path>, crashed: bool)
    requires Sound(d, e, limit, begun, crashes) && Inv(f, limit) && KeepsObjects(e, f)
    requires Bounded(e, f, limit, crashed) && Jobs(f) <= Jobs(e) + more
    ensures Sound(d, f, limit, begun + |more|, crashes + if crashed then 1 else 0)
  {
    MoreJobs(e, f, more);
    KeptThrough(d, e, f);
    DebtGrows(Liability(d), Liability(e), Liability(f), limit, |Jobs(d)|, |Jobs(e)|, begun, crashes, |more|, if crashed then 1 else 0);
  }

  lemma KeptThrough(d: Disk, e: Disk, f: Disk)
    requires KeepsObjects(d, e) && KeepsObjects(e, f)
    ensures KeepsObjects(d, f)
  {
  }

  lemma DebtGrows(ld: nat, le: nat, lf: nat, limit: nat, jd: nat, je: nat, begun: nat, crashes: nat, more: nat, once: nat)
    requires je <= jd + begun
    requires le <= Max(ld, limit + RECORD_ALLOWANCE * jd) + RECORD_ALLOWANCE * (begun + 2 * crashes)
    requires lf <= Max(le, limit + RECORD_ALLOWANCE * je) + RECORD_ALLOWANCE * (2 * once)
    ensures lf <= Max(ld, limit + RECORD_ALLOWANCE * jd) + RECORD_ALLOWANCE * (begun + more + 2 * (crashes + once))
  {
  }

  lemma MoreJobs(e: Disk, f: Disk, more: set<Path>)
    requires Jobs(f) <= Jobs(e) + more
    ensures |Jobs(f)| <= |Jobs(e)| + |more|
  {
    var both := Jobs(e) + more;
    assert both == Jobs(f) + (both - Jobs(f));
    assert |both| == |Jobs(f)| + |both - Jobs(f)|;
    assert both == Jobs(e) + (more - Jobs(e));
    assert more == (more - Jobs(e)) + (more * Jobs(e));
    assert |more| == |more - Jobs(e)| + |more * Jobs(e)|;
  }

  lemma Unbegun(d: Disk, limit: nat)
    requires Inv(d, limit)
    ensures Sound(d, d, limit, 0, 0)
  {
  }

  /** The new published names of a run all come from its publications, with their whole payload. */
  predicate AnyPuts(script: seq<Step>, d: Disk, a: Path) {
    exists k :: 0 <= k < |script| && Puts(script[k].command, d, a)
  }

  predicate Puts(c: Command, d: Disk, a: Path) {
    c.Put? && a == Artifact(c.store, c.name) && Shows(d, a, c.payload)
  }

  ghost predicate NewArePut(script: seq<Step>, d: Disk, d': Disk) {
    forall a {:trigger AnyPuts(script, d', a)} :: a in d'.tree && a.Artifact? && a !in d.tree ==> AnyPuts(script, d', a)
  }

  lemma NewArePutThen(script: seq<Step>, step: Step, d: Disk, e: Disk, f: Disk)
    requires NewArePut(script, d, e) && KeepsObjects(e, f)
    requires forall a :: a in f.tree && a.Artifact? && a !in e.tree ==> Puts(step.command, f, a)
    ensures NewArePut(script + [step], d, f)
  {
    var longer := script + [step];
    forall a | a in f.tree && a.Artifact? && a !in d.tree
      ensures AnyPuts(longer, f, a)
    {
      if a in e.tree {
        assert AnyPuts(script, e, a);
        var k :| 0 <= k < |script| && Puts(script[k].command, e, a);
        assert longer[k] == script[k] && Puts(longer[k].command, f, a);
      } else {
        assert longer[|script|] == step;
      }
    }
  }

  method Execute(pool: LocalRobustnessResourcePool, step: Step) returns (r: Outcome, ghost begun: set<Path>)
    requires Inv(pool.disk, pool.limit)
    modifies pool
    ensures Inv(pool.disk, pool.limit) && KeepsObjects(old(pool.disk), pool.disk)
    ensures Bounded(old(pool.disk), pool.disk, pool.limit, r.Crashed?)
    ensures Jobs(pool.disk) <= Jobs(old(pool.disk)) + begun && |begun| == if step.command.Begin? then 1 else 0
    ensures step.command.Reads() && Readable(old(pool.disk)) ==> Readable(pool.disk)
    ensures forall a :: a in pool.disk.tree && a.Artifact? && a !in old(pool.disk).tree ==> Puts(step.command, pool.disk, a)
  {
    pool.fuel := step.calls;
    begun := {};
    match step.command
    case OpenStore(store) =>
      r := pool.StoreRoot(store);
      AnyCrash(old(pool.disk), pool.disk, pool.limit, r.Crashed?);
    case Look(now) =>
      var usage;
      r, usage := pool.Inspect(now);
    case Put(store, name, payload, before, after) =>
      ghost var admitted, recovered;
      r, admitted, recovered := pool.Publish(store, name, payload, before, after);
    case Begin(arguments, owner, deadline, stopsEarly, stopsLate, now) =>
      var job;
      ghost var recovered;
      r, job, recovered := pool.PrepareJob(arguments, owner, deadline, stopsEarly, stopsLate, now);
      begun := {job};
    case Finish(owner, deadline, id, arguments, now) =>
      r := pool.RetireJob(JobFile(owner, deadline, id), arguments, now);
    case Clean(now) =>
      var removed;
      ghost var recovered;
      r, removed, recovered := pool.Purge(now);
  }

  predicate AllRead(script: seq<Step>) {
    forall s :: s in script ==> s.command.Reads()
  }

  ghost predicate RunSoFar(d: Disk, d': Disk, limit: nat, script: seq<Step>, crashes: nat) {
    && Sound(d, d', limit, Begun(script), crashes) && crashes <= |script|
    && NewArePut(script, d, d') && (AllRead(script) && Readable(d) ==> Readable(d'))
  }

  lemma RunStarts(d: Disk, limit: nat)
    requires Inv(d, limit)
    ensures RunSoFar(d, d, limit, [], 0)
  {
    Unbegun(d, limit);
  }

  lemma RunStep(d: Disk, e: Disk, f: Disk, limit: nat, script: seq<Step>, crashes: nat, step: Step, begun: set<Path>, crashed: bool)
    requires RunSoFar(d, e, limit, script, crashes) && Inv(f, limit) && KeepsObjects(e, f)
    requires Bounded(e, f, limit, crashed)
    requires Jobs(f) <= Jobs(e) + begun && |begun| == if step.command.Begin? then 1 else 0
    requires step.command.Reads() && Readable(e) ==> Readable(f)
    requires forall a :: a in f.tree && a.Artifact? && a !in e.tree ==> Puts(step.command, f, a)
    ensures RunSoFar(d, f, limit, script + [step], crashes + if crashed then 1 else 0)
  {
    NewArePutThen(script, step, d, e, f);
    SoundThen(d, e, f, limit, Begun(script), crashes, begun, crashed);
    BegunThen(script, step);
    ReadsThen(script, step);
  }

  lemma ReadsThen(script: seq<Step>, step: Step)
    ensures AllRead(script + [step]) ==> AllRead(script) && step.command.Reads()
  {
    assert forall s :: s in script ==> s in script + [step];
    assert step in script + [step];
  }

  lemma BegunThen(script: seq<Step>, step: Step)
    ensures Begun(script + [step]) == Begun(script) + if step.command.Begin? then 1 else 0
  {
    assert (script + [step])[..|script|] == script;
  }

  /**
   Every run from any consistent disk: the disk stays consistent, nothing published is lost
   or altered, and what a recovery would be charged exceeds the limit by no more than a
   record for each job begun and a record and its temporary for each crash.
   */
  method Run(pool: LocalRobustnessResourcePool, script: seq<Step>) returns (crashes: nat)
    requires Inv(pool.disk, pool.limit)
    modifies pool
    ensures RunSoFar(old(pool.disk), pool.disk, pool.limit, script, crashes)
  {
    crashes := 0;
    RunStarts(pool.disk, pool.limit);
    for k := 0 to |script|
      invariant RunSoFar(old(pool.disk), pool.disk, pool.limit, script[..k], crashes)
    {
      OneStepMore(script, k);
      crashes := RunOne(pool, script[k], crashes, old(pool.disk), script[..k]);
    }
    assert script[..|script|] == script;
  }

  lemma OneStepMore(script: seq<Step>, k: nat)
    requires k < |script|
    ensures script[..k + 1] == script[..k] + [script[k]]
  {
  }

  method RunOne(pool: LocalRobustnessResourcePool, step: Step, crashes: nat, ghost start: Disk, ghost script: seq<Step>)
    returns (crashes': nat)
    requires Inv(pool.disk, pool.limit) && RunSoFar(start, pool.disk, pool.limit, script, crashes)
    modifies pool
    ensures RunSoFar(start, pool.disk, pool.limit, script + [step], crashes')
  {
    ghost var e := pool.disk;
    ghost var begun;
    var r;
    r, begun := Execute(pool, step);
    RunStep(start, e, pool.disk, pool.limit, script, crashes, step, begun, r.Crashed?);
    crashes' := crashes + if r.Crashed? then 1 else 0;
  }

  /**
   A publication that was admitted and then crashed anywhere, and one uninterrupted recovery,
   with no job ending in between: the audit succeeds and the quota holds.
   */
  method PublishThenRecover(pool: LocalRobustnessResourcePool, store: StoreId, name: ArtifactName, payload: Payload,
                            before: Moment, after: Moment, later: Moment)
    returns (published: Outcome, recovered: Outcome, audited: Outcome, usage: Tally, ghost admitted: bool)
    requires Inv(pool.disk, pool.limit)
    requires NoneLapses(pool.disk, before, after) && NoneLapses(pool.disk, before, later)
    modifies pool
    ensures Inv(pool.disk, pool.limit) && KeepsObjects(old(pool.disk), pool.disk)
    ensures admitted && |payload.bytes| <= MAX_RAW_BYTES ==>
              && !published.Raised? && recovered.Done? && audited.Done?
              && usage.raw <= pool.limit && usage.files <= MAX_RESOURCE_FILES
  {
    ghost var start;
    published, admitted, start := pool.Publish(store, name, payload, before, after);
    ghost var d := pool.disk;
    pool.fuel := 4 * |Work(pool.disk, later)| + 1;
    recovered := pool.Reconcile(later);
    if recovered.Done? {
      SettledIsAuditable(pool.disk, pool.limit);
      if admitted && |payload.bytes| <= MAX_RAW_BYTES {
        NoneLapsesLater(old(pool.disk), d, before, later);
        WithinQuotaAfter(d, pool.disk, pool.limit, later);
      }
    }
    audited, usage := pool.Usage();
  }

  lemma WithinQuotaAfter(d: Disk, e: Disk, limit: nat, now: Moment)
    requires d.WellFormed() && e.WellFormed() && WithinQuota(d, limit) && LapsedJobs(d, now) == {}
    requires Carries(d, e, now, false) && Settled(e)
    ensures RawUsage(e) <= limit && |e.tree| <= MAX_RESOURCE_FILES
  {
    assert Jobs(d) - {} == Jobs(d);
    assert Jobs(e) == Jobs(d);
    SettledExposure(e);
  }

  lemma AnyCrash(d: Disk, e: Disk, limit: nat, crashed: bool)
    requires d.WellFormed() && e.WellFormed() && Bounded(d, e, limit, false)
    ensures Bounded(d, e, limit, crashed)
  {
  }
}
