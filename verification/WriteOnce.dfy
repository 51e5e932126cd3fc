/**
 Any number of unlocked publishers over one directory. Each of them checks the name, writes a
 temporary, links it, compares on a lost race and removes the temporary; each may crash between
 any two of these steps, and in the middle of the write. Steps interleave in any order.
 */
module WriteOnce {
  import opened Wrappers

  const MAX_BYTES: nat := 128_000_000

  type Bytes = seq<bv8>

  /** A temporary is named after the inode it was created with. */
  datatype File = Visible(name: string) | Temporary(id: nat)

  datatype Code = SizeLimit | Conflict | NotFound

  datatype Phase =
    | Starting
    | Creating
    | Writing(inode: nat)
    | Linking(inode: nat)
    | Comparing(inode: nat)
    | Removing(inode: nat, verdict: Option<Code>)
    | Returned
    | Failed(code: Code)
    | Crashed
  {
    predicate IsLive() {
      !Returned? && !Failed? && !Crashed?
    }

    /** The phases in which the publisher has a temporary. */
    predicate Owns() {
      Writing? || Linking? || Comparing? || Removing?
    }
  }

  datatype Publisher = Publisher(name: string, payload: Bytes, phase: Phase)

  datatype State = State(dir: map<File, nat>, files: map<nat, Bytes>, next: nat, publishers: seq<Publisher>)

  /** A publisher runs its next system call, or crashes; in a write, after `written` bytes. */
  datatype Event = Go | Crash(written: nat)

  predicate SizeOk(payload: Bytes) {
    0 < |payload| <= MAX_BYTES
  }

  predicate Shows(s: State, name: string) {
    Visible(name) in s.dir && s.dir[Visible(name)] in s.files
  }

  function Content(s: State, name: string): Bytes
    requires Shows(s, name)
  {
    s.files[s.dir[Visible(name)]]
  }

  function Moved(s: State, i: nat, phase: Phase): State
    requires i < |s.publishers|
  {
    s.(publishers := s.publishers[i := s.publishers[i].(phase := phase)])
  }

  /** What comparing a visible name with a payload finds; a content of a bad size is refused. */
  function Compared(s: State, name: string, payload: Bytes): Option<Code> {
    if !Shows(s, name) then Some(NotFound)
    else if !SizeOk(Content(s, name)) then Some(SizeLimit)
    else if Content(s, name) != payload then Some(Conflict)
    else None
  }

  function Ended(verdict: Option<Code>): Phase {
    match verdict
    case None => Returned
    case Some(code) => Failed(code)
  }

  function Step(s: State, i: nat, e: Event): State
    requires i < |s.publishers|
  {
    var p := s.publishers[i];
    if !p.phase.IsLive() then s
    else if e.Crash? then
      if p.phase.Writing? && e.written <= |p.payload| then
        Moved(s.(files := s.files[p.phase.inode := p.payload[..e.written]]), i, Crashed)
      else Moved(s, i, Crashed)
    else
      match p.phase
      case Starting =>
        if !SizeOk(p.payload) then Moved(s, i, Failed(SizeLimit))
        else if Shows(s, p.name) then Moved(s, i, Ended(Compared(s, p.name, p.payload)))
        else Moved(s, i, Creating)
      case Creating =>
        Moved(s.(dir := s.dir[Temporary(s.next) := s.next], files := s.files[s.next := []], next := s.next + 1), i, Writing(s.next))
      case Writing(inode) =>
        Moved(s.(files := s.files[inode := p.payload]), i, Linking(inode))
      case Linking(inode) =>
        if Visible(p.name) in s.dir then Moved(s, i, Comparing(inode))
        else Moved(s.(dir := s.dir[Visible(p.name) := inode]), i, Removing(inode, None))
      case Comparing(inode) =>
        Moved(s, i, Removing(inode, Compared(s, p.name, p.payload)))
      case Removing(inode, verdict) =>
        Moved(s.(dir := s.dir - {Temporary(inode)}), i, Ended(verdict))
      case _ => s
  }

  /** Who moves next, and how. */
  type Schedule = seq<(nat, Event)>

  predicate For(schedule: Schedule, n: nat) {
    forall m :: m in schedule ==> m.0 < n
  }

  function Run(s: State, schedule: Schedule): (r: State)
    requires For(schedule, |s.publishers|)
    ensures |r.publishers| == |s.publishers|
  {
    if schedule == [] then s
    else Step(Run(s, schedule[..|schedule| - 1]), schedule[|schedule| - 1].0, schedule[|schedule| - 1].1)
  }

  /** A directory of finished files, before any publisher has moved. */
  ghost predicate Initial(s: State) {
    && (forall f :: f in s.dir ==> s.dir[f] in s.files)
    && (forall i :: i in s.files ==> i < s.next)
    && (forall n: nat :: Temporary(n) in s.dir ==> n < s.next)
    && forall i :: 0 <= i < |s.publishers| ==> s.publishers[i].phase == Starting
  }

  /** The name shows the publisher's payload. */
  predicate Same(s: State, p: Publisher) {
    SizeOk(p.payload) && Shows(s, p.name) && Content(s, p.name) == p.payload
  }

  /** The name shows something else. */
  predicate Different(s: State, p: Publisher) {
    SizeOk(p.payload) && Shows(s, p.name) && SizeOk(Content(s, p.name)) && Content(s, p.name) != p.payload
  }

  /** What a publisher's phase says about the directory. */
  predicate PhaseOk(s: State, p: Publisher) {
    match p.phase
    case Linking(inode) => SizeOk(p.payload) && inode in s.files && s.files[inode] == p.payload
    case Comparing(inode) => SizeOk(p.payload) && Shows(s, p.name)
    case Removing(_, Some(NotFound)) => false
    case Failed(NotFound) => false
    case Removing(_, None) => Same(s, p)
    case Removing(_, Some(Conflict)) => Different(s, p)
    case Removing(_, Some(SizeLimit)) => SizeOk(p.payload) && Shows(s, p.name) && !SizeOk(Content(s, p.name))
    case Returned => Same(s, p)
    case Failed(Conflict) => Different(s, p)
    case Failed(SizeLimit) => !SizeOk(p.payload) || (Shows(s, p.name) && !SizeOk(Content(s, p.name)))
    case Creating => SizeOk(p.payload)
    case Writing(_) => SizeOk(p.payload)
    case _ => true
  }

  /** A publisher owns its temporary: it is the only name of the inode while it is being written. */
  predicate Owned(s: State, p: Publisher) {
    p.phase.Owns() ==>
      && Temporary(p.phase.inode) in s.dir && s.dir[Temporary(p.phase.inode)] == p.phase.inode
      && p.phase.inode in s.files
      && (p.phase.Writing? ==> SizeOk(p.payload) && forall f :: f in s.dir && s.dir[f] == p.phase.inode ==> f == Temporary(p.phase.inode))
  }

  ghost predicate Inv(s: State) {
    && (forall f :: f in s.dir ==> s.dir[f] in s.files)
    && (forall i :: i in s.files ==> i < s.next)
    && (forall n: nat :: Temporary(n) in s.dir ==> n < s.next)
    && (forall i {:trigger s.publishers[i]} :: 0 <= i < |s.publishers| ==> PhaseOk(s, s.publishers[i]) && Owned(s, s.publishers[i]))
    && (forall i, j {:trigger s.publishers[i], s.publishers[j]} ::
          0 <= i < |s.publishers| && 0 <= j < |s.publishers| && i != j
          && s.publishers[i].phase.Owns() && s.publishers[j].phase.Owns() ==>
            s.publishers[i].phase.inode != s.publishers[j].phase.inode)
  }

  /** A visible name keeps its inode and its content. */
  ghost predicate Keeps(s: State, s': State) {
    forall name :: Shows(s, name) ==> Shows(s', name) && Content(s', name) == Content(s, name)
  }

  lemma StepKeeps(s: State, i: nat, e: Event)
    requires Inv(s) && i < |s.publishers|
    ensures Keeps(s, Step(s, i, e))
  {
    var p, s' := s.publishers[i], Step(s, i, e);
    assert PhaseOk(s, p) && Owned(s, p);
    forall name | Shows(s, name)
      ensures Shows(s', name) && Content(s', name) == Content(s, name)
    {
      assert p.phase.Writing? ==> Visible(name) != Temporary(p.phase.inode);
    }
  }

  /** A step of one publisher leaves what every other one relies on. */
  lemma OthersStay(s: State, i: nat, e: Event, j: nat)
    requires Inv(s) && i < |s.publishers| && j < |s.publishers| && i != j
    ensures var s' := Step(s, i, e);
            s'.publishers[j] == s.publishers[j] && PhaseOk(s', s.publishers[j]) && Owned(s', s.publishers[j])
  {
    StepKeeps(s, i, e);
    var p, q, s' := s.publishers[i], s.publishers[j], Step(s, i, e);
    assert PhaseOk(s, p) && Owned(s, p) && PhaseOk(s, q) && Owned(s, q);
    assert Shows(s, q.name) ==> Shows(s', q.name) && Content(s', q.name) == Content(s, q.name);
  }

  lemma SelfMoves(s: State, i: nat, e: Event)
    requires Inv(s) && i < |s.publishers|
    ensures var s' := Step(s, i, e); PhaseOk(s', s'.publishers[i]) && Owned(s', s'.publishers[i])
    ensures var p, p' := s.publishers[i].phase, Step(s, i, e).publishers[i].phase;
            p'.Owns() ==> p'.inode == if p.Owns() then p.inode else s.next
  {
    var p := s.publishers[i];
    assert PhaseOk(s, p) && Owned(s, p);
  }

  lemma DirectoryStays(s: State, i: nat, e: Event)
    requires Inv(s) && i < |s.publishers|
    ensures var s' := Step(s, i, e);
            && (forall f :: f in s'.dir ==> s'.dir[f] in s'.files)
            && (forall n :: n in s'.files ==> n < s'.next)
            && (forall n: nat :: Temporary(n) in s'.dir ==> n < s'.next)
            && s.next <= s'.next && forall n :: n in s.files ==> n in s'.files
  {
    assert Owned(s, s.publishers[i]);
  }

  lemma OwnersDiffer(s: State, i: nat, e: Event)
    requires Inv(s) && i < |s.publishers|
    ensures var ps := Step(s, i, e).publishers;
            forall j, k {:trigger ps[j], ps[k]} ::
              0 <= j < |ps| && 0 <= k < |ps| && j != k && ps[j].phase.Owns() && ps[k].phase.Owns() ==>
                ps[j].phase.inode != ps[k].phase.inode
  {
    SelfMoves(s, i, e);
    var ps := Step(s, i, e).publishers;
    forall k | 0 <= k < |ps| && k != i && ps[k].phase.Owns() && ps[i].phase.Owns()
      ensures ps[k] == s.publishers[k] && ps[k].phase.inode != ps[i].phase.inode
    {
      assert Owned(s, s.publishers[k]);
      assert s.publishers[i].phase.Owns() ==> s.publishers[i].phase.inode != s.publishers[k].phase.inode;
    }
  }

  lemma StepKeepsInv(s: State, i: nat, e: Event)
    requires Inv(s) && i < |s.publishers|
    ensures Inv(Step(s, i, e))
  {
    var s' := Step(s, i, e);
    DirectoryStays(s, i, e);
    OwnersDiffer(s, i, e);
    SelfMoves(s, i, e);
    forall j | 0 <= j < |s.publishers|
      ensures PhaseOk(s', s'.publishers[j]) && Owned(s', s'.publishers[j])
    {
      if j != i {
        OthersStay(s, i, e, j);
      }
    }
  }

  lemma {:induction false} RunKeepsInv(s: State, schedule: Schedule)
    requires Initial(s) && For(schedule, |s.publishers|)
    ensures Inv(Run(s, schedule))
  {
    if schedule != [] {
      var before, last := schedule[..|schedule| - 1], schedule[|schedule| - 1];
      RunKeepsInv(s, before);
      StepKeepsInv(Run(s, before), last.0, last.1);
    }
  }

  lemma {:induction false} RunSplits(s: State, first: Schedule, rest: Schedule)
    requires For(first + rest, |s.publishers|)
    ensures For(first, |s.publishers|) && For(rest, |s.publishers|)
    ensures Run(s, first + rest) == Run(Run(s, first), rest)
  {
    assert forall m :: m in first ==> m in first + rest;
    assert forall m :: m in rest ==> m in first + rest;
    if rest == [] {
      assert first + rest == first;
    } else {
      var shorter := rest[..|rest| - 1];
      assert (first + rest)[..|first + rest| - 1] == first + shorter;
      assert forall m :: m in first + shorter ==> m in first + rest;
      RunSplits(s, first, shorter);
    }
  }

  /** A publisher keeps its name and payload, and its verdict once it has one. */
  predicate SamePublisher(p: Publisher, p': Publisher) {
    p'.name == p.name && p'.payload == p.payload && (!p.phase.IsLive() ==> p' == p)
  }

  lemma StepSamePublisher(s: State, i: nat, e: Event, j: nat)
    requires i < |s.publishers| && j < |s.publishers|
    ensures SamePublisher(s.publishers[j], Step(s, i, e).publishers[j])
  {
  }

  lemma {:induction false} RunSamePublisher(s: State, schedule: Schedule, j: nat)
    requires For(schedule, |s.publishers|) && j < |s.publishers|
    ensures SamePublisher(s.publishers[j], Run(s, schedule).publishers[j])
  {
    if schedule != [] {
      var before, last := schedule[..|schedule| - 1], schedule[|schedule| - 1];
      RunSamePublisher(s, before, j);
      StepSamePublisher(Run(s, before), last.0, last.1, j);
    }
  }

  lemma {:induction false} RunKeeps(s: State, schedule: Schedule)
    requires Inv(s) && For(schedule, |s.publishers|)
    ensures Inv(Run(s, schedule)) && Keeps(s, Run(s, schedule))
  {
    if schedule != [] {
      var before, last := schedule[..|schedule| - 1], schedule[|schedule| - 1];
      RunKeeps(s, before);
      StepKeepsInv(Run(s, before), last.0, last.1);
      StepKeeps(Run(s, before), last.0, last.1);
    }
  }

  /** A name once visible shows the same content for ever. */
  lemma VisibleForEver(s: State, first: Schedule, rest: Schedule, name: string)
    requires Initial(s) && For(first + rest, |s.publishers|) && For(first, |s.publishers|) && Shows(Run(s, first), name)
    ensures Shows(Run(s, first + rest), name) && Content(Run(s, first + rest), name) == Content(Run(s, first), name)
  {
    RunSplits(s, first, rest);
    RunKeepsInv(s, first);
    RunKeeps(Run(s, first), rest);
  }

  /** A publisher that returned finds its own payload under its name at any later time. */
  lemma ReturnedMeansPublished(s: State, first: Schedule, rest: Schedule, i: nat)
    requires Initial(s) && For(first + rest, |s.publishers|) && For(first, |s.publishers|) && i < |s.publishers|
    requires Run(s, first).publishers[i].phase == Returned
    ensures var p := s.publishers[i];
            Shows(Run(s, first + rest), p.name) && Content(Run(s, first + rest), p.name) == p.payload
  {
    RunKeepsInv(s, first);
    RunSamePublisher(s, first, i);
    assert PhaseOk(Run(s, first), Run(s, first).publishers[i]);
    VisibleForEver(s, first, rest, s.publishers[i].name);
  }

  /** Two publishers of different payloads under one name never both return. */
  lemma OnePayloadPerName(s: State, schedule: Schedule, i: nat, j: nat)
    requires Initial(s) && For(schedule, |s.publishers|) && i < |s.publishers| && j < |s.publishers|
    requires s.publishers[i].name == s.publishers[j].name
    requires Run(s, schedule).publishers[i].phase == Returned && Run(s, schedule).publishers[j].phase == Returned
    ensures s.publishers[i].payload == s.publishers[j].payload
  {
    assert schedule + [] == schedule;
    ReturnedMeansPublished(s, schedule, [], i);
    ReturnedMeansPublished(s, schedule, [], j);
  }

  /** A conflict is only ever reported against a different content, which stays. */
  lemma ConflictMeansOtherContent(s: State, schedule: Schedule, i: nat)
    requires Initial(s) && For(schedule, |s.publishers|) && i < |s.publishers|
    requires Run(s, schedule).publishers[i].phase == Failed(Conflict)
    ensures var p := s.publishers[i];
            Shows(Run(s, schedule), p.name) && Content(Run(s, schedule), p.name) != p.payload
  {
    RunKeepsInv(s, schedule);
    RunSamePublisher(s, schedule, i);
    assert PhaseOk(Run(s, schedule), Run(s, schedule).publishers[i]);
  }

  /** The content was there from the start, or it is the whole payload of one of the publishers. */
  predicate Whole(s: State, name: string, content: Bytes) {
    || (Shows(s, name) && Content(s, name) == content)
    || exists i :: 0 <= i < |s.publishers| && s.publishers[i].name == name && s.publishers[i].payload == content
  }

  lemma {:induction false} NoPartIsVisible(s: State, schedule: Schedule, name: string)
    requires Initial(s) && For(schedule, |s.publishers|) && Shows(Run(s, schedule), name)
    ensures Whole(s, name, Content(Run(s, schedule), name))
  {
    if schedule != [] {
      var before, last := schedule[..|schedule| - 1], schedule[|schedule| - 1];
      var t := Run(s, before);
      RunKeepsInv(s, before);
      RunSamePublisher(s, before, last.0);
      if Shows(t, name) {
        StepKeeps(t, last.0, last.1);
        NoPartIsVisible(s, before, name);
      } else {
        var p := t.publishers[last.0];
        assert PhaseOk(t, p) && Owned(t, p);
        assert s.publishers[last.0].name == name && s.publishers[last.0].payload == p.payload;
      }
    }
  }

  // Progress.

  function Rank(phase: Phase): nat {
    match phase
    case Starting => 6
    case Creating => 5
    case Writing(_) => 4
    case Linking(_) => 3
    case Comparing(_) => 2
    case Removing(_, _) => 1
    case _ => 0
  }

  function Turns(schedule: Schedule, i: nat): nat {
    if schedule == [] then 0
    else Turns(schedule[..|schedule| - 1], i) + if schedule[|schedule| - 1].0 == i then 1 else 0
  }

  lemma StepRank(s: State, i: nat, e: Event, j: nat)
    requires i < |s.publishers| && j < |s.publishers|
    ensures var rank, rank' := Rank(s.publishers[j].phase), Rank(Step(s, i, e).publishers[j].phase);
            rank' == 0 || rank' + (if i == j then 1 else 0) <= rank
  {
  }

  /** No publisher waits for another: six calls of its own end it, whatever the others do. */
  lemma {:induction false} SixCallsAreEnough(s: State, schedule: Schedule, i: nat)
    requires For(schedule, |s.publishers|) && i < |s.publishers|
    ensures var rank := Rank(Run(s, schedule).publishers[i].phase);
            rank == 0 || rank + Turns(schedule, i) <= Rank(s.publishers[i].phase)
    ensures Turns(schedule, i) >= 6 ==> !Run(s, schedule).publishers[i].phase.IsLive()
  {
    if schedule != [] {
      var before, last := schedule[..|schedule| - 1], schedule[|schedule| - 1];
      SixCallsAreEnough(s, before, i);
      StepRank(Run(s, before), last.0, last.1, i);
    }
  }

  /** Publisher `i` crashes in none of its turns. */
  predicate Spared(schedule: Schedule, i: nat) {
    forall m :: m in schedule && m.0 == i ==> m.1 == Go
  }

  lemma {:induction false} SparedNeverCrashes(s: State, schedule: Schedule, i: nat)
    requires Initial(s) && For(schedule, |s.publishers|) && i < |s.publishers| && Spared(schedule, i)
    ensures Run(s, schedule).publishers[i].phase != Crashed
  {
    if schedule != [] {
      var before, last := schedule[..|schedule| - 1], schedule[|schedule| - 1];
      assert last in schedule;
      SparedNeverCrashes(s, before, i);
    }
  }

  /**
   With six turns and no crash, a publisher returns exactly when the name shows its payload in the
   end, whoever published it. It reports a conflict exactly when the name shows something else, and a
   bad size exactly when its payload has one, or what the name has shown from the start.
   */
  lemma EveryVerdict(s: State, schedule: Schedule, i: nat)
    requires Initial(s) && For(schedule, |s.publishers|) && i < |s.publishers|
    requires Spared(schedule, i) && Turns(schedule, i) >= 6
    ensures var p, t := s.publishers[i], Run(s, schedule);
            var phase, payload := t.publishers[i].phase, p.payload;
            var fits := 0 < |payload| <= 128_000_000;
            && (fits ==> Shows(t, p.name))
            && (phase == Returned <==> fits && Content(t, p.name) == payload)
            && (phase == Failed(Conflict) <==>
                  fits && Content(t, p.name) != payload && 0 < |Content(t, p.name)| <= 128_000_000)
            && (phase == Failed(SizeLimit) <==> !fits || !(0 < |Content(t, p.name)| <= 128_000_000))
  {
    RunKeepsInv(s, schedule);
    RunSamePublisher(s, schedule, i);
    SixCallsAreEnough(s, schedule, i);
    SparedNeverCrashes(s, schedule, i);
    assert PhaseOk(Run(s, schedule), Run(s, schedule).publishers[i]);
  }

  /** With files of good sizes only, the last case is the payload's own. */
  lemma {:induction false} SizesStayGood(s: State, schedule: Schedule, name: string)
    requires Initial(s) && For(schedule, |s.publishers|) && Shows(Run(s, schedule), name)
    requires forall other :: Shows(s, other) ==> SizeOk(Content(s, other))
    ensures SizeOk(Content(Run(s, schedule), name))
  {
    if schedule != [] {
      var before, last := schedule[..|schedule| - 1], schedule[|schedule| - 1];
      var t := Run(s, before);
      RunKeepsInv(s, before);
      assert PhaseOk(t, t.publishers[last.0]) && Owned(t, t.publishers[last.0]);
      if Shows(t, name) {
        StepKeeps(t, last.0, last.1);
        SizesStayGood(s, before, name);
      }
    }
  }

  // Temporaries.

  predicate Uninterrupted(schedule: Schedule) {
    forall m :: m in schedule ==> m.1 == Go
  }

  predicate OwnedBySomeone(s: State, n: nat) {
    exists i :: 0 <= i < |s.publishers| && s.publishers[i].phase.Owns() && s.publishers[i].phase.inode == n
  }

  lemma StepOwns(t: State, i: nat, n: nat)
    requires Inv(t) && i < |t.publishers| && Temporary(n) in Step(t, i, Go).dir
    requires Temporary(n) in t.dir ==> OwnedBySomeone(t, n)
    ensures OwnedBySomeone(Step(t, i, Go), n)
  {
    var t' := Step(t, i, Go);
    if Temporary(n) in t.dir {
      var k :| 0 <= k < |t.publishers| && t.publishers[k].phase.Owns() && t.publishers[k].phase.inode == n;
      assert t'.publishers[k].phase.Owns() && t'.publishers[k].phase.inode == n;
    } else {
      assert t'.publishers[i].phase == Writing(n);
    }
  }

  /** Without a crash, every temporary is an old one or belongs to a publisher that is still at work. */
  lemma {:induction false} NoLitter(s: State, schedule: Schedule, n: nat)
    requires Initial(s) && For(schedule, |s.publishers|) && Uninterrupted(schedule)
    requires Temporary(n) in Run(s, schedule).dir && Temporary(n) !in s.dir
    ensures OwnedBySomeone(Run(s, schedule), n)
  {
    if schedule != [] {
      var before, last := schedule[..|schedule| - 1], schedule[|schedule| - 1];
      assert last in schedule;
      RunKeepsInv(s, before);
      if Temporary(n) in Run(s, before).dir {
        NoLitter(s, before, n);
      }
      StepOwns(Run(s, before), last.0, n);
    }
  }
}
