/**
 Clients that share one compressor: no put of a document that fits is ever refused, however the
 clients interleave, and none waits for another.
 */
module SharedProgress {
  import opened Wrappers
  import opened Json
  import opened TreeEdits
  import opened TreeSelection
  import opened SharedLayout
  import opened SharedStore
  import opened SharedClients

  type Compressor = Text -> Bytes

  // What the clients have prepared.

  predicate Follows(file: File, compressor: Compressor) {
    file.Frame? ==> file.stored == compressor(file.text)
  }

  /** The text that the next step of a client compresses, if it compresses one. */
  function Asked(o: Objects, task: Task, phase: Phase): Option<Text> {
    match phase
    case Looking =>
      if task.PutCompressed? && CompressedObject(task.document) !in o then Some(DocumentText(task.document)) else None
    case Chunking(refs) =>
      if !task.PutShared? || Selected(task.document, []).None? then None
      else
        var xs := Selected(task.document, []).value;
        if |refs| == |xs| then
          if SharedObject(task.document) !in o then Some(LayoutText(LayoutOf(task.document, xs, refs))) else None
        else if |refs| < |xs| && Chunk(xs[|refs|].value) !in o then Some(WrapperText(xs[|refs|].value))
        else None
    case _ => None
  }

  /** Every compression of a run is the compressor's. */
  predicate Obeys(s: State, schedule: Schedule, compressor: Compressor)
    requires For(schedule, |s.clients|)
  {
    schedule == [] ||
    (var before, last := schedule[..|schedule| - 1], schedule[|schedule| - 1];
     Obeys(s, before, compressor) && StepObeys(Run(s, before), last.0, last.1, compressor))
  }

  predicate StepObeys(s: State, i: nat, e: Event, compressor: Compressor)
    requires i < |s.clients|
  {
    var asked := Asked(s.objects, s.clients[i].task, s.clients[i].phase);
    e.Go? && asked.Some? ==> e.stored == compressor(asked.value)
  }

  /** What is ready to be published is the compressor's, and no other file has its name. */
  predicate Prepared(o: Objects, task: Task, phase: Phase, compressor: Compressor) {
    match phase
    case Ready(name, file, _) => !name.Slot? ==> Follows(file, compressor) && (name in o ==> o[name] == file)
    case ChunkReady(refs, frame) =>
      task.PutShared? && Selected(task.document, []).Some? && |refs| < |Selected(task.document, []).value| ==>
        var name := Chunk(Selected(task.document, []).value[|refs|].value);
        Follows(frame, compressor) && (name in o ==> o[name] == frame)
    case _ => true
  }

  ghost predicate AllPrepared(s: State, compressor: Compressor) {
    forall i {:trigger s.clients[i]} :: 0 <= i < |s.clients| ==> Prepared(s.objects, s.clients[i].task, s.clients[i].phase, compressor)
  }

  /** One name has one file of one compressor. */
  lemma {:induction false} OneFilePerName(o: Objects, name: Name, file: File, file': File, compressor: Compressor)
    requires Good(o, name, file) && Good(o, name, file') && !name.Slot?
    requires Follows(file, compressor) && Follows(file', compressor)
    ensures file == file'
  {
  }

  /** A publication by one client leaves what another has prepared good. */
  lemma {:induction false} PublicationAgrees(o: Objects, name: Name, file: File, task: Task, phase: Phase, compressor: Compressor)
    requires Consistent(o) && name !in o && Good(o, name, file) && (!name.Slot? ==> Follows(file, compressor))
    requires PhaseOk(o, task, phase) && Prepared(o, task, phase, compressor)
    ensures Prepared(o[name := file], task, phase, compressor)
  {
    match phase
    case Ready(mine, own, _) =>
      if mine == name && !name.Slot? {
        OneFilePerName(o, name, file, own, compressor);
      }
    case ChunkReady(refs, frame) =>
      ChunkIsGood(o, task.document, refs, frame);
      if Chunk(Selected(task.document, []).value[|refs|].value) == name {
        OneFilePerName(o, name, file, frame, compressor);
      }
    case _ =>
  }

  /** What a step publishes, if it publishes something new. */
  lemma {:induction false} StepPublishes(o: Objects, task: Task, phase: Phase, stored: Bytes, compressor: Compressor)
    returns (published: Option<(Name, File)>)
    requires Consistent(o) && PhaseOk(o, task, phase) && Prepared(o, task, phase, compressor)
    ensures var o' := Advance(o, task, phase, stored).0;
            if published.None? then o' == o
            else
              var (name, file) := published.value;
              name !in o && o' == o[name := file] && Good(o, name, file) && (!name.Slot? ==> Follows(file, compressor))
  {
    published := None;
    match phase
    case Starting => StartOk(o, task, stored);
    case Looking => LookOk(o, task, stored);
    case Ready(name, file, _) =>
      if name !in o {
        published := Some((name, file));
      }
    case ChunkReady(refs, frame) =>
      ChunkIsGood(o, task.document, refs, frame);
      var name := Chunk(Selected(task.document, []).value[|refs|].value);
      if name !in o {
        published := Some((name, frame));
      }
    case _ =>
  }

  lemma {:induction false} PackedIsPrepared(o: Objects, document: Tree, refs: seq<Reference>, stored: Bytes, compressor: Compressor)
    requires RefsOk(o, document, refs)
    requires Asked(o, PutShared(document), Chunking(refs)).Some? ==> stored == compressor(Asked(o, PutShared(document), Chunking(refs)).value)
    ensures Prepared(o, PutShared(document), Pack(o, document, refs, stored), compressor)
  {
    var xs := Selected(document, []).value;
    if |refs| == |xs| {
      assert Pack(o, document, refs, stored).Ready? ==> Pack(o, document, refs, stored).file.text == LayoutText(LayoutOf(document, xs, refs));
    }
  }

  /** A client that gets something ready has found its name free. */
  lemma {:induction false} NextIsPrepared(o: Objects, task: Task, phase: Phase, stored: Bytes, compressor: Compressor)
    requires Consistent(o) && PhaseOk(o, task, phase)
    requires Asked(o, task, phase).Some? ==> stored == compressor(Asked(o, task, phase).value)
    requires !phase.Ready? && !phase.ChunkReady?
    ensures var (o', phase') := Advance(o, task, phase, stored); o' == o && Prepared(o, task, phase', compressor)
  {
    match phase
    case Starting =>
      if task.PutPlain? && PlainObject(task.document) in o {
        assert Good(o, PlainObject(task.document), o[PlainObject(task.document)]);
      }
    case Chunking(refs) => PackedIsPrepared(o, task.document, refs, stored, compressor);
    case _ =>
  }

  lemma {:induction false} StepKeepsPrepared(s: State, i: nat, e: Event, compressor: Compressor)
    requires Inv(s) && AllPrepared(s, compressor) && i < |s.clients| && StepObeys(s, i, e, compressor)
    ensures AllPrepared(SharedClients.Step(s, i, e), compressor)
  {
    var c, s' := s.clients[i], SharedClients.Step(s, i, e);
    assert PhaseOk(s.objects, c.task, c.phase) && Prepared(s.objects, c.task, c.phase, compressor);
    if e.Go? {
      var published := StepPublishes(s.objects, c.task, c.phase, e.stored, compressor);
      forall j | 0 <= j < |s.clients| && j != i
        ensures Prepared(s'.objects, s'.clients[j].task, s'.clients[j].phase, compressor)
      {
        assert PhaseOk(s.objects, s.clients[j].task, s.clients[j].phase);
        assert Prepared(s.objects, s.clients[j].task, s.clients[j].phase, compressor);
        if published.Some? {
          PublicationAgrees(s.objects, published.value.0, published.value.1, s.clients[j].task, s.clients[j].phase, compressor);
        }
      }
      if !c.phase.Ready? && !c.phase.ChunkReady? {
        NextIsPrepared(s.objects, c.task, c.phase, e.stored, compressor);
      }
    } else {
      forall j | 0 <= j < |s.clients|
        ensures Prepared(s'.objects, s'.clients[j].task, s'.clients[j].phase, compressor)
      {
        assert Prepared(s.objects, s.clients[j].task, s.clients[j].phase, compressor);
      }
    }
  }

  // What a store takes.

  predicate ValueFits(x: Chosen) {
    PathOk(x.path) && MIN_SHARED_BYTES <= Size(x.value) <= MAX_RAW_BYTES && Encoded(WrapperTree(x.value)) <= MAX_RAW_BYTES
  }

  predicate AllValid(refs: seq<Reference>) {
    forall k :: 0 <= k < |refs| ==> ValidReference(refs[k])
  }

  /** A document within every limit: its own length, its depth, the number and the lengths of its shared values, and its layout. */
  ghost predicate Acceptable(task: Task) {
    && !task.Bind? && DocumentOk(task.document)
    && (task.PutShared? ==>
          && Selected(task.document, []).Some?
          && var xs := Selected(task.document, []).value;
             && |xs| <= MAX_REFERENCES && (forall k :: 0 <= k < |xs| ==> ValueFits(xs[k]))
             && forall refs {:trigger LayoutOf(task.document, xs, refs)} :: |refs| == |xs| && AllValid(refs) ==>
                  Encoded(LayoutTree(LayoutOf(task.document, xs, refs))) <= MAX_RAW_BYTES)
  }

  function Values(document: Tree): nat {
    if Selected(document, []).Some? then |Selected(document, []).value| else 0
  }

  /** How many steps are left at most. */
  function Rank(task: Task, phase: Phase): int
    requires !task.Bind?
  {
    match phase
    case Starting => 2 * Values(task.document) + 6
    case Looking => 2 * Values(task.document) + 5
    case Chunking(refs) => 2 * (Values(task.document) - |refs|) + 4
    case ChunkReady(refs, _) => 2 * (Values(task.document) - |refs|) + 3
    case Ready(_, _, _) => 2
    case Published(_) => 1
    case _ => 0
  }

  predicate Running(phase: Phase) {
    !phase.Returned? && !phase.Failed? && !phase.Crashed?
  }

  /** A step that ends nothing brings the end closer. */
  predicate Advances(task: Task, phase: Phase, phase': Phase)
    requires !task.Bind?
  {
    !phase'.Failed? && !phase'.Crashed? && (Running(phase') ==> Rank(task, phase') < Rank(task, phase)) && (Running(phase') ==> Rank(task, phase') > 0)
  }

  lemma {:induction false} ChunkIsValid(x: Chosen, stored: Bytes)
    requires ValueFits(x) && FrameOk(stored)
    ensures ValidReference(ChunkReference(x.value, stored))
  {
  }

  lemma {:induction false} EarlierIsValid(o: Objects, document: Tree, refs: seq<Reference>, xs: seq<Chosen>, value: Tree)
    requires |refs| <= |xs| && forall k :: 0 <= k < |refs| ==> ValidReference(refs[k])
    ensures Earlier(xs, refs, value).Some? ==> ValidReference(Earlier(xs, refs, value).value)
  {
    if refs != [] && xs[|refs| - 1].value != value {
      EarlierIsValid(o, document, refs[..|refs| - 1], xs, value);
    }
  }

  lemma {:induction false} RefsAreValid(o: Objects, document: Tree, refs: seq<Reference>)
    requires RefsOk(o, document, refs)
    ensures AllValid(refs)
  {
    forall k | 0 <= k < |refs|
      ensures ValidReference(refs[k])
    {
      assert refs[k] == refs[k];
      assert StorableOne(Selected(document, []).value[k], Persist(o));
    }
  }

  lemma {:induction false} NextValueAdvances(o: Objects, document: Tree, refs: seq<Reference>, stored: Bytes)
    requires Consistent(o) && Acceptable(PutShared(document)) && RefsOk(o, document, refs)
    requires |refs| < |Selected(document, []).value|
    requires Chunk(Selected(document, []).value[|refs|].value) !in o ==> FrameOk(stored)
    ensures Advances(PutShared(document), Chunking(refs), Pack(o, document, refs, stored))
  {
    var xs := Selected(document, []).value;
    var x := xs[|refs|];
    assert ValueFits(x);
    RefsAreValid(o, document, refs);
    EarlierIsValid(o, document, refs, xs, x.value);
    if Chunk(x.value) in o {
      assert Good(o, Chunk(x.value), o[Chunk(x.value)]);
      ChunkIsValid(x, StoredOf(o[Chunk(x.value)]));
    }
  }

  lemma {:induction false} LayoutFits(document: Tree, refs: seq<Reference>)
    requires Acceptable(PutShared(document)) && AllValid(refs) && |refs| == |Selected(document, []).value|
    ensures Encoded(LayoutTree(LayoutOf(document, Selected(document, []).value, refs))) <= MAX_RAW_BYTES
  {
    assert LayoutOf(document, Selected(document, []).value, refs) == LayoutOf(document, Selected(document, []).value, refs);
  }

  lemma {:induction false} SameLayout(o: Objects, document: Tree, refs: seq<Reference>)
    requires Consistent(o) && SharedObject(document) in o && RefsOk(o, document, refs) && |refs| == |Selected(document, []).value|
    ensures o[SharedObject(document)].text == LayoutText(LayoutOf(document, Selected(document, []).value, refs))
  {
    assert Good(o, SharedObject(document), o[SharedObject(document)]);
    LayoutIsPacked(o, document, refs);
  }

  lemma {:induction false} LastIsReady(o: Objects, document: Tree, refs: seq<Reference>, stored: Bytes)
    requires Consistent(o) && Acceptable(PutShared(document)) && RefsOk(o, document, refs)
    requires |refs| == |Selected(document, []).value|
    requires SharedObject(document) !in o ==> FrameOk(stored)
    ensures Pack(o, document, refs, stored).Published? || Pack(o, document, refs, stored).Ready?
  {
    RefsAreValid(o, document, refs);
    LayoutFits(document, refs);
    if SharedObject(document) in o {
      SameLayout(o, document, refs);
    }
  }

  lemma {:induction false} LastAdvances(o: Objects, document: Tree, refs: seq<Reference>, stored: Bytes)
    requires Consistent(o) && Acceptable(PutShared(document)) && RefsOk(o, document, refs)
    requires |refs| == |Selected(document, []).value|
    requires SharedObject(document) !in o ==> FrameOk(stored)
    ensures Advances(PutShared(document), Chunking(refs), Pack(o, document, refs, stored))
  {
    LastIsReady(o, document, refs, stored);
    EndAdvances(document, refs, Pack(o, document, refs, stored));
  }

  lemma EndAdvances(document: Tree, refs: seq<Reference>, phase: Phase)
    requires |refs| == Values(document) && (phase.Published? || phase.Ready?)
    ensures Advances(PutShared(document), Chunking(refs), phase)
  {
  }

  lemma {:induction false} FirstStepsAdvance(o: Objects, task: Task, phase: Phase, stored: Bytes)
    requires Consistent(o) && Acceptable(task) && PhaseOk(o, task, phase) && (phase.Starting? || phase.Looking?)
    requires FrameOk(stored) || Asked(o, task, phase).None?
    ensures Advances(task, phase, Advance(o, task, phase, stored).1)
  {
    var d := task.document;
    if PlainObject(d) in o {
      assert Good(o, PlainObject(d), o[PlainObject(d)]);
    }
    if CompressedObject(d) in o {
      assert Good(o, CompressedObject(d), o[CompressedObject(d)]);
    }
  }

  lemma {:induction false} PublishingAdvances(o: Objects, task: Task, phase: Phase, stored: Bytes, compressor: Compressor)
    requires Consistent(o) && Acceptable(task) && PhaseOk(o, task, phase) && Prepared(o, task, phase, compressor)
    requires phase.ChunkReady? || phase.Ready? || phase.Published?
    ensures Advances(task, phase, Advance(o, task, phase, stored).1)
  {
    match phase
    case ChunkReady(refs, frame) =>
      var x := Selected(task.document, []).value[|refs|];
      assert ValueFits(x);
      ChunkIsValid(x, frame.stored);
    case _ =>
  }

  lemma {:induction false} StepAdvances(o: Objects, task: Task, phase: Phase, stored: Bytes, compressor: Compressor)
    requires Consistent(o) && Acceptable(task) && PhaseOk(o, task, phase) && Prepared(o, task, phase, compressor) && Running(phase)
    requires Asked(o, task, phase).Some? ==> FrameOk(stored)
    ensures Advances(task, phase, Advance(o, task, phase, stored).1)
  {
    match phase
    case Chunking(refs) =>
      if |refs| == |Selected(task.document, []).value| {
        LastAdvances(o, task.document, refs, stored);
      } else {
        NextValueAdvances(o, task.document, refs, stored);
      }
    case Starting => FirstStepsAdvance(o, task, phase, stored);
    case Looking => FirstStepsAdvance(o, task, phase, stored);
    case _ => PublishingAdvances(o, task, phase, stored, compressor);
  }

  // Whole runs.

  function Turns(schedule: Schedule, i: nat): nat {
    if schedule == [] then 0
    else Turns(schedule[..|schedule| - 1], i) + if schedule[|schedule| - 1].0 == i then 1 else 0
  }

  predicate Spared(schedule: Schedule, i: nat) {
    forall m :: m in schedule && m.0 == i ==> m.1.Go?
  }

  ghost predicate AlwaysFrames(compressor: Compressor) {
    forall text {:trigger compressor(text)} :: FrameOk(compressor(text))
  }

  lemma {:induction false} RunKeepsPrepared(s: State, schedule: Schedule, compressor: Compressor)
    requires Initial(s) && For(schedule, |s.clients|) && Obeys(s, schedule, compressor)
    ensures Inv(Run(s, schedule)) && AllPrepared(Run(s, schedule), compressor)
  {
    RunKeepsInv(s, schedule);
    if schedule != [] {
      var before, last := schedule[..|schedule| - 1], schedule[|schedule| - 1];
      RunKeepsPrepared(s, before, compressor);
      StepKeepsPrepared(Run(s, before), last.0, last.1, compressor);
    }
  }

  lemma {:induction false} RunAdvances(s: State, schedule: Schedule, i: nat, compressor: Compressor)
    requires Initial(s) && For(schedule, |s.clients|) && Obeys(s, schedule, compressor) && AlwaysFrames(compressor)
    requires i < |s.clients| && Acceptable(s.clients[i].task) && Spared(schedule, i)
    ensures var c := Run(s, schedule).clients[i];
            && c.task == s.clients[i].task && !c.phase.Failed? && !c.phase.Crashed?
            && (Running(c.phase) ==> 0 < Rank(c.task, c.phase) <= Rank(c.task, Starting) - Turns(schedule, i))
  {
    if schedule != [] {
      var before, last := schedule[..|schedule| - 1], schedule[|schedule| - 1];
      var t := Run(s, before);
      assert last in schedule;
      RunAdvances(s, before, i, compressor);
      RunKeepsPrepared(s, before, compressor);
      if last.0 == i && Running(t.clients[i].phase) {
        var c := t.clients[i];
        assert PhaseOk(t.objects, c.task, c.phase) && Prepared(t.objects, c.task, c.phase, compressor);
        StepAdvances(t.objects, c.task, c.phase, last.1.stored, compressor);
      }
    }
  }

  /**
   Clients of one compressor never get in each other's way: a put of a document within the limits
   returns once it has had its turns, whatever the others do or leave undone.
   */
  lemma {:induction false} EveryPutReturns(s: State, schedule: Schedule, i: nat, compressor: Compressor)
    requires Initial(s) && For(schedule, |s.clients|) && Obeys(s, schedule, compressor) && AlwaysFrames(compressor)
    requires i < |s.clients| && Acceptable(s.clients[i].task) && Spared(schedule, i)
    requires Turns(schedule, i) >= 2 * Values(s.clients[i].task.document) + 6
    ensures Run(s, schedule).clients[i].phase.Returned?
    ensures Read(Run(s, schedule).objects, Run(s, schedule).clients[i].phase.reference) == Some(s.clients[i].task.document)
  {
    RunAdvances(s, schedule, i, compressor);
    RunKeepsInv(s, schedule);
    var t := Run(s, schedule);
    assert PhaseOk(t.objects, t.clients[i].task, t.clients[i].phase);
    AchievedReads(t.objects, t.clients[i].task, t.clients[i].phase.reference);
  }

  // Bindings.

  /** Where a binding of a readable reference can be. */
  predicate BindingOk(o: Objects, key: string, r: DocumentReference, phase: Phase) {
    var file := Plain(SlotText(key, r));
    match phase
    case Starting => Read(o, r).Some?
    case Ready(name, own, reference) => name == Slot(key) && own == file && reference == r
    case Published(reference) => reference == r && Slot(key) in o && o[Slot(key)] == file
    case Returned(reference) => reference == r && Slot(key) in o && o[Slot(key)] == file
    case Failed => Slot(key) in o && o[Slot(key)] != file
    case _ => false
  }

  function BindingRank(phase: Phase): nat {
    match phase
    case Starting => 3
    case Ready(_, _, _) => 2
    case Published(_) => 1
    case _ => 0
  }

  lemma {:induction false} BindingGrows(o: Objects, o': Objects, key: string, r: DocumentReference, phase: Phase)
    requires Grows(o, o') && BindingOk(o, key, r, phase)
    ensures BindingOk(o', key, r, phase)
  {
    if phase.Starting? {
      ReadGrows(o, o', r);
    }
  }

  lemma {:induction false} BindingStep(o: Objects, key: string, r: DocumentReference, phase: Phase, stored: Bytes)
    requires BindingOk(o, key, r, phase)
    ensures var (o', phase') := Advance(o, Bind(key, r), phase, stored);
            && BindingOk(o', key, r, phase') && (BindingRank(phase') > 0 ==> BindingRank(phase') < BindingRank(phase))
  {
  }

  lemma {:induction false} RunBinds(s: State, schedule: Schedule, i: nat, key: string, r: DocumentReference)
    requires Initial(s) && For(schedule, |s.clients|) && i < |s.clients| && s.clients[i].task == Bind(key, r)
    requires Spared(schedule, i) && Read(s.objects, r).Some?
    ensures var c := Run(s, schedule).clients[i];
            && c.task == Bind(key, r) && BindingOk(Run(s, schedule).objects, key, r, c.phase)
            && (BindingRank(c.phase) > 0 ==> BindingRank(c.phase) + Turns(schedule, i) <= 3)
  {
    if schedule != [] {
      var before, last := schedule[..|schedule| - 1], schedule[|schedule| - 1];
      var t := Run(s, before);
      assert last in schedule;
      RunBinds(s, before, i, key, r);
      RunKeepsInv(s, before);
      StepKeepsInv(t, last.0, last.1);
      if last.0 == i {
        BindingStep(t.objects, key, r, t.clients[i].phase, last.1.stored);
      } else {
        BindingGrows(t.objects, SharedClients.Step(t, last.0, last.1).objects, key, r, t.clients[i].phase);
      }
    }
  }

  /** A binding of a readable document returns exactly when the slot names that document in the end; otherwise it fails. */
  lemma {:induction false} BindingEnds(s: State, schedule: Schedule, i: nat, key: string, r: DocumentReference)
    requires Initial(s) && For(schedule, |s.clients|) && i < |s.clients| && s.clients[i].task == Bind(key, r)
    requires Spared(schedule, i) && Read(s.objects, r).Some? && Turns(schedule, i) >= 3
    ensures var t := Run(s, schedule);
            && (t.clients[i].phase == Returned(r) <==> Lookup(t.objects, key) == Some(r))
            && (t.clients[i].phase == Failed <==> Lookup(t.objects, key) != Some(r))
            && Lookup(t.objects, key).Some?
  {
    RunBinds(s, schedule, i, key, r);
    RunKeepsInv(s, schedule);
    var o := Run(s, schedule).objects;
    assert Good(o, Slot(key), o[Slot(key)]);
  }

  // Which form a put returns.

  /** The form of a reference to what was visible at the start: nothing is stored a second time in a newer form. */
  predicate FormOk(start: Objects, task: Task, r: DocumentReference) {
    match task
    case Bind(_, _) => true
    case PutPlain(_) => r.V1?
    case PutCompressed(d) => !r.V3? && (r.V2? ==> PlainObject(d) !in start)
    case PutShared(d) =>
      (r.V2? || r.V3? ==> PlainObject(d) !in start) && (r.V3? ==> CompressedObject(d) !in start)
  }

  predicate PhaseFormOk(start: Objects, task: Task, phase: Phase) {
    match phase
    case Looking => !task.Bind? && !task.PutPlain? && PlainObject(task.document) !in start
    case Chunking(_) => task.PutShared? && PlainObject(task.document) !in start && CompressedObject(task.document) !in start
    case ChunkReady(_, _) => task.PutShared? && PlainObject(task.document) !in start && CompressedObject(task.document) !in start
    case Ready(_, _, r) => FormOk(start, task, r)
    case Published(r) => FormOk(start, task, r)
    case Returned(r) => FormOk(start, task, r)
    case _ => true
  }

  lemma {:induction false} StepKeepsForm(start: Objects, o: Objects, task: Task, phase: Phase, stored: Bytes)
    requires Grows(start, o) && PhaseFormOk(start, task, phase)
    ensures PhaseFormOk(start, task, Advance(o, task, phase, stored).1)
  {
  }

  lemma {:induction false} RunKeepsForm(s: State, schedule: Schedule, i: nat)
    requires Initial(s) && For(schedule, |s.clients|) && i < |s.clients|
    ensures Run(s, schedule).clients[i].task == s.clients[i].task
    ensures PhaseFormOk(s.objects, s.clients[i].task, Run(s, schedule).clients[i].phase)
  {
    if schedule != [] {
      var before, last := schedule[..|schedule| - 1], schedule[|schedule| - 1];
      var t := Run(s, before);
      RunKeepsForm(s, before, i);
      RunKeepsInv(s, before);
      if last.0 == i && last.1.Go? {
        StepKeepsForm(s.objects, t.objects, t.clients[i].task, t.clients[i].phase, last.1.stored);
      }
    }
  }

  /**
   A put returns a document in the form it had at the start: plain if it was plain, compressed if it
   was compressed only. A form comes back only if the document is there in that form in the end.
   */
  lemma {:induction false} PutsKeepForms(s: State, schedule: Schedule, i: nat)
    requires Initial(s) && For(schedule, |s.clients|) && i < |s.clients| && !s.clients[i].task.Bind?
    requires Run(s, schedule).clients[i].phase.Returned?
    ensures var d, r, o := s.clients[i].task.document, Run(s, schedule).clients[i].phase.reference, Run(s, schedule).objects;
            && (PlainObject(d) in s.objects ==> r.V1?)
            && (PlainObject(d) !in o && CompressedObject(d) in s.objects ==> r.V2?)
            && (r.V1? ==> PlainObject(d) in o) && (r.V2? ==> CompressedObject(d) in o) && (r.V3? ==> SharedObject(d) in o)
            && (s.clients[i].task.PutPlain? ==> r.V1?) && (s.clients[i].task.PutCompressed? ==> !r.V3?)
  {
    RunKeepsForm(s, schedule, i);
    RunKeepsInv(s, schedule);
    var t := Run(s, schedule);
    assert PhaseOk(t.objects, t.clients[i].task, t.clients[i].phase);
  }
}
