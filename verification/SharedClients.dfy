/**
 Clients of one store root, interleaved in any order, each of which may crash between any two
 steps: plain, compressed and shared puts, and bindings of slots. A publication is one step
 here: module WriteOnce shows that its effect is.
 */
module SharedClients {
  import opened Wrappers
  import opened Json
  import opened TreeEdits
  import opened TreeSelection
  import opened SharedLayout
  import opened SharedStore

  datatype Task =
    | PutPlain(document: Tree)
    | PutCompressed(document: Tree)
    | PutShared(document: Tree)
    | Bind(key: string, reference: DocumentReference)

  datatype Phase =
    | Starting
    | Looking                                    // no plain object of this document
    | Chunking(refs: seq<Reference>)             // the references of the first shared values
    | ChunkReady(refs: seq<Reference>, frame: File)
    | Ready(name: Name, file: File, reference: DocumentReference)
    | Published(reference: DocumentReference)
    | Returned(reference: DocumentReference)
    | Failed
    | Crashed

  datatype Client = Client(task: Task, phase: Phase)

  datatype State = State(objects: Objects, clients: seq<Client>)

  /** A client takes its next step; a compression on the way gives the frame `stored`. */
  datatype Event = Go(stored: Bytes) | Crash

  /** Write-once publication: the phase that follows, and the store it leaves. */
  function Publish(o: Objects, name: Name, file: File, next: Phase): (Objects, Phase) {
    if name !in o then (o[name := file], next)
    else if o[name] == file then (o, next)
    else (o, Failed)
  }

  /** The reference for a document whose object exists already, or the conflict. */
  function Existing(file: File, text: Text, reference: DocumentReference): Phase {
    if file.text == text then Published(reference) else Failed
  }

  function Compress(name: Name, text: Text, stored: Bytes, reference: DocumentReference): Phase {
    if FrameOk(stored) then Ready(name, Frame(stored, text), reference) else Failed
  }

  function StoredOf(file: File): Bytes {
    if file.Frame? then file.stored else []
  }

  function LayoutOf(document: Tree, xs: seq<Chosen>, refs: seq<Reference>): Layout
    requires |refs| == |xs|
  {
    Layout(Assign(document, Blanks(xs)), seq(|xs|, k requires 0 <= k < |xs| => Entry(xs[k].path, refs[k])))
  }

  /** The next shared value has this reference, unless a check refuses it. */
  function Chunked(xs: seq<Chosen>, refs: seq<Reference>, r: Reference): Phase
    requires |refs| < |xs|
  {
    if PathOk(xs[|refs|].path) && ValidReference(r) then Chunking(refs + [r]) else Failed
  }

  function Earlier(xs: seq<Chosen>, refs: seq<Reference>, value: Tree): Option<Reference>
    requires |refs| <= |xs|
  {
    if refs == [] then None
    else if xs[|refs| - 1].value == value then Some(refs[|refs| - 1])
    else Earlier(xs, refs[..|refs| - 1], value)
  }

  /** One step of packing: the next shared value, or the document after the last one. */
  function Pack(o: Objects, document: Tree, refs: seq<Reference>, stored: Bytes): Phase {
    match Selected(document, [])
    case None => Failed
    case Some(xs) =>
      if |refs| > |xs| then Failed
      else if |refs| == |xs| then
        var layout := LayoutOf(document, xs, refs);
        var name := SharedObject(document);
        if Encoded(LayoutTree(layout)) > MAX_RAW_BYTES then Failed
        else if name in o then
          Existing(o[name], LayoutText(layout), SharedReference(document, layout, StoredOf(o[name])))
        else
          Compress(name, LayoutText(layout), stored, SharedReference(document, layout, stored))
      else if |refs| >= MAX_REFERENCES then Failed
      else
        var value := xs[|refs|].value;
        match Earlier(xs, refs, value)
        case Some(r) => Chunked(xs, refs, r)
        case None =>
          if Encoded(WrapperTree(value)) > MAX_RAW_BYTES then Failed
          else if Chunk(value) in o then
            if o[Chunk(value)].text == WrapperText(value) then
              Chunked(xs, refs, ChunkReference(value, StoredOf(o[Chunk(value)])))
            else Failed
          else if FrameOk(stored) then ChunkReady(refs, Frame(stored, WrapperText(value)))
          else Failed
  }

  /** The objects and the phase after the next step of a client. */
  function Advance(o: Objects, task: Task, phase: Phase, stored: Bytes): (Objects, Phase) {
    match phase
    case Starting =>
      (match task
       case Bind(key, r) => (o, if Read(o, r).Some? then Ready(Slot(key), Plain(SlotText(key, r)), r) else Failed)
       case PutPlain(document) =>
         (o, if DocumentOk(document) then
               Ready(PlainObject(document), Plain(DocumentText(document)), V1(document, Encoded(document)))
             else Failed)
       case _ =>
         if !DocumentOk(task.document) then (o, Failed)
         else if PlainObject(task.document) in o then
           (o, Existing(o[PlainObject(task.document)], DocumentText(task.document), V1(task.document, Encoded(task.document))))
         else (o, Looking))
    case Looking =>
      (match task
       case Bind(_, _) => (o, Failed)
       case PutPlain(_) => (o, Failed)
       case _ =>
         var d, name := task.document, CompressedObject(task.document);
         if name in o then (o, Existing(o[name], DocumentText(d), V2(d, Encoded(d), StoredOf(o[name]))))
         else if task.PutShared? then (o, if Selected(d, []).Some? then Chunking([]) else Failed)
         else (o, Compress(name, DocumentText(d), stored, V2(d, Encoded(d), stored))))
    case Chunking(refs) =>
      (o, if task.PutShared? then Pack(o, task.document, refs, stored) else Failed)
    case ChunkReady(refs, frame) =>
      if task.PutShared? && Selected(task.document, []).Some? && |refs| < |Selected(task.document, []).value| then
        var xs := Selected(task.document, []).value;
        var value := xs[|refs|].value;
        Publish(o, Chunk(value), frame, Chunked(xs, refs, ChunkReference(value, StoredOf(frame))))
      else (o, Failed)
    case Ready(name, file, r) => Publish(o, name, file, Published(r))
    case Published(r) => (o, Returned(r))
    case _ => (o, phase)
  }

  function Step(s: State, i: nat, e: Event): State
    requires i < |s.clients|
  {
    var c := s.clients[i];
    match e
    case Crash => if c.phase.Returned? || c.phase.Failed? then s else s.(clients := s.clients[i := c.(phase := Crashed)])
    case Go(stored) =>
      var (objects, phase) := Advance(s.objects, c.task, c.phase, stored);
      State(objects, s.clients[i := c.(phase := phase)])
  }

  // What a client's phase says about the store.

  /** The references taken so far are those of the first selected values. */
  predicate RefsOk(o: Objects, document: Tree, refs: seq<Reference>) {
    && DocumentOk(document) && Selected(document, []).Some? && |refs| <= |Selected(document, []).value|
    && |refs| <= MAX_REFERENCES
    && forall k {:trigger refs[k]} :: 0 <= k < |refs| ==>
         && StorableOne(Selected(document, []).value[k], Persist(o))
         && refs[k] == Persist(o)(Selected(document, []).value[k].value)
  }

  /** The only reference of its version that this store gives for the document. */
  predicate Canonical(o: Objects, document: Tree, r: DocumentReference) {
    match r
    case V1(_, _) => PlainObject(document) in o && r == V1(document, Encoded(document))
    case V2(_, _, _) =>
      CompressedObject(document) in o && r == V2(document, Encoded(document), StoredOf(o[CompressedObject(document)]))
    case V3(_, _, _, _) =>
      && SharedObject(document) in o && Good(o, SharedObject(document), o[SharedObject(document)])
      && r == SharedReferenceOf(o, document)
  }

  predicate Achieved(o: Objects, task: Task, r: DocumentReference) {
    match task
    case Bind(key, reference) => r == reference && Slot(key) in o && o[Slot(key)] == Plain(SlotText(key, r))
    case _ => Canonical(o, task.document, r)
  }

  /** Once this file is visible under this name, the task has achieved its reference. */
  predicate Achieves(o: Objects, task: Task, name: Name, file: File, r: DocumentReference) {
    Good(o, name, file) &&
    match task
    case Bind(key, reference) => r == reference && name == Slot(key) && file == Plain(SlotText(key, r))
    case _ =>
      var d := task.document;
      match name
      case PlainObject(d') => d' == d && r == V1(d, Encoded(d))
      case CompressedObject(d') => d' == d && r == V2(d, Encoded(d), StoredOf(file))
      case SharedObject(d') => d' == d && r == SharedReference(d, Packed(d, Persist(o)).value, StoredOf(file))
      case _ => false
  }

  predicate PhaseOk(o: Objects, task: Task, phase: Phase) {
    match phase
    case Looking => (task.PutCompressed? || task.PutShared?) && DocumentOk(task.document)
    case Chunking(refs) => task.PutShared? && RefsOk(o, task.document, refs)
    case ChunkReady(refs, frame) =>
      && task.PutShared? && RefsOk(o, task.document, refs) && |refs| < |Selected(task.document, []).value|
      && |refs| < MAX_REFERENCES
      && frame.Frame? && FrameOk(frame.stored) && frame.text == WrapperText(Selected(task.document, []).value[|refs|].value)
    case Ready(name, file, r) => Achieves(o, task, name, file, r)
    case Published(r) => Achieved(o, task, r)
    case Returned(r) => Achieved(o, task, r)
    case _ => true
  }

  lemma {:induction false} RefsGrow(o: Objects, o': Objects, document: Tree, refs: seq<Reference>)
    requires Grows(o, o') && RefsOk(o, document, refs)
    ensures RefsOk(o', document, refs)
  {
    GrowsMore(o, o');
    var xs := Selected(document, []).value;
    forall k | 0 <= k < |refs|
      ensures StorableOne(xs[k], Persist(o')) && refs[k] == Persist(o')(xs[k].value)
    {
      assert refs[k] == refs[k];
      assert PersistsAs(Persist(o), Persist(o'), xs[k].value);
    }
  }

  lemma {:induction false} AchievedGrows(o: Objects, o': Objects, task: Task, r: DocumentReference)
    requires Grows(o, o') && Achieved(o, task, r)
    ensures Achieved(o', task, r)
  {
    if !task.Bind? && r.V3? {
      SharedReferenceStays(o, o', task.document);
    }
  }

  lemma {:induction false} AchievesGrows(o: Objects, o': Objects, task: Task, name: Name, file: File, r: DocumentReference)
    requires Grows(o, o') && Achieves(o, task, name, file, r)
    ensures Achieves(o', task, name, file, r)
  {
    GoodGrows(o, o', name, file);
    if name.SharedObject? {
      GrowsMore(o, o');
      PackedMore(name.document, Persist(o), Persist(o'));
    }
  }

  lemma {:induction false} PhaseGrows(o: Objects, o': Objects, task: Task, phase: Phase)
    requires Grows(o, o') && PhaseOk(o, task, phase)
    ensures PhaseOk(o', task, phase)
  {
    match phase
    case Chunking(refs) => RefsGrow(o, o', task.document, refs);
    case ChunkReady(refs, _) => RefsGrow(o, o', task.document, refs);
    case Ready(name, file, r) => AchievesGrows(o, o', task, name, file, r);
    case Published(r) => AchievedGrows(o, o', task, r);
    case Returned(r) => AchievedGrows(o, o', task, r);
    case _ =>
  }

  /** Publishing what was made ready achieves the task, or fails on a different file. */
  lemma {:induction false} PublishReady(o: Objects, task: Task, name: Name, file: File, r: DocumentReference)
    requires Consistent(o) && Achieves(o, task, name, file, r)
    ensures var (o', phase) := Publish(o, name, file, Published(r));
            Grows(o, o') && Consistent(o') && PhaseOk(o', task, phase)
  {
    if name !in o {
      AddKeepsConsistent(o, name, file);
      AchievesGrows(o, o[name := file], task, name, file, r);
    }
  }

  lemma {:induction false} AchievedReads(o: Objects, task: Task, r: DocumentReference)
    requires Consistent(o) && Achieved(o, task, r)
    ensures !task.Bind? ==> Read(o, r) == Some(task.document)
    ensures task.Bind? ==> Lookup(o, task.key) == Some(r) && Read(o, r).Some?
  {
    if task.Bind? {
      assert Good(o, Slot(task.key), o[Slot(task.key)]);
    } else {
      match r
      case V1(d, _) => assert Good(o, PlainObject(d), o[PlainObject(d)]);
      case V2(d, _, _) => assert Good(o, CompressedObject(d), o[CompressedObject(d)]);
      case V3(d, _, _, _) => SharedObjectReads(o, d);
    }
  }

  /** With all references taken, the layout is the packing of the document. */
  lemma {:induction false} LayoutIsPacked(o: Objects, document: Tree, refs: seq<Reference>)
    requires RefsOk(o, document, refs) && |refs| == |Selected(document, []).value|
    ensures Packed(document, Persist(o)) == Some(LayoutOf(document, Selected(document, []).value, refs))
  {
    var xs := Selected(document, []).value;
    forall k | 0 <= k < |xs|
      ensures StorableOne(xs[k], Persist(o)) && refs[k] == Persist(o)(xs[k].value)
    {
      assert refs[k] == refs[k];
    }
    AllStorable(xs, Persist(o));
    assert LayoutOf(document, xs, refs).entries == Entries(xs, Persist(o));
  }

  lemma {:induction false} EarlierIsPersisted(o: Objects, xs: seq<Chosen>, refs: seq<Reference>, value: Tree)
    requires |refs| <= |xs| && forall k :: 0 <= k < |refs| ==> refs[k] == Persist(o)(xs[k].value)
    ensures Earlier(xs, refs, value).Some? ==> Earlier(xs, refs, value).value == Persist(o)(value)
  {
    if refs != [] && xs[|refs| - 1].value != value {
      EarlierIsPersisted(o, xs, refs[..|refs| - 1], value);
    }
  }

  lemma {:induction false} EarlierHere(o: Objects, document: Tree, refs: seq<Reference>, value: Tree)
    requires RefsOk(o, document, refs)
    ensures var earlier := Earlier(Selected(document, []).value, refs, value);
            earlier.Some? ==> earlier.value == Persist(o)(value)
  {
    var xs := Selected(document, []).value;
    forall k | 0 <= k < |refs|
      ensures refs[k] == Persist(o)(xs[k].value)
    {
    }
    EarlierIsPersisted(o, xs, refs, value);
  }

  lemma {:induction false} ChunkedOk(o: Objects, document: Tree, refs: seq<Reference>)
    requires RefsOk(o, document, refs) && |refs| < |Selected(document, []).value| && |refs| < MAX_REFERENCES
    ensures var xs := Selected(document, []).value;
            PhaseOk(o, PutShared(document), Chunked(xs, refs, Persist(o)(xs[|refs|].value)))
  {
    var xs := Selected(document, []).value;
    var r := Persist(o)(xs[|refs|].value);
    if PathOk(xs[|refs|].path) && ValidReference(r) {
      var more := refs + [r];
      forall k | 0 <= k < |more|
        ensures StorableOne(xs[k], Persist(o)) && more[k] == Persist(o)(xs[k].value)
      {
        assert k < |refs| ==> more[k] == refs[k];
      }
    }
  }

  lemma {:induction false} PackLastOk(o: Objects, document: Tree, refs: seq<Reference>, stored: Bytes)
    requires Consistent(o) && RefsOk(o, document, refs) && |refs| == |Selected(document, []).value|
    ensures PhaseOk(o, PutShared(document), Pack(o, document, refs, stored))
  {
    LayoutIsPacked(o, document, refs);
    var name := SharedObject(document);
    if name in o {
      assert Good(o, name, o[name]);
    }
  }

  lemma {:induction false} PackNextOk(o: Objects, document: Tree, refs: seq<Reference>, stored: Bytes)
    requires Consistent(o) && RefsOk(o, document, refs) && |refs| < |Selected(document, []).value|
    ensures PhaseOk(o, PutShared(document), Pack(o, document, refs, stored))
  {
    var xs := Selected(document, []).value;
    var value := xs[|refs|].value;
    if |refs| < MAX_REFERENCES {
      EarlierHere(o, document, refs, value);
      ChunkedOk(o, document, refs);
      if Chunk(value) in o {
        assert Good(o, Chunk(value), o[Chunk(value)]);
      }
    }
  }

  lemma {:induction false} ChunkIsGood(o: Objects, document: Tree, refs: seq<Reference>, frame: File)
    requires PhaseOk(o, PutShared(document), ChunkReady(refs, frame))
    ensures Good(o, Chunk(Selected(document, []).value[|refs|].value), frame)
  {
    var xs := Selected(document, []).value;
    SelectedAreParts(document, []);
    PartsHold(document, xs);
    assert xs[|refs|].value.IsContainer();
    PartIsProper(document, xs[|refs|].path);
  }

  lemma {:induction false} PartIsProper(v: Tree, p: Path)
    requires Proper(v) && Has(v, p)
    ensures Proper(Get(v, p))
    decreases |p|
  {
    if p != [] {
      PartIsProper(Child(v, Position(v, p[0]).value), p[1..]);
    }
  }

  lemma {:induction false} PublishChunk(o: Objects, document: Tree, refs: seq<Reference>, frame: File, stored: Bytes)
    requires Consistent(o) && PhaseOk(o, PutShared(document), ChunkReady(refs, frame))
    ensures var (o', phase) := Advance(o, PutShared(document), ChunkReady(refs, frame), stored);
            Grows(o, o') && Consistent(o') && PhaseOk(o', PutShared(document), phase)
  {
    var value := Selected(document, []).value[|refs|].value;
    if Chunk(value) !in o {
      var o' := o[Chunk(value) := frame];
      ChunkIsGood(o, document, refs, frame);
      AddKeepsConsistent(o, Chunk(value), frame);
      RefsGrow(o, o', document, refs);
      ChunkedOk(o', document, refs);
    } else if o[Chunk(value)] == frame {
      ChunkedOk(o, document, refs);
    }
  }

  lemma {:induction false} StartOk(o: Objects, task: Task, stored: Bytes)
    requires Consistent(o)
    ensures var (o', phase) := Advance(o, task, Starting, stored); o' == o && PhaseOk(o, task, phase)
  {
    if !task.Bind? && PlainObject(task.document) in o {
      assert Good(o, PlainObject(task.document), o[PlainObject(task.document)]);
    }
  }

  lemma {:induction false} LookOk(o: Objects, task: Task, stored: Bytes)
    requires Consistent(o) && PhaseOk(o, task, Looking)
    ensures var (o', phase) := Advance(o, task, Looking, stored); o' == o && PhaseOk(o, task, phase)
  {
    var name := CompressedObject(task.document);
    if name in o {
      assert Good(o, name, o[name]);
    }
  }

  lemma {:induction false} AdvanceOk(o: Objects, task: Task, phase: Phase, stored: Bytes)
    requires Consistent(o) && PhaseOk(o, task, phase)
    ensures var (o', phase') := Advance(o, task, phase, stored);
            Grows(o, o') && Consistent(o') && PhaseOk(o', task, phase')
  {
    match phase
    case Starting => StartOk(o, task, stored);
    case Looking => LookOk(o, task, stored);
    case Chunking(refs) =>
      if |refs| == |Selected(task.document, []).value| {
        PackLastOk(o, task.document, refs, stored);
      } else {
        PackNextOk(o, task.document, refs, stored);
      }
    case ChunkReady(refs, frame) => PublishChunk(o, task.document, refs, frame, stored);
    case Ready(name, file, r) => PublishReady(o, task, name, file, r);
    case _ =>
  }

  // Whole runs.

  ghost predicate Inv(s: State) {
    && Consistent(s.objects)
    && forall i {:trigger s.clients[i]} :: 0 <= i < |s.clients| ==> PhaseOk(s.objects, s.clients[i].task, s.clients[i].phase)
  }

  lemma {:induction false} StepKeepsInv(s: State, i: nat, e: Event)
    requires Inv(s) && i < |s.clients|
    ensures Inv(Step(s, i, e)) && Grows(s.objects, Step(s, i, e).objects)
  {
    var s', c := Step(s, i, e), s.clients[i];
    if e.Go? {
      AdvanceOk(s.objects, c.task, c.phase, e.stored);
    }
    forall j | 0 <= j < |s.clients| && j != i
      ensures PhaseOk(s'.objects, s'.clients[j].task, s'.clients[j].phase)
    {
      PhaseGrows(s.objects, s'.objects, s.clients[j].task, s.clients[j].phase);
    }
  }

  type Schedule = seq<(nat, Event)>

  predicate For(schedule: Schedule, n: nat) {
    forall m :: m in schedule ==> m.0 < n
  }

  function Run(s: State, schedule: Schedule): (r: State)
    requires For(schedule, |s.clients|)
    ensures |r.clients| == |s.clients|
  {
    if schedule == [] then s
    else Step(Run(s, schedule[..|schedule| - 1]), schedule[|schedule| - 1].0, schedule[|schedule| - 1].1)
  }

  /** A consistent store, for instance an empty one, before any client has moved. */
  ghost predicate Initial(s: State) {
    Consistent(s.objects) && forall i :: 0 <= i < |s.clients| ==> s.clients[i].phase == Starting
  }

  lemma {:induction false} RunKeepsInv(s: State, schedule: Schedule)
    requires Inv(s) && For(schedule, |s.clients|)
    ensures Inv(Run(s, schedule)) && Grows(s.objects, Run(s, schedule).objects)
    ensures forall i :: 0 <= i < |s.clients| ==> Run(s, schedule).clients[i].task == s.clients[i].task
  {
    if schedule != [] {
      var before, last := schedule[..|schedule| - 1], schedule[|schedule| - 1];
      RunKeepsInv(s, before);
      StepKeepsInv(Run(s, before), last.0, last.1);
    }
  }

  /** In every reachable state nothing dangles: slots resolve, and shared documents have their chunks. */
  lemma {:induction false} NothingDangles(s: State, schedule: Schedule)
    requires Initial(s) && For(schedule, |s.clients|)
    ensures var o := Run(s, schedule).objects;
            && (forall key :: Slot(key) in o ==> Lookup(o, key).Some? && Read(o, Lookup(o, key).value).Some?)
            && (forall d :: SharedObject(d) in o ==>
                  Selected(d, []).Some? && forall x :: x in Selected(d, []).value ==> Chunk(x.value) in o)
  {
    RunKeepsInv(s, schedule);
    var o := Run(s, schedule).objects;
    forall key | Slot(key) in o
      ensures Lookup(o, key).Some? && Read(o, Lookup(o, key).value).Some?
    {
      assert Good(o, Slot(key), o[Slot(key)]);
    }
    forall d | SharedObject(d) in o
      ensures Selected(d, []).Some? && forall x :: x in Selected(d, []).value ==> Chunk(x.value) in o
    {
      SharedObjectReads(o, d);
    }
  }

  lemma {:induction false} RunSplits(s: State, first: Schedule, rest: Schedule)
    requires For(first + rest, |s.clients|)
    ensures For(first, |s.clients|) && For(rest, |s.clients|)
    ensures Run(s, first + rest) == Run(Run(s, first), rest)
  {
    assert forall m :: m in first ==> m in first + rest;
    assert forall m :: m in rest ==> m in first + rest;
    if rest == [] {
      assert first + rest == first;
    } else {
      var shorter := rest[..|rest| - 1];
      assert (first + rest)[..|first + rest| - 1] == first + shorter;
      assert forall m :: m in first + shorter ==> m in first + rest;
      RunSplits(s, first, shorter);
    }
  }

  /** What a client got back stays good: documents read back exactly, slots stay bound. */
  lemma {:induction false} ReturnedForEver(s: State, first: Schedule, rest: Schedule, i: nat)
    requires Initial(s) && For(first + rest, |s.clients|) && For(first, |s.clients|) && i < |s.clients|
    requires Run(s, first).clients[i].phase.Returned?
    ensures var r, o := Run(s, first).clients[i].phase.reference, Run(s, first + rest).objects;
            match s.clients[i].task
            case Bind(key, reference) => r == reference && Lookup(o, key) == Some(r) && Read(o, r).Some?
            case _ => Read(o, r) == Some(s.clients[i].task.document)
  {
    RunSplits(s, first, rest);
    RunKeepsInv(s, first);
    RunKeepsInv(Run(s, first), rest);
    var o, o', c := Run(s, first).objects, Run(s, first + rest).objects, Run(s, first).clients[i];
    assert PhaseOk(o, c.task, c.phase);
    AchievedGrows(o, o', c.task, c.phase.reference);
    AchievedReads(o', c.task, c.phase.reference);
  }

  predicate SameVersion(r: DocumentReference, r': DocumentReference) {
    r.V1? == r'.V1? && r.V2? == r'.V2?
  }

  /** Two puts of one document never return different references of one version. */
  lemma {:induction false} OneReferencePerVersion(s: State, schedule: Schedule, i: nat, j: nat)
    requires Initial(s) && For(schedule, |s.clients|) && i < |s.clients| && j < |s.clients|
    requires !s.clients[i].task.Bind? && !s.clients[j].task.Bind? && s.clients[i].task.document == s.clients[j].task.document
    requires Run(s, schedule).clients[i].phase.Returned? && Run(s, schedule).clients[j].phase.Returned?
    ensures var r, r' := Run(s, schedule).clients[i].phase.reference, Run(s, schedule).clients[j].phase.reference;
            SameVersion(r, r') ==> r == r'
  {
    RunKeepsInv(s, schedule);
    var t := Run(s, schedule);
    assert PhaseOk(t.objects, t.clients[i].task, t.clients[i].phase);
    assert PhaseOk(t.objects, t.clients[j].task, t.clients[j].phase);
  }

  // Putting a document again.

  /** A store that has the document as a shared object, and not in an older form. */
  predicate HasShared(o: Objects, document: Tree) {
    && SharedObject(document) in o && Good(o, SharedObject(document), o[SharedObject(document)])
    && PlainObject(document) !in o && CompressedObject(document) !in o
  }

  /** Where a shared put of a stored document is after `n` of its own steps. */
  predicate Along(o: Objects, document: Tree, n: nat, phase: Phase)
    requires HasShared(o, document)
  {
    var count := |Selected(document, []).value|;
    if n == 0 then phase == Starting
    else if n == 1 then phase == Looking
    else if n <= count + 2 then phase.Chunking? && |phase.refs| == n - 2
    else if n == count + 3 then phase == Published(SharedReferenceOf(o, document))
    else phase == Returned(SharedReferenceOf(o, document))
  }

  lemma {:induction false} StoredValue(o: Objects, document: Tree, n: nat)
    requires Consistent(o) && HasShared(o, document) && n < |Selected(document, []).value|
    ensures var x := Selected(document, []).value[n];
            && Chunk(x.value) in o && o[Chunk(x.value)].Frame? && o[Chunk(x.value)].text == WrapperText(x.value)
            && StorableOne(x, Persist(o)) && Persist(o)(x.value) == ChunkReference(x.value, o[Chunk(x.value)].stored)
            && |Selected(document, []).value| <= MAX_REFERENCES
  {
    PackedAreChunks(o, document);
    StorableAt(Selected(document, []).value, Persist(o), n);
    var value := Selected(document, []).value[n].value;
    assert Good(o, Chunk(value), o[Chunk(value)]);
  }

  lemma {:induction false} ChunkAgain(o: Objects, document: Tree, refs: seq<Reference>, stored: Bytes)
    requires Consistent(o) && HasShared(o, document)
    requires RefsOk(o, document, refs) && |refs| < |Selected(document, []).value|
    ensures Pack(o, document, refs, stored) == Chunking(refs + [Persist(o)(Selected(document, []).value[|refs|].value)])
  {
    StoredValue(o, document, |refs|);
    EarlierHere(o, document, refs, Selected(document, []).value[|refs|].value);
  }

  lemma {:induction false} DocumentAgain(o: Objects, document: Tree, refs: seq<Reference>, stored: Bytes)
    requires HasShared(o, document) && RefsOk(o, document, refs) && |refs| == |Selected(document, []).value|
    ensures Pack(o, document, refs, stored) == Published(SharedReferenceOf(o, document))
  {
    LayoutIsPacked(o, document, refs);
  }

  lemma {:induction false} AlongStep(o: Objects, document: Tree, n: nat, phase: Phase, stored: Bytes)
    requires Consistent(o) && HasShared(o, document)
    requires PhaseOk(o, PutShared(document), phase) && Along(o, document, n, phase)
    ensures var (o', phase') := Advance(o, PutShared(document), phase, stored);
            o' == o && Along(o, document, n + 1, phase')
  {
    SharedObjectReads(o, document);
    if phase.Chunking? {
      if |phase.refs| == |Selected(document, []).value| {
        DocumentAgain(o, document, phase.refs, stored);
      } else {
        ChunkAgain(o, document, phase.refs, stored);
      }
    }
  }

  function Alone(i: nat, frames: seq<Bytes>): (schedule: Schedule)
    ensures |schedule| == |frames| && forall m :: m in schedule ==> m.0 == i
  {
    if frames == [] then [] else Alone(i, frames[..|frames| - 1]) + [(i, Go(frames[|frames| - 1]))]
  }

  lemma {:induction false} AlongRun(s: State, i: nat, document: Tree, frames: seq<Bytes>)
    requires Inv(s) && i < |s.clients| && s.clients[i] == Client(PutShared(document), Starting)
    requires HasShared(s.objects, document)
    ensures var t := Run(s, Alone(i, frames));
            t.objects == s.objects && t.clients[i].task == PutShared(document)
            && Along(s.objects, document, |frames|, t.clients[i].phase)
  {
    if frames != [] {
      var before, last := frames[..|frames| - 1], frames[|frames| - 1];
      AlongRun(s, i, document, before);
      RunKeepsInv(s, Alone(i, before));
      AlongOne(s, Run(s, Alone(i, before)), i, document, |before|, last);
      RunAlone(s, i, frames);
    }
  }

  lemma {:induction false} RunAlone(s: State, i: nat, frames: seq<Bytes>)
    requires i < |s.clients| && frames != []
    ensures Run(s, Alone(i, frames)) == Step(Run(s, Alone(i, frames[..|frames| - 1])), i, Go(frames[|frames| - 1]))
  {
    assert Alone(i, frames)[..|frames| - 1] == Alone(i, frames[..|frames| - 1]);
  }

  lemma {:induction false} AlongOne(s: State, t: State, i: nat, document: Tree, n: nat, stored: Bytes)
    requires Inv(t) && i < |t.clients| && t.clients[i].task == PutShared(document) && t.objects == s.objects
    requires HasShared(s.objects, document) && Along(s.objects, document, n, t.clients[i].phase)
    ensures var t' := Step(t, i, Go(stored));
            t'.objects == s.objects && t'.clients[i].task == PutShared(document)
            && Along(s.objects, document, n + 1, t'.clients[i].phase)
  {
    AlongStep(t.objects, document, n, t.clients[i].phase, stored);
  }

  /** Putting a document again returns its one reference, whatever frames the compressor would give now. */
  lemma {:induction false} PutAgain(s: State, i: nat, document: Tree, frames: seq<Bytes>)
    requires Inv(s) && i < |s.clients| && s.clients[i] == Client(PutShared(document), Starting)
    requires HasShared(s.objects, document)
    requires |frames| >= |Selected(document, []).value| + 4
    ensures Run(s, Alone(i, frames)).objects == s.objects
    ensures Run(s, Alone(i, frames)).clients[i].phase == Returned(SharedReferenceOf(s.objects, document))
  {
    SharedObjectReads(s.objects, document);
    AlongRun(s, i, document, frames);
  }

  /** A document is read by no reference but its canonical one of that version: every length and hash is checked. */
  lemma {:induction false} ReadsOnlyCanonical(o: Objects, r: DocumentReference)
    requires Consistent(o) && Read(o, r).Some?
    ensures Canonical(o, Read(o, r).value, r)
  {
    match r
    case V3(document, byteCount, manifestByteCount, stored) =>
      SharedObjectReads(o, document);
    case _ =>
  }
}
