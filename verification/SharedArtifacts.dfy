/** The store of one root as its callers see it: one call after the other. */
module SharedArtifacts {
  import opened Wrappers
  import opened Json
  import opened TreeEdits
  import opened TreeSelection
  import opened SharedLayout
  import opened SharedStore
  import opened SharedClients

  class SharedInputRobustnessArtifactStore {
    var objects: Objects

    constructor ()
      ensures objects == map[] && Consistent(objects)
    {
      objects := map[];
    }

    /** Write-once: a visible name never changes, and a different file under it is a conflict. */
    method PublishFile(name: Name, file: File) returns (ok: bool)
      modifies this
      ensures ok <==> name !in old(objects) || old(objects)[name] == file
      ensures objects == if name in old(objects) then old(objects) else old(objects)[name := file]
    {
      if name in objects {
        return objects[name] == file;
      }
      objects := objects[name := file];
      return true;
    }

    /** A valid frame that is there already is used again; otherwise the new one is published. */
    method Gzip(name: Name, text: Text, compressor: Text -> Bytes) returns (r: Option<Bytes>)
      requires Consistent(objects)
      requires name in objects ==> objects[name].Frame?
      requires name !in objects ==> forall stored :: FrameOk(stored) ==> Good(objects, name, Frame(stored, text))
      modifies this
      ensures Consistent(objects) && Grows(old(objects), objects)
      ensures r.Some? ==> name in objects && objects[name] == Frame(r.value, text)
      ensures name in old(objects) ==> objects == old(objects) && (r.Some? <==> old(objects)[name].text == text)
      ensures name !in old(objects) ==>
                if FrameOk(compressor(text)) then
                  r == Some(compressor(text)) && objects == old(objects)[name := Frame(compressor(text), text)]
                else
                  r == None && objects == old(objects)
    {
      if name in objects {
        return if objects[name].text == text then Some(objects[name].stored) else None;
      }
      var stored := compressor(text);
      if !FrameOk(stored) {
        return None;
      }
      AddKeepsConsistent(objects, name, Frame(stored, text));
      var ok := PublishFile(name, Frame(stored, text));
      return Some(stored);
    }

    /** Stores one shared value. */
    method PutSharedValue(value: Tree, compressor: Text -> Bytes) returns (r: Option<Reference>)
      requires Consistent(objects) && value.IsContainer() && Proper(value)
      modifies this
      ensures Consistent(objects) && Grows(old(objects), objects)
      ensures r.Some? ==> r.value == Persist(objects)(value) == WouldPersist(old(objects), compressor)(value)
      ensures r.Some? && ValidReference(r.value) <==> ValidReference(WouldPersist(old(objects), compressor)(value))
      ensures AddsChunks(old(objects), objects, compressor)
      ensures ValidReference(Persist(old(objects))(value)) ==> r.Some? && objects == old(objects)
    {
      if Chunk(value) in objects {
        assert Good(objects, Chunk(value), objects[Chunk(value)]);
      }
      if Encoded(WrapperTree(value)) > MAX_RAW_BYTES {
        TooLongForAny(objects, value, compressor);
        return None;
      }
      ghost var o := objects;
      var stored := Gzip(Chunk(value), WrapperText(value), compressor);
      if stored.None? {
        return None;
      }
      if Chunk(value) !in o {
        ChunkAdded(o, value, compressor);
      }
      return Some(ChunkReference(value, stored.value));
    }

    /** The reference of one shared value, from this call's cache or from the store. */
    method PutCachedValue(x: Chosen, cache: map<Tree, Reference>, compressor: Text -> Bytes) returns (r: Option<Reference>)
      requires Consistent(objects) && Cached(objects, cache) && x.value.IsContainer() && Proper(x.value)
      modifies this
      ensures Consistent(objects) && Grows(old(objects), objects) && Cached(objects, cache)
      ensures r.Some? ==> StorableOne(x, Persist(objects)) && r.value == Persist(objects)(x.value)
      ensures r.Some? <==> StorableOne(x, WouldPersist(old(objects), compressor))
      ensures r.Some? ==> r.value == WouldPersist(old(objects), compressor)(x.value)
      ensures AddsChunks(old(objects), objects, compressor)
      ensures StorableOne(x, Persist(old(objects))) ==> r.Some? && objects == old(objects)
    {
      if x.value in cache {
        r := Some(cache[x.value]);
      } else {
        r := PutSharedValue(x.value, compressor);
        CachedGrows(old(objects), objects, cache);
      }
      if r.None? || !PathOk(x.path) || !ValidReference(r.value) {
        return None;
      }
    }

    /** The references of all shared values of a document; equal values are stored once. */
    method PutSharedValues(document: Tree, xs: seq<Chosen>, compressor: Text -> Bytes) returns (r: Option<seq<Reference>>)
      requires Consistent(objects) && DocumentOk(document) && Selected(document, []) == Some(xs)
      modifies this
      ensures Consistent(objects) && Grows(old(objects), objects)
      ensures r.Some? ==> RefsOk(objects, document, r.value) && |r.value| == |xs|
      ensures r.Some? <==> |xs| <= MAX_REFERENCES && Storable(xs, WouldPersist(old(objects), compressor))
      ensures AddsChunks(old(objects), objects, compressor)
      ensures HasShared(old(objects), document) ==> r.Some? && objects == old(objects)
    {
      var refs: seq<Reference>, cache: map<Tree, Reference> := [], map[];
      for n := 0 to |xs|
        invariant Consistent(objects) && Grows(old(objects), objects)
        invariant |refs| == n && RefsOk(objects, document, refs) && Cached(objects, cache)
        invariant Storable(xs[..n], WouldPersist(old(objects), compressor)) && AddsChunks(old(objects), objects, compressor)
        invariant HasShared(old(objects), document) ==> objects == old(objects)
      {
        ghost var o := objects;
        if HasShared(o, document) {
          StoredAlready(o, document, n);
        }
        if |refs| >= MAX_REFERENCES {
          return None;
        }
        SharedValueOk(document, n);
        WouldBeStorable(old(objects), objects, compressor, xs, n);
        var reference := PutCachedValue(xs[n], cache, compressor);
        AddsChunksThen(old(objects), o, objects, compressor);
        if reference.None? {
          return None;
        }
        RefsNext(o, objects, document, refs, reference.value);
        refs, cache := refs + [reference.value], cache[xs[n].value := reference.value];
      }
      assert xs[..|xs|] == xs;
      return Some(refs);
    }

    /** The object of this name, or what to answer when it holds something else. */
    method Reuse(name: Name, text: Text) returns (found: bool, same: bool, stored: Bytes)
      ensures found <==> name in objects
      ensures found ==> (same <==> objects[name].text == text) && stored == StoredOf(objects[name])
    {
      if name !in objects {
        return false, false, [];
      }
      return true, objects[name].text == text, StoredOf(objects[name]);
    }

    /** Puts a document with its shared values, or finds it in the form it already has. */
    method Put(document: Tree, compressor: Text -> Bytes) returns (r: Option<DocumentReference>)
      requires Consistent(objects)
      modifies this
      ensures Consistent(objects) && Grows(old(objects), objects)
      ensures r.Some? ==> Canonical(objects, document, r.value) && Read(objects, r.value) == Some(document)
      ensures r == PutResult(old(objects), document, compressor)
      ensures HasShared(old(objects), document) ==>
                r == Some(SharedReferenceOf(old(objects), document)) && objects == old(objects)
    {
      if !DocumentOk(document) {
        return None;
      }
      var task := PutShared(document);
      StartOk(objects, task, []);
      var found, same, stored := Reuse(PlainObject(document), DocumentText(document));
      if found {
        assert Good(objects, PlainObject(document), objects[PlainObject(document)]);
        AchievedReads(objects, task, V1(document, Encoded(document)));
        return if same then Some(V1(document, Encoded(document))) else None;
      }
      LookOk(objects, task, []);
      found, same, stored := Reuse(CompressedObject(document), DocumentText(document));
      if found {
        assert Good(objects, CompressedObject(document), objects[CompressedObject(document)]);
        AchievedReads(objects, task, V2(document, Encoded(document), stored));
        return if same then Some(V2(document, Encoded(document), stored)) else None;
      }
      r := PutDocument(document, compressor);
    }

    /** The plain form, as the oldest store writes it. */
    method PutPlainForm(document: Tree) returns (r: Option<DocumentReference>)
      requires Consistent(objects)
      modifies this
      ensures Consistent(objects) && Grows(old(objects), objects)
      ensures r == if DocumentOk(document) then Some(V1(document, Encoded(document))) else None
      ensures r.Some? ==> Read(objects, r.value) == Some(document)
    {
      if !DocumentOk(document) {
        return None;
      }
      var name, file := PlainObject(document), Plain(DocumentText(document));
      if name in objects {
        assert Good(objects, name, objects[name]);
      } else {
        AddKeepsConsistent(objects, name, file);
      }
      var ok := PublishFile(name, file);
      return Some(V1(document, Encoded(document)));
    }

    /** The compressed form, unless the plain form is there. */
    method PutCompressedForm(document: Tree, compressor: Text -> Bytes) returns (r: Option<DocumentReference>)
      requires Consistent(objects)
      modifies this
      ensures Consistent(objects) && Grows(old(objects), objects)
      ensures r.Some? ==> Canonical(objects, document, r.value) && Read(objects, r.value) == Some(document)
      ensures r.Some? ==> (r.value.V1? <==> PlainObject(document) in old(objects)) && !r.value.V3?
      ensures r.Some? <==>
                && DocumentOk(document)
                && (PlainObject(document) in old(objects) || CompressedObject(document) in old(objects)
                    || FrameOk(compressor(DocumentText(document))))
    {
      if !DocumentOk(document) {
        return None;
      }
      var found, same, stored := Reuse(PlainObject(document), DocumentText(document));
      if found {
        assert Good(objects, PlainObject(document), objects[PlainObject(document)]);
        AchievedReads(objects, PutCompressed(document), V1(document, Encoded(document)));
        return if same then Some(V1(document, Encoded(document))) else None;
      }
      var name := CompressedObject(document);
      if name in objects {
        assert Good(objects, name, objects[name]);
      }
      var frame := Gzip(name, DocumentText(document), compressor);
      if frame.None? {
        return None;
      }
      AchievedReads(objects, PutCompressed(document), V2(document, Encoded(document), frame.value));
      return Some(V2(document, Encoded(document), frame.value));
    }

    /** Chunks first, then the document that refers to them. */
    method PutDocument(document: Tree, compressor: Text -> Bytes) returns (r: Option<DocumentReference>)
      requires Consistent(objects) && DocumentOk(document)
      modifies this
      ensures Consistent(objects) && Grows(old(objects), objects)
      ensures r.Some? ==> Canonical(objects, document, r.value) && Read(objects, r.value) == Some(document)
      ensures r == SharedResult(old(objects), document, compressor)
      ensures HasShared(old(objects), document) ==>
                r == Some(SharedReferenceOf(old(objects), document)) && objects == old(objects)
    {
      var chosen := Selected(document, []);
      if chosen.None? {
        return None;
      }
      var refs := PutSharedValues(document, chosen.value, compressor);
      if refs.None? {
        return None;
      }
      var layout := LayoutOf(document, chosen.value, refs.value);
      LayoutIsPacked(objects, document, refs.value);
      WouldIsDone(old(objects), objects, document, compressor, refs.value);
      ResultStays(old(objects), objects, document, layout, compressor);
      r := PutLayout(document, layout, compressor);
    }

    /** The document itself, once everything it refers to is there. */
    method PutLayout(document: Tree, layout: Layout, compressor: Text -> Bytes) returns (r: Option<DocumentReference>)
      requires Consistent(objects) && DocumentOk(document) && Packed(document, Persist(objects)) == Some(layout)
      modifies this
      ensures Consistent(objects) && Grows(old(objects), objects)
      ensures r == LayoutResult(old(objects), document, layout, compressor)
      ensures r.Some? ==> Canonical(objects, document, r.value) && Read(objects, r.value) == Some(document)
      ensures SharedObject(document) in old(objects) ==>
                r == Some(SharedReferenceOf(old(objects), document)) && objects == old(objects)
    {
      var name := SharedObject(document);
      if name in objects {
        assert Good(objects, name, objects[name]);
      }
      if Encoded(LayoutTree(layout)) > MAX_RAW_BYTES {
        return None;
      }
      ghost var o := objects;
      var stored := Gzip(name, LayoutText(layout), compressor);
      if stored.None? {
        return None;
      }
      PackedStays(o, objects, document);
      SharedObjectReads(objects, document);
      return Some(SharedReference(document, layout, stored.value));
    }

    /** Binds a slot to a document that reads back; a slot bound otherwise is a conflict. */
    method BindSlot(key: string, reference: DocumentReference) returns (ok: bool)
      requires Consistent(objects)
      modifies this
      ensures Consistent(objects) && Grows(old(objects), objects)
      ensures ok ==> Lookup(objects, key) == Some(reference) && Read(objects, reference).Some?
      ensures Read(old(objects), reference).Some? ==> (ok <==> Lookup(old(objects), key) in {None, Some(reference)})
      ensures Read(old(objects), reference).None? ==> !ok && objects == old(objects)
    {
      if Read(objects, reference).None? {
        return false;
      }
      var file := Plain(SlotText(key, reference));
      if Slot(key) in objects {
        assert Good(objects, Slot(key), objects[Slot(key)]);
      } else {
        AddKeepsConsistent(objects, Slot(key), file);
        ReadGrows(objects, objects[Slot(key) := file], reference);
      }
      ok := PublishFile(Slot(key), file);
    }
  }

  /** The reference a value gets: that of its chunk, or of the frame the compressor would make. */
  function WouldPersist(o: Objects, compressor: Text -> Bytes): Tree -> Reference {
    x =>
      if Chunk(x) in o then Persist(o)(x)
      else if Encoded(WrapperTree(x)) <= MAX_RAW_BYTES && FrameOk(compressor(WrapperText(x))) then
        ChunkReference(x, compressor(WrapperText(x)))
      else NO_REFERENCE
  }

  predicate WouldBeSame(o: Objects, o': Objects, compressor: Text -> Bytes, x: Tree) {
    WouldPersist(o', compressor)(x) == WouldPersist(o, compressor)(x)
  }

  /** Only chunks are new, each with the frame the compressor makes of it. */
  ghost predicate AddsChunks(o: Objects, o': Objects, compressor: Text -> Bytes) {
    && (forall name :: name in o' && !name.Chunk? ==> name in o)
    && forall x {:trigger WouldBeSame(o, o', compressor, x)} :: WouldBeSame(o, o', compressor, x)
  }

  lemma {:induction false} AddsChunksThen(o: Objects, o': Objects, o'': Objects, compressor: Text -> Bytes)
    requires AddsChunks(o, o', compressor) && AddsChunks(o', o'', compressor)
    ensures AddsChunks(o, o'', compressor)
  {
    forall x
      ensures WouldBeSame(o, o'', compressor, x)
    {
      assert WouldBeSame(o, o', compressor, x) && WouldBeSame(o', o'', compressor, x);
    }
  }

  lemma {:induction false} WouldBeStorable(o: Objects, o': Objects, compressor: Text -> Bytes, xs: seq<Chosen>, n: nat)
    requires AddsChunks(o, o', compressor) && n < |xs| && Storable(xs[..n], WouldPersist(o, compressor))
    ensures StorableOne(xs[n], WouldPersist(o', compressor)) ==> Storable(xs[..n + 1], WouldPersist(o, compressor))
    ensures !StorableOne(xs[n], WouldPersist(o', compressor)) ==> !Storable(xs, WouldPersist(o, compressor))
  {
    assert WouldBeSame(o, o', compressor, xs[n].value);
    assert xs[..n + 1][..n] == xs[..n];
    if Storable(xs, WouldPersist(o, compressor)) {
      StorableAt(xs, WouldPersist(o, compressor), n);
    }
  }

  lemma {:induction false} ChunkAdded(o: Objects, value: Tree, compressor: Text -> Bytes)
    requires Chunk(value) !in o && Encoded(WrapperTree(value)) <= MAX_RAW_BYTES && FrameOk(compressor(WrapperText(value)))
    ensures AddsChunks(o, o[Chunk(value) := Frame(compressor(WrapperText(value)), WrapperText(value))], compressor)
  {
    var o' := o[Chunk(value) := Frame(compressor(WrapperText(value)), WrapperText(value))];
    forall x
      ensures WouldBeSame(o, o', compressor, x)
    {
      if x == value {
        assert Persist(o')(x) == ChunkReference(x, compressor(WrapperText(x)));
      } else {
        assert Persist(o')(x) == Persist(o)(x);
      }
    }
  }

  /** A value whose wrapper is too long is refused, in the store or not. */
  lemma {:induction false} TooLongForAny(o: Objects, value: Tree, compressor: Text -> Bytes)
    requires Encoded(WrapperTree(value)) > MAX_RAW_BYTES && (Chunk(value) in o ==> o[Chunk(value)].Frame?)
    ensures !ValidReference(WouldPersist(o, compressor)(value))
  {
    if Chunk(value) in o {
      assert Persist(o)(value) == ChunkReference(value, o[Chunk(value)].stored);
    }
  }

  function LayoutResult(o: Objects, document: Tree, layout: Layout, compressor: Text -> Bytes): Option<DocumentReference> {
    var name := SharedObject(document);
    var stored := if name in o then StoredOf(o[name]) else compressor(LayoutText(layout));
    if Encoded(LayoutTree(layout)) > MAX_RAW_BYTES || (name !in o && !FrameOk(stored)) then None
    else Some(SharedReference(document, layout, stored))
  }

  /** What putting a document in shared form gives, from the store before it. */
  function SharedResult(o: Objects, document: Tree, compressor: Text -> Bytes): Option<DocumentReference> {
    match Packed(document, WouldPersist(o, compressor))
    case None => None
    case Some(layout) => LayoutResult(o, document, layout, compressor)
  }

  /** The form a document already has comes first, the oldest before the others. */
  function PutResult(o: Objects, document: Tree, compressor: Text -> Bytes): Option<DocumentReference> {
    if !DocumentOk(document) then None
    else if PlainObject(document) in o then Some(V1(document, Encoded(document)))
    else if CompressedObject(document) in o then
      Some(V2(document, Encoded(document), StoredOf(o[CompressedObject(document)])))
    else SharedResult(o, document, compressor)
  }

  lemma {:induction false} ResultStays(o: Objects, o': Objects, document: Tree, layout: Layout, compressor: Text -> Bytes)
    requires Grows(o, o') && AddsChunks(o, o', compressor)
    ensures LayoutResult(o', document, layout, compressor) == LayoutResult(o, document, layout, compressor)
  {
  }

  /** With every value in the store, what would be stored is what is. */
  lemma {:induction false} WouldIsDone(o: Objects, o': Objects, document: Tree, compressor: Text -> Bytes, refs: seq<Reference>)
    requires AddsChunks(o, o', compressor) && RefsOk(o', document, refs) && |refs| == |Selected(document, []).value|
    requires Storable(Selected(document, []).value, WouldPersist(o, compressor))
    ensures Packed(document, WouldPersist(o, compressor)) == Some(LayoutOf(document, Selected(document, []).value, refs))
  {
    var xs := Selected(document, []).value;
    forall k | 0 <= k < |xs|
      ensures refs[k] == WouldPersist(o, compressor)(xs[k].value)
    {
      assert refs[k] == refs[k];
      assert WouldBeSame(o, o', compressor, xs[k].value);
      InStore(o', xs[k]);
    }
    assert LayoutOf(document, xs, refs).entries == Entries(xs, WouldPersist(o, compressor));
  }

  lemma {:induction false} InStore(o: Objects, x: Chosen)
    requires StorableOne(x, Persist(o))
    ensures Chunk(x.value) in o
  {
  }

  predicate Cached(o: Objects, cache: map<Tree, Reference>) {
    forall x :: x in cache ==> Chunk(x) in o && cache[x] == Persist(o)(x) && ValidReference(cache[x])
  }

  lemma {:induction false} CachedGrows(o: Objects, o': Objects, cache: map<Tree, Reference>)
    requires Grows(o, o') && Cached(o, cache)
    ensures Cached(o', cache)
  {
  }

  lemma {:induction false} RefsNext(o: Objects, o': Objects, document: Tree, refs: seq<Reference>, r: Reference)
    requires Grows(o, o') && RefsOk(o, document, refs)
    requires |refs| < |Selected(document, []).value| && |refs| < MAX_REFERENCES
    requires StorableOne(Selected(document, []).value[|refs|], Persist(o'))
    requires r == Persist(o')(Selected(document, []).value[|refs|].value)
    ensures RefsOk(o', document, refs + [r])
  {
    RefsGrow(o, o', document, refs);
    ChunkedOk(o', document, refs);
  }

  lemma {:induction false} SharedValueOk(document: Tree, n: nat)
    requires DocumentOk(document) && Selected(document, []).Some? && n < |Selected(document, []).value|
    ensures var value := Selected(document, []).value[n].value; value.IsContainer() && Proper(value)
  {
    var xs := Selected(document, []).value;
    SelectedAreParts(document, []);
    PartsHold(document, xs);
    assert xs[n].value.IsContainer();
    PartIsProper(document, xs[n].path);
  }

  lemma {:induction false} StoredAlready(o: Objects, document: Tree, n: nat)
    requires HasShared(o, document) && n < |Selected(document, []).value|
    ensures var x := Selected(document, []).value[n];
            PathOk(x.path) && ValidReference(Persist(o)(x.value)) && |Selected(document, []).value| <= MAX_REFERENCES
  {
    StorableAt(Selected(document, []).value, Persist(o), n);
  }

  lemma {:induction false} PackedStays(o: Objects, o': Objects, document: Tree)
    requires Grows(o, o') && Packed(document, Persist(o)).Some?
    ensures Packed(document, Persist(o')) == Packed(document, Persist(o))
  {
    GrowsMore(o, o');
    PackedMore(document, Persist(o), Persist(o'));
  }
}
