/**
 One store root: plain, compressed and shared objects, shared chunks and logical slots.
 Files are published write-once, so a store only grows. The compressor may give a different
 frame every time, but every frame decodes to its text.
 */
module SharedStore {
  import opened Wrappers
  import opened Json
  import JsonText
  import opened TreeEdits
  import opened TreeSelection
  import opened SharedLayout
  import opened Decimals

  type Bytes = seq<bv8>

  /** A name that holds a hash holds what was hashed. */
  datatype Name =
    | PlainObject(document: Tree)
    | CompressedObject(document: Tree)
    | SharedObject(document: Tree)
    | Chunk(value: Tree)
    | Slot(key: string)

  datatype DocumentReference =
    | V1(document: Tree, byteCount: nat)
    | V2(document: Tree, byteCount: nat, stored: Bytes)
    | V3(document: Tree, byteCount: nat, manifestByteCount: nat, stored: Bytes)

  datatype Text =
    | DocumentText(document: Tree)
    | WrapperText(value: Tree)
    | LayoutText(layout: Layout)
    | SlotText(key: string, reference: DocumentReference)

  datatype File = Plain(text: Text) | Frame(stored: Bytes, text: Text)

  type Objects = map<Name, File>

  // Lengths of the stored texts.

  /** Stands in for the 64 hexadecimal digits of a hash. */
  const HASH_TEXT: string := "0000000000000000000000000000000000000000000000000000000000000000"

  function WrapperTree(value: Tree): Tree {
    Object([Field("contract_id", Text("inventory-robustness-shared-input")),
            Field("contract_version", Text("1.0.0")),
            Field("value", value)])
  }

  function PathTree(p: Path): Tree {
    Array(seq(|p|, k requires 0 <= k < |p| => match p[k] case Key(key) => Text(key) case Index(n) => Number(Decimal(n))))
  }

  function EntryTree(e: Entry): Tree {
    Object([Field("path", PathTree(e.path)),
            Field("reference", Object([
              Field("byte_count", Number(Decimal(e.reference.byteCount))),
              Field("raw_sha256", Text(HASH_TEXT)),
              Field("stored_byte_count", Number(Decimal(e.reference.storedByteCount))),
              Field("stored_sha256", Text(HASH_TEXT)),
              Field("value_byte_count", Number(Decimal(e.reference.valueByteCount))),
              Field("value_hash", Text(HASH_TEXT))]))])
  }

  function LayoutTree(layout: Layout): Tree {
    Object([Field("contract_id", Text("inventory-robustness-shared-document")),
            Field("contract_version", Text("1.0.0")),
            Field("document", layout.document),
            Field("shared_inputs", Array(seq(|layout.entries|, k requires 0 <= k < |layout.entries| => EntryTree(layout.entries[k]))))])
  }

  /** Bytes of the canonical text with its newline. */
  function Encoded(v: Tree): (n: nat)
    ensures n == |JsonText.CanonicalText(v)|
  {
    JsonText.CanonicalLength(v);
    Size(v) + 1
  }

  // References.

  predicate FrameOk(stored: Bytes) {
    0 < |stored| <= MAX_STORED_BYTES
  }

  function ChunkReference(value: Tree, stored: Bytes): Reference {
    Reference(value, Size(value), Encoded(WrapperTree(value)), WrapperTree(value), |stored|, stored)
  }

  /** What a value that is not stored has instead of a reference; no check accepts it. */
  const NO_REFERENCE: Reference := Reference(Null, 0, 0, Null, 0, [])

  function Persist(o: Objects): Tree -> Reference {
    x => if Chunk(x) in o && o[Chunk(x)].Frame? then ChunkReference(x, o[Chunk(x)].stored) else NO_REFERENCE
  }

  /** Reads a chunk back and checks it against its reference. */
  function ReadShared(o: Objects, r: Reference): Option<Tree> {
    if ValidReference(r) && Chunk(r.valueHash) in o then
      match o[Chunk(r.valueHash)]
      case Frame(stored, WrapperText(value)) =>
        if |stored| == r.storedByteCount && stored == r.storedHash
           && Encoded(WrapperTree(value)) == r.byteCount && WrapperTree(value) == r.rawHash && value.IsContainer()
           && Size(value) == r.valueByteCount && value == r.valueHash then Some(value)
        else None
      case _ => None
    else None
  }

  function Load(o: Objects): Reference -> Option<Tree> {
    r => ReadShared(o, r)
  }

  function SharedReference(document: Tree, layout: Layout, stored: Bytes): DocumentReference {
    V3(document, Encoded(document), Encoded(LayoutTree(layout)), stored)
  }

  /** Reads a document by a reference of any version, without falling back to another one. */
  function Read(o: Objects, r: DocumentReference): Option<Tree> {
    match r
    case V1(document, byteCount) =>
      if PlainObject(document) in o && o[PlainObject(document)] == Plain(DocumentText(document)) && byteCount == Encoded(document)
      then Some(document) else None
    case V2(document, byteCount, stored) =>
      if CompressedObject(document) in o && o[CompressedObject(document)] == Frame(stored, DocumentText(document))
         && byteCount == Encoded(document)
      then Some(document) else None
    case V3(document, byteCount, manifestByteCount, stored) =>
      if SharedObject(document) in o && o[SharedObject(document)].Frame? && o[SharedObject(document)].stored == stored
         && o[SharedObject(document)].text.LayoutText?
         && Encoded(LayoutTree(o[SharedObject(document)].text.layout)) == manifestByteCount then
        match Restored(o[SharedObject(document)].text.layout, Load(o), byteCount)
        case Some(value) => if Encoded(value) == byteCount && value == document then Some(value) else None
        case None => None
      else None
  }

  function Lookup(o: Objects, key: string): Option<DocumentReference> {
    if Slot(key) in o && o[Slot(key)].text.SlotText? then Some(o[Slot(key)].text.reference) else None
  }

  // The reference graph.

  predicate DocumentOk(document: Tree) {
    document.Object? && Proper(document) && Encoded(document) <= MAX_RAW_BYTES
  }

  /** Every file holds what its name says, and nothing it refers to is missing. */
  predicate Good(o: Objects, name: Name, file: File) {
    match name
    case PlainObject(document) => DocumentOk(document) && file == Plain(DocumentText(document))
    case CompressedObject(document) =>
      DocumentOk(document) && file.Frame? && FrameOk(file.stored) && file.text == DocumentText(document)
    case SharedObject(document) =>
      && DocumentOk(document) && file.Frame? && FrameOk(file.stored)
      && Packed(document, Persist(o)).Some? && file.text == LayoutText(Packed(document, Persist(o)).value)
      && Encoded(LayoutTree(Packed(document, Persist(o)).value)) <= MAX_RAW_BYTES
    case Chunk(value) =>
      && value.IsContainer() && Proper(value) && file.Frame? && FrameOk(file.stored) && file.text == WrapperText(value)
    case Slot(key) =>
      file.Plain? && file.text.SlotText? && file.text.key == key && Read(o, file.text.reference).Some?
  }

  ghost predicate Consistent(o: Objects) {
    forall name {:trigger Good(o, name, o[name])} :: name in o ==> Good(o, name, o[name])
  }

  predicate Grows(o: Objects, o': Objects) {
    forall name :: name in o ==> name in o' && o'[name] == o[name]
  }

  /** In a consistent store, storing and loading are inverse to each other. */
  lemma {:induction false} StoreIsFaithful(o: Objects)
    requires Consistent(o)
    ensures LoadsWhatItStores(Persist(o), Load(o)) && StoresWhatItLoads(Persist(o), Load(o))
  {
    forall x
      ensures LoadsAgain(Persist(o), Load(o), x)
    {
      if Chunk(x) in o {
        assert Good(o, Chunk(x), o[Chunk(x)]);
      }
    }
    forall r
      ensures StoresAgain(Persist(o), Load(o), r)
    {
      if Load(o)(r).Some? {
        assert Good(o, Chunk(r.valueHash), o[Chunk(r.valueHash)]);
      }
    }
  }

  lemma {:induction false} GrowsMore(o: Objects, o': Objects)
    requires Grows(o, o')
    ensures PersistsMore(Persist(o), Persist(o')) && LoadsMore(Load(o), Load(o'))
  {
    forall x
      ensures PersistsAs(Persist(o), Persist(o'), x)
    {
    }
    forall r
      ensures LoadsAs(Load(o), Load(o'), r)
    {
    }
  }

  lemma {:induction false} ReadGrows(o: Objects, o': Objects, r: DocumentReference)
    requires Grows(o, o') && Read(o, r).Some?
    ensures Read(o', r) == Read(o, r)
  {
    if r.V3? {
      GrowsMore(o, o');
      RestoredMore(o[SharedObject(r.document)].text.layout, Load(o), Load(o'), r.byteCount);
    }
  }

  lemma {:induction false} GoodGrows(o: Objects, o': Objects, name: Name, file: File)
    requires Grows(o, o') && Good(o, name, file)
    ensures Good(o', name, file)
  {
    GrowsMore(o, o');
    match name
    case SharedObject(document) => PackedMore(document, Persist(o), Persist(o'));
    case Slot(key) => ReadGrows(o, o', file.text.reference);
    case _ =>
  }

  /** Publishing a good file under a free name keeps the whole graph. */
  lemma {:induction false} AddKeepsConsistent(o: Objects, name: Name, file: File)
    requires Consistent(o) && name !in o && Good(o, name, file)
    ensures Grows(o, o[name := file]) && Consistent(o[name := file])
  {
    var o' := o[name := file];
    forall n | n in o'
      ensures Good(o', n, o'[n])
    {
      if n in o {
        assert Good(o, n, o[n]);
      }
      GoodGrows(o, o', n, o'[n]);
    }
  }

  /** The one shared reference to a visible document: its packing and its frame never change. */
  function SharedReferenceOf(o: Objects, document: Tree): DocumentReference
    requires SharedObject(document) in o && Good(o, SharedObject(document), o[SharedObject(document)])
  {
    SharedReference(document, Packed(document, Persist(o)).value, o[SharedObject(document)].stored)
  }

  lemma {:induction false} SharedReferenceStays(o: Objects, o': Objects, document: Tree)
    requires Grows(o, o') && SharedObject(document) in o && Good(o, SharedObject(document), o[SharedObject(document)])
    ensures Good(o', SharedObject(document), o'[SharedObject(document)])
    ensures SharedReferenceOf(o', document) == SharedReferenceOf(o, document)
  {
    GrowsMore(o, o');
    PackedMore(document, Persist(o), Persist(o'));
  }

  lemma {:induction false} PackingRestores(o: Objects, document: Tree)
    requires Consistent(o) && DocumentOk(document) && Packed(document, Persist(o)).Some?
    ensures Restored(Packed(document, Persist(o)).value, Load(o), Encoded(document)) == Some(document)
  {
    StoreIsFaithful(o);
    JsonText.CanonicalLength(document);
    RestoreAfterPack(document, Persist(o), Load(o), Encoded(document));
  }

  lemma {:induction false} PackedAreChunks(o: Objects, document: Tree)
    requires Packed(document, Persist(o)).Some?
    ensures forall x :: x in Selected(document, []).value ==> Chunk(x.value) in o
  {
    var xs := Selected(document, []).value;
    forall k | 0 <= k < |xs|
      ensures Chunk(xs[k].value) in o
    {
      StorableAt(xs, Persist(o), k);
    }
  }

  /** A visible shared document has all its chunks and restores to itself. */
  lemma {:induction false} SharedObjectReads(o: Objects, document: Tree)
    requires Consistent(o) && SharedObject(document) in o
    ensures Good(o, SharedObject(document), o[SharedObject(document)])
    ensures Read(o, SharedReferenceOf(o, document)) == Some(document)
    ensures forall x :: x in Selected(document, []).value ==> Chunk(x.value) in o
  {
    assert Good(o, SharedObject(document), o[SharedObject(document)]);
    PackingRestores(o, document);
    PackedAreChunks(o, document);
  }
}
