/**
 The private root directory of a resource pool as names, inodes and contents.

 SHA-256 is taken to be injective, so a name or a record that holds a hash holds
 the hashed value itself: `Metadata(p)` and `Binary(p)` are the two quarantine
 names derived from the relative path `p`, and a stored hash is the content.
 */
module Disk {
  import opened Wrappers
  import opened LinkAccounting
  import opened Decimals

  const MAX_RAW_BYTES: nat := 128_000_000
  const MAX_EXPERIMENT_RAW_BYTES: nat := 20_000_000_000
  const MAX_RESOURCE_FILES: nat := 100_000
  const RECORD_ALLOWANCE: nat := 4096
  const RETENTION_NS: nat := 86_400 * 1_000_000_000

  type Byte = bv8
  type Nanos = n: nat | n < 0x8000_0000_0000_0000
  type ProcessId = n: nat | 0 < n < 0x1_0000_0000 witness 1

  predicate IsIdentifierChar(c: char) {
    'A' <= c <= 'Z' || 'a' <= c <= 'z' || IsDigit(c) || c in {'_', '.', ':', '-'}
  }

  predicate IsIdentifier(s: string) {
    && 0 < |s| <= 128 && (forall i :: 0 <= i < |s| ==> IsIdentifierChar(s[i]))
    && s[0] !in {'_', '.', ':', '-'}
  }

  type StoreId = s: string | IsIdentifier(s) witness "S"

  predicate IsHash(s: string) {
    |s| == 64 && forall i :: 0 <= i < |s| ==> IsDigit(s[i]) || 'a' <= s[i] <= 'f'
  }

  type Hash = s: string | IsHash(s) witness Zeros(64)

  const ZERO_HASH: Hash := Zeros(64)

  /** The published file names: objects in three layouts, shared chunks and slots. */
  datatype ArtifactName =
    | Object(hash: Hash, shared: bool, gz: bool)
    | Chunk(hash: Hash)
    | Slot(hash: Hash)
  {
    predicate Compressed() {
      Chunk? || (Object? && gz)
    }

    function FileName(): string {
      match this
      case Object(hash, shared, gz) =>
        "object-" + hash + (if shared then ".shared" else "") + ".json" + (if gz then ".gz" else "")
      case Chunk(hash) => "shared-" + hash + ".json.gz"
      case Slot(hash) => "slot-" + hash + ".json"
    }
  }

  /** A path below the root. The numbers stand for 128-bit random identifiers. */
  datatype Path =
    | PolicyFile
    | ResourceLock
    | InvocationLock
    | PendingFile
    | RootTemp(id: nat)
    | StoreTemp(store: StoreId, id: nat)
    | Artifact(store: StoreId, name: ArtifactName)
    | JobFile(owner: ProcessId, deadline: Nanos, id: nat)
    | JobTemp(id: nat)
    | Metadata(of: Path)
    | Binary(of: Path)
    | QuarantineTemp(id: nat)
  {
    predicate IsControlTemp() {
      RootTemp? || JobTemp? || QuarantineTemp?
    }

    /** What an interrupted writer leaves behind. */
    predicate IsTemp() {
      IsControlTemp() || StoreTemp?
    }

    /** What the pool may move into quarantine. */
    predicate IsRetained() {
      IsTemp() || JobFile?
    }

    /** Every random identifier in the path has been drawn before `next`. */
    predicate Drawn(next: nat) {
      match this
      case RootTemp(i) => i < next
      case StoreTemp(_, i) => i < next
      case JobFile(_, _, i) => i < next
      case JobTemp(i) => i < next
      case QuarantineTemp(i) => i < next
      case Metadata(p) => p.Drawn(next)
      case Binary(p) => p.Drawn(next)
      case _ => true
    }
  }

  /**
   The bytes of an artifact, together with what an exact gzip decoder makes of
   them: `frame` is the decoded text when they are one complete frame.
   */
  datatype Blob = Blob(bytes: seq<Byte>, frame: Option<seq<Byte>>)
  type Payload = b: Blob | |b.bytes| < 0x8000_0000_0000_0000 witness Blob([], None)

  datatype Reservation = Reservation(store: StoreId, name: ArtifactName, raw: nat, payload: Payload)

  datatype Record = Record(original: Path, raw: nat, stored: Content, since: Nanos)

  datatype Content =
    | Empty
    | PolicyDoc(rawLimit: nat)
    | PendingDoc(reservation: Reservation)
    | RecordDoc(record: Record)
    | JobDoc(arguments: seq<Byte>)
    | ArtifactBytes(payload: Payload)
    | Torn(whole: Content, written: nat)  // the first bytes of a file whose writer stopped
  {
    function Size(): nat {
      match this
      case Empty => 0
      case PolicyDoc(limit) => 303 + Digits(limit)
      case PendingDoc(r) => ReservationSize(r)
      case RecordDoc(q) => 249 + NameSize(q.original) + Digits(q.raw) + Digits(q.stored.Size()) + Digits(q.since)
      case JobDoc(arguments) => |arguments|
      case ArtifactBytes(payload) => |payload.bytes|
      case Torn(_, written) => written
    }
  }

  // Lengths of the canonical JSON documents, fixed text plus the variable fields.

  function Digits(n: nat): nat {
    |Decimal(n)|
  }

  function ReservationSize(r: Reservation): nat {
    135 + |r.name.FileName()| + Digits(r.raw) + 10 + |r.store| + Digits(|r.payload.bytes|)
  }

  /** Length of the path relative to the root, for the paths that can be retained. */
  function NameSize(p: Path): nat {
    match p
    case RootTemp(_) => 44
    case JobTemp(_) => 49
    case QuarantineTemp(_) => 55
    case StoreTemp(store, _) => 55 + |store|
    case JobFile(owner, deadline, _) => 47 + Digits(owner) + 1 + Digits(deadline)
    case _ => 0
  }

  lemma DigitsWithin(n: nat, k: nat)
    requires k >= 1 && n < Power10(k)
    ensures Digits(n) <= k
  {
    LengthOfDecimal(n, k);
  }

  lemma PowersOfTen()
    ensures Power10(9) == 1_000_000_000
    ensures Power10(10) == 10_000_000_000
    ensures Power10(19) == 10_000_000_000_000_000_000
  {
    assert Power10(3) == 1000;
    assert Power10(6) == 1000 * Power10(3);
    assert Power10(9) == 1000 * Power10(6);
    assert Power10(12) == 1000 * Power10(9);
    assert Power10(15) == 1000 * Power10(12);
    assert Power10(18) == 1000 * Power10(15);
  }

  /** The reserve of 4096 bytes is enough for every quarantine record, and its name field for every name. */
  lemma RecordFits(q: Record)
    requires q.original.IsRetained()
    requires q.raw <= MAX_RAW_BYTES && q.stored.Size() <= MAX_RAW_BYTES
    ensures 0 < NameSize(q.original) <= 512
    ensures RecordDoc(q).Size() <= RECORD_ALLOWANCE
  {
    PowersOfTen();
    DigitsWithin(q.raw, 9);
    DigitsWithin(q.stored.Size(), 9);
    DigitsWithin(q.since, 19);
    if q.original.JobFile? {
      DigitsWithin(q.original.owner, 10);
      DigitsWithin(q.original.deadline, 19);
    }
  }

  lemma ReservationFits(r: Reservation)
    requires r.raw <= MAX_RAW_BYTES
    ensures PendingDoc(r).Size() <= 500
  {
    PowersOfTen();
    DigitsWithin(r.raw, 9);
    DigitsWithin(|r.payload.bytes|, 19);
  }

  /** The uncompressed length of an artifact, or the reason it is refused. */
  function RawSize(payload: Payload, name: ArtifactName): Option<nat> {
    if !name.Compressed() then
      Some(|payload.bytes|)
    else if |payload.bytes| >= 18 && payload.frame.Some? && 0 < |payload.frame.value| <= MAX_RAW_BYTES then
      Some(|payload.frame.value|)
    else
      None
  }

  datatype Disk = Disk(stores: set<StoreId>, tree: map<Path, nat>, files: map<nat, Content>, next: nat) {

    ghost predicate WellFormed() {
      && (forall p :: p in tree ==> tree[p] in files && p.Drawn(next))
      && (forall i :: i in files ==> i < next)
    }

    function At(p: Path): Content
      requires p in tree && tree[p] in files
    {
      files[tree[p]]
    }

    predicate Holds(p: Path, c: Content) {
      p in tree && tree[p] in files && files[tree[p]] == c
    }
  }
}
