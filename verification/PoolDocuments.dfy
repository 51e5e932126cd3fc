/** The control documents of a pool and the names of its files as text, and that `Size` measures them. */
module PoolDocuments {
  import opened Wrappers
  import opened Decimals
  import opened D = Disk
  import opened Json
  import opened JsonText

  /** 128 random bits in hexadecimal. */
  const RANDOM: string := Zeros(32)

  /** The path below the root of a file that can be retained. */
  function RetainedName(p: D.Path): string
    requires p.IsRetained()
  {
    match p
    case RootTemp(_) => "control-" + RANDOM + ".tmp"
    case JobTemp(_) => "jobs/control-" + RANDOM + ".tmp"
    case QuarantineTemp(_) => "quarantine/control-" + RANDOM + ".tmp"
    case StoreTemp(store, _) => "artifacts-" + store + "/.robustness-" + RANDOM
    case JobFile(owner, deadline, _) => "jobs/job-" + Decimal(owner) + "-" + Decimal(deadline) + "-" + RANDOM + ".json"
  }

  lemma RetainedNameLength(p: D.Path)
    requires p.IsRetained()
    ensures |RetainedName(p)| == NameSize(p)
  {
  }

  function PolicyTree(limit: nat): Tree {
    Tree.Object([Field("automatic_order_allowed", Bool(false)),
            Field("automatic_publish_allowed", Bool(false)),
            Field("contract_id", Text("inventory-robustness-local-resource-policy")),
            Field("contract_version", Text("1.0.0")),
            Field("database_writes", Bool(false)),
            Field("max_cpu_workers", Number("1")),
            Field("max_files", Number("100000")),
            Field("max_invocation_seconds", Number("3600")),
            Field("quarantine_retention_seconds", Number("86400")),
            Field("raw_limit_bytes", Number(Decimal(limit)))])
  }

  function ReservationTree(r: Reservation): Tree {
    Tree.Object([Field("name", Text(r.name.FileName())),
            Field("raw_bytes", Number(Decimal(r.raw))),
            Field("store", Text("artifacts-" + r.store)),
            Field("stored_bytes", Number(Decimal(|r.payload.bytes|))),
            Field("stored_sha256", Text(ZERO_HASH))])
  }

  function RecordTree(q: Record): Tree
    requires q.original.IsRetained()
  {
    Tree.Object([Field("contract_id", Text("inventory-robustness-quarantined-temporary")),
            Field("contract_version", Text("1.0.0")),
            Field("original_name", Text(RetainedName(q.original))),
            Field("raw_reserved_bytes", Number(Decimal(q.raw))),
            Field("retained_since_ns", Number(Decimal(q.since))),
            Field("stored_bytes", Number(Decimal(q.stored.Size()))),
            Field("stored_sha256", Text(ZERO_HASH))])
  }

  /** Text in which nothing is escaped. */
  predicate Plain(s: string) {
    forall i :: 0 <= i < |s| ==> 0x20 <= s[i] as int < 0x7F && s[i] != '"' && s[i] != '\\'
  }

  lemma {:induction false} PlainSize(s: string)
    requires Plain(s)
    ensures TextSize(s) == |s| + 2
  {
    if s != "" {
      PlainSize(s[..|s| - 1]);
    }
  }

  /** A field is its key, a colon and its value. */
  function FieldSize(f: Field): nat {
    TextSize(f.key) + 1 + Size(f.value)
  }

  /** The length of an object's fields, one after the other. */
  function FieldsSize(fields: seq<Field>): nat {
    if fields == [] then 0
    else
      var last := fields[|fields| - 1];
      FieldsSize(fields[..|fields| - 1]) + FieldSize(last)
  }

  lemma {:induction false} ObjectFields(fields: seq<Field>, n: nat)
    requires n <= |fields|
    ensures FirstSizes(Tree.Object(fields), n) == FieldsSize(fields[..n])
  {
    if n > 0 {
      ObjectFields(fields, n - 1);
      assert fields[..n][..n - 1] == fields[..n - 1];
    }
  }

  lemma ObjectSize(fields: seq<Field>)
    requires fields != []
    ensures |CanonicalText(Tree.Object(fields))| == 2 + |fields| + FieldsSize(fields)
  {
    ObjectFields(fields, |fields|);
    assert fields[..|fields|] == fields;
    CanonicalLength(Tree.Object(fields));
  }

  lemma NextField(f: seq<Field>, n: nat)
    requires n < |f|
    ensures FieldsSize(f[..n + 1]) == FieldsSize(f[..n]) + FieldSize(f[n])
  {
    assert f[..n + 1][..n] == f[..n];
  }

  lemma FiveFields(f: seq<Field>)
    requires |f| >= 5
    ensures FieldsSize(f[..5]) == FieldSize(f[0]) + FieldSize(f[1]) + FieldSize(f[2]) + FieldSize(f[3]) + FieldSize(f[4])
  {
    assert f[..0] == [];
    NextField(f, 0);
    NextField(f, 1);
    NextField(f, 2);
    NextField(f, 3);
    NextField(f, 4);
  }

  lemma SevenFields(f: seq<Field>)
    requires |f| == 7
    ensures |CanonicalText(Tree.Object(f))| == 9 + FieldSize(f[0]) + FieldSize(f[1]) + FieldSize(f[2]) + FieldSize(f[3])
              + FieldSize(f[4]) + FieldSize(f[5]) + FieldSize(f[6])
  {
    ObjectSize(f);
    FiveFields(f);
    NextField(f, 5);
    NextField(f, 6);
    assert f[..7] == f;
  }

  lemma TenFields(f: seq<Field>)
    requires |f| == 10
    ensures |CanonicalText(Tree.Object(f))| == 12 + FieldSize(f[0]) + FieldSize(f[1]) + FieldSize(f[2]) + FieldSize(f[3])
              + FieldSize(f[4]) + FieldSize(f[5]) + FieldSize(f[6]) + FieldSize(f[7]) + FieldSize(f[8]) + FieldSize(f[9])
  {
    ObjectSize(f);
    FiveFields(f);
    FiveFields(f[5..]);
    assert f[5..][..5] == f[5..];
    FieldsSplit(f, 5);
  }

  lemma {:induction false} FieldsSplit(f: seq<Field>, n: nat)
    requires n <= |f|
    ensures FieldsSize(f) == FieldsSize(f[..n]) + FieldsSize(f[n..])
  {
    if n == |f| {
      assert f[..n] == f;
    } else {
      var before := f[..|f| - 1];
      FieldsSplit(before, n);
      assert before[..n] == f[..n] && before[n..] == f[n..][..|f| - n - 1];
    }
  }

  lemma PlainJoin(a: string, b: string)
    requires Plain(a) && Plain(b)
    ensures Plain(a + b)
  {
  }

  lemma FileNameIsPlain(name: ArtifactName)
    ensures Plain(name.FileName())
  {
    match name
    case Object(hash, shared, gz) =>
      PlainJoin("object-", hash);
      PlainJoin("object-" + hash, if shared then ".shared" else "");
      PlainJoin("object-" + hash + (if shared then ".shared" else ""), ".json");
      PlainJoin("object-" + hash + (if shared then ".shared" else "") + ".json", if gz then ".gz" else "");
    case Chunk(hash) =>
      PlainJoin("shared-", hash);
      PlainJoin("shared-" + hash, ".json.gz");
    case Slot(hash) =>
      PlainJoin("slot-", hash);
      PlainJoin("slot-" + hash, ".json");
  }

  lemma ReservationKeys()
    ensures TextSize("name") == 6 && TextSize("raw_bytes") == 11 && TextSize("store") == 7
    ensures TextSize("stored_bytes") == 14 && TextSize("stored_sha256") == 15
  {
    PlainSize("name");
    PlainSize("raw_bytes");
    PlainSize("store");
    PlainSize("stored_bytes");
    PlainSize("stored_sha256");
  }

  lemma ReservationFields(r: Reservation)
    ensures var f := ReservationTree(r).fields;
            && FieldSize(f[0]) == 7 + |r.name.FileName()| + 2 && FieldSize(f[1]) == 12 + Digits(r.raw)
            && FieldSize(f[2]) == 8 + 10 + |r.store| + 2 && FieldSize(f[3]) == 15 + Digits(|r.payload.bytes|)
            && FieldSize(f[4]) == 16 + 66
  {
    ReservationKeys();
    FileNameIsPlain(r.name);
    PlainSize(r.name.FileName());
    PlainJoin("artifacts-", r.store);
    PlainSize("artifacts-" + r.store);
    PlainSize(ZERO_HASH);
  }

  /** The length of a reservation is that of its text. */
  lemma ReservationLength(r: Reservation)
    ensures |CanonicalText(ReservationTree(r))| == PendingDoc(r).Size()
  {
    ReservationFields(r);
    OnlyFive(ReservationTree(r).fields);
  }

  lemma OnlyFive(f: seq<Field>)
    requires |f| == 5
    ensures |CanonicalText(Tree.Object(f))| == 7 + FieldSize(f[0]) + FieldSize(f[1]) + FieldSize(f[2]) + FieldSize(f[3]) + FieldSize(f[4])
  {
    ObjectSize(f);
    FiveFields(f);
    assert f[..5] == f;
  }

  lemma {:induction false} DigitsArePlain(s: string)
    requires AllDigits(s)
    ensures Plain(s)
  {
  }

  lemma RetainedNameIsPlain(p: D.Path)
    requires p.IsRetained()
    ensures Plain(RetainedName(p))
  {
    DigitsArePlain(RANDOM);
    match p
    case RootTemp(_) =>
      AroundRandom("control-", ".tmp");
    case JobTemp(_) =>
      AroundRandom("jobs/control-", ".tmp");
    case QuarantineTemp(_) =>
      AroundRandom("quarantine/control-", ".tmp");
    case StoreTemp(store, _) => StoreNameIsPlain(store);
    case JobFile(owner, deadline, _) => JobNameIsPlain(owner, deadline);
  }

  lemma StoreNameIsPlain(store: StoreId)
    ensures Plain("artifacts-" + store + "/.robustness-" + RANDOM)
  {
    DigitsArePlain(RANDOM);
    PlainJoin("artifacts-", store);
    PlainJoin("artifacts-" + store, "/.robustness-");
    PlainJoin("artifacts-" + store + "/.robustness-", RANDOM);
  }

  lemma JobNameIsPlain(owner: nat, deadline: nat)
    ensures Plain("jobs/job-" + Decimal(owner) + "-" + Decimal(deadline) + "-" + RANDOM + ".json")
  {
    DigitsArePlain(Decimal(owner));
    DigitsArePlain(Decimal(deadline));
    PlainJoin("jobs/job-", Decimal(owner));
    PlainJoin("jobs/job-" + Decimal(owner), "-");
    PlainJoin("jobs/job-" + Decimal(owner) + "-", Decimal(deadline));
    PlainJoin("jobs/job-" + Decimal(owner) + "-" + Decimal(deadline), "-");
    AroundRandom("jobs/job-" + Decimal(owner) + "-" + Decimal(deadline) + "-", ".json");
  }

  lemma AroundRandom(before: string, after: string)
    requires Plain(before) && Plain(after)
    ensures Plain(before + RANDOM + after)
  {
    DigitsArePlain(RANDOM);
    PlainJoin(before, RANDOM);
    PlainJoin(before + RANDOM, after);
  }

  lemma ContractKeys()
    ensures TextSize("contract_id") == 13 && TextSize("contract_version") == 18 && TextSize("1.0.0") == 7
  {
    PlainSize("contract_id");
    PlainSize("contract_version");
    PlainSize("1.0.0");
  }

  lemma RecordKeys()
    ensures TextSize("original_name") == 15 && TextSize("raw_reserved_bytes") == 20 && TextSize("retained_since_ns") == 19
  {
    PlainSize("original_name");
    PlainSize("raw_reserved_bytes");
    PlainSize("retained_since_ns");
  }

  lemma RecordKind()
    ensures TextSize("inventory-robustness-quarantined-temporary") == 44
  {
    PlainSize("inventory-robustness-quarantined-temporary");
  }

  lemma FirstRecordFields(q: Record)
    requires q.original.IsRetained()
    ensures var f := RecordTree(q).fields;
            FieldSize(f[0]) == 58 && FieldSize(f[1]) == 26 && FieldSize(f[2]) == 18 + NameSize(q.original)
  {
    RetainedNameIsPlain(q.original);
    RetainedNameLength(q.original);
    PlainSize(RetainedName(q.original));
    ContractKeys();
    RecordKeys();
    RecordKind();
  }

  lemma LastRecordFields(q: Record)
    requires q.original.IsRetained()
    ensures var f := RecordTree(q).fields;
            && FieldSize(f[3]) == 21 + Digits(q.raw) && FieldSize(f[4]) == 20 + Digits(q.since)
            && FieldSize(f[5]) == 15 + Digits(q.stored.Size()) && FieldSize(f[6]) == 82
  {
    RecordKeys();
    ReservationKeys();
    PlainSize(ZERO_HASH);
  }

  /** The length of a quarantine record is that of its text. */
  lemma RecordLength(q: Record)
    requires q.original.IsRetained()
    ensures |CanonicalText(RecordTree(q))| == RecordDoc(q).Size()
  {
    FirstRecordFields(q);
    LastRecordFields(q);
    SevenFields(RecordTree(q).fields);
  }

  lemma AllowanceKeys()
    ensures TextSize("automatic_order_allowed") == 25 && TextSize("automatic_publish_allowed") == 27
  {
    PlainSize("automatic_order_allowed");
    PlainSize("automatic_publish_allowed");
  }

  lemma LimitKeys()
    ensures TextSize("database_writes") == 17 && TextSize("max_cpu_workers") == 17 && TextSize("max_files") == 11
    ensures TextSize("raw_limit_bytes") == 17
  {
    PlainSize("database_writes");
    PlainSize("max_cpu_workers");
    PlainSize("max_files");
    PlainSize("raw_limit_bytes");
  }

  lemma TimeKeys()
    ensures TextSize("max_invocation_seconds") == 24 && TextSize("quarantine_retention_seconds") == 30
  {
    PlainSize("max_invocation_seconds");
    PlainSize("quarantine_retention_seconds");
  }

  lemma PolicyKind()
    ensures TextSize("inventory-robustness-local-resource-policy") == 44
  {
    PlainSize("inventory-robustness-local-resource-policy");
  }

  lemma PolicyFields(limit: nat)
    ensures var f := PolicyTree(limit).fields;
            && FieldSize(f[0]) == 31 && FieldSize(f[1]) == 33 && FieldSize(f[2]) == 58 && FieldSize(f[3]) == 26
            && FieldSize(f[4]) == 23 && FieldSize(f[5]) == 19 && FieldSize(f[6]) == 18 && FieldSize(f[7]) == 29
            && FieldSize(f[8]) == 36 && FieldSize(f[9]) == 18 + Digits(limit)
  {
    ContractKeys();
    AllowanceKeys();
    LimitKeys();
    TimeKeys();
    PolicyKind();
  }

  /** The length of the policy document is that of its text. */
  lemma PolicyLength(limit: nat)
    ensures |CanonicalText(PolicyTree(limit))| == PolicyDoc(limit).Size()
  {
    PolicyFields(limit);
    TenFields(PolicyTree(limit).fields);
  }
}
