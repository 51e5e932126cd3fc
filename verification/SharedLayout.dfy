/**
 Extraction of large named values from a document into references, and exact restoration.
 The two are inverse to each other whenever storing and loading a value are.
 */
module SharedLayout {
  import opened Wrappers
  import opened Json
  import opened JsonText
  import opened TreeEdits
  import opened TreeSelection
  import Disk

  const MAX_REFERENCES: nat := 4096
  const MAX_RAW_BYTES: nat := Disk.MAX_RAW_BYTES
  const MAX_STORED_BYTES: nat := 128_000_000

  /** A hash stands for what it is the hash of. */
  datatype Reference = Reference(
    valueHash: Tree, valueByteCount: nat, byteCount: nat, rawHash: Tree, storedByteCount: nat, storedHash: seq<bv8>)

  datatype Entry = Entry(path: Path, reference: Reference)

  datatype Layout = Layout(document: Tree, entries: seq<Entry>)

  predicate ValidReference(r: Reference) {
    && MIN_SHARED_BYTES <= r.valueByteCount <= MAX_RAW_BYTES
    && 1 <= r.byteCount <= MAX_RAW_BYTES && 1 <= r.storedByteCount <= MAX_STORED_BYTES
  }

  predicate PathOk(p: Path) {
    0 < |p| <= MAX_DEPTH && p[|p| - 1].Key? && p[|p| - 1].key in SHARED_FIELDS
  }

  /** Walks to the place a path names, if the document has it. */
  method Location(document: Tree, path: Path) returns (found: bool, current: Tree)
    ensures found <==> PathOk(path) && Has(document, path)
    ensures found ==> current == Get(document, path)
  {
    current := document;
    if !PathOk(path) {
      return false, current;
    }
    for n := 0 to |path|
      invariant Has(document, path) <==> Has(current, path[n..])
      invariant Has(document, path) ==> Get(document, path) == Get(current, path[n..])
    {
      var i := Position(current, path[n]);
      assert path[n..][0] == path[n] && path[n..][1..] == path[n + 1..];
      if i.None? {
        return false, current;
      }
      current := Child(current, i.value);
    }
    return true, current;
  }

  // Packing.

  function Blanks(xs: seq<Chosen>): (edits: seq<Edit>)
    ensures |edits| == |xs| && forall k {:trigger edits[k]} {:trigger xs[k]} :: 0 <= k < |xs| ==> edits[k] == Edit(xs[k].path, Null)
  {
    if xs == [] then [] else Blanks(xs[..|xs| - 1]) + [Edit(xs[|xs| - 1].path, Null)]
  }

  function Entries(xs: seq<Chosen>, persist: Tree -> Reference): (entries: seq<Entry>)
    ensures |entries| == |xs|
    ensures forall k {:trigger entries[k]} {:trigger xs[k]} :: 0 <= k < |xs| ==> entries[k] == Entry(xs[k].path, persist(xs[k].value))
  {
    if xs == [] then [] else Entries(xs[..|xs| - 1], persist) + [Entry(xs[|xs| - 1].path, persist(xs[|xs| - 1].value))]
  }

  predicate Storable(xs: seq<Chosen>, persist: Tree -> Reference) {
    xs == [] || (Storable(xs[..|xs| - 1], persist) && StorableOne(xs[|xs| - 1], persist))
  }

  predicate StorableOne(x: Chosen, persist: Tree -> Reference) {
    PathOk(x.path) && ValidReference(persist(x.value))
  }

  lemma {:induction false} StorableAt(xs: seq<Chosen>, persist: Tree -> Reference, k: nat)
    requires Storable(xs, persist) && k < |xs|
    ensures StorableOne(xs[k], persist)
  {
    if k < |xs| - 1 {
      StorableAt(xs[..|xs| - 1], persist, k);
    }
  }

  lemma {:induction false} AllStorable(xs: seq<Chosen>, persist: Tree -> Reference)
    requires forall k :: 0 <= k < |xs| ==> StorableOne(xs[k], persist)
    ensures Storable(xs, persist)
  {
    if xs != [] {
      AllStorable(xs[..|xs| - 1], persist);
    }
  }

  function Packed(document: Tree, persist: Tree -> Reference): Option<Layout> {
    var xs := Selected(document, []);
    if xs.Some? && |xs.value| <= MAX_REFERENCES && Storable(xs.value, persist) then
      Some(Layout(Assign(document, Blanks(xs.value)), Entries(xs.value, persist)))
    else
      None
  }

  /** The places of a selection are still there while it is being blanked. */
  lemma {:induction false} BlanksLeave(document: Tree, xs: seq<Chosen>, n: nat)
    requires Parts(document, [], 0, xs) && n < |xs|
    ensures Has(Assign(document, Blanks(xs[..n])), xs[n].path)
    ensures Blanks(xs[..n + 1]) == Blanks(xs[..n]) + [Edit(xs[n].path, Null)]
    ensures Assign(document, Blanks(xs[..n + 1])) == Set(Assign(document, Blanks(xs[..n])), xs[n].path, Null)
  {
    assert xs[n].path[0..] == xs[n].path;
    assert Part(document, [], 0, xs[n]);
    AssignElsewhere(document, Blanks(xs[..n]), xs[n].path);
    assert xs[..n + 1][..n] == xs[..n];
    var all := Blanks(xs[..n + 1]);
    assert all[..n] == Blanks(xs[..n]);
  }

  ghost predicate PackedSoFar(document: Tree, persist: Tree -> Reference, xs: seq<Chosen>, n: nat, body: Tree, entries: seq<Entry>) {
    && n <= |xs| && n <= MAX_REFERENCES && Storable(xs[..n], persist)
    && body == Assign(document, Blanks(xs[..n])) && entries == Entries(xs[..n], persist)
  }

  lemma {:induction false} PackStep(document: Tree, persist: Tree -> Reference, xs: seq<Chosen>, n: nat, body: Tree, entries: seq<Entry>)
    requires Proper(document) && Selected(document, []) == Some(xs)
    requires PackedSoFar(document, persist, xs, n, body, entries) && n < |xs|
    ensures Has(body, xs[n].path)
    ensures n < MAX_REFERENCES && StorableOne(xs[n], persist) ==>
              PackedSoFar(document, persist, xs, n + 1, Set(body, xs[n].path, Null), entries + [Entry(xs[n].path, persist(xs[n].value))])
  {
    SelectedAreParts(document, []);
    BlanksLeave(document, xs, n);
    assert xs[..n + 1][..n] == xs[..n];
  }

  lemma {:induction false} PackRefuses(document: Tree, persist: Tree -> Reference, xs: seq<Chosen>, n: nat)
    requires Selected(document, []) == Some(xs) && n < |xs|
    requires n >= MAX_REFERENCES || !StorableOne(xs[n], persist)
    ensures Packed(document, persist) == None
  {
    if Storable(xs, persist) {
      StorableAt(xs, persist, n);
    }
  }

  lemma {:induction false} PackEnds(document: Tree, persist: Tree -> Reference, xs: seq<Chosen>, body: Tree, entries: seq<Entry>)
    requires Selected(document, []) == Some(xs) && PackedSoFar(document, persist, xs, |xs|, body, entries)
    ensures Packed(document, persist) == Some(Layout(body, entries))
  {
    assert xs[..|xs|] == xs;
  }

  /** Stores one shared value and leaves null in its place. */
  method PackValue(document: Tree, persist: Tree -> Reference, ghost xs: seq<Chosen>, ghost n: nat, x: Chosen, body: Tree, entries: seq<Entry>)
    returns (ok: bool, body': Tree, entries': seq<Entry>)
    requires Proper(document) && Selected(document, []) == Some(xs) && n < |xs| && x == xs[n]
    requires PackedSoFar(document, persist, xs, n, body, entries)
    ensures ok ==> PackedSoFar(document, persist, xs, n + 1, body', entries')
    ensures !ok ==> Packed(document, persist) == None
  {
    body', entries' := body, entries;
    if !StorableOne(x, persist) {
      PackRefuses(document, persist, xs, n);
    }
    if |entries| >= MAX_REFERENCES {
      PackRefuses(document, persist, xs, n);
      return false, body', entries';
    }
    var reference := persist(x.value);
    if !ValidReference(reference) {
      return false, body', entries';
    }
    PackStep(document, persist, xs, n, body, entries);
    var found, place := Location(body, x.path);
    if !found {
      return false, body', entries';
    }
    return true, Set(body, x.path, Null), entries + [Entry(x.path, reference)];
  }

  lemma {:induction false} PackStarts(document: Tree, persist: Tree -> Reference, xs: seq<Chosen>)
    ensures PackedSoFar(document, persist, xs, 0, document, [])
  {
    assert xs[..0] == [];
  }

  method PackDocument(document: Tree, persist: Tree -> Reference) returns (r: Option<Layout>)
    requires Proper(document)
    ensures r == Packed(document, persist)
  {
    var chosen := Selected(document, []);
    if chosen.None? {
      return None;
    }
    r := PackValues(document, persist, chosen.value);
  }

  method PackValues(document: Tree, persist: Tree -> Reference, xs: seq<Chosen>) returns (r: Option<Layout>)
    requires Proper(document) && Selected(document, []) == Some(xs)
    ensures r == Packed(document, persist)
  {
    var body, entries, ok := document, [], true;
    PackStarts(document, persist, xs);
    for n := 0 to |xs|
      invariant PackedSoFar(document, persist, xs, n, body, entries)
    {
      ok, body, entries := PackValue(document, persist, xs, n, xs[n], body, entries);
      if !ok {
        return None;
      }
    }
    PackEnds(document, persist, xs, body, entries);
    return Some(Layout(body, entries));
  }

  // Restoring.

  predicate EntryOk(document: Tree, e: Entry) {
    PathOk(e.path) && Has(document, e.path) && Get(document, e.path) == Null && ValidReference(e.reference)
  }

  function PathsOf(entries: seq<Entry>): set<Path> {
    set e | e in entries :: e.path
  }

  /** Every entry names a null of the document, and no two the same. */
  predicate EntriesOk(document: Tree, entries: seq<Entry>) {
    entries == [] ||
    (var before, e := entries[..|entries| - 1], entries[|entries| - 1];
     EntriesOk(document, before) && EntryOk(document, e) && e.path !in PathsOf(before))
  }

  lemma {:induction false} EntriesOkAt(document: Tree, entries: seq<Entry>)
    requires EntriesOk(document, entries)
    ensures forall k {:trigger entries[k]} :: 0 <= k < |entries| ==> EntryOk(document, entries[k])
    ensures forall j, k {:trigger entries[j], entries[k]} :: 0 <= j < k < |entries| ==> entries[j].path != entries[k].path
  {
    if entries != [] {
      var before := entries[..|entries| - 1];
      EntriesOkAt(document, before);
      forall j | 0 <= j < |before|
        ensures entries[j].path in PathsOf(before) && EntryOk(document, entries[j])
      {
        assert before[j] in before;
      }
      forall j, k | 0 <= j < k < |before|
        ensures entries[j].path != entries[k].path
      {
        assert before[j].path != before[k].path;
      }
    }
  }

  lemma {:induction false} EntriesOkFrom(document: Tree, entries: seq<Entry>)
    requires forall k :: 0 <= k < |entries| ==> EntryOk(document, entries[k])
    requires forall j, k :: 0 <= j < k < |entries| ==> entries[j].path != entries[k].path
    ensures EntriesOk(document, entries)
  {
    if entries != [] {
      EntriesOkFrom(document, entries[..|entries| - 1]);
    }
  }

  function Predicted(document: Tree, entries: seq<Entry>): int {
    if entries == [] then Size(document) + 1
    else Predicted(document, entries[..|entries| - 1]) + entries[|entries| - 1].reference.valueByteCount - 4
  }

  predicate WithinExpansion(document: Tree, entries: seq<Entry>) {
    entries == []
    || (WithinExpansion(document, entries[..|entries| - 1]) && Predicted(document, entries) <= MAX_RAW_BYTES)
  }

  lemma {:induction false} PrefixOk(document: Tree, entries: seq<Entry>, n: nat)
    requires n <= |entries|
    ensures EntriesOk(document, entries) ==> EntriesOk(document, entries[..n])
    ensures WithinExpansion(document, entries) ==> WithinExpansion(document, entries[..n])
  {
    if n < |entries| {
      var before := entries[..|entries| - 1];
      PrefixOk(document, before, n);
      assert before[..n] == entries[..n];
    } else {
      assert entries[..n] == entries;
    }
  }

  predicate LoadsOne(r: Reference, load: Reference -> Option<Tree>) {
    load(r).Some? && load(r).value.IsContainer()
  }

  predicate Agrees(entries: seq<Entry>, r: Reference) {
    forall e :: e in entries && e.reference.valueHash == r.valueHash ==> e.reference == r
  }

  /** Every reference loads a container, and no two references differ for one value. */
  predicate Loads(entries: seq<Entry>, load: Reference -> Option<Tree>) {
    entries == [] ||
    (var before, e := entries[..|entries| - 1], entries[|entries| - 1];
     Loads(before, load) && LoadsOne(e.reference, load) && Agrees(before, e.reference))
  }

  lemma {:induction false} LoadsPrefix(entries: seq<Entry>, load: Reference -> Option<Tree>, n: nat)
    requires n <= |entries|
    ensures Loads(entries, load) ==> Loads(entries[..n], load)
  {
    if n < |entries| {
      LoadsPrefix(entries[..|entries| - 1], load, n);
      assert entries[..|entries| - 1][..n] == entries[..n];
    } else {
      assert entries[..n] == entries;
    }
  }

  function Loaded(entries: seq<Entry>, load: Reference -> Option<Tree>): (edits: seq<Edit>)
    requires Loads(entries, load)
    ensures |edits| == |entries|
    ensures forall k {:trigger edits[k]} {:trigger entries[k]} :: 0 <= k < |entries| ==>
              load(entries[k].reference).Some? && load(entries[k].reference).value.IsContainer()
              && edits[k] == Edit(entries[k].path, load(entries[k].reference).value)
  {
    if entries == [] then []
    else
      var e := entries[|entries| - 1];
      Loaded(entries[..|entries| - 1], load) + [Edit(e.path, load(e.reference).value)]
  }

  predicate SamePaths(xs: seq<Chosen>, entries: seq<Entry>) {
    |xs| == |entries| && forall k {:trigger xs[k]} {:trigger entries[k]} :: 0 <= k < |xs| ==> xs[k].path == entries[k].path
  }

  predicate Expandable(layout: Layout, expected: int) {
    && layout.document.Object? && |layout.entries| <= MAX_REFERENCES && 0 < expected <= MAX_RAW_BYTES
    && EntriesOk(layout.document, layout.entries)
    && WithinExpansion(layout.document, layout.entries) && Predicted(layout.document, layout.entries) == expected
  }

  function Restored(layout: Layout, load: Reference -> Option<Tree>, expected: int): Option<Tree> {
    if Expandable(layout, expected) && Loads(layout.entries, load) then
      var v := Assign(layout.document, Loaded(layout.entries, load));
      var xs := Selected(v, []);
      if xs.Some? && SamePaths(xs.value, layout.entries) then Some(v) else None
    else
      None
  }

  /** Places that all hold null lie apart: nothing is inside a null. */
  lemma {:induction false} NullsApart(v: Tree, p: Path, q: Path)
    requires Has(v, p) && Has(v, q) && Get(v, p) == Null && Get(v, q) == Null && p != q
    ensures Apart(p, q)
    decreases |p|
  {
    if p != [] && q != [] {
      if p[0] == q[0] {
        assert p == [p[0]] + p[1..] && q == [q[0]] + q[1..];
        NullsApart(Child(v, Position(v, p[0]).value), p[1..], q[1..]);
      }
    }
  }

  lemma {:induction false} EntriesApart(document: Tree, entries: seq<Entry>, edits: seq<Edit>)
    requires EntriesOk(document, entries) && |edits| == |entries|
    requires forall k {:trigger edits[k]} {:trigger entries[k]} :: 0 <= k < |entries| ==> edits[k].path == entries[k].path
    ensures AllApart(edits) && Everywhere(document, edits)
    ensures forall k {:trigger entries[k]} :: 0 <= k < |entries| ==> Get(document, entries[k].path) == Null
  {
    EntriesOkAt(document, entries);
    forall k | 0 <= k < |edits|
      ensures Has(document, edits[k].path)
    {
      assert EntryOk(document, entries[k]);
    }
    forall j, k | 0 <= j < |edits| && 0 <= k < |edits| && j != k
      ensures Apart(edits[j].path, edits[k].path)
    {
      assert EntryOk(document, entries[j]) && EntryOk(document, entries[k]);
      assert entries[j].path != entries[k].path;
      NullsApart(document, entries[j].path, entries[k].path);
    }
  }

  lemma {:induction false} PredictedIsGrowth(document: Tree, entries: seq<Entry>, edits: seq<Edit>)
    requires |edits| == |entries| && Everywhere(document, edits)
    requires forall k {:trigger edits[k]} {:trigger entries[k]} :: 0 <= k < |entries| ==>
               Get(document, edits[k].path) == Null && Size(edits[k].value) == entries[k].reference.valueByteCount
    ensures Predicted(document, entries) == Size(document) + 1 + Growth(document, edits)
  {
    if entries != [] {
      var n := |entries| - 1;
      var shorter := edits[..n];
      assert Everywhere(document, shorter) by {
        assert forall k :: 0 <= k < n ==> shorter[k] == edits[k];
      }
      forall k | 0 <= k < n
        ensures Get(document, shorter[k].path) == Null && Size(shorter[k].value) == entries[..n][k].reference.valueByteCount
      {
        assert shorter[k] == edits[k];
      }
      PredictedIsGrowth(document, entries[..n], shorter);
      assert edits[n].path == edits[n].path;
    }
  }

  /** The predicted length is the length of the restored text, newline included. */
  lemma {:induction false} PredictedIsExact(document: Tree, entries: seq<Entry>, edits: seq<Edit>)
    requires EntriesOk(document, entries) && |edits| == |entries|
    requires forall k {:trigger edits[k]} {:trigger entries[k]} :: 0 <= k < |entries| ==>
               edits[k].path == entries[k].path && Size(edits[k].value) == entries[k].reference.valueByteCount
    ensures Predicted(document, entries) == Size(Assign(document, edits)) + 1 == |CanonicalText(Assign(document, edits))|
  {
    CanonicalLength(Assign(document, edits));
    EntriesApart(document, entries, edits);
    PredictedIsGrowth(document, entries, edits);
    SizeOfAssign(document, edits);
  }

  /** The checks of the entries before `n`, and the length predicted so far. */
  ghost predicate CheckedSoFar(layout: Layout, n: nat, seen: set<Path>, predicted: int) {
    && n <= |layout.entries|
    && var first := layout.entries[..n];
       && EntriesOk(layout.document, first) && WithinExpansion(layout.document, first)
       && seen == PathsOf(first) && predicted == Predicted(layout.document, first)
  }

  lemma {:induction false} PathsNext(entries: seq<Entry>, n: nat)
    requires n < |entries|
    ensures entries[..n + 1][..n] == entries[..n]
    ensures PathsOf(entries[..n + 1]) == PathsOf(entries[..n]) + {entries[n].path}
  {
    assert entries[..n + 1] == entries[..n] + [entries[n]];
  }

  lemma {:induction false} CheckStep(layout: Layout, n: nat, seen: set<Path>, predicted: int)
    requires CheckedSoFar(layout, n, seen, predicted) && n < |layout.entries|
    ensures var e := layout.entries[n];
            var predicted' := predicted + e.reference.valueByteCount - 4;
            if EntryOk(layout.document, e) && e.path !in seen && predicted' <= MAX_RAW_BYTES then
              CheckedSoFar(layout, n + 1, seen + {e.path}, predicted')
            else
              forall expected :: !Expandable(layout, expected)
  {
    PathsNext(layout.entries, n);
    PrefixOk(layout.document, layout.entries, n + 1);
  }

  /** Rejects a bad layout, or one that would expand too far, before anything is loaded. */
  method CheckLayout(layout: Layout, expected: int) returns (ok: bool)
    ensures ok <==> Expandable(layout, expected)
  {
    if !layout.document.Object? || |layout.entries| > MAX_REFERENCES || !(0 < expected <= MAX_RAW_BYTES) {
      return false;
    }
    var predicted, seen: set<Path> := Size(layout.document) + 1, {};
    for n := 0 to |layout.entries|
      invariant CheckedSoFar(layout, n, seen, predicted)
    {
      var e := layout.entries[n];
      var found, place := Location(layout.document, e.path);
      CheckStep(layout, n, seen, predicted);
      if !found || place != Null || e.path in seen || !ValidReference(e.reference)
         || predicted + e.reference.valueByteCount - 4 > MAX_RAW_BYTES {
        return false;
      }
      seen, predicted := seen + {e.path}, predicted + e.reference.valueByteCount - 4;
    }
    assert layout.entries[..|layout.entries|] == layout.entries;
    return predicted == expected;
  }

  /** What has been loaded, by the hash of the value: the reference and the value. */
  function Cache(entries: seq<Entry>, load: Reference -> Option<Tree>): map<Tree, (Reference, Tree)>
    requires Loads(entries, load)
  {
    if entries == [] then map[]
    else
      var before, r := Cache(entries[..|entries| - 1], load), entries[|entries| - 1].reference;
      if r.valueHash in before then before else before[r.valueHash := (r, load(r).value)]
  }

  lemma {:induction false} CacheHolds(entries: seq<Entry>, load: Reference -> Option<Tree>)
    requires Loads(entries, load)
    ensures forall e :: e in entries ==>
              e.reference.valueHash in Cache(entries, load) && LoadsOne(e.reference, load)
              && Cache(entries, load)[e.reference.valueHash] == (e.reference, load(e.reference).value)
    ensures forall h :: h in Cache(entries, load) ==> exists e :: e in entries && e.reference.valueHash == h
  {
    if entries != [] {
      var before, e := entries[..|entries| - 1], entries[|entries| - 1];
      assert entries == before + [e];
      CacheHolds(before, load);
    }
  }

  /** A reference is loaded once; the next one of the same value has to be the same. */
  predicate Hit(cached: map<Tree, (Reference, Tree)>, r: Reference) {
    r.valueHash in cached
  }

  predicate Accepts(cached: map<Tree, (Reference, Tree)>, load: Reference -> Option<Tree>, r: Reference) {
    if Hit(cached, r) then cached[r.valueHash].0 == r else LoadsOne(r, load)
  }

  lemma {:induction false} CacheNext(entries: seq<Entry>, load: Reference -> Option<Tree>, n: nat)
    requires n < |entries| && Loads(entries[..n], load)
    ensures var cached, r := Cache(entries[..n], load), entries[n].reference;
            && (Accepts(cached, load, r) <==> Loads(entries[..n + 1], load))
            && (Accepts(cached, load, r) ==>
                  && LoadsOne(r, load) && (Hit(cached, r) ==> cached[r.valueHash].1 == load(r).value)
                  && Cache(entries[..n + 1], load) == if Hit(cached, r) then cached else cached[r.valueHash := (r, load(r).value)])
    ensures entries[..n + 1][..n] == entries[..n]
  {
    var first, next, e := entries[..n], entries[..n + 1], entries[n];
    assert next[..n] == first;
    CacheHolds(first, load);
  }

  lemma {:induction false} LoadedNext(entries: seq<Entry>, load: Reference -> Option<Tree>, document: Tree, n: nat)
    requires n < |entries| && Loads(entries[..n], load) && Loads(entries[..n + 1], load)
    requires EntriesOk(document, entries)
    ensures var value := Assign(document, Loaded(entries[..n], load));
            && Has(value, entries[n].path)
            && Assign(document, Loaded(entries[..n + 1], load)) == Set(value, entries[n].path, load(entries[n].reference).value)
  {
    var first, next := entries[..n], entries[..n + 1];
    assert next[..n] == first;
    PlaceStillThere(document, entries, load, n);
    assert Loaded(next, load)[..n] == Loaded(first, load);
  }

  lemma {:induction false} PlaceStillThere(document: Tree, entries: seq<Entry>, load: Reference -> Option<Tree>, n: nat)
    requires EntriesOk(document, entries) && n < |entries| && Loads(entries[..n], load)
    ensures Has(Assign(document, Loaded(entries[..n], load)), entries[n].path)
  {
    EntriesOkAt(document, entries);
    var edits := Loaded(entries[..n], load);
    assert EntryOk(document, entries[n]);
    forall k | 0 <= k < n
      ensures Apart(entries[n].path, edits[k].path)
    {
      assert EntryOk(document, entries[k]);
      assert entries[k].path != entries[n].path;
      NullsApart(document, entries[n].path, entries[k].path);
    }
    AssignElsewhere(document, edits, entries[n].path);
  }

  /** Puts every referenced value back in its place, loading each of them once. */
  method LoadValues(document: Tree, entries: seq<Entry>, load: Reference -> Option<Tree>) returns (ok: bool, value: Tree)
    requires EntriesOk(document, entries)
    ensures ok <==> Loads(entries, load)
    ensures ok ==> value == Assign(document, Loaded(entries, load))
  {
    var cached: map<Tree, (Reference, Tree)> := map[];
    value := document;
    for n := 0 to |entries|
      invariant Loads(entries[..n], load) && value == Assign(document, Loaded(entries[..n], load))
      invariant cached == Cache(entries[..n], load)
    {
      var e := entries[n];
      var r := e.reference;
      CacheNext(entries, load, n);
      LoadsPrefix(entries, load, n + 1);
      if !Accepts(cached, load, r) {
        return false, value;
      }
      LoadedNext(entries, load, document, n);
      var shared: Tree;
      if Hit(cached, r) {
        shared := cached[r.valueHash].1;
      } else {
        shared := load(r).value;
        cached := cached[r.valueHash := (r, shared)];
      }
      value := Set(value, e.path, shared);
    }
    assert entries[..|entries|] == entries;
    return true, value;
  }

  method RestoreDocument(layout: Layout, load: Reference -> Option<Tree>, expected: int) returns (r: Option<Tree>)
    ensures r == Restored(layout, load, expected)
  {
    var ok := CheckLayout(layout, expected);
    if !ok {
      return None;
    }
    var value;
    ok, value := LoadValues(layout.document, layout.entries, load);
    if !ok {
      return None;
    }
    var xs := Selected(value, []);
    if xs.None? || !SamePaths(xs.value, layout.entries) {
      return None;
    }
    return Some(value);
  }

  // The two directions are inverse.

  /** Storing a container, where it succeeds, gives a reference to it that loads it again. */
  predicate LoadsAgain(persist: Tree -> Reference, load: Reference -> Option<Tree>, x: Tree) {
    x.IsContainer() && ValidReference(persist(x)) ==>
      load(persist(x)) == Some(x) && persist(x).valueHash == x && persist(x).valueByteCount == Size(x)
  }

  ghost predicate LoadsWhatItStores(persist: Tree -> Reference, load: Reference -> Option<Tree>) {
    forall x {:trigger LoadsAgain(persist, load, x)} :: LoadsAgain(persist, load, x)
  }

  /** Loading a reference gives a value whose reference it is. */
  predicate StoresAgain(persist: Tree -> Reference, load: Reference -> Option<Tree>, r: Reference) {
    ValidReference(r) && load(r).Some? && load(r).value.IsContainer() ==>
      persist(load(r).value) == r && Proper(load(r).value) && r.valueByteCount == Size(load(r).value)
  }

  ghost predicate StoresWhatItLoads(persist: Tree -> Reference, load: Reference -> Option<Tree>) {
    forall r {:trigger StoresAgain(persist, load, r)} :: StoresAgain(persist, load, r)
  }

  lemma {:induction false} PackedEntriesOk(document: Tree, xs: seq<Chosen>, persist: Tree -> Reference)
    requires Parts(document, [], 0, xs) && Storable(xs, persist)
    ensures EntriesOk(Assign(document, Blanks(xs)), Entries(xs, persist))
    ensures AllApart(Blanks(xs)) && Everywhere(document, Blanks(xs))
  {
    var edits, entries := Blanks(xs), Entries(xs, persist);
    forall k | 0 <= k < |xs|
      ensures Has(document, edits[k].path)
    {
      assert Part(document, [], 0, xs[k]) && xs[k].path[0..] == xs[k].path;
    }
    AssignHas(document, edits);
    forall k | 0 <= k < |xs|
      ensures PathOk(xs[k].path) && ValidReference(entries[k].reference)
    {
      StorableAt(xs, persist, k);
    }
    forall j, k | 0 <= j < k < |entries|
      ensures entries[j].path != entries[k].path
    {
      assert Apart(xs[j].path, xs[k].path);
    }
    EntriesOkFrom(Assign(document, edits), entries);
  }

  lemma {:induction false} PartsHold(document: Tree, xs: seq<Chosen>)
    requires Parts(document, [], 0, xs)
    ensures forall k {:trigger xs[k]} :: 0 <= k < |xs| ==>
              xs[k].value.IsContainer() && Has(document, xs[k].path) && Get(document, xs[k].path) == xs[k].value
  {
    forall k | 0 <= k < |xs|
      ensures xs[k].value.IsContainer() && Has(document, xs[k].path) && Get(document, xs[k].path) == xs[k].value
    {
      assert Part(document, [], 0, xs[k]) && xs[k].path[0..] == xs[k].path;
    }
  }

  lemma {:induction false} PackedLoads(document: Tree, xs: seq<Chosen>, persist: Tree -> Reference, load: Reference -> Option<Tree>)
    requires Parts(document, [], 0, xs) && LoadsWhatItStores(persist, load) && Storable(xs, persist)
    ensures Loads(Entries(xs, persist), load)
    ensures Undoes(document, Blanks(xs), Loaded(Entries(xs, persist), load))
  {
    PartsHold(document, xs);
    StoredLoads(xs, persist, load);
    StoredValues(xs, persist, load);
    ValuesUndo(document, xs, Loaded(Entries(xs, persist), load));
  }

  lemma {:induction false} ValuesUndo(document: Tree, xs: seq<Chosen>, loaded: seq<Edit>)
    requires Parts(document, [], 0, xs) && |loaded| == |xs|
    requires forall k {:trigger loaded[k]} :: 0 <= k < |xs| ==> loaded[k] == Edit(xs[k].path, xs[k].value)
    ensures Undoes(document, Blanks(xs), loaded)
  {
    PartsHold(document, xs);
  }

  /** Each entry loads the value it was made for, of the length it names. */
  lemma {:induction false} StoredValues(xs: seq<Chosen>, persist: Tree -> Reference, load: Reference -> Option<Tree>)
    requires forall k {:trigger xs[k]} :: 0 <= k < |xs| ==> xs[k].value.IsContainer()
    requires LoadsWhatItStores(persist, load) && Storable(xs, persist) && Loads(Entries(xs, persist), load)
    ensures var entries := Entries(xs, persist);
            var loaded := Loaded(entries, load);
            forall k {:trigger loaded[k]} {:trigger entries[k]} {:trigger xs[k]} :: 0 <= k < |xs| ==>
              && loaded[k] == Edit(xs[k].path, xs[k].value) && entries[k].path == xs[k].path
              && Size(loaded[k].value) == entries[k].reference.valueByteCount
  {
    forall k | 0 <= k < |xs|
      ensures load(persist(xs[k].value)) == Some(xs[k].value)
      ensures persist(xs[k].value).valueByteCount == Size(xs[k].value)
    {
      StorableAt(xs, persist, k);
      assert LoadsAgain(persist, load, xs[k].value);
    }
  }

  predicate Stored(persist: Tree -> Reference, e: Entry) {
    e.reference == persist(e.reference.valueHash)
  }

  ghost predicate AllStored(persist: Tree -> Reference, entries: seq<Entry>) {
    forall e {:trigger Stored(persist, e)} :: e in entries ==> Stored(persist, e)
  }

  lemma {:induction false} StoredLoadsNext(before: seq<Entry>, persist: Tree -> Reference, load: Reference -> Option<Tree>, x: Chosen)
    requires Loads(before, load) && AllStored(persist, before)
    requires x.value.IsContainer() && ValidReference(persist(x.value)) && LoadsAgain(persist, load, x.value)
    ensures Loads(before + [Entry(x.path, persist(x.value))], load)
    ensures AllStored(persist, before + [Entry(x.path, persist(x.value))])
  {
    var e := Entry(x.path, persist(x.value));
    assert (before + [e])[..|before|] == before;
    forall f | f in before && f.reference.valueHash == x.value
      ensures f.reference == persist(x.value)
    {
      assert Stored(persist, f);
    }
  }

  lemma {:induction false} StoredLoads(xs: seq<Chosen>, persist: Tree -> Reference, load: Reference -> Option<Tree>)
    requires forall x :: x in xs ==> x.value.IsContainer()
    requires LoadsWhatItStores(persist, load) && Storable(xs, persist)
    ensures Loads(Entries(xs, persist), load) && AllStored(persist, Entries(xs, persist))
  {
    if xs != [] {
      var shorter, x := xs[..|xs| - 1], xs[|xs| - 1];
      StoredLoads(shorter, persist, load);
      assert LoadsAgain(persist, load, x.value);
      StoredLoadsNext(Entries(shorter, persist), persist, load, x);
    }
  }

  lemma {:induction false} PackedExpands(document: Tree, xs: seq<Chosen>, persist: Tree -> Reference, load: Reference -> Option<Tree>, expected: int)
    requires Parts(document, [], 0, xs) && document.Object? && LoadsWhatItStores(persist, load)
    requires Size(document) + 1 <= MAX_RAW_BYTES && |xs| <= MAX_REFERENCES && Storable(xs, persist)
    ensures var layout := Layout(Assign(document, Blanks(xs)), Entries(xs, persist));
            Expandable(layout, expected) <==> expected == Size(document) + 1
  {
    var body, entries := Assign(document, Blanks(xs)), Entries(xs, persist);
    PackedEntriesOk(document, xs, persist);
    PackedPredicts(document, xs, persist, load);
    assert body.Object? by {
      StillAnObject(document, Blanks(xs));
    }
    ExpandsExactly(Layout(body, entries), Size(document) + 1, expected);
  }

  lemma {:induction false} ExpandsExactly(layout: Layout, total: int, expected: int)
    requires layout.document.Object? && |layout.entries| <= MAX_REFERENCES && EntriesOk(layout.document, layout.entries)
    requires 0 < total <= MAX_RAW_BYTES && Predicted(layout.document, layout.entries) == total
    ensures Expandable(layout, expected) <==> expected == total
  {
    AllPrefixesFit(layout.document, layout.entries);
  }

  lemma {:induction false} PackedPredicts(document: Tree, xs: seq<Chosen>, persist: Tree -> Reference, load: Reference -> Option<Tree>)
    requires Parts(document, [], 0, xs) && LoadsWhatItStores(persist, load) && Storable(xs, persist)
    ensures Predicted(Assign(document, Blanks(xs)), Entries(xs, persist)) == Size(document) + 1
  {
    var body, entries := Assign(document, Blanks(xs)), Entries(xs, persist);
    PackedEntriesOk(document, xs, persist);
    PackedLoads(document, xs, persist, load);
    AssignThenUndo(document, Blanks(xs), Loaded(entries, load));
    PartsHold(document, xs);
    StoredValues(xs, persist, load);
    PredictedIsExact(body, entries, Loaded(entries, load));
  }

  lemma {:induction false} RestoreSucceeds(layout: Layout, load: Reference -> Option<Tree>, expected: int, v: Tree, xs: seq<Chosen>)
    requires Expandable(layout, expected) && Loads(layout.entries, load)
    requires v == Assign(layout.document, Loaded(layout.entries, load))
    requires Selected(v, []) == Some(xs) && SamePaths(xs, layout.entries)
    ensures Restored(layout, load, expected) == Some(v)
  {
  }

  lemma {:induction false} RestoreRefuses(layout: Layout, load: Reference -> Option<Tree>, expected: int)
    requires !Expandable(layout, expected)
    ensures Restored(layout, load, expected) == None
  {
  }

  /** Restoring a packed document gives the document; the length it asks for is the length of its text. */
  lemma {:induction false} RestoreAfterPack(document: Tree, persist: Tree -> Reference, load: Reference -> Option<Tree>, expected: int)
    requires Proper(document) && document.Object? && LoadsWhatItStores(persist, load)
    requires |CanonicalText(document)| <= MAX_RAW_BYTES && Packed(document, persist).Some?
    ensures Restored(Packed(document, persist).value, load, expected) ==
              if expected == |CanonicalText(document)| then Some(document) else None
  {
    CanonicalLength(document);
    var xs, layout := Selected(document, []).value, Packed(document, persist).value;
    SelectedAreParts(document, []);
    PackedExpands(document, xs, persist, load, expected);
    if expected == Size(document) + 1 {
      PackedLoads(document, xs, persist, load);
      PackedEntriesOk(document, xs, persist);
      AssignThenUndo(document, Blanks(xs), Loaded(layout.entries, load));
      RestoreSucceeds(layout, load, expected, document, xs);
    } else {
      RestoreRefuses(layout, load, expected);
    }
  }

  lemma {:induction false} AllPrefixesFit(document: Tree, entries: seq<Entry>)
    requires EntriesOk(document, entries)
    ensures Predicted(document, entries) <= MAX_RAW_BYTES ==> WithinExpansion(document, entries)
  {
    if entries != [] {
      AllPrefixesFit(document, entries[..|entries| - 1]);
    }
  }

  lemma {:induction false} StillAnObject(v: Tree, edits: seq<Edit>)
    requires forall k {:trigger edits[k]} :: 0 <= k < |edits| ==> edits[k].path != []
    ensures Assign(v, edits).Object? == v.Object?
  {
    if edits != [] {
      StillAnObject(v, edits[..|edits| - 1]);
    }
  }

  lemma {:induction false} LoadedHolds(document: Tree, entries: seq<Entry>, persist: Tree -> Reference, load: Reference -> Option<Tree>)
    requires EntriesOk(document, entries) && Loads(entries, load) && StoresWhatItLoads(persist, load) && Proper(document)
    ensures var edits := Loaded(entries, load);
            && AllApart(edits) && Everywhere(document, edits) && Proper(Assign(document, edits))
            && Assign(document, edits).Object? == document.Object?
            && Predicted(document, entries) == Size(Assign(document, edits)) + 1
  {
    var edits := Loaded(entries, load);
    EntriesOkAt(document, entries);
    EntriesApart(document, entries, edits);
    forall k | 0 <= k < |edits|
      ensures edits[k].path != [] && Proper(edits[k].value) && Size(edits[k].value) == entries[k].reference.valueByteCount
    {
      assert EntryOk(document, entries[k]);
      assert StoresAgain(persist, load, entries[k].reference);
    }
    AssignProper(document, edits);
    StillAnObject(document, edits);
    PredictedIsExact(document, entries, edits);
  }

  /** What the selection of a restored document finds is what was loaded. */
  lemma {:induction false} SelectsWhatWasLoaded(document: Tree, entries: seq<Entry>, load: Reference -> Option<Tree>, xs: seq<Chosen>)
    requires EntriesOk(document, entries) && Loads(entries, load) && SamePaths(xs, entries)
    requires Parts(Assign(document, Loaded(entries, load)), [], 0, xs)
    ensures forall k {:trigger xs[k]} :: 0 <= k < |xs| ==> xs[k].value == Loaded(entries, load)[k].value
    ensures Undoes(document, Loaded(entries, load), Blanks(xs)) && AllApart(Loaded(entries, load))
  {
    var edits := Loaded(entries, load);
    EntriesApart(document, entries, edits);
    AssignHas(document, edits);
    forall k | 0 <= k < |xs|
      ensures xs[k].value == edits[k].value && Has(document, edits[k].path) && Get(document, edits[k].path) == Null
    {
      assert Part(Assign(document, edits), [], 0, xs[k]) && xs[k].path[0..] == xs[k].path;
      assert edits[k].path == entries[k].path;
    }
  }

  lemma {:induction false} RepacksTo(document: Tree, entries: seq<Entry>, xs: seq<Chosen>, persist: Tree -> Reference, load: Reference -> Option<Tree>)
    requires EntriesOk(document, entries) && Loads(entries, load) && SamePaths(xs, entries) && StoresWhatItLoads(persist, load)
    requires forall k {:trigger xs[k]} :: 0 <= k < |xs| ==> xs[k].value == Loaded(entries, load)[k].value
    ensures Storable(xs, persist) && Entries(xs, persist) == entries
  {
    var edits := Loaded(entries, load);
    EntriesOkAt(document, entries);
    forall k | 0 <= k < |xs|
      ensures StorableOne(xs[k], persist) && persist(xs[k].value) == entries[k].reference
    {
      assert EntryOk(document, entries[k]);
      assert StoresAgain(persist, load, entries[k].reference);
      assert xs[k].value == edits[k].value == load(entries[k].reference).value;
    }
    AllStorable(xs, persist);
  }

  /** Every layout that is accepted is the packing of what it restores to. */
  lemma {:induction false} PackAfterRestore(layout: Layout, persist: Tree -> Reference, load: Reference -> Option<Tree>, expected: int)
    requires Proper(layout.document) && StoresWhatItLoads(persist, load) && Restored(layout, load, expected).Some?
    ensures var v := Restored(layout, load, expected).value;
            Proper(v) && v.Object? && |CanonicalText(v)| == expected && Packed(v, persist) == Some(layout)
  {
    var document, entries := layout.document, layout.entries;
    LoadedHolds(document, entries, persist, load);
    var v := Assign(document, Loaded(entries, load));
    CanonicalLength(v);
    var xs := Selected(v, []).value;
    SelectedAreParts(v, []);
    SelectsWhatWasLoaded(document, entries, load, xs);
    AssignThenUndo(document, Loaded(entries, load), Blanks(xs));
    RepacksTo(document, entries, xs, persist, load);
  }

  // A store that only grows.

  /** `persist'` gives every valid reference that `persist` gives. */
  predicate PersistsAs(persist: Tree -> Reference, persist': Tree -> Reference, x: Tree) {
    ValidReference(persist(x)) ==> persist'(x) == persist(x)
  }

  ghost predicate PersistsMore(persist: Tree -> Reference, persist': Tree -> Reference) {
    forall x {:trigger PersistsAs(persist, persist', x)} :: PersistsAs(persist, persist', x)
  }

  predicate LoadsAs(load: Reference -> Option<Tree>, load': Reference -> Option<Tree>, r: Reference) {
    load(r).Some? ==> load'(r) == load(r)
  }

  ghost predicate LoadsMore(load: Reference -> Option<Tree>, load': Reference -> Option<Tree>) {
    forall r {:trigger LoadsAs(load, load', r)} :: LoadsAs(load, load', r)
  }

  lemma {:induction false} StorableMore(xs: seq<Chosen>, persist: Tree -> Reference, persist': Tree -> Reference)
    requires PersistsMore(persist, persist') && Storable(xs, persist)
    ensures Storable(xs, persist') && Entries(xs, persist') == Entries(xs, persist)
  {
    if xs != [] {
      StorableMore(xs[..|xs| - 1], persist, persist');
      assert PersistsAs(persist, persist', xs[|xs| - 1].value);
    }
  }

  lemma {:induction false} PackedMore(document: Tree, persist: Tree -> Reference, persist': Tree -> Reference)
    requires PersistsMore(persist, persist') && Packed(document, persist).Some?
    ensures Packed(document, persist') == Packed(document, persist)
  {
    StorableMore(Selected(document, []).value, persist, persist');
  }

  lemma {:induction false} LoadedMore(entries: seq<Entry>, load: Reference -> Option<Tree>, load': Reference -> Option<Tree>)
    requires LoadsMore(load, load') && Loads(entries, load)
    ensures Loads(entries, load') && Loaded(entries, load') == Loaded(entries, load)
  {
    if entries != [] {
      LoadedMore(entries[..|entries| - 1], load, load');
      assert LoadsAs(load, load', entries[|entries| - 1].reference);
    }
  }

  lemma {:induction false} RestoredMore(layout: Layout, load: Reference -> Option<Tree>, load': Reference -> Option<Tree>, expected: int)
    requires LoadsMore(load, load') && Restored(layout, load, expected).Some?
    ensures Restored(layout, load', expected) == Restored(layout, load, expected)
  {
    LoadedMore(layout.entries, load, load');
  }

  predicate WithinLimits(x: Chosen, persist: Tree -> Reference) {
    var r := persist(x.value);
    && |x.path| <= 64 && 512 <= r.valueByteCount <= 128_000_000
    && 1 <= r.byteCount <= 128_000_000 && 1 <= r.storedByteCount <= 128_000_000
  }

  lemma {:induction false} StorableIsWithin(document: Tree, xs: seq<Chosen>, k: nat, persist: Tree -> Reference)
    requires Parts(document, [], 0, xs) && k < |xs|
    ensures StorableOne(xs[k], persist) <==> WithinLimits(xs[k], persist)
  {
    assert Part(document, [], 0, xs[k]) && xs[k].path[0..] == xs[k].path;
  }

  /** What packing asks of a document: few enough shared values, not too deep, and references within their limits. */
  lemma {:induction false} PackAccepts(document: Tree, persist: Tree -> Reference)
    requires Proper(document)
    ensures Packed(document, persist).Some? <==>
              && Selected(document, []).Some? && |Selected(document, []).value| <= 4096
              && forall k :: 0 <= k < |Selected(document, []).value| ==> WithinLimits(Selected(document, []).value[k], persist)
  {
    if Selected(document, []).Some? {
      var xs := Selected(document, []).value;
      SelectedAreParts(document, []);
      forall k | 0 <= k < |xs|
        ensures StorableOne(xs[k], persist) <==> WithinLimits(xs[k], persist)
      {
        StorableIsWithin(document, xs, k, persist);
      }
      AllOrNone(xs, persist);
    }
  }

  lemma {:induction false} AllOrNone(xs: seq<Chosen>, persist: Tree -> Reference)
    ensures Storable(xs, persist) <==> forall k :: 0 <= k < |xs| ==> StorableOne(xs[k], persist)
  {
    if Storable(xs, persist) {
      forall k | 0 <= k < |xs|
        ensures StorableOne(xs[k], persist)
      {
        StorableAt(xs, persist, k);
      }
    } else if forall k :: 0 <= k < |xs| ==> StorableOne(xs[k], persist) {
      AllStorable(xs, persist);
    }
  }

  /** Restoring is the inverse of packing, on the layouts it accepts and on nothing else. */
  lemma {:induction false} InverseToEachOther(layout: Layout, v: Tree, persist: Tree -> Reference, load: Reference -> Option<Tree>, expected: int)
    requires LoadsWhatItStores(persist, load) && StoresWhatItLoads(persist, load) && Proper(layout.document) && expected <= 128_000_000
    ensures Restored(layout, load, expected) == Some(v) <==>
              Proper(v) && v.Object? && |CanonicalText(v)| == expected && Packed(v, persist) == Some(layout)
  {
    if Restored(layout, load, expected) == Some(v) {
      PackAfterRestore(layout, persist, load, expected);
    }
    if Proper(v) && v.Object? && |CanonicalText(v)| == expected && Packed(v, persist) == Some(layout) {
      RestoreAfterPack(v, persist, load, expected);
    }
  }
}
