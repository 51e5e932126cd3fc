/** JSON trees, the paths into them, and the exact length of their canonical text. */
module Json {
  import opened Wrappers

  datatype Field = Field(key: string, value: Tree)

  /** The text of a number. */
  type Numeral = s: string | forall i :: 0 <= i < |s| ==> s[i] as int < 0x80 witness "0"

  /** A number is its canonical text; the fields of an object stand in key order. */
  datatype Tree =
    | Null
    | Bool(flag: bool)
    | Number(digits: Numeral)
    | Text(text: string)
    | Array(items: seq<Tree>)
    | Object(fields: seq<Field>)
  {
    predicate IsContainer() {
      Array? || Object?
    }
  }

  datatype Step = Key(key: string) | Index(index: nat)
  type Path = seq<Step>

  function Arity(v: Tree): nat {
    match v
    case Array(items) => |items|
    case Object(fields) => |fields|
    case _ => 0
  }

  function Child(v: Tree, i: nat): (c: Tree)
    requires i < Arity(v)
    ensures c < v
  {
    match v
    case Array(items) => items[i]
    case Object(fields) => fields[i].value
  }

  function StepAt(v: Tree, i: nat): Step
    requires i < Arity(v)
  {
    match v
    case Array(_) => Index(i)
    case Object(fields) => Key(fields[i].key)
  }

  function WithChild(v: Tree, i: nat, x: Tree): (w: Tree)
    requires i < Arity(v)
    ensures Arity(w) == Arity(v) && w.Array? == v.Array?
    ensures forall j :: 0 <= j < Arity(v) ==> StepAt(w, j) == StepAt(v, j) && Child(w, j) == if j == i then x else Child(v, j)
  {
    match v
    case Array(items) => Array(items[i := x])
    case Object(fields) => Object(fields[i := Field(fields[i].key, x)])
  }

  /** Trees with the same shape and the same children are the same. */
  lemma SameChildren(v: Tree, w: Tree)
    requires v.IsContainer() && v.Array? == w.Array? && v.Object? == w.Object? && Arity(v) == Arity(w)
    requires forall j :: 0 <= j < Arity(v) ==> StepAt(v, j) == StepAt(w, j) && Child(v, j) == Child(w, j)
    ensures v == w
  {
    if v.Array? {
      assert forall j :: 0 <= j < |v.items| ==> v.items[j] == Child(v, j) == Child(w, j) == w.items[j];
      assert v.items == w.items;
    } else {
      assert forall j :: 0 <= j < |v.fields| ==>
        StepAt(v, j) == Key(v.fields[j].key) && Child(v, j) == v.fields[j].value
        && StepAt(w, j) == Key(w.fields[j].key) && Child(w, j) == w.fields[j].value;
      assert v.fields == w.fields;
    }
  }

  lemma WithChildTwice(v: Tree, i: nat, x: Tree, y: Tree)
    requires i < Arity(v)
    ensures WithChild(WithChild(v, i, x), i, y) == WithChild(v, i, y)
  {
    SameChildren(WithChild(WithChild(v, i, x), i, y), WithChild(v, i, y));
  }

  lemma WithChildrenCommute(v: Tree, i: nat, j: nat, x: Tree, y: Tree)
    requires i < Arity(v) && j < Arity(v) && i != j
    ensures WithChild(WithChild(v, i, x), j, y) == WithChild(WithChild(v, j, y), i, x)
  {
    SameChildren(WithChild(WithChild(v, i, x), j, y), WithChild(WithChild(v, j, y), i, x));
  }

  /** No object has a key twice. */
  predicate Proper(v: Tree) {
    && (forall i, j :: 0 <= i < Arity(v) && 0 <= j < Arity(v) && i != j ==> StepAt(v, i) != StepAt(v, j))
    && (forall i :: 0 <= i < Arity(v) ==> Proper(Child(v, i)))
  }

  function FindKey(fields: seq<Field>, key: string): (r: Option<nat>)
    ensures r.Some? ==> r.value < |fields| && fields[r.value].key == key
    ensures r.None? ==> forall i :: 0 <= i < |fields| ==> fields[i].key != key
  {
    if fields == [] then None
    else if fields[|fields| - 1].key == key then Some(|fields| - 1)
    else FindKey(fields[..|fields| - 1], key)
  }

  function Position(v: Tree, s: Step): (r: Option<nat>)
    ensures r.Some? ==> r.value < Arity(v) && StepAt(v, r.value) == s
    ensures r.None? ==> forall i :: 0 <= i < Arity(v) ==> StepAt(v, i) != s
  {
    match v
    case Array(items) => if s.Index? && s.index < |items| then Some(s.index) else None
    case Object(fields) => if s.Key? then FindKey(fields, s.key) else None
    case _ => None
  }

  lemma PositionOf(v: Tree, i: nat)
    requires Proper(v) && i < Arity(v)
    ensures Position(v, StepAt(v, i)) == Some(i)
  {
    assert Position(v, StepAt(v, i)).Some?;
  }

  lemma {:induction false} FindKeyByKeys(a: seq<Field>, b: seq<Field>, key: string)
    requires |a| == |b| && forall i :: 0 <= i < |a| ==> a[i].key == b[i].key
    ensures FindKey(a, key) == FindKey(b, key)
  {
    if a != [] && a[|a| - 1].key != key {
      FindKeyByKeys(a[..|a| - 1], b[..|b| - 1], key);
    }
  }

  /** Positions depend on the keys alone. */
  lemma PositionStays(v: Tree, i: nat, x: Tree, s: Step)
    requires i < Arity(v)
    ensures Position(WithChild(v, i, x), s) == Position(v, s)
  {
    if v.Object? && s.Key? {
      FindKeyByKeys(WithChild(v, i, x).fields, v.fields, s.key);
    }
  }

  predicate Has(v: Tree, p: Path)
    decreases |p|
  {
    p == [] || (Position(v, p[0]).Some? && Has(Child(v, Position(v, p[0]).value), p[1..]))
  }

  function Get(v: Tree, p: Path): Tree
    requires Has(v, p)
    decreases |p|
  {
    if p == [] then v else Get(Child(v, Position(v, p[0]).value), p[1..])
  }

  function Set(v: Tree, p: Path, x: Tree): Tree
    requires Has(v, p)
    decreases |p|
  {
    if p == [] then x
    else
      var i := Position(v, p[0]).value;
      WithChild(v, i, Set(Child(v, i), p[1..], x))
  }

  lemma {:induction false} SetThenGet(v: Tree, p: Path, x: Tree)
    requires Has(v, p)
    ensures Has(Set(v, p, x), p) && Get(Set(v, p, x), p) == x
    decreases |p|
  {
    if p != [] {
      var i := Position(v, p[0]).value;
      SetThenGet(Child(v, i), p[1..], x);
      PositionStays(v, i, Set(Child(v, i), p[1..], x), p[0]);
    }
  }

  lemma {:induction false} SetWhatIsThere(v: Tree, p: Path)
    requires Has(v, p)
    ensures Set(v, p, Get(v, p)) == v
    decreases |p|
  {
    if p != [] {
      var i := Position(v, p[0]).value;
      SetWhatIsThere(Child(v, i), p[1..]);
      SameChildren(v, WithChild(v, i, Child(v, i)));
    }
  }

  lemma {:induction false} SetTwice(v: Tree, p: Path, x: Tree, y: Tree)
    requires Has(v, p) && Has(Set(v, p, x), p)
    ensures Set(Set(v, p, x), p, y) == Set(v, p, y)
    decreases |p|
  {
    if p != [] {
      var i := Position(v, p[0]).value;
      var c := Child(v, i);
      PositionStays(v, i, Set(c, p[1..], x), p[0]);
      SetTwice(c, p[1..], x, y);
      WithChildTwice(v, i, Set(c, p[1..], x), Set(c, p[1..], y));
    }
  }

  /** Neither path leads to a part of what the other leads to. */
  predicate Apart(p: Path, q: Path) {
    !(p <= q) && !(q <= p)
  }

  lemma ApartBelow(p: Path, q: Path)
    requires Apart(p, q)
    ensures p != [] && q != [] && (p[0] == q[0] ==> Apart(p[1..], q[1..]))
  {
    if p[0] == q[0] {
      assert p == [p[0]] + p[1..] && q == [q[0]] + q[1..];
    }
  }

  lemma {:induction false} SetElsewhere(v: Tree, p: Path, q: Path, x: Tree)
    requires Has(v, p) && Apart(p, q)
    ensures Has(Set(v, p, x), q) == Has(v, q)
    ensures Has(v, q) ==> Get(Set(v, p, x), q) == Get(v, q)
    decreases |p|
  {
    ApartBelow(p, q);
    var i := Position(v, p[0]).value;
    PositionStays(v, i, Set(Child(v, i), p[1..], x), q[0]);
    if p[0] == q[0] {
      SetElsewhere(Child(v, i), p[1..], q[1..], x);
    }
  }

  /** Two replacements below one child are one replacement of that child. */
  lemma SetBelow(v: Tree, p: Path, q: Path, x: Tree, y: Tree)
    requires p != [] && q != [] && p[0] == q[0] && Has(v, p)
    requires Has(Set(Child(v, Position(v, p[0]).value), p[1..], x), q[1..])
    ensures var i := Position(v, p[0]).value;
            && Has(Set(v, p, x), q)
            && Set(Set(v, p, x), q, y) == WithChild(v, i, Set(Set(Child(v, i), p[1..], x), q[1..], y))
  {
    var i := Position(v, p[0]).value;
    var c := Set(Child(v, i), p[1..], x);
    PositionStays(v, i, c, q[0]);
    WithChildTwice(v, i, c, Set(c, q[1..], y));
  }

  lemma SetBeside(v: Tree, p: Path, q: Path, x: Tree, y: Tree)
    requires p != [] && q != [] && p[0] != q[0] && Has(v, p) && Has(v, q)
    ensures var i, j := Position(v, p[0]).value, Position(v, q[0]).value;
            && i != j && Has(Set(v, p, x), q)
            && Set(Set(v, p, x), q, y) == WithChild(WithChild(v, i, Set(Child(v, i), p[1..], x)), j, Set(Child(v, j), q[1..], y))
  {
    var i := Position(v, p[0]).value;
    PositionStays(v, i, Set(Child(v, i), p[1..], x), q[0]);
  }

  lemma {:induction false} SetsCommute(v: Tree, p: Path, q: Path, x: Tree, y: Tree)
    requires Has(v, p) && Has(v, q) && Apart(p, q)
    ensures Has(Set(v, p, x), q) && Has(Set(v, q, y), p)
    ensures Set(Set(v, p, x), q, y) == Set(Set(v, q, y), p, x)
    decreases |p|
  {
    ApartBelow(p, q);
    var i, j := Position(v, p[0]).value, Position(v, q[0]).value;
    if p[0] == q[0] {
      SetsCommute(Child(v, i), p[1..], q[1..], x, y);
      SetBelow(v, p, q, x, y);
      SetBelow(v, q, p, y, x);
    } else {
      SetBeside(v, p, q, x, y);
      SetBeside(v, q, p, y, x);
      WithChildrenCommute(v, i, j, Set(Child(v, i), p[1..], x), Set(Child(v, j), q[1..], y));
    }
  }

  // The length of the canonical text: compact separators, UTF-8, escapes only where needed.

  function CharSize(c: char): nat {
    var n := c as int;
    if c in {'"', '\\', '\n', '\r', '\t'} || n == 8 || n == 12 then 2
    else if n < 0x20 then 6
    else if n < 0x80 then 1
    else if n < 0x800 then 2
    else if n < 0x1_0000 then 3
    else 4
  }

  function TextSize(s: string): nat {
    if s == "" then 2 else TextSize(s[..|s| - 1]) + CharSize(s[|s| - 1])
  }

  /** What a child is printed with: the key and a colon in an object, nothing in an array. */
  function LabelSize(s: Step): nat {
    if s.Key? then TextSize(s.key) + 1 else 0
  }

  function Size(v: Tree): nat
    decreases v, Arity(v) + 1
  {
    match v
    case Null => 4
    case Bool(flag) => if flag then 4 else 5
    case Number(digits) => |digits|
    case Text(text) => TextSize(text)
    case _ => 2 + (if Arity(v) == 0 then 0 else Arity(v) - 1) + FirstSizes(v, Arity(v))
  }

  function FirstSizes(v: Tree, n: nat): nat
    requires n <= Arity(v)
    decreases v, n
  {
    if n == 0 then 0 else FirstSizes(v, n - 1) + LabelSize(StepAt(v, n - 1)) + Size(Child(v, n - 1))
  }

  lemma {:induction false} FirstSizesWith(v: Tree, i: nat, x: Tree, n: nat)
    requires i < Arity(v) && n <= Arity(v)
    ensures FirstSizes(WithChild(v, i, x), n) == FirstSizes(v, n) + if i < n then Size(x) - Size(Child(v, i)) else 0
  {
    if n > 0 {
      FirstSizesWith(v, i, x, n - 1);
    }
  }

  /** Replacing a part changes the length by the difference of the parts. */
  lemma {:induction false} SizeOfSet(v: Tree, p: Path, x: Tree)
    requires Has(v, p)
    ensures Size(Set(v, p, x)) == Size(v) - Size(Get(v, p)) + Size(x)
    decreases |p|
  {
    if p != [] {
      var i := Position(v, p[0]).value;
      SizeOfSet(Child(v, i), p[1..], x);
      FirstSizesWith(v, i, Set(Child(v, i), p[1..], x), Arity(v));
    }
  }
}
