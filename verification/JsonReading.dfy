/**
 One canonical text for every tree, and one tree for every canonical text: a name that
 is made from the hash of a text stands for one value.
 */
module JsonReading {
  import opened Json
  import opened JsonText

  // Bytes: UTF-8 is a prefix code.

  lemma {:induction false} SpelledFirst<T>(c: char, s: string, spell: char -> seq<T>)
    ensures Spelled([c] + s, spell) == spell(c) + Spelled(s, spell)
  {
    SpelledJoin([c], s, spell);
    assert [c][..0] == "";
    assert Spelled([c], spell) == Spelled("", spell) + spell(c);
  }

  lemma OneByte(c: char, d: char)
    requires Utf8(c)[0] == Utf8(d)[0]
    ensures |Utf8(c)| == |Utf8(d)|
  {
  }

  lemma SameCharacter(c: char, d: char)
    requires Utf8(c) == Utf8(d)
    ensures c == d
  {
    var m, n := c as int, d as int;
    assert |Utf8(c)| == |Utf8(d)|;
    if |Utf8(c)| == 2 {
      assert m == m / 0x40 * 0x40 + m % 0x40 && n == n / 0x40 * 0x40 + n % 0x40;
    } else if |Utf8(c)| == 3 {
      ThreeDigits(m);
      ThreeDigits(n);
    } else if |Utf8(c)| == 4 {
      FourDigits(m);
      FourDigits(n);
    }
  }

  lemma ThreeDigits(n: nat)
    ensures n == n / 0x1000 * 0x1000 + n / 0x40 % 0x40 * 0x40 + n % 0x40
  {
    assert n / 0x40 / 0x40 == n / 0x1000;
  }

  lemma FourDigits(n: nat)
    ensures n == n / 0x4_0000 * 0x4_0000 + n / 0x1000 % 0x40 * 0x1000 + n / 0x40 % 0x40 * 0x40 + n % 0x40
  {
    ThreeDigits(n);
    assert n / 0x1000 / 0x40 == n / 0x4_0000;
  }

  lemma HasBytes(s: string)
    ensures s != "" ==> Encode(s) != []
  {
  }

  lemma {:induction false} SameBytes(s: string, t: string)
    requires Encode(s) == Encode(t)
    ensures s == t
    decreases |s|
  {
    HasBytes(s);
    HasBytes(t);
    if s != "" && t != "" {
      var c, d := s[0], t[0];
      SpelledFirst(c, s[1..], Utf8);
      SpelledFirst(d, t[1..], Utf8);
      assert [c] + s[1..] == s && [d] + t[1..] == t;
      var a, b := Encode(s[1..]), Encode(t[1..]);
      assert (Utf8(c) + a)[0] == (Utf8(d) + b)[0];
      OneByte(c, d);
      SameStart(Utf8(c), Utf8(d), a, b);
      SameCharacter(c, d);
      SameBytes(s[1..], t[1..]);
    }
  }

  lemma SameStart<T>(x: seq<T>, y: seq<T>, a: seq<T>, b: seq<T>)
    requires |x| == |y| && x + a == y + b
    ensures x == y && a == b
  {
    assert x == (x + a)[..|x|] && y == (y + b)[..|y|];
    assert a == (x + a)[|x|..] && b == (y + b)[|y|..];
  }

  // Quoted texts end at the first quote that is not escaped.

  lemma EscapeIsShort(c: char)
    ensures 1 <= |Escaped(c)| <= 6 && Escaped(c)[0] != '"'
    ensures Escaped(c)[0] == '\\' <==> |Escaped(c)| > 1
    ensures |Escaped(c)| == 1 ==> Escaped(c)[0] == c
    ensures |Escaped(c)| > 1 ==> (|Escaped(c)| == 6 <==> Escaped(c)[1] == 'u') && (|Escaped(c)| == 2 || |Escaped(c)| == 6)
  {
  }

  lemma HexIsOne(d: nat, e: nat)
    requires d < 16 && e < 16 && HexDigit(d) == HexDigit(e)
    ensures d == e
  {
  }

  lemma SameEscape(c: char, d: char)
    requires Escaped(c) == Escaped(d)
    ensures c == d
  {
    EscapeIsShort(c);
    EscapeIsShort(d);
    if |Escaped(c)| == 6 {
      var m, n := c as int, d as int;
      assert Escaped(c)[4] == HexDigit(m / 16) && Escaped(c)[5] == HexDigit(m % 16);
      assert Escaped(d)[4] == HexDigit(n / 16) && Escaped(d)[5] == HexDigit(n % 16);
      HexIsOne(m / 16, n / 16);
      HexIsOne(m % 16, n % 16);
    }
  }

  lemma {:induction false} SameEscaped(s: string, t: string, a: string, b: string)
    requires EscapedText(s) + "\"" + a == EscapedText(t) + "\"" + b
    ensures s == t && a == b
    decreases |s|
  {
    if s == "" && t == "" {
      assert EscapedText("") + "\"" == "\"";
      SameStart("\"", "\"", a, b);
    } else {
      FirstIsQuote(s, a);
      FirstIsQuote(t, b);
      if s != "" && t != "" {
        NextEscape(s, a);
        NextEscape(t, b);
        var c, d := s[0], t[0];
        var rest, rest' := EscapedText(s[1..]) + "\"" + a, EscapedText(t[1..]) + "\"" + b;
        SameNext(c, d, rest, rest');
        SameEscaped(s[1..], t[1..], a, b);
        assert s == [c] + s[1..] && t == [d] + t[1..];
      }
    }
  }

  lemma {:induction false} NextEscape(s: string, a: string)
    requires s != ""
    ensures EscapedText(s) + "\"" + a == Escaped(s[0]) + (EscapedText(s[1..]) + "\"" + a)
  {
    SpelledFirst(s[0], s[1..], Escaped);
    assert [s[0]] + s[1..] == s;
  }

  lemma {:induction false} FirstIsQuote(s: string, a: string)
    ensures (EscapedText(s) + "\"" + a)[0] == '"' <==> s == ""
  {
    if s != "" {
      NextEscape(s, a);
      EscapeIsShort(s[0]);
    }
  }

  lemma SameNext(c: char, d: char, a: string, b: string)
    requires Escaped(c) + a == Escaped(d) + b
    ensures c == d && a == b
  {
    EscapeIsShort(c);
    EscapeIsShort(d);
    assert (Escaped(c) + a)[0] == (Escaped(d) + b)[0];
    if |Escaped(c)| > 1 {
      assert (Escaped(c) + a)[1] == (Escaped(d) + b)[1];
    }
    SameStart(Escaped(c), Escaped(d), a, b);
    SameEscape(c, d);
  }

  lemma SameQuoted(s: string, t: string, a: string, b: string)
    requires Quoted(s) + a == Quoted(t) + b
    ensures s == t && a == b
  {
    assert Quoted(s) + a == "\"" + (EscapedText(s) + "\"" + a);
    assert Quoted(t) + b == "\"" + (EscapedText(t) + "\"" + b);
    SameStart("\"", "\"", EscapedText(s) + "\"" + a, EscapedText(t) + "\"" + b);
    SameEscaped(s, t, a, b);
  }

  // Trees.

  predicate IsNumeral(c: char) {
    '0' <= c <= '9' || c in {'-', '+', '.', 'e', 'E'}
  }

  /** Every number in it has a text of numerals. */
  predicate Numbered(v: Tree) {
    && (v.Number? ==> v.digits != "" && forall i :: 0 <= i < |v.digits| ==> IsNumeral(v.digits[i]))
    && forall i :: 0 <= i < Arity(v) ==> Numbered(Child(v, i))
  }

  /** What may stand behind a value. */
  predicate Ends(a: string) {
    a != "" ==> !IsNumeral(a[0])
  }

  function Close(v: Tree): string {
    if v.Array? then "]" else "}"
  }

  /** The text of a container from child `n` on, its closing bracket, and what comes behind it. */
  function Tail(v: Tree, n: nat, a: string): string
    requires v.IsContainer() && n <= Arity(v)
    decreases Arity(v) - n
  {
    if n == Arity(v) then Close(v) + a
    else (if n > 0 then "," else "") + (Label(StepAt(v, n)) + (Printed(Child(v, n)) + Tail(v, n + 1, a)))
  }

  lemma Regrouped(x: string, comma: string, name: string, text: string, rest: string)
    ensures x + comma + (name + text) + rest == x + (comma + (name + (text + rest)))
  {
  }

  lemma OneMorePart(parts: seq<string>, part: string)
    ensures Joined(parts + [part]) == Joined(parts) + (if parts == [] then "" else ",") + part
  {
    assert (parts + [part])[..|parts|] == parts;
  }

  lemma OneMoreMember(v: Tree, n: nat)
    requires n < Arity(v)
    ensures Joined(Members(v, n + 1)) ==
              Joined(Members(v, n)) + (if n > 0 then "," else "") + (Label(StepAt(v, n)) + Printed(Child(v, n)))
  {
    OneMorePart(Members(v, n), Label(StepAt(v, n)) + Printed(Child(v, n)));
  }

  lemma {:induction false} MembersThenTail(v: Tree, n: nat, a: string)
    requires v.IsContainer() && n <= Arity(v)
    ensures Joined(Members(v, n)) + Tail(v, n, a) == Joined(Members(v, Arity(v))) + (Close(v) + a)
    decreases Arity(v) - n
  {
    if n < Arity(v) {
      MembersThenTail(v, n + 1, a);
      OneMoreMember(v, n);
      Regrouped(Joined(Members(v, n)), if n > 0 then "," else "", Label(StepAt(v, n)), Printed(Child(v, n)), Tail(v, n + 1, a));
    }
  }

  lemma {:induction false} ContainerText(v: Tree, a: string)
    requires v.IsContainer()
    ensures Printed(v) + a == (if v.Array? then "[" else "{") + Tail(v, 0, a)
  {
    MembersThenTail(v, 0, a);
    NothingBefore(Joined(Members(v, 0)), Tail(v, 0, a));
    Bracketed(if v.Array? then "[" else "{", Joined(Members(v, Arity(v))), Close(v), a);
  }

  lemma NothingBefore(x: string, y: string)
    requires x == ""
    ensures x + y == y
  {
  }

  lemma Bracketed(open: string, text: string, close: string, a: string)
    ensures open + text + close + a == open + (text + (close + a))
  {
  }

  /** The first character says what kind of value follows. */
  lemma {:induction false} FirstCharacter(v: Tree)
    requires Numbered(v)
    ensures Printed(v) != ""
    ensures match v
            case Null => Printed(v)[0] == 'n'
            case Bool(flag) => Printed(v)[0] == if flag then 't' else 'f'
            case Number(_) => IsNumeral(Printed(v)[0])
            case Text(_) => Printed(v)[0] == '"'
            case Array(_) => Printed(v)[0] == '['
            case Object(_) => Printed(v)[0] == '{'
  {
  }

  lemma {:induction false} FirstOfTail(v: Tree, n: nat, a: string)
    requires v.IsContainer() && n <= Arity(v) && Numbered(v)
    ensures Tail(v, n, a) != "" && (Tail(v, n, a)[0] == Close(v)[0] <==> n == Arity(v))
    ensures n > 0 ==> Ends(Tail(v, n, a))
  {
    if n == 0 < Arity(v) {
      FirstCharacter(Child(v, n));
    }
  }

  lemma NumeralsIn(s: string, a: string)
    requires forall i :: 0 <= i < |s| ==> IsNumeral(s[i])
    ensures forall i :: 0 <= i < |s| ==> IsNumeral((s + a)[i])
  {
  }

  lemma NoneBehind(s: string, a: string)
    requires Ends(a)
    ensures |s| < |s + a| ==> !IsNumeral((s + a)[|s|])
  {
  }

  lemma SameNumeral(s: string, t: string, a: string, b: string)
    requires s + a == t + b && Ends(a) && Ends(b)
    requires (forall i :: 0 <= i < |s| ==> IsNumeral(s[i])) && forall i :: 0 <= i < |t| ==> IsNumeral(t[i])
    ensures s == t && a == b
  {
    NumeralsIn(s, a);
    NumeralsIn(t, b);
    NoneBehind(s, a);
    NoneBehind(t, b);
    SameStart(s, t, a, b);
  }

  lemma LabelIsQuoted(key: string, a: string)
    ensures Label(Key(key)) + a == Quoted(key) + (":" + a)
  {
    assert Quoted(key) + ":" + a == Quoted(key) + (":" + a);
  }

  lemma SameLabel(key: string, key': string, a: string, b: string)
    requires Label(Key(key)) + a == Label(Key(key')) + b
    ensures key == key' && a == b
  {
    LabelIsQuoted(key, a);
    LabelIsQuoted(key', b);
    SameQuoted(key, key', ":" + a, ":" + b);
    SameStart(":", ":", a, b);
  }

  lemma SameStep(v: Tree, w: Tree, n: nat, a: string, b: string)
    requires v.IsContainer() && w.IsContainer() && v.Array? == w.Array?
    requires n < Arity(v) && n < Arity(w) && Tail(v, n, a) == Tail(w, n, b)
    ensures StepAt(v, n) == StepAt(w, n)
    ensures Printed(Child(v, n)) + Tail(v, n + 1, a) == Printed(Child(w, n)) + Tail(w, n + 1, b)
  {
    var x, y := Printed(Child(v, n)) + Tail(v, n + 1, a), Printed(Child(w, n)) + Tail(w, n + 1, b);
    SameSeparator(if n > 0 then "," else "", Label(StepAt(v, n)) + x, Label(StepAt(w, n)) + y);
    if v.Object? {
      SameLabel(StepAt(v, n).key, StepAt(w, n).key, x, y);
    } else {
      SameSeparator("", x, y);
    }
  }

  lemma SameSeparator(comma: string, a: string, b: string)
    requires comma + a == comma + b
    ensures a == b
  {
    SameStart(comma, comma, a, b);
  }

  /** Two values with the same text, and whatever ends a value behind it, are the same. */
  lemma {:induction false} SameText(v: Tree, w: Tree, a: string, b: string)
    requires Numbered(v) && Numbered(w) && Ends(a) && Ends(b) && Printed(v) + a == Printed(w) + b
    ensures v == w && a == b
    decreases v, Arity(v) + 1
  {
    FirstCharacter(v);
    FirstCharacter(w);
    assert (Printed(v) + a)[0] == Printed(v)[0] == Printed(w)[0];
    match v
    case Number(digits) => SameNumeral(digits, w.digits, a, b);
    case Text(text) => SameQuoted(text, w.text, a, b);
    case Array(_) => SameContainer(v, w, a, b);
    case Object(_) => SameContainer(v, w, a, b);
    case _ => SameStart(Printed(v), Printed(w), a, b);
  }

  lemma {:induction false} SameContainer(v: Tree, w: Tree, a: string, b: string)
    requires Numbered(v) && Numbered(w) && v.IsContainer() && w.IsContainer() && v.Array? == w.Array?
    requires Printed(v) + a == Printed(w) + b
    ensures v == w && a == b
    decreases v, Arity(v) + 1, 0
  {
    ContainerText(v, a);
    ContainerText(w, b);
    var open := if v.Array? then "[" else "{";
    SameStart(open, open, Tail(v, 0, a), Tail(w, 0, b));
    SameTail(v, w, 0, a, b);
    FromAll(v, w, 0);
    SameChildren(v, w);
  }

  /** From child `n` on, the two have the same children. */
  predicate SameFrom(v: Tree, w: Tree, n: nat)
    requires n <= Arity(v) && n <= Arity(w)
    decreases Arity(v) - n
  {
    if n == Arity(v) || n == Arity(w) then Arity(v) == Arity(w)
    else StepAt(v, n) == StepAt(w, n) && Child(v, n) == Child(w, n) && SameFrom(v, w, n + 1)
  }

  lemma {:induction false} FromAll(v: Tree, w: Tree, n: nat)
    requires n <= Arity(v) && n <= Arity(w) && SameFrom(v, w, n)
    ensures Arity(v) == Arity(w)
    ensures forall j :: n <= j < Arity(v) ==> StepAt(v, j) == StepAt(w, j) && Child(v, j) == Child(w, j)
    decreases Arity(v) - n
  {
    if n < Arity(v) && n < Arity(w) {
      FromAll(v, w, n + 1);
    }
  }

  lemma {:induction false} SameTail(v: Tree, w: Tree, n: nat, a: string, b: string)
    requires Numbered(v) && Numbered(w) && v.IsContainer() && w.IsContainer() && v.Array? == w.Array?
    requires n <= Arity(v) && n <= Arity(w) && Tail(v, n, a) == Tail(w, n, b)
    ensures a == b && SameFrom(v, w, n)
    decreases v, Arity(v) - n
  {
    EndTogether(v, w, n, a, b);
    if n == Arity(v) {
      SameEnd(v, w, a, b);
    } else {
      SameChild(v, w, n, a, b);
      SameTail(v, w, n + 1, a, b);
    }
  }

  lemma EndTogether(v: Tree, w: Tree, n: nat, a: string, b: string)
    requires Numbered(v) && Numbered(w) && v.IsContainer() && w.IsContainer() && v.Array? == w.Array?
    requires n <= Arity(v) && n <= Arity(w) && Tail(v, n, a) == Tail(w, n, b)
    ensures n == Arity(v) <==> n == Arity(w)
  {
    FirstOfTail(v, n, a);
    FirstOfTail(w, n, b);
  }

  lemma SameEnd(v: Tree, w: Tree, a: string, b: string)
    requires v.IsContainer() && w.IsContainer() && v.Array? == w.Array? && Tail(v, Arity(v), a) == Tail(w, Arity(w), b)
    ensures a == b
  {
    SameStart(Close(v), Close(w), a, b);
  }

  lemma {:induction false} SameChild(v: Tree, w: Tree, n: nat, a: string, b: string)
    requires Numbered(v) && Numbered(w) && v.IsContainer() && w.IsContainer() && v.Array? == w.Array?
    requires n < Arity(v) && n < Arity(w) && Tail(v, n, a) == Tail(w, n, b)
    ensures StepAt(v, n) == StepAt(w, n) && Child(v, n) == Child(w, n)
    ensures Tail(v, n + 1, a) == Tail(w, n + 1, b)
    decreases v, 0
  {
    SameStep(v, w, n, a, b);
    FirstOfTail(v, n + 1, a);
    FirstOfTail(w, n + 1, b);
    SameText(Child(v, n), Child(w, n), Tail(v, n + 1, a), Tail(w, n + 1, b));
  }

  /** The stored text of a value determines the value, keys, order and all. */
  lemma CanonicalTextIsUnique(v: Tree, w: Tree)
    requires Numbered(v) && Numbered(w)
    ensures CanonicalText(v) == CanonicalText(w) <==> v == w
  {
    if CanonicalText(v) == CanonicalText(w) {
      SameBytes(Printed(v) + "\n", Printed(w) + "\n");
      SameText(v, w, "\n", "\n");
    }
  }
}
