/** The canonical text of a JSON tree, its UTF-8 bytes, and why `Size` is their number. */
module JsonText {
  import opened Json

  type Octet = n: nat | n < 0x100
  type Bytes = seq<Octet>

  // Characters and bytes.

  /** The UTF-8 bytes of one character (section 3 of RFC 3629). */
  function Utf8(c: char): Bytes {
    var n := c as int;
    if n < 0x80 then [n]
    else if n < 0x800 then [(0xC0 + n / 0x40), (0x80 + n % 0x40)]
    else if n < 0x1_0000 then [(0xE0 + n / 0x1000), (0x80 + n / 0x40 % 0x40), (0x80 + n % 0x40)]
    else [(0xF0 + n / 0x4_0000), (0x80 + n / 0x1000 % 0x40), (0x80 + n / 0x40 % 0x40), (0x80 + n % 0x40)]
  }

  /** What every character of a text becomes, one after the other. */
  function Spelled<T>(s: string, spell: char -> seq<T>): seq<T> {
    if s == "" then [] else Spelled(s[..|s| - 1], spell) + spell(s[|s| - 1])
  }

  lemma {:induction false} SpelledJoin<T>(a: string, b: string, spell: char -> seq<T>)
    ensures Spelled(a + b, spell) == Spelled(a, spell) + Spelled(b, spell)
  {
    if b == "" {
      assert a + b == a;
    } else {
      SpelledJoin(a, b[..|b| - 1], spell);
      assert (a + b)[..|a + b| - 1] == a + b[..|b| - 1];
    }
  }

  function Encode(s: string): Bytes {
    Spelled(s, Utf8)
  }

  lemma EncodeJoin(a: string, b: string)
    ensures Encode(a + b) == Encode(a) + Encode(b)
  {
    SpelledJoin(a, b, Utf8);
  }

  predicate Ascii(s: string) {
    forall i :: 0 <= i < |s| ==> s[i] as int < 0x80
  }

  lemma {:induction false} AsciiLength(s: string)
    requires Ascii(s)
    ensures |Encode(s)| == |s|
  {
    if s != "" {
      AsciiLength(s[..|s| - 1]);
    }
  }

  // The text.

  function HexDigit(d: nat): char
    requires d < 16
  {
    "0123456789abcdef"[d]
  }

  /** Quotes, backslashes and control characters are escaped, with a short escape where there is one. */
  function Escaped(c: char): string {
    var n := c as int;
    if c == '"' then "\\\""
    else if c == '\\' then "\\\\"
    else if c == '\n' then "\\n"
    else if c == '\r' then "\\r"
    else if c == '\t' then "\\t"
    else if n == 8 then "\\b"
    else if n == 12 then "\\f"
    else if n < 0x20 then "\\u00" + [HexDigit(n / 16), HexDigit(n % 16)]
    else [c]
  }

  function EscapedText(s: string): string {
    Spelled(s, Escaped)
  }

  function Quoted(s: string): string {
    "\"" + EscapedText(s) + "\""
  }

  function Label(s: Step): string {
    match s
    case Key(key) => Quoted(key) + ":"
    case Index(_) => ""
  }

  /** The parts with commas between them. */
  function Joined(parts: seq<string>): string {
    if parts == [] then ""
    else if |parts| == 1 then parts[0]
    else Joined(parts[..|parts| - 1]) + "," + parts[|parts| - 1]
  }

  /** Compact separators, the fields in the order in which they stand. */
  function Printed(v: Tree): string
    decreases v, Arity(v) + 1
  {
    match v
    case Null => "null"
    case Bool(flag) => if flag then "true" else "false"
    case Number(digits) => digits
    case Text(text) => Quoted(text)
    case Array(_) => "[" + Joined(Members(v, Arity(v))) + "]"
    case Object(_) => "{" + Joined(Members(v, Arity(v))) + "}"
  }

  /** The first `n` children, each with its label. */
  function Members(v: Tree, n: nat): (parts: seq<string>)
    requires n <= Arity(v)
    ensures |parts| == n
    decreases v, n
  {
    if n == 0 then [] else Members(v, n - 1) + [Label(StepAt(v, n - 1)) + Printed(Child(v, n - 1))]
  }

  /** What is stored and hashed: the text and a newline. */
  function CanonicalText(v: Tree): Bytes {
    Encode(Printed(v) + "\n")
  }

  // Its length.

  lemma EscapeIsAscii(c: char)
    requires c as int < 0x80
    ensures Ascii(Escaped(c)) && |Escaped(c)| == CharSize(c)
  {
    var n := c as int;
    if n < 0x20 && n != 8 && n != 12 && c !in {'\n', '\r', '\t'} {
      HexIsAscii(n / 16);
      HexIsAscii(n % 16);
    }
  }

  lemma HexIsAscii(d: nat)
    requires d < 16
    ensures HexDigit(d) as int < 0x80
  {
  }

  lemma EscapedLength(c: char)
    ensures |Encode(Escaped(c))| == CharSize(c)
  {
    if c as int < 0x80 {
      EscapeIsAscii(c);
      AsciiLength(Escaped(c));
    } else {
      EncodeOne(c);
    }
  }

  lemma EncodeOne(c: char)
    ensures Encode([c]) == Utf8(c)
  {
    assert Spelled([c][..0], Utf8) == [];
    assert Encode([c]) == [] + Utf8(c);
  }

  lemma {:induction false} EscapedTextLength(s: string)
    ensures |Encode(EscapedText(s))| + 2 == TextSize(s)
  {
    if s != "" {
      EscapedTextLength(s[..|s| - 1]);
      EncodeJoin(EscapedText(s[..|s| - 1]), Escaped(s[|s| - 1]));
      EscapedLength(s[|s| - 1]);
    }
  }

  lemma QuotedLength(s: string)
    ensures |Encode(Quoted(s))| == TextSize(s)
  {
    EscapedTextLength(s);
    EncodeJoin("\"" + EscapedText(s), "\"");
    EncodeJoin("\"", EscapedText(s));
    EncodeOne('"');
  }

  lemma LabelLength(s: Step)
    ensures |Encode(Label(s))| == LabelSize(s)
  {
    if s.Key? {
      QuotedLength(s.key);
      EncodeJoin(Quoted(s.key), ":");
      EncodeOne(':');
    }
  }

  lemma AroundLength(open: char, inner: string, close: char)
    requires open as int < 0x80 && close as int < 0x80
    ensures |Encode([open] + inner + [close])| == |Encode(inner)| + 2
  {
    EncodeJoin([open] + inner, [close]);
    EncodeJoin([open], inner);
    EncodeOne(open);
    EncodeOne(close);
  }

  function Lengths(parts: seq<string>): nat {
    if parts == [] then 0 else Lengths(parts[..|parts| - 1]) + |Encode(parts[|parts| - 1])|
  }

  lemma {:induction false} JoinedLength(parts: seq<string>)
    ensures |Encode(Joined(parts))| == Lengths(parts) + if parts == [] then 0 else |parts| - 1
  {
    if |parts| == 1 {
      assert parts[..0] == [];
    } else if parts != [] {
      var before := parts[..|parts| - 1];
      JoinedLength(before);
      EncodeJoin(Joined(before) + ",", parts[|parts| - 1]);
      EncodeJoin(Joined(before), ",");
      EncodeOne(',');
    }
  }

  lemma LengthsLast(parts: seq<string>, last: string)
    ensures Lengths(parts + [last]) == Lengths(parts) + |Encode(last)|
  {
    assert (parts + [last])[..|parts|] == parts;
  }

  lemma {:induction false} MemberLength(v: Tree, i: nat)
    requires i < Arity(v)
    ensures |Encode(Label(StepAt(v, i)) + Printed(Child(v, i)))| == LabelSize(StepAt(v, i)) + Size(Child(v, i))
    decreases v, i
  {
    LabelLength(StepAt(v, i));
    TextLength(Child(v, i));
    EncodeJoin(Label(StepAt(v, i)), Printed(Child(v, i)));
  }

  lemma {:induction false} MembersLength(v: Tree, n: nat)
    requires n <= Arity(v)
    ensures Lengths(Members(v, n)) == FirstSizes(v, n)
    decreases v, n
  {
    if n > 0 {
      MembersLength(v, n - 1);
      MemberLength(v, n - 1);
      LengthsLast(Members(v, n - 1), Label(StepAt(v, n - 1)) + Printed(Child(v, n - 1)));
    }
  }

  /** `Size` is the number of bytes of the text. */
  lemma {:induction false} TextLength(v: Tree)
    ensures |Encode(Printed(v))| == Size(v)
    decreases v, Arity(v) + 1
  {
    match v
    case Text(text) => QuotedLength(text);
    case Array(_) =>
      MembersLength(v, Arity(v));
      JoinedLength(Members(v, Arity(v)));
      AroundLength('[', Joined(Members(v, Arity(v))), ']');
    case Object(_) =>
      MembersLength(v, Arity(v));
      JoinedLength(Members(v, Arity(v)));
      AroundLength('{', Joined(Members(v, Arity(v))), '}');
    case _ => AsciiLength(Printed(v));
  }

  lemma CanonicalLength(v: Tree)
    ensures |CanonicalText(v)| == Size(v) + 1
  {
    TextLength(v);
    EncodeJoin(Printed(v), "\n");
    EncodeOne('\n');
  }
}
