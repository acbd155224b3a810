/** Printing JSON trees, in both character modes; `JsonReader` holds the reader it is checked against. */
module JsonText {
  import opened Common

  /** A tree; object members keep their order, and a number is its token. */
  datatype Json =
    | Null
    | Bool(b: bool)
    | Number(raw: string)
    | Text(s: string)
    | Array(items: seq<Json>)
    | Object(members: seq<Member>)

  datatype Member = Member(key: string, value: Json)

  // ------------------------------------------------------------- hex escapes

  function HexDigit(n: nat): (c: char)
    requires n < 16
    ensures '0' <= c <= '9' || 'a' <= c <= 'f'
  {
    if n < 10 then ('0' as int + n) as char else ('a' as int + n - 10) as char
  }

  /** The shortest lower-case hexadecimal form. */
  function FormatHex(n: nat): (s: string)
    ensures |s| >= 1
  {
    if n < 16 then [HexDigit(n)] else FormatHex(n / 16) + [HexDigit(n % 16)]
  }

  function Zeros(n: nat): string {
    seq(n, i => '0')
  }

  lemma HexLength(n: nat)
    requires n < 0x1_0000
    ensures |FormatHex(n)| <= 4
  {
    assert FormatHex(n / 0x1000) == [HexDigit(n / 0x1000)];
    if n >= 0x1000 {
      assert |FormatHex(n / 0x100)| == 2 && |FormatHex(n / 0x10)| == 3;
    } else if n >= 0x100 {
      assert |FormatHex(n / 0x10)| <= 2;
    }
  }

  /** Four hexadecimal digits; defined for every number it is asked for, those of one UTF-16 unit. */
  function Hex4(n: nat): (s: string)
    requires n < 0x1_0000
    ensures |s| == 4
  {
    HexLength(n);
    Zeros(4 - |FormatHex(n)|) + FormatHex(n)
  }

  function HexDigitValue(c: char): Option<nat> {
    if '0' <= c <= '9' then Some(c as int - '0' as int)
    else if 'a' <= c <= 'f' then Some(c as int - 'a' as int + 10)
    else if 'A' <= c <= 'F' then Some(c as int - 'A' as int + 10)
    else None
  }

  function HexValue(s: string): Option<nat> {
    if s == "" then Some(0) else
    match (HexValue(s[..|s| - 1]), HexDigitValue(s[|s| - 1]))
    case (Some(high), Some(low)) => Some(high * 16 + low)
    case _ => None
  }

  lemma DigitValue(n: nat)
    requires n < 16
    ensures HexDigitValue(HexDigit(n)) == Some(n)
  {
  }

  lemma {:induction false} FormatHexValue(n: nat)
    ensures HexValue(FormatHex(n)) == Some(n)
  {
    hide HexDigit, HexDigitValue;
    DigitValue(n % 16);
    if n < 16 {
      assert FormatHex(n)[..0] == "";
    } else {
      FormatHexValue(n / 16);
      assert FormatHex(n)[..|FormatHex(n)| - 1] == FormatHex(n / 16);
    }
  }

  lemma {:induction false} PaddedValue(k: nat, s: string)
    requires HexValue(s).Some?
    ensures HexValue(Zeros(k) + s) == HexValue(s)
    decreases k + |s|
  {
    var t := Zeros(k) + s;
    if s == "" {
      assert t == Zeros(k);
      if k > 0 {
        assert t[..k - 1] == Zeros(k - 1) + "";
        PaddedValue(k - 1, "");
      }
    } else {
      assert t[..|t| - 1] == Zeros(k) + s[..|s| - 1];
      PaddedValue(k, s[..|s| - 1]);
    }
  }

  /** Four digits read back as the number they were written for. */
  lemma Hex4Value(n: nat)
    requires n < 0x1_0000
    ensures HexValue(Hex4(n)) == Some(n)
  {
    HexLength(n);
    FormatHexValue(n);
    PaddedValue(4 - |FormatHex(n)|, FormatHex(n));
  }

  // -------------------------------------------------------------- characters

  const BACKSPACE := 8 as char
  const FORM_FEED := 12 as char

  function Unit(n: nat): string
    requires n < 0x1_0000
  {
    "\\u" + Hex4(n)
  }

  function HighSurrogate(r: int): nat
    requires 0x1_0000 <= r < 0x11_0000
  {
    0xD800 + (r - 0x1_0000) / 0x400
  }

  function LowSurrogate(r: int): nat
    requires 0x1_0000 <= r < 0x11_0000
  {
    0xDC00 + (r - 0x1_0000) % 0x400
  }

  /** A character that stands for itself in a printed string. */
  predicate Plain(c: char, ascii: bool) {
    c as int >= 0x20 && c != '\"' && c != '\\' && (ascii ==> c as int <= 0x7F)
  }

  /** A character with a two-character escape. */
  predicate HasShortEscape(c: char) {
    c in {'\\', '\"', BACKSPACE, FORM_FEED, '\n', '\r', '\t'}
  }

  /**
  One character of a string as it is printed: itself wherever that is allowed,
  else a short escape if there is one, else one or two four-digit escapes.
  */
  function Escape(c: char, ascii: bool): (s: string)
    ensures |s| >= 1
    ensures Plain(c, ascii) <==> s == [c]
    ensures HasShortEscape(c) <==> |s| == 2
    ensures !Plain(c, ascii) && !HasShortEscape(c) ==> |s| == (if c as int > 0xFFFF then 12 else 6) && s[..2] == "\\u"
  {
    var r := c as int;
    if c == '\\' then "\\\\"
    else if c == '\"' then "\\\""
    else if c == BACKSPACE then "\\b"
    else if c == FORM_FEED then "\\f"
    else if c == '\n' then "\\n"
    else if c == '\r' then "\\r"
    else if c == '\t' then "\\t"
    else if r < 0x20 then Unit(r)
    else if ascii && r > 0x7F then
      if r > 0xFFFF then Unit(HighSurrogate(r)) + Unit(LowSurrogate(r)) else Unit(r)
    else [c]
  }

  function Escaped(s: string, ascii: bool): string {
    if s == "" then "" else Escape(s[0], ascii) + Escaped(s[1..], ascii)
  }

  function Quoted(s: string, ascii: bool): string {
    "\"" + Escaped(s, ascii) + "\""
  }

  // ------------------------------------------------------------------- values

  function Printed(v: Json, ascii: bool): string
    decreases v, 0
  {
    match v
    case Null => "null"
    case Bool(b) => if b then "true" else "false"
    case Number(raw) => raw
    case Text(s) => Quoted(s, ascii)
    case Array(items) => "[" + PrintedItems(items, ascii) + "]"
    case Object(members) => "{" + PrintedMembers(members, ascii) + "}"
  }

  function PrintedItems(items: seq<Json>, ascii: bool): string
    decreases items, 1
  {
    if items == [] then "" else
    Printed(items[0], ascii) + PrintedMoreItems(items[1..], ascii)
  }

  function PrintedMoreItems(items: seq<Json>, ascii: bool): string
    decreases items, 0
  {
    if items == [] then "" else
    ", " + Printed(items[0], ascii) + PrintedMoreItems(items[1..], ascii)
  }

  function PrintedMember(m: Member, ascii: bool): string
    decreases m, 1
  {
    Quoted(m.key, ascii) + ": " + Printed(m.value, ascii)
  }

  function PrintedMembers(members: seq<Member>, ascii: bool): string
    decreases members, 1
  {
    if members == [] then "" else
    PrintedMember(members[0], ascii) + PrintedMoreMembers(members[1..], ascii)
  }

  function PrintedMoreMembers(members: seq<Member>, ascii: bool): string
    decreases members, 0
  {
    if members == [] then "" else
    ", " + PrintedMember(members[0], ascii) + PrintedMoreMembers(members[1..], ascii)
  }

  lemma {:induction false} MoreItemsJoin(a: seq<Json>, b: seq<Json>, ascii: bool)
    ensures PrintedMoreItems(a + b, ascii) == PrintedMoreItems(a, ascii) + PrintedMoreItems(b, ascii)
  {
    hide Printed;
    if a == [] {
      assert a + b == b;
    } else {
      assert (a + b)[1..] == a[1..] + b;
      MoreItemsJoin(a[1..], b, ascii);
    }
  }

  lemma {:induction false} MoreMembersJoin(a: seq<Member>, b: seq<Member>, ascii: bool)
    ensures PrintedMoreMembers(a + b, ascii) == PrintedMoreMembers(a, ascii) + PrintedMoreMembers(b, ascii)
  {
    hide PrintedMember;
    if a == [] {
      assert a + b == b;
    } else {
      assert (a + b)[1..] == a[1..] + b;
      MoreMembersJoin(a[1..], b, ascii);
    }
  }

  lemma FirstItem(items: seq<Json>, ascii: bool)
    requires items != []
    ensures PrintedItems(items, ascii) == Printed(items[0], ascii) + PrintedMoreItems(items[1..], ascii)
    ensures PrintedMoreItems(items, ascii) == ", " + PrintedItems(items, ascii)
  {
    hide Printed;
    assert (", " + Printed(items[0], ascii)) + PrintedMoreItems(items[1..], ascii)
        == ", " + (Printed(items[0], ascii) + PrintedMoreItems(items[1..], ascii));
  }

  lemma FirstMember(members: seq<Member>, ascii: bool)
    requires members != []
    ensures PrintedMembers(members, ascii) == PrintedMember(members[0], ascii) + PrintedMoreMembers(members[1..], ascii)
    ensures PrintedMoreMembers(members, ascii) == ", " + PrintedMembers(members, ascii)
  {
    hide PrintedMember;
    assert (", " + PrintedMember(members[0], ascii)) + PrintedMoreMembers(members[1..], ascii)
        == ", " + (PrintedMember(members[0], ascii) + PrintedMoreMembers(members[1..], ascii));
  }

  lemma MoreNone(ascii: bool)
    ensures PrintedMoreItems([], ascii) == "" && PrintedMoreMembers([], ascii) == ""
  {
  }

  /** Elements are set apart by a comma and one blank, and nothing else is put around them. */
  lemma ItemsApart(a: seq<Json>, b: seq<Json>, ascii: bool)
    requires a != [] && b != []
    ensures PrintedItems(a + b, ascii) == PrintedItems(a, ascii) + ", " + PrintedItems(b, ascii)
    ensures PrintedItems([a[0]], ascii) == Printed(a[0], ascii)
  {
    hide Printed, PrintedItems, PrintedMoreItems;
    FirstItem(a, ascii);
    FirstItem(b, ascii);
    FirstItem(a + b, ascii);
    assert (a + b)[0] == a[0] && (a + b)[1..] == a[1..] + b;
    MoreItemsJoin(a[1..], b, ascii);
    FirstItem([a[0]], ascii);
    MoreNone(ascii);
    assert [a[0]][1..] == [];
  }

  /** Members are set apart in the same way; a key is followed by a colon and one blank. */
  lemma MembersApart(a: seq<Member>, b: seq<Member>, ascii: bool)
    requires a != [] && b != []
    ensures PrintedMembers(a + b, ascii) == PrintedMembers(a, ascii) + ", " + PrintedMembers(b, ascii)
    ensures PrintedMembers([a[0]], ascii) == Quoted(a[0].key, ascii) + ": " + Printed(a[0].value, ascii)
  {
    hide Printed, Quoted, PrintedMembers, PrintedMoreMembers;
    FirstMember(a, ascii);
    FirstMember(b, ascii);
    FirstMember(a + b, ascii);
    assert (a + b)[0] == a[0] && (a + b)[1..] == a[1..] + b;
    MoreMembersJoin(a[1..], b, ascii);
    FirstMember([a[0]], ascii);
    MoreNone(ascii);
    assert [a[0]][1..] == [];
  }

  // ------------------------------------------------------------------ printer

  class Buffer {
    var text: string

    constructor ()
      ensures text == ""
    {
      text := "";
    }

    method Write(s: string)
      modifies this
      ensures text == old(text) + s
    {
      text := text + s;
    }
  }

  method WriteEscapedChar(buf: Buffer, c: char, ascii: bool)
    modifies buf
    ensures buf.text == old(buf.text) + Escape(c, ascii)
  {
    hide HighSurrogate, LowSurrogate, Hex4;
    var r := c as int;
    if c == '\\' {
      buf.Write("\\\\");
    } else if c == '\"' {
      buf.Write("\\\"");
    } else if c == BACKSPACE {
      buf.Write("\\b");
    } else if c == FORM_FEED {
      buf.Write("\\f");
    } else if c == '\n' {
      buf.Write("\\n");
    } else if c == '\r' {
      buf.Write("\\r");
    } else if c == '\t' {
      buf.Write("\\t");
    } else if r < 0x20 {
      buf.Write("\\u");
      buf.Write(Hex4(r));
    } else if ascii && r > 0x7F {
      if r > 0xFFFF {
        SurrogateRange(r);
        buf.Write("\\u");
        buf.Write(Hex4(HighSurrogate(r)));
        buf.Write("\\u");
        buf.Write(Hex4(LowSurrogate(r)));
      } else {
        buf.Write("\\u");
        buf.Write(Hex4(r));
      }
    } else {
      buf.Write([c]);
    }
  }

  method WriteEscapedString(buf: Buffer, value: string, ascii: bool)
    modifies buf
    ensures buf.text == old(buf.text) + Escaped(value, ascii)
  {
    hide Escape, Escaped;
    EscapedNone(ascii);
    for i := 0 to |value|
      invariant buf.text == old(buf.text) + Escaped(value[..i], ascii)
    {
      EscapedStep(value, i, ascii);
      WriteEscapedChar(buf, value[i], ascii);
    }
    assert value[..|value|] == value;
  }

  lemma SurrogateRange(r: int)
    requires 0x1_0000 <= r < 0x11_0000
    ensures 0xD800 <= HighSurrogate(r) < 0xDC00 <= LowSurrogate(r) < 0xE000
    ensures 0x1_0000 + (HighSurrogate(r) - 0xD800) * 0x400 + (LowSurrogate(r) - 0xDC00) == r
  {
  }

  lemma EscapedNone(ascii: bool)
    ensures Escaped("", ascii) == ""
  {
  }

  lemma {:induction false} EscapedConcat(a: string, b: string, ascii: bool)
    ensures Escaped(a + b, ascii) == Escaped(a, ascii) + Escaped(b, ascii)
  {
    hide Escape;
    if a == "" {
      assert a + b == b;
    } else {
      assert (a + b)[1..] == a[1..] + b;
      EscapedConcat(a[1..], b, ascii);
    }
  }

  lemma EscapedStep(s: string, i: nat, ascii: bool)
    requires i < |s|
    ensures Escaped(s[..i + 1], ascii) == Escaped(s[..i], ascii) + Escape(s[i], ascii)
  {
    hide Escape;
    assert s[..i + 1] == s[..i] + [s[i]];
    EscapedConcat(s[..i], [s[i]], ascii);
    assert [s[i]][1..] == "";
    assert Escaped([s[i]], ascii) == Escape(s[i], ascii) + "";
  }

  lemma {:induction false} MoreItemsStep(items: seq<Json>, v: Json, ascii: bool)
    ensures PrintedMoreItems(items + [v], ascii) == PrintedMoreItems(items, ascii) + ", " + Printed(v, ascii)
  {
    hide Printed;
    if items == [] {
      assert [v][1..] == [];
      assert [] + [v] == [v];
    } else {
      assert (items + [v])[1..] == items[1..] + [v];
      MoreItemsStep(items[1..], v, ascii);
    }
  }

  lemma ItemsStep(items: seq<Json>, i: nat, ascii: bool)
    requires i < |items|
    ensures PrintedItems(items[..i + 1], ascii)
         == PrintedItems(items[..i], ascii) + (if i > 0 then ", " else "") + Printed(items[i], ascii)
  {
    hide Printed;
    var front := items[..i];
    assert items[..i + 1] == front + [items[i]];
    if i == 0 {
      assert (front + [items[0]])[1..] == [];
    } else {
      assert (front + [items[i]])[1..] == front[1..] + [items[i]];
      MoreItemsStep(front[1..], items[i], ascii);
    }
  }

  lemma {:induction false} MoreMembersStep(members: seq<Member>, m: Member, ascii: bool)
    ensures PrintedMoreMembers(members + [m], ascii) == PrintedMoreMembers(members, ascii) + ", " + PrintedMember(m, ascii)
  {
    hide PrintedMember;
    if members == [] {
      assert [m][1..] == [];
      assert [] + [m] == [m];
    } else {
      assert (members + [m])[1..] == members[1..] + [m];
      MoreMembersStep(members[1..], m, ascii);
    }
  }

  lemma MembersStep(members: seq<Member>, i: nat, ascii: bool)
    requires i < |members|
    ensures PrintedMembers(members[..i + 1], ascii)
         == PrintedMembers(members[..i], ascii) + (if i > 0 then ", " else "") + PrintedMember(members[i], ascii)
  {
    hide PrintedMember;
    var front := members[..i];
    assert members[..i + 1] == front + [members[i]];
    if i == 0 {
      assert (front + [members[0]])[1..] == [];
    } else {
      assert (front + [members[i]])[1..] == front[1..] + [members[i]];
      MoreMembersStep(front[1..], members[i], ascii);
    }
  }

  lemma PrintedNone(ascii: bool)
    ensures PrintedItems([], ascii) == "" && PrintedMembers([], ascii) == ""
  {
  }

  method WriteQuoted(buf: Buffer, s: string, ascii: bool)
    modifies buf
    ensures buf.text == old(buf.text) + Quoted(s, ascii)
  {
    hide Escaped;
    buf.Write("\"");
    WriteEscapedString(buf, s, ascii);
    buf.Write("\"");
  }

  method WriteItems(buf: Buffer, items: seq<Json>, ascii: bool)
    modifies buf
    ensures buf.text == old(buf.text) + PrintedItems(items, ascii)
    decreases items, 1
  {
    hide PrintedItems, Printed;
    PrintedNone(ascii);
    for i := 0 to |items|
      invariant buf.text == old(buf.text) + PrintedItems(items[..i], ascii)
    {
      ItemsStep(items, i, ascii);
      if i > 0 {
        buf.Write(", ");
      }
      WriteValue(buf, items[i], ascii);
    }
    assert items[..|items|] == items;
  }

  method WriteMembers(buf: Buffer, members: seq<Member>, ascii: bool)
    modifies buf
    ensures buf.text == old(buf.text) + PrintedMembers(members, ascii)
    decreases members, 1
  {
    hide PrintedMembers, Printed, Quoted;
    PrintedNone(ascii);
    for i := 0 to |members|
      invariant buf.text == old(buf.text) + PrintedMembers(members[..i], ascii)
    {
      MembersStep(members, i, ascii);
      if i > 0 {
        buf.Write(", ");
      }
      WriteQuoted(buf, members[i].key, ascii);
      buf.Write(": ");
      WriteValue(buf, members[i].value, ascii);
    }
    assert members[..|members|] == members;
  }

  method WriteValue(buf: Buffer, v: Json, ascii: bool)
    modifies buf
    ensures buf.text == old(buf.text) + Printed(v, ascii)
    decreases v, 0
  {
    hide PrintedItems, PrintedMembers, Quoted;
    match v {
      case Text(s) =>
        WriteQuoted(buf, s, ascii);
      case Number(raw) =>
        buf.Write(raw);
      case Bool(b) =>
        if b {
          buf.Write("true");
        } else {
          buf.Write("false");
        }
      case Null =>
        buf.Write("null");
      case Array(items) =>
        buf.Write("[");
        WriteItems(buf, items, ascii);
        buf.Write("]");
      case Object(members) =>
        buf.Write("{");
        WriteMembers(buf, members, ascii);
        buf.Write("}");
    }
  }

  method Serialize(v: Json, ascii: bool) returns (text: string)
    ensures text == Printed(v, ascii)
  {
    var buf := new Buffer();
    WriteValue(buf, v, ascii);
    text := buf.text;
  }
}
