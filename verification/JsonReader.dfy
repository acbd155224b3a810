/**
A reader for JSON texts as RFC 8259 defines them, and the round trip through
the printer.  Strings follow section 7 (surrogate pairs as in section 2.1 of
RFC 2781), numbers section 6; a lone surrogate is refused.
*/
module JsonReader {
  import opened Common
  import opened JsonText

  // ------------------------------------------------------------------ strings

  /** What follows `\u`: one unit, or a surrogate pair. */
  function ReadUnit(s: string): (r: Option<(char, string)>)
    ensures r.Some? ==> |r.value.1| < |s|
  {
    if |s| < 4 then None else
    match HexValue(s[..4])
    case None => None
    case Some(u) =>
      if u < 0xD800 || 0xE000 <= u <= 0xFFFF then Some((u as char, s[4..]))
      else if u < 0xDC00 && |s| >= 10 && s[4..6] == "\\u" then
        match HexValue(s[6..10])
        case Some(l) =>
          if 0xDC00 <= l < 0xE000 then Some(((0x1_0000 + (u - 0xD800) * 0x400 + (l - 0xDC00)) as char, s[10..]))
          else None
        case None => None
      else None
  }

  function ReadChar(s: string): (r: Option<(char, string)>)
    ensures r.Some? ==> |r.value.1| < |s|
  {
    if s == "" then None
    else if s[0] == '\\' then
      if |s| < 2 then None
      else if s[1] == '\"' || s[1] == '\\' || s[1] == '/' then Some((s[1], s[2..]))
      else if s[1] == 'b' then Some((BACKSPACE, s[2..]))
      else if s[1] == 'f' then Some((FORM_FEED, s[2..]))
      else if s[1] == 'n' then Some(('\n', s[2..]))
      else if s[1] == 'r' then Some(('\r', s[2..]))
      else if s[1] == 't' then Some(('\t', s[2..]))
      else if s[1] == 'u' then ReadUnit(s[2..])
      else None
    else if s[0] < ' ' then None
    else Some((s[0], s[1..]))
  }

  datatype Parsed<+T> = Bad | Good(value: T, rest: string)

  /** The characters up to the closing quote. */
  function ReadChars(s: string): (r: Parsed<string>)
    ensures r.Good? ==> |r.rest| < |s|
    decreases |s|
  {
    if s == "" then Bad
    else if s[0] == '\"' then Good("", s[1..])
    else
      match ReadChar(s)
      case None => Bad
      case Some(p) =>
        match ReadChars(p.1)
        case Bad => Bad
        case Good(more, rest) => Good([p.0] + more, rest)
  }

  // ------------------------------------------------------------------ numbers

  predicate IsDigit(c: char) {
    '0' <= c <= '9'
  }

  predicate IsNumberChar(c: char) {
    IsDigit(c) || c == '-' || c == '+' || c == '.' || c == 'e' || c == 'E'
  }

  function DigitSpan(s: string): (n: nat)
    ensures n <= |s|
    ensures forall i :: 0 <= i < n ==> IsDigit(s[i])
    ensures n < |s| ==> !IsDigit(s[n])
  {
    if s != "" && IsDigit(s[0]) then 1 + DigitSpan(s[1..]) else 0
  }

  /** `exp`: empty, or `e`, a sign if any, and digits. */
  predicate ValidExponent(s: string) {
    || s == ""
    || ((s[0] == 'e' || s[0] == 'E')
        && var digits := if |s| > 1 && (s[1] == '+' || s[1] == '-') then s[2..] else s[1..];
        digits != "" && DigitSpan(digits) == |digits|)
  }

  /** `frac exp`. */
  predicate ValidFraction(s: string) {
    if s != "" && s[0] == '.' then
      var n := DigitSpan(s[1..]);
      n > 0 && ValidExponent(s[1 + n..])
    else ValidExponent(s)
  }

  /** `int frac exp`. */
  predicate ValidUnsigned(s: string) {
    var n := DigitSpan(s);
    n > 0 && (n == 1 || s[0] != '0') && ValidFraction(s[n..])
  }

  predicate ValidNumber(s: string) {
    ValidUnsigned(if s != "" && s[0] == '-' then s[1..] else s)
  }

  function NumberSpan(s: string): (n: nat)
    ensures n <= |s|
  {
    if s != "" && IsNumberChar(s[0]) then 1 + NumberSpan(s[1..]) else 0
  }

  // ------------------------------------------------------------------- values

  predicate IsSpace(c: char) {
    c == ' ' || c == '\t' || c == '\n' || c == '\r'
  }

  function SkipSpace(s: string): (r: string)
    ensures |r| <= |s|
  {
    if s != "" && IsSpace(s[0]) then SkipSpace(s[1..]) else s
  }

  function ReadLiteral(s: string, word: string, v: Json): Parsed<Json> {
    if word <= s then Good(v, s[|word|..]) else Bad
  }

  function ReadNumber(s: string): (r: Parsed<Json>)
    ensures r.Good? ==> |r.rest| < |s|
  {
    var n := NumberSpan(s);
    if n > 0 && ValidNumber(s[..n]) then Good(Number(s[..n]), s[n..]) else Bad
  }

  function ReadValue(s: string): (r: Parsed<Json>)
    ensures r.Good? ==> |r.rest| < |s|
    decreases |s|, 0
  {
    var t := SkipSpace(s);
    if t == "" then Bad
    else if t[0] == '\"' then
      match ReadChars(t[1..])
      case Bad => Bad
      case Good(text, rest) => Good(Text(text), rest)
    else if t[0] == '[' then
      match ReadItems(t[1..])
      case Bad => Bad
      case Good(items, rest) => Good(Array(items), rest)
    else if t[0] == '{' then
      match ReadMembers(t[1..])
      case Bad => Bad
      case Good(members, rest) => Good(Object(members), rest)
    else if t[0] == 'n' then ReadLiteral(t, "null", Null)
    else if t[0] == 't' then ReadLiteral(t, "true", Bool(true))
    else if t[0] == 'f' then ReadLiteral(t, "false", Bool(false))
    else ReadNumber(t)
  }

  function ReadItems(s: string): (r: Parsed<seq<Json>>)
    ensures r.Good? ==> |r.rest| < |s|
    decreases |s|, 1
  {
    var t := SkipSpace(s);
    if t != "" && t[0] == ']' then Good([], t[1..]) else
    match ReadValue(t)
    case Bad => Bad
    case Good(v, rest) =>
      match ReadMoreItems(rest)
      case Bad => Bad
      case Good(more, rest') => Good([v] + more, rest')
  }

  function ReadMoreItems(s: string): (r: Parsed<seq<Json>>)
    ensures r.Good? ==> |r.rest| < |s|
    decreases |s|, 1
  {
    var t := SkipSpace(s);
    if t == "" then Bad
    else if t[0] == ']' then Good([], t[1..])
    else if t[0] != ',' then Bad
    else
      match ReadValue(t[1..])
      case Bad => Bad
      case Good(v, rest) =>
        match ReadMoreItems(rest)
        case Bad => Bad
        case Good(more, rest') => Good([v] + more, rest')
  }

  function ReadMember(s: string): (r: Parsed<Member>)
    ensures r.Good? ==> |r.rest| < |s|
    decreases |s|, 1
  {
    var t := SkipSpace(s);
    if t == "" || t[0] != '\"' then Bad else
    match ReadChars(t[1..])
    case Bad => Bad
    case Good(key, rest) =>
      var u := SkipSpace(rest);
      if u == "" || u[0] != ':' then Bad else
      match ReadValue(u[1..])
      case Bad => Bad
      case Good(v, rest') => Good(Member(key, v), rest')
  }

  function ReadMembers(s: string): (r: Parsed<seq<Member>>)
    ensures r.Good? ==> |r.rest| < |s|
    decreases |s|, 2
  {
    var t := SkipSpace(s);
    if t != "" && t[0] == '}' then Good([], t[1..]) else
    match ReadMember(t)
    case Bad => Bad
    case Good(m, rest) =>
      match ReadMoreMembers(rest)
      case Bad => Bad
      case Good(more, rest') => Good([m] + more, rest')
  }

  function ReadMoreMembers(s: string): (r: Parsed<seq<Member>>)
    ensures r.Good? ==> |r.rest| < |s|
    decreases |s|, 2
  {
    var t := SkipSpace(s);
    if t == "" then Bad
    else if t[0] == '}' then Good([], t[1..])
    else if t[0] != ',' then Bad
    else
      match ReadMember(t[1..])
      case Bad => Bad
      case Good(m, rest) =>
        match ReadMoreMembers(rest)
        case Bad => Bad
        case Good(more, rest') => Good([m] + more, rest')
  }

  /** A JSON text: one value, with white space around it. */
  function Decode(s: string): Option<Json> {
    match ReadValue(s)
    case Bad => None
    case Good(v, rest) => if SkipSpace(rest) == "" then Some(v) else None
  }

  // -------------------------------------------------------- strings come back

  lemma Split(a: string, b: string)
    ensures (a + b)[..|a|] == a && (a + b)[|a|..] == b
  {
  }

  lemma UnitReads(n: nat, tail: string)
    requires n < 0xD800 || 0xE000 <= n < 0x1_0000
    ensures ReadUnit(Hex4(n) + tail) == Some((n as char, tail))
  {
    hide Hex4, HexValue;
    Hex4Value(n);
    Split(Hex4(n), tail);
  }

  lemma PairReads(r: int, tail: string)
    requires 0x1_0000 <= r < 0x11_0000
    ensures 0xD800 <= HighSurrogate(r) < 0xDC00 <= LowSurrogate(r) < 0xE000
    ensures ReadUnit(Hex4(HighSurrogate(r)) + (Unit(LowSurrogate(r)) + tail)) == Some((r as char, tail))
  {
    hide Hex4, HexValue, HighSurrogate, LowSurrogate;
    SurrogateRange(r);
    var h, l := HighSurrogate(r), LowSurrogate(r);
    Hex4Value(h);
    Hex4Value(l);
    var s := Hex4(h) + (Unit(l) + tail);
    Split(Hex4(h), Unit(l) + tail);
    assert s == Hex4(h) + "\\u" + Hex4(l) + tail;
    assert s[4..6] == "\\u" && s[6..10] == Hex4(l) && s[10..] == tail;
  }

  /** Every printed character reads back as itself, in both modes. */
  lemma CharReads(c: char, ascii: bool, tail: string)
    ensures ReadChar(Escape(c, ascii) + tail) == Some((c, tail))
    ensures Escape(c, ascii)[0] != '\"'
  {
    hide Hex4, ReadUnit, HighSurrogate, LowSurrogate;
    var r, s := c as int, Escape(c, ascii) + tail;
    if r < 0x20 || (ascii && r > 0x7F) {
      if r > 0xFFFF {
        PairReads(r, tail);
        var h, l := HighSurrogate(r), LowSurrogate(r);
        assert s == "\\u" + (Hex4(h) + (Unit(l) + tail));
        assert s[2..] == Hex4(h) + (Unit(l) + tail);
      } else {
        UnitReads(r, tail);
        if s[1] == 'u' {
          assert s == "\\u" + (Hex4(r) + tail);
          assert s[2..] == Hex4(r) + tail;
        } else {
          assert s[2..] == tail;
        }
      }
    } else if c == '\\' || c == '\"' {
      assert s[2..] == tail;
    } else {
      assert s[1..] == tail;
    }
  }

  lemma {:induction false} EscapedReads(s: string, ascii: bool, tail: string)
    ensures ReadChars(Escaped(s, ascii) + "\"" + tail) == Good(s, tail)
  {
    hide Escape, ReadChar;
    var text := Escaped(s, ascii) + "\"" + tail;
    if s == "" {
      assert text == "\"" + tail;
      assert text[1..] == tail;
    } else {
      var more := Escaped(s[1..], ascii) + "\"" + tail;
      EscapedReads(s[1..], ascii, tail);
      assert text == Escape(s[0], ascii) + more;
      CharReads(s[0], ascii, more);
      assert [s[0]] + s[1..] == s;
    }
  }

  // -------------------------------------------------------- numbers come back

  ghost predicate NumberText(s: string) {
    forall i :: 0 <= i < |s| ==> IsNumberChar(s[i])
  }

  /** What may follow a number without becoming part of it. */
  predicate Ends(tail: string) {
    tail == "" || !IsNumberChar(tail[0])
  }

  lemma NumberTextJoin(a: string, b: string)
    requires NumberText(a) && NumberText(b)
    ensures NumberText(a + b)
  {
  }

  lemma ExponentText(s: string)
    requires ValidExponent(s)
    ensures NumberText(s)
  {
    if s != "" {
      var k := if |s| > 1 && (s[1] == '+' || s[1] == '-') then 2 else 1;
      assert NumberText(s[k..]);
      assert s == s[..k] + s[k..];
    }
  }

  lemma FractionText(s: string)
    requires ValidFraction(s)
    ensures NumberText(s)
  {
    hide ValidExponent;
    if s != "" && s[0] == '.' {
      var n := DigitSpan(s[1..]);
      ExponentText(s[1 + n..]);
      assert NumberText(s[1..][..n]);
      assert s == [s[0]] + s[1..][..n] + s[1 + n..];
    } else {
      ExponentText(s);
    }
  }

  lemma NumberIsText(raw: string)
    requires ValidNumber(raw)
    ensures raw != "" && NumberText(raw) && (raw[0] == '-' || IsDigit(raw[0]))
  {
    hide ValidFraction;
    var k := if raw != "" && raw[0] == '-' then 1 else 0;
    var u := raw[k..];
    assert raw == raw[..k] + u;
    var n := DigitSpan(u);
    FractionText(u[n..]);
    assert u == u[..n] + u[n..] && NumberText(u[..n]);
    NumberTextJoin(u[..n], u[n..]);
    assert NumberText(raw[..k]);
    NumberTextJoin(raw[..k], u);
  }

  lemma {:induction false} NumberSpanOf(raw: string, tail: string)
    requires NumberText(raw) && Ends(tail)
    ensures NumberSpan(raw + tail) == |raw|
  {
    if raw == "" {
      assert raw + tail == tail;
    } else {
      assert (raw + tail)[0] == raw[0];
      assert (raw + tail)[1..] == raw[1..] + tail;
      NumberSpanOf(raw[1..], tail);
    }
  }

  lemma NumberReads(raw: string, tail: string)
    requires ValidNumber(raw) && Ends(tail)
    ensures ReadValue(raw + tail) == Good(Number(raw), tail)
    ensures raw != "" && !IsSpace(raw[0])
  {
    hide ValidNumber, ReadChars, ReadItems, ReadMembers, ReadLiteral, NumberSpan;
    NumberIsText(raw);
    NumberSpanOf(raw, tail);
    Split(raw, tail);
    assert (raw + tail)[0] == raw[0];
  }

  // ----------------------------------------------------------- trees come back

  /** Every number in the tree is a token RFC 8259 allows. */
  ghost predicate WellFormed(v: Json)
    decreases v
  {
    match v
    case Number(raw) => ValidNumber(raw)
    case Array(items) => forall i :: 0 <= i < |items| ==> WellFormed(items[i])
    case Object(members) => forall i :: 0 <= i < |members| ==> WellFormed(members[i].value)
    case _ => true
  }

  lemma SpaceSkipped(s: string)
    ensures ReadValue(" " + s) == ReadValue(s)
    ensures ReadMember(" " + s) == ReadMember(s)
  {
    hide ReadChars, ReadItems, ReadMembers, ReadLiteral, ReadNumber;
    assert (" " + s)[1..] == s;
  }

  lemma TextReads(s: string, ascii: bool, tail: string)
    ensures ReadValue(Quoted(s, ascii) + tail) == Good(Text(s), tail)
  {
    hide ReadChars, ReadItems, ReadMembers, ReadLiteral, ReadNumber, Escaped;
    EscapedReads(s, ascii, tail);
    assert Quoted(s, ascii) + tail == "\"" + (Escaped(s, ascii) + "\"" + tail);
  }

  lemma LiteralReads(word: string, v: Json, tail: string)
    requires (word, v) == ("null", Null) || (word, v) == ("true", Bool(true)) || (word, v) == ("false", Bool(false))
    ensures ReadValue(word + tail) == Good(v, tail)
  {
    hide ReadChars, ReadItems, ReadMembers, ReadNumber;
    Split(word, tail);
    assert (word + tail)[0] == word[0];
    assert word <= word + tail;
  }

  /** The first character of a printed value is none that could end or separate anything. */
  ghost predicate Starts(s: string) {
    s != "" && !IsSpace(s[0]) && s[0] != ']' && s[0] != '}' && s[0] != ','
  }

  lemma PrintedStarts(v: Json, ascii: bool)
    requires WellFormed(v)
    ensures Starts(Printed(v, ascii))
  {
    hide PrintedItems, PrintedMembers, Escaped, ValidNumber;
    if v.Number? {
      NumberIsText(v.raw);
    }
  }

  lemma MemberReads(m: Member, ascii: bool, tail: string)
    requires ReadValue(Printed(m.value, ascii) + tail) == Good(m.value, tail)
    ensures ReadMember(PrintedMember(m, ascii) + tail) == Good(m, tail)
  {
    hide ReadChars, ReadValue, Escaped, Printed;
    var value := Printed(m.value, ascii) + tail;
    var after := ": " + value;
    EscapedReads(m.key, ascii, after);
    var s := PrintedMember(m, ascii) + tail;
    assert s == "\"" + (Escaped(m.key, ascii) + "\"" + after);
    assert s[1..] == Escaped(m.key, ascii) + "\"" + after;
    assert after[1..] == " " + value;
    SpaceSkipped(value);
  }

  lemma {:induction false} ValueReads(v: Json, ascii: bool, tail: string)
    requires WellFormed(v) && Ends(tail)
    ensures ReadValue(Printed(v, ascii) + tail) == Good(v, tail)
    decreases v, 0
  {
    hide ReadItems, ReadMembers, PrintedItems, PrintedMembers, ReadLiteral, ReadNumber, ReadChars, Escaped, ValidNumber;
    match v
    case Null => LiteralReads("null", v, tail);
    case Bool(b) => LiteralReads(if b then "true" else "false", v, tail);
    case Number(raw) => NumberReads(raw, tail);
    case Text(s) => TextReads(s, ascii, tail);
    case Array(items) =>
      ItemsRead(items, ascii, tail);
      assert Printed(v, ascii) + tail == "[" + (PrintedItems(items, ascii) + "]" + tail);
    case Object(members) =>
      MembersRead(members, ascii, tail);
      assert Printed(v, ascii) + tail == "{" + (PrintedMembers(members, ascii) + "}" + tail);
  }

  lemma MoreItemsEnd(items: seq<Json>, ascii: bool, tail: string)
    ensures Ends(PrintedMoreItems(items, ascii) + "]" + tail)
  {
    hide Printed;
  }

  lemma MoreMembersEnd(members: seq<Member>, ascii: bool, tail: string)
    ensures Ends(PrintedMoreMembers(members, ascii) + "}" + tail)
  {
    hide PrintedMember;
  }

  /** One more value after a comma. */
  lemma CommaItems(s: string, x: Json, more: string, xs: seq<Json>, tail: string)
    requires ReadValue(s) == Good(x, more) && ReadMoreItems(more) == Good(xs, tail)
    ensures ReadMoreItems(", " + s) == Good([x] + xs, tail)
  {
    hide ReadValue, ReadMember;
    SpaceSkipped(s);
    assert (", " + s)[1..] == " " + s;
  }

  lemma CloseItems(tail: string)
    ensures ReadMoreItems("]" + tail) == Good([], tail) && ReadItems("]" + tail) == Good([], tail)
  {
    hide ReadValue, ReadMember;
    assert ("]" + tail)[1..] == tail;
  }

  lemma {:induction false} MoreItemsRead(items: seq<Json>, ascii: bool, tail: string)
    requires forall i :: 0 <= i < |items| ==> WellFormed(items[i])
    ensures ReadMoreItems(PrintedMoreItems(items, ascii) + "]" + tail) == Good(items, tail)
    decreases items, 1
  {
    hide ReadValue, Printed, WellFormed, ReadMoreItems;
    var text := PrintedMoreItems(items, ascii) + "]" + tail;
    if items == [] {
      CloseItems(tail);
      assert text == "]" + tail;
    } else {
      var more := PrintedMoreItems(items[1..], ascii) + "]" + tail;
      MoreItemsEnd(items[1..], ascii, tail);
      ValueReads(items[0], ascii, more);
      MoreItemsRead(items[1..], ascii, tail);
      CommaItems(Printed(items[0], ascii) + more, items[0], more, items[1..], tail);
      assert text == ", " + (Printed(items[0], ascii) + more);
      assert [items[0]] + items[1..] == items;
    }
  }

  lemma ItemsRead(items: seq<Json>, ascii: bool, tail: string)
    requires forall i :: 0 <= i < |items| ==> WellFormed(items[i])
    ensures ReadItems(PrintedItems(items, ascii) + "]" + tail) == Good(items, tail)
    decreases items, 2
  {
    hide ReadValue, Printed, WellFormed, ReadMoreItems;
    var text := PrintedItems(items, ascii) + "]" + tail;
    if items == [] {
      assert text == "]" + tail;
      assert text[1..] == tail;
    } else {
      var more := PrintedMoreItems(items[1..], ascii) + "]" + tail;
      MoreItemsEnd(items[1..], ascii, tail);
      ValueReads(items[0], ascii, more);
      MoreItemsRead(items[1..], ascii, tail);
      PrintedStarts(items[0], ascii);
      assert text == Printed(items[0], ascii) + more;
      assert text[0] == Printed(items[0], ascii)[0];
      assert [items[0]] + items[1..] == items;
    }
  }

  /** One more member after a comma. */
  lemma CommaMembers(s: string, x: Member, more: string, xs: seq<Member>, tail: string)
    requires ReadMember(s) == Good(x, more) && ReadMoreMembers(more) == Good(xs, tail)
    ensures ReadMoreMembers(", " + s) == Good([x] + xs, tail)
  {
    hide ReadValue, ReadMember;
    SpaceSkipped(s);
    assert (", " + s)[1..] == " " + s;
  }

  lemma CloseMembers(tail: string)
    ensures ReadMoreMembers("}" + tail) == Good([], tail) && ReadMembers("}" + tail) == Good([], tail)
  {
    hide ReadValue, ReadMember;
    assert ("}" + tail)[1..] == tail;
  }

  lemma {:induction false} MoreMembersRead(members: seq<Member>, ascii: bool, tail: string)
    requires forall i :: 0 <= i < |members| ==> WellFormed(members[i].value)
    ensures ReadMoreMembers(PrintedMoreMembers(members, ascii) + "}" + tail) == Good(members, tail)
    decreases members, 1
  {
    hide ReadValue, ReadMember, PrintedMember, WellFormed, ReadMoreMembers;
    var text := PrintedMoreMembers(members, ascii) + "}" + tail;
    if members == [] {
      CloseMembers(tail);
      assert text == "}" + tail;
    } else {
      var more := PrintedMoreMembers(members[1..], ascii) + "}" + tail;
      MoreMembersEnd(members[1..], ascii, tail);
      ValueReads(members[0].value, ascii, more);
      MemberReads(members[0], ascii, more);
      MoreMembersRead(members[1..], ascii, tail);
      CommaMembers(PrintedMember(members[0], ascii) + more, members[0], more, members[1..], tail);
      assert text == ", " + (PrintedMember(members[0], ascii) + more);
      assert [members[0]] + members[1..] == members;
    }
  }

  lemma QuoteFirst(m: Member, ascii: bool)
    ensures PrintedMember(m, ascii) != "" && PrintedMember(m, ascii)[0] == '\"'
  {
    hide Printed, Escaped;
  }

  lemma MembersRead(members: seq<Member>, ascii: bool, tail: string)
    requires forall i :: 0 <= i < |members| ==> WellFormed(members[i].value)
    ensures ReadMembers(PrintedMembers(members, ascii) + "}" + tail) == Good(members, tail)
    decreases members, 2
  {
    hide ReadValue, ReadMember, PrintedMember, WellFormed, ReadMoreMembers;
    var text := PrintedMembers(members, ascii) + "}" + tail;
    if members == [] {
      assert text == "}" + tail;
      assert text[1..] == tail;
    } else {
      var more := PrintedMoreMembers(members[1..], ascii) + "}" + tail;
      MoreMembersEnd(members[1..], ascii, tail);
      ValueReads(members[0].value, ascii, more);
      MemberReads(members[0], ascii, more);
      MoreMembersRead(members[1..], ascii, tail);
      QuoteFirst(members[0], ascii);
      assert text == PrintedMember(members[0], ascii) + more;
      assert text[0] == '\"';
      assert [members[0]] + members[1..] == members;
    }
  }

  /** Print, then read: every tree with valid number tokens comes back, in both character modes. */
  lemma PrintedDecodes(v: Json, ascii: bool)
    requires WellFormed(v)
    ensures Decode(Printed(v, ascii)) == Some(v)
  {
    hide ReadValue, Printed, WellFormed;
    ValueReads(v, ascii, "");
    assert Printed(v, ascii) + "" == Printed(v, ascii);
  }

  /** Different trees never print alike, even with different character modes. */
  lemma PrintedIsInjective(v: Json, w: Json, a: bool, b: bool)
    requires WellFormed(v) && WellFormed(w) && Printed(v, a) == Printed(w, b)
    ensures v == w
  {
    PrintedDecodes(v, a);
    PrintedDecodes(w, b);
  }

  // --------------------------------------------------------------- ASCII mode

  ghost predicate Ascii(s: string) {
    forall i :: 0 <= i < |s| ==> s[i] as int < 0x80
  }

  lemma AsciiJoin(a: string, b: string)
    requires Ascii(a) && Ascii(b)
    ensures Ascii(a + b)
  {
  }

  lemma {:induction false} FormatHexAscii(n: nat)
    ensures Ascii(FormatHex(n))
  {
    if n >= 16 {
      FormatHexAscii(n / 16);
    }
  }

  lemma UnitAscii(n: nat)
    requires n < 0x1_0000
    ensures Ascii(Unit(n))
  {
    hide FormatHex;
    HexLength(n);
    FormatHexAscii(n);
    AsciiJoin(Zeros(4 - |FormatHex(n)|), FormatHex(n));
    AsciiJoin("\\u", Hex4(n));
  }

  lemma EscapeAscii(c: char)
    ensures Ascii(Escape(c, true))
  {
    hide Hex4, HighSurrogate, LowSurrogate;
    var r := c as int;
    if r > 0xFFFF {
      SurrogateRange(r);
      UnitAscii(HighSurrogate(r));
      UnitAscii(LowSurrogate(r));
      AsciiJoin(Unit(HighSurrogate(r)), Unit(LowSurrogate(r)));
    } else {
      UnitAscii(r);
    }
  }

  lemma {:induction false} EscapedAscii(s: string)
    ensures Ascii(Escaped(s, true))
  {
    hide Escape;
    if s != "" {
      EscapeAscii(s[0]);
      EscapedAscii(s[1..]);
      AsciiJoin(Escape(s[0], true), Escaped(s[1..], true));
    }
  }

  lemma QuotedAscii(s: string)
    ensures Ascii(Quoted(s, true))
  {
    EscapedAscii(s);
  }

  /** In ASCII mode nothing but ASCII is printed. */
  lemma {:induction false} PrintedAscii(v: Json)
    requires WellFormed(v)
    ensures Ascii(Printed(v, true))
    decreases v, 0
  {
    hide Quoted, PrintedItems, PrintedMembers, ValidNumber;
    match v
    case Text(s) => QuotedAscii(s);
    case Number(raw) => NumberIsText(raw);
    case Array(items) => ItemsAscii(items);
    case Object(members) => MembersAscii(members);
    case _ =>
  }

  lemma {:induction false} MoreItemsAscii(items: seq<Json>)
    requires forall i :: 0 <= i < |items| ==> WellFormed(items[i])
    ensures Ascii(PrintedMoreItems(items, true))
    decreases items, 1
  {
    hide Printed, WellFormed;
    if items != [] {
      PrintedAscii(items[0]);
      MoreItemsAscii(items[1..]);
      AsciiJoin(", ", Printed(items[0], true));
      AsciiJoin(", " + Printed(items[0], true), PrintedMoreItems(items[1..], true));
    }
  }

  lemma ItemsAscii(items: seq<Json>)
    requires forall i :: 0 <= i < |items| ==> WellFormed(items[i])
    ensures Ascii(PrintedItems(items, true))
    decreases items, 2
  {
    hide Printed, WellFormed, PrintedMoreItems;
    if items != [] {
      PrintedAscii(items[0]);
      MoreItemsAscii(items[1..]);
      AsciiJoin(Printed(items[0], true), PrintedMoreItems(items[1..], true));
    }
  }

  lemma MemberAscii(m: Member)
    requires Ascii(Printed(m.value, true))
    ensures Ascii(PrintedMember(m, true))
  {
    hide Printed, Quoted;
    QuotedAscii(m.key);
    AsciiJoin(Quoted(m.key, true), ": ");
    AsciiJoin(Quoted(m.key, true) + ": ", Printed(m.value, true));
  }

  lemma {:induction false} MoreMembersAscii(members: seq<Member>)
    requires forall i :: 0 <= i < |members| ==> WellFormed(members[i].value)
    ensures Ascii(PrintedMoreMembers(members, true))
    decreases members, 1
  {
    hide PrintedMember, WellFormed;
    if members != [] {
      PrintedAscii(members[0].value);
      MemberAscii(members[0]);
      MoreMembersAscii(members[1..]);
      AsciiJoin(", ", PrintedMember(members[0], true));
      AsciiJoin(", " + PrintedMember(members[0], true), PrintedMoreMembers(members[1..], true));
    }
  }

  lemma MembersAscii(members: seq<Member>)
    requires forall i :: 0 <= i < |members| ==> WellFormed(members[i].value)
    ensures Ascii(PrintedMembers(members, true))
    decreases members, 2
  {
    hide PrintedMember, WellFormed, PrintedMoreMembers;
    if members != [] {
      PrintedAscii(members[0].value);
      MemberAscii(members[0]);
      MoreMembersAscii(members[1..]);
      AsciiJoin(PrintedMember(members[0], true), PrintedMoreMembers(members[1..], true));
    }
  }
}
