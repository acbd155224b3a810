/** Well-formed UTF-8 (RFC 3629, section 4), over bytes. */
module Utf8 {

  newtype byte = b: int | 0 <= b < 256

  predicate Tail(b: byte) {
    0x80 <= b <= 0xBF
  }

  /** The length of the well-formed character `s` begins with, or 0 when there is none. */
  function RuneLen(s: seq<byte>): (n: nat)
    ensures n <= 4 && n <= |s|
  {
    if |s| == 0 then 0
    else if s[0] <= 0x7F then 1
    else if |s| >= 2 && 0xC2 <= s[0] <= 0xDF && Tail(s[1]) then 2
    else if |s| >= 3 && 0xE0 <= s[0] <= 0xEF && Tail(s[1]) && Tail(s[2])
            && (s[0] == 0xE0 ==> s[1] >= 0xA0) && (s[0] == 0xED ==> s[1] <= 0x9F) then 3
    else if |s| >= 4 && 0xF0 <= s[0] <= 0xF4 && Tail(s[1]) && Tail(s[2]) && Tail(s[3])
            && (s[0] == 0xF0 ==> s[1] >= 0x90) && (s[0] == 0xF4 ==> s[1] <= 0x8F) then 4
    else 0
  }

  predicate Valid(s: seq<byte>) {
    s == [] || (RuneLen(s) > 0 && Valid(s[RuneLen(s)..]))
  }

  /** A character is recognised from its own bytes alone. */
  lemma RuneLenPrefix(s: seq<byte>, t: seq<byte>)
    requires RuneLen(s) > 0
    ensures RuneLen(s + t) == RuneLen(s)
  {
  }

  lemma {:induction false} ValidConcat(s: seq<byte>, t: seq<byte>)
    requires Valid(s) && Valid(t)
    ensures Valid(s + t)
  {
    if s == [] {
      assert s + t == t;
    } else {
      var n := RuneLen(s);
      RuneLenPrefix(s, t);
      assert (s + t)[n..] == s[n..] + t;
      ValidConcat(s[n..], t);
    }
  }

  /** Cutting a valid text after a valid prefix leaves a valid suffix. */
  lemma {:induction false} ValidSuffix(s: seq<byte>, k: nat)
    requires k <= |s| && Valid(s) && Valid(s[..k])
    ensures Valid(s[k..])
  {
    if k > 0 {
      var n := RuneLen(s[..k]);
      assert s == s[..k] + s[k..];
      RuneLenPrefix(s[..k], s[k..]);
      assert s[n..][..k - n] == s[..k][n..];
      assert s[n..][k - n..] == s[k..];
      ValidSuffix(s[n..], k - n);
    } else {
      assert s[0..] == s;
    }
  }

  /** Backing off to a character boundary takes at most three bytes. */
  lemma {:induction false} BoundaryNear(s: seq<byte>, k: nat) returns (j: nat)
    requires k <= |s| && Valid(s)
    ensures j <= k <= j + 3 && Valid(s[..j])
  {
    var n := RuneLen(s);
    if k < n || s == [] {
      j := 0;
    } else {
      var i := BoundaryNear(s[n..], k - n);
      j := n + i;
      assert s[..j][n..] == s[n..][..i];
      assert s[..j] == s[..n] + s[n..][..i];
      RuneOnItsOwn(s);
    }
  }

  lemma RuneOnItsOwn(s: seq<byte>)
    requires RuneLen(s) > 0
    ensures forall j :: RuneLen(s) <= j <= |s| ==> RuneLen(s[..j]) == RuneLen(s)
  {
  }

  /** U+FFFD, the replacement character. */
  const REPLACEMENT: seq<byte> := [0xEF, 0xBF, 0xBD]

  /** Replaces each run of bytes that are not part of a character by one replacement character. */
  function ToValid(s: seq<byte>, afterBad: bool): (r: seq<byte>)
    ensures Valid(r)
    ensures Valid(s) ==> r == s
    ensures s != [] && !afterBad ==> r != []
    decreases |s|
  {
    if s == [] then [] else
    var n := RuneLen(s);
    if n > 0 then
      var rest := ToValid(s[n..], false);
      RuneThenValid(s, rest);
      s[..n] + rest
    else
      var rest := ToValid(s[1..], true);
      ValidConcat(REPLACEMENT, rest);
      if afterBad then rest else REPLACEMENT + rest
  }

  lemma RuneThenValid(s: seq<byte>, t: seq<byte>)
    requires RuneLen(s) > 0 && Valid(t)
    ensures Valid(s[..RuneLen(s)] + t)
  {
    RuneOnItsOwn(s);
    var head := s[..RuneLen(s)];
    assert Valid(head[RuneLen(head)..]);
    ValidConcat(head, t);
  }

  // ------------------------------------------------------- scalar values

  /** A Unicode scalar value: any code point but a surrogate. */
  predicate IsScalar(c: int) {
    0 <= c < 0xD800 || 0xE000 <= c < 0x11_0000
  }

  /** The encoding of a scalar value, as the standard's table gives it. */
  function Encode(c: int): (s: seq<byte>)
    requires IsScalar(c)
    ensures |s| > 0
  {
    if c < 0x80 then [c as byte]
    else if c < 0x800 then [(0xC0 + c / 0x40) as byte, (0x80 + c % 0x40) as byte]
    else if c < 0x1_0000 then [(0xE0 + c / 0x1000) as byte, (0x80 + c / 0x40 % 0x40) as byte, (0x80 + c % 0x40) as byte]
    else [(0xF0 + c / 0x4_0000) as byte, (0x80 + c / 0x1000 % 0x40) as byte, (0x80 + c / 0x40 % 0x40) as byte,
          (0x80 + c % 0x40) as byte]
  }

  /** Every encoded scalar value is recognised, with its length. */
  lemma EncodedIsRune(c: int, t: seq<byte>)
    requires IsScalar(c)
    ensures RuneLen(Encode(c) + t) == |Encode(c)|
  {
    var s := Encode(c) + t;
    if c >= 0x1_0000 {
      assert 0xF0 <= s[0] <= 0xF4;
      assert s[0] == 0xF0 ==> c / 0x1000 % 0x40 >= 0x10;
      assert s[0] == 0xF4 ==> c / 0x1000 % 0x40 < 0x10;
    } else if c >= 0x800 {
      assert s[0] == 0xE0 ==> c / 0x40 % 0x40 >= 0x20;
      assert s[0] == 0xED ==> c / 0x40 % 0x40 < 0x20;
    }
  }

  /** Whatever is recognised is the encoding of a scalar value. */
  lemma RuneIsEncoded(s: seq<byte>) returns (c: int)
    requires RuneLen(s) > 0
    ensures IsScalar(c) && s[..RuneLen(s)] == Encode(c)
  {
    var n := RuneLen(s);
    if n == 1 {
      c := s[0] as int;
    } else if n == 2 {
      c := TwoBytes(s[0] as int - 0xC0, s[1] as int - 0x80);
    } else if n == 3 {
      c := ThreeBytes(s[0] as int - 0xE0, s[1] as int - 0x80, s[2] as int - 0x80);
    } else {
      c := FourBytes(s[0] as int - 0xF0, s[1] as int - 0x80, s[2] as int - 0x80, s[3] as int - 0x80);
    }
  }

  lemma TwoBytes(a: int, b: int) returns (c: int)
    requires 2 <= a < 0x20 && 0 <= b < 0x40
    ensures 0x80 <= c < 0x800 && c / 0x40 == a && c % 0x40 == b
  {
    c := a * 0x40 + b;
  }

  lemma ThreeBytes(a: int, b: int, d: int) returns (c: int)
    requires 0 <= a < 0x10 && 0 <= b < 0x40 && 0 <= d < 0x40
    requires (a == 0 ==> b >= 0x20) && (a == 0xD ==> b < 0x20)
    ensures IsScalar(c) && 0x800 <= c < 0x1_0000
    ensures c / 0x1000 == a && c / 0x40 % 0x40 == b && c % 0x40 == d
  {
    c := a * 0x1000 + b * 0x40 + d;
    assert c / 0x40 == a * 0x40 + b;
  }

  lemma FourBytes(a: int, b: int, d: int, e: int) returns (c: int)
    requires 0 <= a <= 4 && 0 <= b < 0x40 && 0 <= d < 0x40 && 0 <= e < 0x40
    requires (a == 0 ==> b >= 0x10) && (a == 4 ==> b < 0x10)
    ensures 0x1_0000 <= c < 0x11_0000
    ensures c / 0x4_0000 == a && c / 0x1000 % 0x40 == b && c / 0x40 % 0x40 == d && c % 0x40 == e
  {
    c := a * 0x4_0000 + b * 0x1000 + d * 0x40 + e;
    assert c / 0x40 == a * 0x1000 + b * 0x40 + d;
    assert c / 0x1000 == a * 0x40 + b;
  }

  // ------------------------------------------------------------ replacement

  /** No character begins anywhere in `bad`, and one begins right behind it, unless the text ends there. */
  ghost predicate IsBadRun(bad: seq<byte>, rest: seq<byte>) {
    && bad != []
    && (forall i :: 0 <= i < |bad| ==> RuneLen((bad + rest)[i..]) == 0)
    && (rest != [] ==> RuneLen(rest) > 0)
  }

  lemma {:induction false} BadRunGoes(bad: seq<byte>, rest: seq<byte>)
    requires forall i :: 0 <= i < |bad| ==> RuneLen((bad + rest)[i..]) == 0
    requires rest != [] ==> RuneLen(rest) > 0
    ensures ToValid(bad + rest, true) == ToValid(rest, false)
    decreases |bad|
  {
    var s := bad + rest;
    if bad == [] {
      assert s == rest;
    } else {
      assert s[0..] == s && s[1..] == bad[1..] + rest;
      forall i | 0 <= i < |bad[1..]| ensures RuneLen((bad[1..] + rest)[i..]) == 0 {
        assert (bad[1..] + rest)[i..] == s[i + 1..];
      }
      BadRunGoes(bad[1..], rest);
    }
  }

  lemma FirstBad(bad: seq<byte>, rest: seq<byte>)
    requires IsBadRun(bad, rest)
    ensures ToValid(bad + rest, false) == REPLACEMENT + ToValid(rest, false)
  {
    hide RuneLen, Valid;
    var s := bad + rest;
    assert s[0..] == s && s[1..] == bad[1..] + rest;
    forall i | 0 <= i < |bad[1..]| ensures RuneLen((bad[1..] + rest)[i..]) == 0 {
      assert (bad[1..] + rest)[i..] == s[i + 1..];
    }
    BadRunGoes(bad[1..], rest);
  }

  lemma FirstGood(s: seq<byte>, n: nat)
    requires n == RuneLen(s) > 0
    ensures ToValid(s, false) == s[..n] + ToValid(s[n..], false)
  {
    hide RuneLen, Valid;
  }

  lemma CutAndJoined(s: seq<byte>, n: nat, b: seq<byte>, c: seq<byte>)
    requires n <= |s|
    ensures (s + b + c)[..n] == s[..n] && (s + b + c)[n..] == s[n..] + b + c
    ensures s[..n] + (s[n..] + b + c) == s + b + c == s + (b + c)
  {
  }

  /**
  What repairing does: characters stay, and each run of bytes in which none
  begins gives way to one replacement character.
  */
  lemma {:induction false} RepairReplacesRuns(good: seq<byte>, bad: seq<byte>, rest: seq<byte>)
    requires Valid(good) && IsBadRun(bad, rest)
    ensures ToValid(good + bad + rest, false) == good + REPLACEMENT + ToValid(rest, false)
    decreases |good|
  {
    hide RuneLen, ToValid, IsBadRun;
    var repaired := ToValid(rest, false);
    if good == [] {
      FirstBad(bad, rest);
      CutAndJoined(good, 0, bad, rest);
      CutAndJoined(good, 0, REPLACEMENT, repaired);
      assert [] + (bad + rest) == bad + rest && [] + (REPLACEMENT + repaired) == REPLACEMENT + repaired;
    } else {
      var n := RuneLen(good);
      CutAndJoined(good, n, bad, rest);
      RuneLenPrefix(good, bad + rest);
      FirstGood(good + bad + rest, n);
      RepairReplacesRuns(good[n..], bad, rest);
      CutAndJoined(good, n, REPLACEMENT, repaired);
    }
  }
}
