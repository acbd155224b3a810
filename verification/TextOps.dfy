/** Text helpers the models share. */
module TextOps {

  /** White space as Unicode defines it for trimming. */
  predicate IsSpace(c: char) {
    || '\U{09}' <= c <= '\U{0D}' || c == ' ' || c == '\U{85}' || c == '\U{A0}' || c == '\U{1680}'
    || '\U{2000}' <= c <= '\U{200A}' || c == '\U{2028}' || c == '\U{2029}' || c == '\U{202F}'
    || c == '\U{205F}' || c == '\U{3000}'
  }

  function TrimLeft(s: string): (r: string)
    ensures |r| <= |s|
    ensures r != "" ==> !IsSpace(r[0])
  {
    if s != "" && IsSpace(s[0]) then TrimLeft(s[1..]) else s
  }

  function TrimRight(s: string): (r: string)
    ensures |r| <= |s| && r == s[..|r|]
    ensures r != "" ==> !IsSpace(r[|r| - 1])
  {
    if s != "" && IsSpace(s[|s| - 1]) then TrimRight(s[..|s| - 1]) else s
  }

  function Trim(s: string): (r: string)
    ensures |r| <= |s|
    ensures r != "" ==> !IsSpace(r[0]) && !IsSpace(r[|r| - 1])
  {
    TrimRight(TrimLeft(s))
  }

  /** A text without white space at its ends is left alone. */
  lemma TrimTrimmed(s: string)
    requires s != "" ==> !IsSpace(s[0]) && !IsSpace(s[|s| - 1])
    ensures Trim(s) == s
  {
  }

  predicate HasPrefix(s: string, p: string) {
    p <= s
  }

  predicate AllSpace(s: string) {
    forall i :: 0 <= i < |s| ==> IsSpace(s[i])
  }

  lemma {:induction false} TrimLeftRemoves(s: string)
    ensures s == s[..|s| - |TrimLeft(s)|] + TrimLeft(s) && AllSpace(s[..|s| - |TrimLeft(s)|])
  {
    if s != "" && IsSpace(s[0]) {
      TrimLeftRemoves(s[1..]);
      var n := |s| - |TrimLeft(s)|;
      assert s[..n] == [s[0]] + s[1..][..n - 1];
      assert s == [s[0]] + s[1..];
    } else {
      assert s[..0] == "";
    }
  }

  lemma {:induction false} TrimRightRemoves(s: string)
    ensures s == TrimRight(s) + s[|TrimRight(s)|..] && AllSpace(s[|TrimRight(s)|..])
  {
    if s != "" && IsSpace(s[|s| - 1]) {
      var front := s[..|s| - 1];
      TrimRightRemoves(front);
      var n := |TrimRight(s)|;
      assert s[n..] == front[n..] + [s[|s| - 1]];
    }
  }

  /** Trimming takes white space from the two ends and nothing else; what is left begins and ends without it. */
  lemma TrimRemovesSpace(s: string) returns (a: string, b: string)
    ensures s == a + Trim(s) + b && AllSpace(a) && AllSpace(b)
  {
    hide TrimLeft, TrimRight, AllSpace;
    var t := TrimLeft(s);
    TrimLeftRemoves(s);
    TrimRightRemoves(t);
    a, b := s[..|s| - |t|], t[|Trim(s)|..];
    assert a + Trim(s) + b == a + (Trim(s) + b);
  }
}
