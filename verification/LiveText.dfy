/** Bounding and splitting of live text for session events. */
module LiveText {
  import opened Utf8

  const MAX_DELTA := 64 * 1024
  const MAX_TOOL_TEXT := 64 * 1024

  /** U+2026, the horizontal ellipsis. */
  const ELLIPSIS: seq<byte> := [0xE2, 0x80, 0xA6]

  function Flatten(chunks: seq<seq<byte>>): seq<byte> {
    if chunks == [] then [] else Flatten(chunks[..|chunks| - 1]) + chunks[|chunks| - 1]
  }

  lemma FlattenAppend(chunks: seq<seq<byte>>, c: seq<byte>)
    ensures Flatten(chunks + [c]) == Flatten(chunks) + c
  {
    assert (chunks + [c])[..|chunks|] == chunks;
  }

  /** The longest valid prefix of at most `limit` bytes, found by backing off from `limit`. */
  method BackOff(text: seq<byte>, limit: nat) returns (k: nat)
    requires Valid(text) && limit <= |text|
    ensures k <= limit <= k + 3 && Valid(text[..k])
    ensures forall j :: k < j <= limit ==> !Valid(text[..j])
  {
    ghost var b := BoundaryNear(text, limit);
    k := limit;
    while k > 0 && !Valid(text[..k])
      invariant b <= k <= limit
      invariant forall j :: k < j <= limit ==> !Valid(text[..j])
    {
      k := k - 1;
    }
  }

  /** A chunk an observer may receive: non-empty, whole characters, within the event limit. */
  predicate GoodChunk(c: seq<byte>) {
    0 < |c| <= 64 * 1024 && Valid(c)
  }

  /** What the loop keeps: good, nearly full chunks so far, and the valid text still to cut. */
  ghost predicate Splitting(chunks: seq<seq<byte>>, text: seq<byte>, whole: seq<byte>) {
    && Valid(text)
    && Flatten(chunks) + text == whole
    && (forall c :: c in chunks ==> GoodChunk(c))
    && (forall i :: 0 <= i < |chunks| && (i < |chunks| - 1 || text != []) ==> MAX_DELTA - 3 <= |chunks[i]|)
  }

  /** Cutting one valid prefix from the text keeps it. */
  lemma CutKeeps(chunks: seq<seq<byte>>, text: seq<byte>, k: nat, whole: seq<byte>)
    requires Splitting(chunks, text, whole) && k <= |text| && GoodChunk(text[..k])
    requires k == |text| || MAX_DELTA - 3 <= k
    requires text != []
    ensures Splitting(chunks + [text[..k]], text[k..], whole)
  {
    FlattenAppend(chunks, text[..k]);
    assert text == text[..k] + text[k..];
    ValidSuffix(text, k);
  }

  /**
  Splits text into event-sized chunks.  The chunks are good and concatenate to
  the repaired text, and every chunk but the last comes within three bytes of
  the limit, so no more events are sent than necessary.
  */
  method SplitLiveText(input: seq<byte>) returns (chunks: seq<seq<byte>>)
    ensures Flatten(chunks) == ToValid(input, false)
    ensures Valid(input) ==> Flatten(chunks) == input
    ensures forall c :: c in chunks ==> GoodChunk(c)
    ensures forall i :: 0 <= i < |chunks| - 1 ==> 64 * 1024 - 3 <= |chunks[i]|
  {
    hide ToValid;
    if input == [] {
      return [];
    }
    var text := input;
    if !Valid(text) {
      text := ToValid(text, false);
    }
    ghost var whole := text;
    if |text| <= MAX_DELTA {
      FlattenAppend([], text);
      return [text];
    }
    chunks := [];
    while |text| > 0
      invariant Splitting(chunks, text, whole)
      decreases |text|
    {
      var limit := BackOff(text, if |text| < MAX_DELTA then |text| else MAX_DELTA);
      assert text[..|text|] == text;
      CutKeeps(chunks, text, limit, whole);
      chunks := chunks + [text[..limit]];
      text := text[limit..];
    }
  }

  /** Bounds one tool text: whole characters, at most the limit, an ellipsis exactly when cut. */
  method BoundedLiveToolText(input: seq<byte>) returns (text: seq<byte>, cut: bool)
    ensures Valid(text) && |text| <= MAX_TOOL_TEXT
    ensures cut <==> |ToValid(input, false)| > 64 * 1024
    ensures !cut ==> text == ToValid(input, false)
    ensures cut ==> exists k :: MAX_TOOL_TEXT - 6 <= k <= MAX_TOOL_TEXT - 3 && text == ToValid(input, false)[..k] + ELLIPSIS
  {
    text := input;
    if !Valid(text) {
      text := ToValid(text, false);
    }
    if |text| <= MAX_TOOL_TEXT {
      return text, false;
    }
    var limit := BackOff(text, MAX_TOOL_TEXT - |ELLIPSIS|);
    ValidConcat(text[..limit], ELLIPSIS);
    return text[..limit] + ELLIPSIS, true;
  }
}
