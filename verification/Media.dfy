/**
Media in transcripts: moving it out of tool results for providers that take it
only from users, and replacing it by text for models that take none.
*/
module Media {
  import opened Common
  import opened Transcript
  import opened TextOps

  // ------------------------------------------- media moved into a user message

  const LOADED := "[Image/media content loaded - see attached file]"

  const INTRODUCTION := "Here is the media content from the tool result:"

  type Decoder = string -> Option<string>

  /** A tool result whose media can be handed over as a file. */
  predicate Moves(decode: Decoder, p: Part) {
    p.Result? && p.output.MediaOutput? && decode(p.output.data).Some?
  }

  function FileOf(decode: Decoder, p: Part): Part
    requires Moves(decode, p)
  {
    File("tool-result-" + p.id.text, p.output.mime, decode(p.output.data).value)
  }

  function ConvertPart(decode: Decoder, p: Part): Part {
    if Moves(decode, p) then Result(p.id, TextOutput(LOADED), false) else p
  }

  function ConvertParts(decode: Decoder, parts: seq<Part>): seq<Part> {
    seq(|parts|, i requires 0 <= i < |parts| => ConvertPart(decode, parts[i]))
  }

  function MovedFiles(decode: Decoder, parts: seq<Part>): seq<Part> {
    if parts == [] then [] else
    var p := parts[|parts| - 1];
    MovedFiles(decode, parts[..|parts| - 1]) + (if Moves(decode, p) then [FileOf(decode, p)] else [])
  }

  function UserTurn(files: seq<Part>): Message {
    Message(User, [Text(INTRODUCTION)] + files, None)
  }

  function ConvertMessage(decode: Decoder, m: Message): seq<Message> {
    if !m.role.Tool? then [m] else
    var files := MovedFiles(decode, m.parts);
    [Message(Tool, ConvertParts(decode, m.parts), None)] + (if files == [] then [] else [UserTurn(files)])
  }

  function Converted(decode: Decoder, msgs: seq<Message>): seq<Message> {
    if msgs == [] then [] else
    Converted(decode, msgs[..|msgs| - 1]) + ConvertMessage(decode, msgs[|msgs| - 1])
  }

  method SplitToolTurn(decode: Decoder, parts: seq<Part>) returns (textParts: seq<Part>, mediaFiles: seq<Part>)
    ensures textParts == ConvertParts(decode, parts) && mediaFiles == MovedFiles(decode, parts)
  {
    textParts, mediaFiles := [], [];
    for k := 0 to |parts|
      invariant textParts == ConvertParts(decode, parts[..k])
      invariant mediaFiles == MovedFiles(decode, parts[..k])
    {
      assert parts[..k + 1][..k] == parts[..k];
      var part := parts[k];
      if part.Result? && part.output.MediaOutput? {
        var decoded := decode(part.output.data);
        if decoded.None? {
          textParts := textParts + [part];
          continue;
        }
        mediaFiles := mediaFiles + [File("tool-result-" + part.id.text, part.output.mime, decoded.value)];
        textParts := textParts + [Result(part.id, TextOutput(LOADED), false)];
      } else {
        textParts := textParts + [part];
      }
    }
    assert parts[..|parts|] == parts;
  }

  method WorkaroundProviderMediaLimitations(messages: seq<Message>, providerSupportsMedia: bool, decode: Decoder)
    returns (converted: seq<Message>)
    ensures converted == if providerSupportsMedia then messages else Converted(decode, messages)
  {
    if providerSupportsMedia {
      return messages;
    }
    converted := [];
    for i := 0 to |messages|
      invariant converted == Converted(decode, messages[..i])
    {
      assert messages[..i + 1][..i] == messages[..i];
      var msg := messages[i];
      if msg.role != Tool {
        converted := converted + [msg];
        continue;
      }
      var textParts, mediaFiles := SplitToolTurn(decode, msg.parts);
      converted := converted + [Message(Tool, textParts, None)];
      if |mediaFiles| > 0 {
        converted := converted + [Message(User, [Text(INTRODUCTION)] + mediaFiles, None)];
      }
    }
    assert messages[..|messages|] == messages;
  }

  // -------------------------------------------------- media replaced by text

  const UNSUPPORTED := "[Image/media content not supported by current model]"

  /** Whether a helper can describe images, and how a placeholder refers to one. */
  datatype Vision = NoVision | Vision(reference: (Message, nat) -> string)

  function Placeholder(vision: Vision, m: Message, p: Part, imageIndex: nat): string
    requires p.File?
  {
    var name := if p.name == "" then "image" else p.name;
    var start := "[Image attachment: " + name + " (" + p.mime + "). ";
    if vision.NoVision? then start + "The current model does not support images and no vision helper is configured.]"
    else if HasPrefix(p.mime, "image/") then
      start + "Use the describe_image tool" + vision.reference(m, imageIndex) + " if you need a description.]"
    else start + "Use the describe_image tool if you need a description.]"
  }

  /** A placeholder names its file and its type. */
  lemma PlaceholderNames(vision: Vision, m: Message, p: Part, imageIndex: nat)
    requires p.File?
    ensures HasPrefix(Placeholder(vision, m, p, imageIndex),
                      "[Image attachment: " + (if p.name == "" then "image" else p.name) + " (" + p.mime + "). ")
  {
  }

  /** Where images can be described, the placeholder of one refers to it by its number. */
  lemma PlaceholderRefers(vision: Vision, m: Message, p: Part, imageIndex: nat) returns (before: string, after: string)
    requires p.File? && vision.Vision? && HasPrefix(p.mime, "image/")
    ensures Placeholder(vision, m, p, imageIndex) == before + vision.reference(m, imageIndex) + after
  {
    var name := if p.name == "" then "image" else p.name;
    before := "[Image attachment: " + name + " (" + p.mime + "). " + "Use the describe_image tool";
    after := " if you need a description.]";
  }

  function ImageCount(parts: seq<Part>): nat {
    if parts == [] then 0 else
    var p := parts[|parts| - 1];
    ImageCount(parts[..|parts| - 1]) + (if p.File? && HasPrefix(p.mime, "image/") then 1 else 0)
  }

  /** The user parts `parts` of `m`, images numbered from one. */
  function DescribeFiles(vision: Vision, m: Message, parts: seq<Part>): seq<Part> {
    if parts == [] then [] else
    var p := parts[|parts| - 1];
    DescribeFiles(vision, m, parts[..|parts| - 1])
    + [if p.File? then Text(Placeholder(vision, m, p, ImageCount(parts))) else p]
  }

  function WithoutMedia(p: Part): Part {
    if p.Result? && p.output.MediaOutput? then Result(p.id, TextOutput(UNSUPPORTED), p.providerExecuted) else p
  }

  function DropMedia(parts: seq<Part>): seq<Part> {
    seq(|parts|, i requires 0 <= i < |parts| => WithoutMedia(parts[i]))
  }

  function StripMessage(vision: Vision, m: Message): seq<Message> {
    match m.role
    case User => if m.parts == [] then [] else [m.(parts := DescribeFiles(vision, m, m.parts))]
    case Tool => [m.(parts := DropMedia(m.parts))]
    case _ => [m]
  }

  function ImagesStripped(vision: Vision, msgs: seq<Message>): seq<Message> {
    if msgs == [] then [] else
    ImagesStripped(vision, msgs[..|msgs| - 1]) + StripMessage(vision, msgs[|msgs| - 1])
  }

  method DescribeUserFiles(vision: Vision, msg: Message) returns (filtered: seq<Part>)
    ensures filtered == DescribeFiles(vision, msg, msg.parts) && |filtered| == |msg.parts|
  {
    hide Placeholder;
    filtered := [];
    var imageIndex := 0;
    for k := 0 to |msg.parts|
      invariant |filtered| == k && filtered == DescribeFiles(vision, msg, msg.parts[..k])
      invariant imageIndex == ImageCount(msg.parts[..k])
    {
      assert msg.parts[..k + 1][..k] == msg.parts[..k];
      var part := msg.parts[k];
      if !part.File? {
        filtered := filtered + [part];
        continue;
      }
      if HasPrefix(part.mime, "image/") {
        imageIndex := imageIndex + 1;
      }
      filtered := filtered + [Text(Placeholder(vision, msg, part, imageIndex))];
    }
    assert msg.parts[..|msg.parts|] == msg.parts;
  }

  method DropToolMedia(parts: seq<Part>) returns (filtered: seq<Part>)
    ensures filtered == DropMedia(parts)
  {
    filtered := [];
    for k := 0 to |parts|
      invariant |filtered| == k && forall j :: 0 <= j < k ==> filtered[j] == WithoutMedia(parts[j])
    {
      var tr := parts[k];
      if !tr.Result? {
        filtered := filtered + [tr];
        continue;
      }
      if tr.output.MediaOutput? {
        tr := tr.(output := TextOutput(UNSUPPORTED));
      }
      filtered := filtered + [tr];
    }
  }

  method StripImageParts(messages: seq<Message>, vision: Vision) returns (result: seq<Message>)
    ensures result == ImagesStripped(vision, messages)
  {
    result := [];
    for i := 0 to |messages|
      invariant result == ImagesStripped(vision, messages[..i])
    {
      assert messages[..i + 1][..i] == messages[..i];
      var msg := messages[i];
      match msg.role {
        case User =>
          var filtered := DescribeUserFiles(vision, msg);
          if |filtered| == 0 {
            continue;
          }
          result := result + [msg.(parts := filtered)];
        case Tool =>
          var filtered := DropToolMedia(msg.parts);
          result := result + [msg.(parts := filtered)];
        case _ =>
          result := result + [msg];
      }
    }
    assert messages[..|messages|] == messages;
  }

  // ------------------------------------------------------------------ pairing

  lemma {:induction false} ConvertedResultIds(decode: Decoder, parts: seq<Part>)
    ensures ResultIds(ConvertParts(decode, parts)) == ResultIds(parts)
  {
    if parts != [] {
      var front, p := parts[..|parts| - 1], parts[|parts| - 1];
      ConvertedResultIds(decode, front);
      assert ConvertParts(decode, parts) == ConvertParts(decode, front) + [ConvertPart(decode, p)];
      ResultIdsAppend(ConvertParts(decode, front), ConvertPart(decode, p));
    }
  }

  lemma {:induction false} DropMediaResultIds(parts: seq<Part>)
    ensures ResultIds(DropMedia(parts)) == ResultIds(parts)
  {
    if parts != [] {
      var front, p := parts[..|parts| - 1], parts[|parts| - 1];
      DropMediaResultIds(front);
      assert DropMedia(parts) == DropMedia(front) + [WithoutMedia(p)];
      ResultIdsAppend(DropMedia(front), WithoutMedia(p));
    }
  }

  /** What may stand in the place of `m`: a turn that opens and answers the same calls, and user turns around it. */
  ghost predicate Replaces(scope: Scope, m: Message, into: seq<Message>) {
    || (into == [] && m.role.User?)
    || (|into| >= 1 && SameCalls(scope, m, into[0]) && (|into| == 1 || (m.role.Tool? && |into| == 2 && into[1].role.User?)))
  }

  ghost predicate SameCalls(scope: Scope, m: Message, n: Message) {
    && n.role == m.role
    && (m.role.Tool? ==> ResultIds(n.parts) == ResultIds(m.parts))
    && (m.role.Assistant? ==> CallIds(scope, n.parts) == CallIds(scope, m.parts))
  }

  /** Replacing the next message keeps the contract so far. */
  lemma ReplaceKeepsPairing(scope: Scope, msgs: seq<Message>, m: Message, out: seq<Message>, into: seq<Message>)
    requires OpenPaired(scope, msgs + [m]) && Replaces(scope, m, into)
    requires OpenPaired(scope, out) && Pending(scope, out) == Pending(scope, msgs)
    ensures OpenPaired(scope, out + into) && Pending(scope, out + into) == Pending(scope, msgs + [m])
  {
    hide OpenPaired, Pending, CallIds, ResultIds;
    PairedAppend(scope, msgs, m);
    if into == [] {
      assert out + into == out;
    } else {
      PairedAppend(scope, out, into[0]);
      if |into| == 1 {
        assert into == [into[0]];
      } else {
        PairedAppend(scope, out + [into[0]], into[1]);
        assert out + into == out + [into[0]] + [into[1]];
      }
    }
  }

  lemma ConvertReplaces(scope: Scope, decode: Decoder, m: Message)
    ensures Replaces(scope, m, ConvertMessage(decode, m))
  {
    ConvertedResultIds(decode, m.parts);
  }

  lemma StripReplaces(scope: Scope, vision: Vision, m: Message)
    ensures Replaces(scope, m, StripMessage(vision, m))
  {
    DropMediaResultIds(m.parts);
  }

  function Front(msgs: seq<Message>): (front: seq<Message>)
    requires msgs != []
    ensures |front| < |msgs|
  {
    msgs[..|msgs| - 1]
  }

  lemma FrontOpenPaired(scope: Scope, msgs: seq<Message>)
    requires msgs != [] && OpenPaired(scope, msgs)
    ensures OpenPaired(scope, Front(msgs))
  {
    PrefixOpenPaired(scope, msgs, |msgs| - 1);
  }

  lemma ConvertedStep(scope: Scope, decode: Decoder, msgs: seq<Message>)
    requires msgs != [] && OpenPaired(scope, msgs)
    requires OpenPaired(scope, Converted(decode, Front(msgs)))
    requires Pending(scope, Converted(decode, Front(msgs))) == Pending(scope, Front(msgs))
    ensures OpenPaired(scope, Converted(decode, msgs)) && Pending(scope, Converted(decode, msgs)) == Pending(scope, msgs)
  {
    hide ConvertMessage, Replaces, OpenPaired, Pending, CallIds, Follows;
    var front, m := Front(msgs), msgs[|msgs| - 1];
    assert msgs == front + [m];
    ConvertReplaces(scope, decode, m);
    ReplaceKeepsPairing(scope, front, m, Converted(decode, front), ConvertMessage(decode, m));
  }

  lemma {:induction false} ConvertedOpenPairing(scope: Scope, decode: Decoder, msgs: seq<Message>)
    requires OpenPaired(scope, msgs)
    ensures OpenPaired(scope, Converted(decode, msgs)) && Pending(scope, Converted(decode, msgs)) == Pending(scope, msgs)
  {
    if msgs != [] {
      hide Converted, OpenPaired, Pending, Front;
      FrontOpenPaired(scope, msgs);
      ConvertedOpenPairing(scope, decode, Front(msgs));
      ConvertedStep(scope, decode, msgs);
    }
  }

  lemma StrippedStep(scope: Scope, vision: Vision, msgs: seq<Message>)
    requires msgs != [] && OpenPaired(scope, msgs)
    requires OpenPaired(scope, ImagesStripped(vision, Front(msgs)))
    requires Pending(scope, ImagesStripped(vision, Front(msgs))) == Pending(scope, Front(msgs))
    ensures OpenPaired(scope, ImagesStripped(vision, msgs)) && Pending(scope, ImagesStripped(vision, msgs)) == Pending(scope, msgs)
  {
    hide StripMessage, Replaces, OpenPaired, Pending, CallIds, Follows;
    var front, m := Front(msgs), msgs[|msgs| - 1];
    assert msgs == front + [m];
    StripReplaces(scope, vision, m);
    ReplaceKeepsPairing(scope, front, m, ImagesStripped(vision, front), StripMessage(vision, m));
  }

  lemma {:induction false} StrippedOpenPairing(scope: Scope, vision: Vision, msgs: seq<Message>)
    requires OpenPaired(scope, msgs)
    ensures OpenPaired(scope, ImagesStripped(vision, msgs)) && Pending(scope, ImagesStripped(vision, msgs)) == Pending(scope, msgs)
  {
    if msgs != [] {
      hide ImagesStripped, OpenPaired, Pending, Front;
      FrontOpenPaired(scope, msgs);
      StrippedOpenPairing(scope, vision, Front(msgs));
      StrippedStep(scope, vision, msgs);
    }
  }

  /** Moving media into user messages keeps the pairing contract. */
  lemma ConvertedKeepsPairing(scope: Scope, decode: Decoder, msgs: seq<Message>)
    requires WellPaired(scope, msgs)
    ensures WellPaired(scope, Converted(decode, msgs))
  {
    ConvertedOpenPairing(scope, decode, msgs);
  }

  /** So does replacing it by text. */
  lemma ImagesStrippedKeepsPairing(scope: Scope, vision: Vision, msgs: seq<Message>)
    requires WellPaired(scope, msgs)
    ensures WellPaired(scope, ImagesStripped(vision, msgs))
  {
    StrippedOpenPairing(scope, vision, msgs);
  }

  // ------------------------------------------------------------ what is moved

  /** How often a part shows the model the content `data` of type `mime`. */
  function PartShows(decode: Decoder, p: Part, mime: string, data: string): nat {
    match p
    case File(_, t, d) => if t == mime && d == data then 1 else 0
    case Result(_, MediaOutput(d, t), _) => if t == mime && decode(d) == Some(data) then 1 else 0
    case _ => 0
  }

  function PartsShow(decode: Decoder, parts: seq<Part>, mime: string, data: string): nat {
    if parts == [] then 0 else
    PartsShow(decode, parts[..|parts| - 1], mime, data) + PartShows(decode, parts[|parts| - 1], mime, data)
  }

  function Shows(decode: Decoder, msgs: seq<Message>, mime: string, data: string): nat {
    if msgs == [] then 0 else
    Shows(decode, msgs[..|msgs| - 1], mime, data) + PartsShow(decode, msgs[|msgs| - 1].parts, mime, data)
  }

  lemma PartsShowAppend(decode: Decoder, parts: seq<Part>, p: Part, mime: string, data: string)
    ensures PartsShow(decode, parts + [p], mime, data)
         == PartsShow(decode, parts, mime, data) + PartShows(decode, p, mime, data)
  {
    assert (parts + [p])[..|parts|] == parts;
  }

  lemma ShowsAppend(decode: Decoder, msgs: seq<Message>, m: Message, mime: string, data: string)
    ensures Shows(decode, msgs + [m], mime, data)
         == Shows(decode, msgs, mime, data) + PartsShow(decode, m.parts, mime, data)
  {
    assert (msgs + [m])[..|msgs|] == msgs;
  }

  lemma {:induction false} IntroducedShow(decode: Decoder, files: seq<Part>, mime: string, data: string)
    ensures PartsShow(decode, [Text(INTRODUCTION)] + files, mime, data) == PartsShow(decode, files, mime, data)
  {
    if files == [] {
      PartsShowAppend(decode, [], Text(INTRODUCTION), mime, data);
      assert [Text(INTRODUCTION)] + files == [] + [Text(INTRODUCTION)];
    } else {
      var front, p := files[..|files| - 1], files[|files| - 1];
      IntroducedShow(decode, front, mime, data);
      PartsShowAppend(decode, [Text(INTRODUCTION)] + front, p, mime, data);
      assert [Text(INTRODUCTION)] + files == [Text(INTRODUCTION)] + front + [p];
    }
  }

  /** One converted part and the file taken from it show what the part showed. */
  lemma MovedPartShows(decode: Decoder, p: Part, mime: string, data: string)
    ensures PartShows(decode, ConvertPart(decode, p), mime, data)
            + (if Moves(decode, p) then PartShows(decode, FileOf(decode, p), mime, data) else 0)
         == PartShows(decode, p, mime, data)
  {
  }

  lemma {:induction false} TurnShows(decode: Decoder, parts: seq<Part>, mime: string, data: string)
    ensures PartsShow(decode, ConvertParts(decode, parts), mime, data)
            + PartsShow(decode, MovedFiles(decode, parts), mime, data)
         == PartsShow(decode, parts, mime, data)
  {
    if parts != [] {
      var front, p := parts[..|parts| - 1], parts[|parts| - 1];
      TurnShows(decode, front, mime, data);
      hide PartShows;
      MovedPartShows(decode, p, mime, data);
      assert ConvertParts(decode, parts) == ConvertParts(decode, front) + [ConvertPart(decode, p)];
      PartsShowAppend(decode, ConvertParts(decode, front), ConvertPart(decode, p), mime, data);
      if Moves(decode, p) {
        PartsShowAppend(decode, MovedFiles(decode, front), FileOf(decode, p), mime, data);
      } else {
        assert MovedFiles(decode, front) + [] == MovedFiles(decode, front);
      }
    }
  }

  lemma MessageShows(decode: Decoder, out: seq<Message>, m: Message, mime: string, data: string)
    ensures Shows(decode, out + ConvertMessage(decode, m), mime, data)
         == Shows(decode, out, mime, data) + PartsShow(decode, m.parts, mime, data)
  {
    if m.role.Tool? {
      var files := MovedFiles(decode, m.parts);
      var turn := Message(Tool, ConvertParts(decode, m.parts), None);
      TurnShows(decode, m.parts, mime, data);
      ShowsAppend(decode, out, turn, mime, data);
      if files == [] {
        assert ConvertMessage(decode, m) == [turn];
      } else {
        IntroducedShow(decode, files, mime, data);
        ShowsAppend(decode, out + [turn], UserTurn(files), mime, data);
        assert out + ConvertMessage(decode, m) == out + [turn] + [UserTurn(files)];
      }
    } else {
      ShowsAppend(decode, out, m, mime, data);
    }
  }

  /** Moving loses no media and invents none: each content is shown as often as before. */
  lemma {:induction false} ConvertedShowsTheSame(decode: Decoder, msgs: seq<Message>, mime: string, data: string)
    ensures Shows(decode, Converted(decode, msgs), mime, data) == Shows(decode, msgs, mime, data)
  {
    if msgs != [] {
      ConvertedShowsTheSame(decode, msgs[..|msgs| - 1], mime, data);
      MessageShows(decode, Converted(decode, msgs[..|msgs| - 1]), msgs[|msgs| - 1], mime, data);
    }
  }

  /** A tool turn that carries only text, or media that cannot be decoded. */
  ghost predicate Moved(decode: Decoder, m: Message) {
    m.role.Tool? ==> forall p :: p in m.parts ==> !Moves(decode, p)
  }

  /** No tool turn keeps media that could be moved. */
  lemma {:induction false} ConvertedIsMoved(decode: Decoder, msgs: seq<Message>)
    ensures forall m :: m in Converted(decode, msgs) ==> Moved(decode, m)
  {
    if msgs != [] {
      ConvertedIsMoved(decode, msgs[..|msgs| - 1]);
      var m := msgs[|msgs| - 1];
      assert Moved(decode, ConvertMessage(decode, m)[0]);
    }
  }

  // --------------------------------------------------------- what is replaced

  /** A message a model without image support can take. */
  ghost predicate ImageFree(m: Message) {
    && (m.role.User? ==> m.parts != [] && forall p :: p in m.parts ==> !p.File?)
    && (m.role.Tool? ==> forall p :: p in m.parts ==> !(p.Result? && p.output.MediaOutput?))
  }

  lemma {:induction false} DescribedFiles(vision: Vision, m: Message, parts: seq<Part>)
    ensures |DescribeFiles(vision, m, parts)| == |parts|
    ensures forall i :: 0 <= i < |parts| ==>
      DescribeFiles(vision, m, parts)[i]
        == if parts[i].File? then Text(Placeholder(vision, m, parts[i], ImageCount(parts[..i + 1]))) else parts[i]
  {
    if parts != [] {
      var front := parts[..|parts| - 1];
      DescribedFiles(vision, m, front);
      forall i | 0 <= i < |parts|
        ensures DescribeFiles(vision, m, parts)[i]
             == if parts[i].File? then Text(Placeholder(vision, m, parts[i], ImageCount(parts[..i + 1]))) else parts[i]
      {
        if i < |front| {
          assert front[..i + 1] == parts[..i + 1];
        } else {
          assert parts[..i + 1] == parts;
        }
      }
    }
  }

  lemma StripMessageImageFree(vision: Vision, m: Message)
    ensures forall n :: n in StripMessage(vision, m) ==> ImageFree(n)
    ensures ImageFree(m) ==> StripMessage(vision, m) == [m]
  {
    hide Placeholder, ImageCount;
    if m.role.User? {
      DescribedFiles(vision, m, m.parts);
      if ImageFree(m) {
        assert DescribeFiles(vision, m, m.parts) == m.parts;
      }
    } else if m.role.Tool? && ImageFree(m) {
      assert DropMedia(m.parts) == m.parts;
    }
  }

  /** No image reaches the model, and stripping twice changes nothing more. */
  lemma {:induction false} StrippedIsImageFree(vision: Vision, msgs: seq<Message>)
    ensures forall m :: m in ImagesStripped(vision, msgs) ==> ImageFree(m)
  {
    if msgs != [] {
      hide StripMessage, ImageFree;
      StrippedIsImageFree(vision, msgs[..|msgs| - 1]);
      StripMessageImageFree(vision, msgs[|msgs| - 1]);
    }
  }

  lemma {:induction false} ImageFreeUnchanged(vision: Vision, msgs: seq<Message>)
    requires forall m :: m in msgs ==> ImageFree(m)
    ensures ImagesStripped(vision, msgs) == msgs
  {
    if msgs != [] {
      hide StripMessage, ImageFree;
      ImageFreeUnchanged(vision, msgs[..|msgs| - 1]);
      StripMessageImageFree(vision, msgs[|msgs| - 1]);
      assert msgs[|msgs| - 1] in msgs;
      assert msgs == msgs[..|msgs| - 1] + [msgs[|msgs| - 1]];
    }
  }

  lemma StripIdempotent(vision: Vision, msgs: seq<Message>)
    ensures ImagesStripped(vision, ImagesStripped(vision, msgs)) == ImagesStripped(vision, msgs)
  {
    StrippedIsImageFree(vision, msgs);
    ImageFreeUnchanged(vision, ImagesStripped(vision, msgs));
  }

  // -------------------------------------------------------- message by message

  lemma {:induction false} ConvertedApart(decode: Decoder, a: seq<Message>, b: seq<Message>)
    ensures Converted(decode, a + b) == Converted(decode, a) + Converted(decode, b)
    decreases |b|
  {
    hide ConvertMessage;
    if b == [] {
      assert a + b == a;
    } else {
      assert (a + b)[..|a + b| - 1] == a + b[..|b| - 1];
      ConvertedApart(decode, a, b[..|b| - 1]);
    }
  }

  /** What becomes of one result, by its output: media that can be decoded gives way to a notice. */
  predicate Answers(decode: Decoder, p: Part, q: Part) {
    if p.Result? && p.output.MediaOutput? && decode(p.output.data).Some? then
      q.Result? && q.id == p.id && q.output == TextOutput("[Image/media content loaded - see attached file]")
    else q == p
  }

  lemma {:induction false} MovedReads(decode: Decoder, a: seq<Part>, p: Part, b: seq<Part>)
    ensures MovedFiles(decode, a + [p] + b)
         == MovedFiles(decode, a)
            + (if p.Result? && p.output.MediaOutput? && decode(p.output.data).Some?
               then [File("tool-result-" + p.id.text, p.output.mime, decode(p.output.data).value)] else [])
            + MovedFiles(decode, b)
    decreases |b|
  {
    var all := a + [p] + b;
    if b == [] {
      assert all[..|all| - 1] == a && all[|all| - 1] == p;
    } else {
      assert all[..|all| - 1] == a + [p] + b[..|b| - 1] && all[|all| - 1] == b[|b| - 1];
      MovedReads(decode, a, p, b[..|b| - 1]);
    }
  }

  /**
  Message by message: everything but tool turns stays as it is; a tool turn
  keeps its results in their places, with a notice for media that is moved, and
  one user turn with the moved files, in order, stands directly behind it if
  there are any.
  */
  lemma MovedTurn(decode: Decoder, m: Message)
    ensures Converted(decode, []) == []
    ensures var r, files := Converted(decode, [m]), MovedFiles(decode, m.parts);
            if m.role.Tool? then
              && |r| == (if files == [] then 1 else 2)
              && r[0].role.Tool? && |r[0].parts| == |m.parts|
              && (forall k :: 0 <= k < |m.parts| ==> Answers(decode, m.parts[k], r[0].parts[k]))
              && (files != [] ==> r[1].role.User? && r[1].parts == [Text("Here is the media content from the tool result:")] + files)
            else r == [m]
  {
    hide MovedFiles;
    assert [m][..0] == [];
    assert Converted(decode, [m]) == ConvertMessage(decode, m);
  }

  /** Only images are counted, each once. */
  lemma {:induction false} ImagesCounted(a: seq<Part>, p: Part, b: seq<Part>)
    ensures ImageCount(a + [p] + b) == ImageCount(a) + (if p.File? && HasPrefix(p.mime, "image/") then 1 else 0) + ImageCount(b)
    ensures ImageCount([]) == 0
    decreases |b|
  {
    hide HasPrefix;
    var all := a + [p] + b;
    if b == [] {
      assert all[..|all| - 1] == a && all[|all| - 1] == p;
    } else {
      assert all[..|all| - 1] == a + [p] + b[..|b| - 1] && all[|all| - 1] == b[|b| - 1];
      ImagesCounted(a, p, b[..|b| - 1]);
    }
  }

  lemma {:induction false} StrippedApart(vision: Vision, a: seq<Message>, b: seq<Message>)
    ensures ImagesStripped(vision, a + b) == ImagesStripped(vision, a) + ImagesStripped(vision, b)
    decreases |b|
  {
    hide StripMessage;
    if b == [] {
      assert a + b == a;
    } else {
      assert (a + b)[..|a + b| - 1] == a + b[..|b| - 1];
      StrippedApart(vision, a, b[..|b| - 1]);
    }
  }

  lemma UserDescribed(vision: Vision, m: Message, k: nat)
    requires m.role.User? && k < |m.parts|
    ensures StripMessage(vision, m) == [m.(parts := DescribeFiles(vision, m, m.parts))]
    ensures |DescribeFiles(vision, m, m.parts)| == |m.parts|
    ensures DescribeFiles(vision, m, m.parts)[k]
         == if m.parts[k].File? then Text(Placeholder(vision, m, m.parts[k], ImageCount(m.parts[..k + 1]))) else m.parts[k]
  {
    hide Placeholder, ImageCount, DescribeFiles;
    DescribedFiles(vision, m, m.parts);
  }

  /** What stands in the place of one part of `m`. */
  predicate Replaced(vision: Vision, m: Message, k: nat, q: Part)
    requires k < |m.parts|
  {
    var p := m.parts[k];
    if m.role.User? && p.File? then q == Text(Placeholder(vision, m, p, ImageCount(m.parts[..k + 1])))
    else if m.role.Tool? && p.Result? && p.output.MediaOutput? then
      q == p.(output := TextOutput("[Image/media content not supported by current model]"))
    else q == p
  }

  /**
  Message by message: a user message keeps its parts in their places, each file
  replaced by its placeholder with the images counted from one, and goes only
  if it has no parts; a tool turn keeps its results, media replaced by a notice;
  the others stay as they are.
  */
  lemma StrippedTurn(vision: Vision, m: Message)
    ensures ImagesStripped(vision, []) == []
    ensures var r := ImagesStripped(vision, [m]);
            if m.role.User? && m.parts == [] then r == []
            else
              && |r| == 1 && r[0] == m.(parts := r[0].parts) && |r[0].parts| == |m.parts|
              && forall k :: 0 <= k < |m.parts| ==> Replaced(vision, m, k, r[0].parts[k])
  {
    hide Placeholder, ImageCount, DescribeFiles;
    assert [m][..0] == [];
    assert ImagesStripped(vision, [m]) == StripMessage(vision, m);
    if m.role.User? && m.parts != [] {
      UserDescribed(vision, m, 0);
      forall k | 0 <= k < |m.parts| ensures Replaced(vision, m, k, DescribeFiles(vision, m, m.parts)[k]) {
        UserDescribed(vision, m, k);
      }
    }
  }
}
