/**
The rewriting passes in the order a step applies them, and what the provider is
sent as a result, whatever the passes before and after each other do.
*/
module PrepareStep {
  import opened Common
  import opened Transcript
  import opened Merge
  import opened Media
  import opened ToolIds

  /** What the passes depend on: the provider, the model and the request's own prompts. */
  datatype Settings = Settings(
    providerSupportsMedia: bool,
    decode: Decoder,
    supportsImages: bool,
    vision: Vision,
    prefix: string,
    suffix: string,
    anthropicStyle: bool)

  function SystemTurn(text: string): Message {
    Message(System, [Text(text)], None)
  }

  function Moving(settings: Settings, msgs: seq<Message>): seq<Message> {
    if settings.providerSupportsMedia then msgs else Converted(settings.decode, msgs)
  }

  function Describing(settings: Settings, msgs: seq<Message>): seq<Message> {
    if settings.supportsImages then msgs else ImagesStripped(settings.vision, msgs)
  }

  function Framing(settings: Settings, msgs: seq<Message>): seq<Message> {
    (if settings.prefix == "" then [] else [SystemTurn(settings.prefix)])
    + msgs
    + (if settings.suffix == "" then [] else [SystemTurn(settings.suffix)])
  }

  function Sanitizing(settings: Settings, msgs: seq<Message>): seq<Message> {
    if settings.anthropicStyle then SafeMessages(msgs) else msgs
  }

  /** `injected` holds the steering, queued and budget messages that join the running turn. */
  function Prepared(settings: Settings, msgs: seq<Message>, injected: seq<Message>): seq<Message> {
    Sanitizing(settings, Framing(settings, Describing(settings, Moving(settings, Merged(msgs + injected)))))
  }

  method PrepareMessages(settings: Settings, msgs: seq<Message>, injected: seq<Message>) returns (r: seq<Message>)
    ensures r == Prepared(settings, msgs, injected)
  {
    hide Merged, Converted, ImagesStripped, SafeMessages;
    r := MergeConsecutiveSameRole(msgs + injected);
    r := WorkaroundProviderMediaLimitations(r, settings.providerSupportsMedia, settings.decode);
    if !settings.supportsImages {
      r := StripImageParts(r, settings.vision);
    }
    assert r == Describing(settings, Moving(settings, Merged(msgs + injected)));
    ghost var bare := r;
    if settings.prefix != "" {
      r := [SystemTurn(settings.prefix)] + r;
    }
    if settings.suffix != "" {
      r := r + [SystemTurn(settings.suffix)];
    }
    assert r == Framing(settings, bare);
    if settings.anthropicStyle {
      var changed, count;
      r, changed, count := SanitizeToolCallIdsInMessages(r);
    }
  }

  // ------------------------------------------------------------------ pairing

  ghost predicate Quiet(msgs: seq<Message>) {
    forall m :: m in msgs ==> m.role.User? || m.role.System?
  }

  /** User and system messages neither open nor answer calls. */
  lemma QuietIsPaired(scope: Scope, msgs: seq<Message>)
    requires Quiet(msgs)
    ensures WellPaired(scope, msgs)
  {
    forall i | 0 <= i <= |msgs| ensures OpenAt(scope, msgs, i) == [] {
      if i > 0 {
        assert msgs[i - 1] in msgs;
      }
    }
    forall i | 0 <= i < |msgs| ensures Follows(OpenAt(scope, msgs, i), msgs[i]) {
      assert msgs[i] in msgs;
    }
  }

  lemma PairedJoin(scope: Scope, a: seq<Message>, b: seq<Message>)
    requires WellPaired(scope, a) && WellPaired(scope, b)
    ensures WellPaired(scope, a + b)
  {
    PairedConcat(scope, a, b);
  }

  lemma FramingKeepsPairing(scope: Scope, settings: Settings, msgs: seq<Message>)
    requires WellPaired(scope, msgs)
    ensures WellPaired(scope, Framing(settings, msgs))
  {
    hide WellPaired;
    var before := if settings.prefix == "" then [] else [SystemTurn(settings.prefix)];
    var after := if settings.suffix == "" then [] else [SystemTurn(settings.suffix)];
    QuietIsPaired(scope, before);
    QuietIsPaired(scope, after);
    PairedJoin(scope, before, msgs);
    PairedJoin(scope, before + msgs, after);
  }

  /**
  Whatever the provider and the model, the passes turn a well-paired transcript,
  with any messages joining it, into a well-paired one.
  */
  lemma PreparedKeepsPairing(scope: Scope, settings: Settings, msgs: seq<Message>, injected: seq<Message>)
    requires WellPaired(scope, msgs) && Quiet(injected)
    ensures WellPaired(scope, Prepared(settings, msgs, injected))
  {
    hide WellPaired, Merged, Converted, ImagesStripped, SafeMessages, Framing;
    QuietIsPaired(scope, injected);
    PairedJoin(scope, msgs, injected);
    var merged := Merged(msgs + injected);
    MergeKeepsPairing(scope, msgs + injected);
    if !settings.providerSupportsMedia {
      ConvertedKeepsPairing(scope, settings.decode, merged);
    }
    var moved := Moving(settings, merged);
    if !settings.supportsImages {
      ImagesStrippedKeepsPairing(scope, settings.vision, moved);
    }
    var described := Describing(settings, moved);
    FramingKeepsPairing(scope, settings, described);
    if settings.anthropicStyle {
      SafeMessagesKeepPairing(scope, Framing(settings, described));
    }
  }

  // --------------------------------------------------------------- acceptance

  ghost predicate SafePartIds(m: Message) {
    forall p :: p in m.parts && (p.Call? || p.Result?) ==> forall c :: c in p.id.text ==> IsSafe(c)
  }

  /** Every call and result id is in the accepted alphabet. */
  lemma SafeMessagesAreSafe(msgs: seq<Message>)
    ensures forall m :: m in SafeMessages(msgs) ==> SafePartIds(m)
  {
    forall i | 0 <= i < |msgs| ensures SafePartIds(SafeMessages(msgs)[i]) {
      var parts := msgs[i].parts;
      forall k | 0 <= k < |parts| && (parts[k].Call? || parts[k].Result?)
        ensures forall c :: c in SafeParts(parts)[k].id.text ==> IsSafe(c)
      {
        SafeIdIsSafe(parts[k].id);
      }
    }
  }

  lemma SafeKeepsImageFree(m: Message)
    requires ImageFree(m)
    ensures ImageFree(m.(parts := SafeParts(m.parts)))
  {
    forall k | 0 <= k < |m.parts|
      ensures m.role.User? ==> !SafeParts(m.parts)[k].File?
      ensures m.role.Tool? ==> !(SafeParts(m.parts)[k].Result? && SafeParts(m.parts)[k].output.MediaOutput?)
    {
      assert m.parts[k] in m.parts;
    }
  }

  lemma SafeMessagesKeepImageFree(msgs: seq<Message>)
    requires forall m :: m in msgs ==> ImageFree(m)
    ensures forall m :: m in SafeMessages(msgs) ==> ImageFree(m)
  {
    hide ImageFree;
    forall i | 0 <= i < |msgs| ensures ImageFree(SafeMessages(msgs)[i]) {
      assert msgs[i] in msgs;
      SafeKeepsImageFree(msgs[i]);
    }
  }

  lemma FramingImageFree(settings: Settings, msgs: seq<Message>)
    requires forall m :: m in msgs ==> ImageFree(m)
    ensures forall m :: m in Framing(settings, msgs) ==> ImageFree(m)
  {
    forall m | m in Framing(settings, msgs) ensures ImageFree(m) {
      if m !in msgs {
        assert m.role.System?;
      }
    }
  }

  /**
  The provider's own demands hold of the final prompt, although passes after
  the one that establishes them still rewrite and add messages.
  */
  lemma PreparedIsAcceptable(settings: Settings, msgs: seq<Message>, injected: seq<Message>)
    ensures settings.anthropicStyle ==> forall m :: m in Prepared(settings, msgs, injected) ==> SafePartIds(m)
    ensures !settings.supportsImages ==> forall m :: m in Prepared(settings, msgs, injected) ==> ImageFree(m)
  {
    hide ImageFree, SafePartIds, ImagesStripped, Framing, SafeMessages;
    var moved := Moving(settings, Merged(msgs + injected));
    var described := Describing(settings, moved);
    var framed := Framing(settings, described);
    if !settings.supportsImages {
      StrippedIsImageFree(settings.vision, moved);
      FramingImageFree(settings, described);
    }
    if settings.anthropicStyle {
      SafeMessagesAreSafe(framed);
      if !settings.supportsImages {
        SafeMessagesKeepImageFree(framed);
      }
    }
  }

  // ------------------------------------------------------------------- order

  lemma FramedApart(settings: Settings, msgs: seq<Message>)
    ensures var r := Framing(settings, msgs);
            && (settings.prefix != "" ==> r != [] && r[0] == SystemTurn(settings.prefix))
            && (settings.suffix != "" ==> r != [] && r[|r| - 1] == SystemTurn(settings.suffix))
            && |r| == |msgs| + (if settings.prefix != "" then 1 else 0) + (if settings.suffix != "" then 1 else 0)
            && r[if settings.prefix != "" then 1 else 0..][..|msgs|] == msgs
  {
  }

  /**
  The passes work on each other's results: for a model without images behind a
  provider without media, media of a tool turn that can be decoded is first
  moved into a user turn behind it, and it is there that it is described; the
  tool turn itself keeps only the notice that it was moved.
  */
  lemma MovedThenDescribed(settings: Settings, a: seq<Message>, m: Message, b: seq<Message>)
    requires !settings.providerSupportsMedia && !settings.supportsImages
    requires m.role.Tool? && MovedFiles(settings.decode, m.parts) != []
    ensures var passes := (msgs: seq<Message>) => Describing(settings, Moving(settings, msgs));
            var files := MovedFiles(settings.decode, m.parts);
            var told := UserTurn(files);
            && |Converted(settings.decode, [m])| == 2
            && passes(a + [m] + b)
               == passes(a)
                  + ImagesStripped(settings.vision, [Converted(settings.decode, [m])[0]])
                  + [told.(parts := DescribeFiles(settings.vision, told, told.parts))]
                  + passes(b)
  {
    hide Converted, ImagesStripped, DescribeFiles, MovedFiles, Placeholder;
    MovedTurn(settings.decode, m);
    ConvertedApart(settings.decode, a + [m], b);
    ConvertedApart(settings.decode, a, [m]);
    var one := Converted(settings.decode, [m]);
    var told := UserTurn(MovedFiles(settings.decode, m.parts));
    TurnMoved(settings.decode, m);
    assert one == [one[0]] + [told];
    StrippedApart(settings.vision, Converted(settings.decode, a) + one, Converted(settings.decode, b));
    StrippedApart(settings.vision, Converted(settings.decode, a), one);
    StrippedApart(settings.vision, [one[0]], [told]);
    UserStripped(settings.vision, told);
  }

  lemma TurnMoved(decode: Decoder, m: Message)
    requires m.role.Tool? && MovedFiles(decode, m.parts) != []
    ensures |Converted(decode, [m])| == 2 && Converted(decode, [m])[1] == UserTurn(MovedFiles(decode, m.parts))
  {
    hide MovedFiles;
    assert [m][..0] == [];
    assert Converted(decode, [m]) == ConvertMessage(decode, m);
  }

  lemma UserStripped(vision: Vision, m: Message)
    requires m.role.User? && m.parts != []
    ensures ImagesStripped(vision, [m]) == [m.(parts := DescribeFiles(vision, m, m.parts))]
  {
    hide DescribeFiles;
    assert [m][..0] == [];
    assert ImagesStripped(vision, [m]) == StripMessage(vision, m);
  }
}
