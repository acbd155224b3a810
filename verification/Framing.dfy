/**
Newline framing of the ACP line transport: frame reads with resynchronisation
after an oversized line, and frame writes through an output that may accept
only part of what it is given.
*/
module Framing {
  import opened Common
  import opened Utf8

  const LF: byte := 10
  const CR: byte := 13

  /** The smallest buffer a buffered reader allocates. */
  const MIN_BUFFER := 16

  /** One extra byte lets a frame at the limit keep its newline. */
  function BufferSize(maxFrame: nat): nat {
    if maxFrame + 1 < MIN_BUFFER then MIN_BUFFER else maxFrame + 1
  }

  /** The index of the first newline, or the length when there is none. */
  function LineEnd(s: seq<byte>): (n: nat)
    ensures n <= |s|
    ensures n < |s| ==> s[n] == LF
    ensures LF !in s[..n]
  {
    if s == [] then 0
    else if s[0] == LF then 0
    else
      var n := LineEnd(s[1..]);
      assert s[..1 + n] == [s[0]] + s[1..][..n];
      1 + n
  }

  function TrimLineEnding(line: seq<byte>): seq<byte> {
    if |line| > 0 && line[|line| - 1] == LF then
      var l := line[..|line| - 1];
      if |l| > 0 && l[|l| - 1] == CR then l[..|l| - 1] else l
    else line
  }

  /** How the peer's stream ends. */
  datatype Ending = Eof | Broken

  datatype Outcome = Frame(data: seq<byte>) | TooLarge | BadEncoding | EndOfStream | ReadError | Done | Cancelled

  datatype SliceStatus = Delimited | BufferFull | AtEnd

  // ------------------------------------------------------- the line contract

  /** The outcome of one complete line, `line` being its bytes without the newline. */
  function LineOutcome(maxFrame: nat, line: seq<byte>): Outcome {
    if |line| + 1 > BufferSize(maxFrame) then TooLarge else
    var data := if |line| > 0 && line[|line| - 1] == CR then line[..|line| - 1] else line;
    if |data| > maxFrame then TooLarge
    else if !Valid(data) then BadEncoding
    else Frame(data)
  }

  /** The outcome of the bytes after the last newline. */
  function TailOutcome(maxFrame: nat, tail: seq<byte>, ending: Ending): Outcome {
    if |tail| >= BufferSize(maxFrame) then (if ending.Eof? then TooLarge else ReadError)
    else if ending.Broken? then ReadError
    else if tail == [] then EndOfStream
    else if |tail| > maxFrame then TooLarge
    else if !Valid(tail) then BadEncoding
    else Frame(tail)
  }

  /** What one frame read yields and what it leaves, line by line. */
  function NextFrame(maxFrame: nat, s: seq<byte>, ending: Ending): (Outcome, seq<byte>) {
    var n := LineEnd(s);
    if n < |s| then (LineOutcome(maxFrame, s[..n]), s[n + 1..])
    else (TailOutcome(maxFrame, s, ending), [])
  }

  /** A line without the carriage return it may end with. */
  function Payload(line: seq<byte>): (data: seq<byte>)
    ensures data == line || line == data + [CR]
    ensures |line| > 0 && line[|line| - 1] == CR ==> |data| == |line| - 1
    ensures line != [] && line[|line| - 1] != CR ==> data == line
  {
    if |line| > 0 && line[|line| - 1] == CR then line[..|line| - 1] else line
  }

  /**
  A complete line is a frame exactly when it is within the limit and valid
  UTF-8, and then it is given without its line ending.  The limit is on the
  frame; for limits the reader's buffer is made for, the carriage return counts
  too, as that buffer leaves room for one byte of line ending only.
  */
  lemma LineFate(maxFrame: nat, line: seq<byte>)
    ensures var data, r := Payload(line), LineOutcome(maxFrame, line);
            var fits := |data| <= maxFrame && (|line| <= maxFrame || |line| < 16);
            && (r.TooLarge? <==> !fits)
            && (r.Frame? <==> fits && Valid(data))
            && (r.BadEncoding? <==> fits && !Valid(data))
            && (r.Frame? ==> r.data == data)
  {
  }

  /** The bytes behind the last newline: a frame, if the stream ended in good order and they would be one as a line. */
  lemma TailFate(maxFrame: nat, tail: seq<byte>)
    ensures TailOutcome(maxFrame, tail, Broken) == ReadError
    ensures var r := TailOutcome(maxFrame, tail, Eof);
            && (r.EndOfStream? <==> tail == [])
            && (r.TooLarge? <==> |tail| > maxFrame)
            && (r.Frame? <==> 0 < |tail| <= maxFrame && Valid(tail))
            && (r.BadEncoding? <==> 0 < |tail| <= maxFrame && !Valid(tail))
            && (r.Frame? ==> r.data == tail)
  {
  }

  lemma LineEndAfter(s: seq<byte>, k: nat)
    requires k <= LineEnd(s)
    ensures LineEnd(s[k..]) == LineEnd(s) - k
  {
    if k > 0 {
      assert s[1..][k - 1..] == s[k..];
      LineEndAfter(s[1..], k - 1);
    } else {
      assert s[0..] == s;
    }
  }

  // ----------------------------------------------------------------- reading

  /** The read half: bytes not yet consumed, seen through a buffer of bounded size. */
  class LineReader {
    const maxFrame: nat
    const ending: Ending
    var rest: seq<byte>
    var closed: bool

    constructor (maxFrame: nat, stream: seq<byte>, ending: Ending)
      ensures this.maxFrame == maxFrame && this.ending == ending && rest == stream && !closed
    {
      this.maxFrame := maxFrame;
      this.ending := ending;
      rest := stream;
      closed := false;
    }

    /** Reads up to and including a newline, or a full buffer, or to the end. */
    method ReadSlice() returns (line: seq<byte>, status: SliceStatus)
      modifies this`rest
      ensures line + rest == old(rest)
      ensures var n, b := LineEnd(old(rest)), BufferSize(maxFrame);
              && (status.Delimited? <==> n < |old(rest)| && n < b)
              && (status.Delimited? ==> |line| == n + 1)
              && (status.BufferFull? <==> n >= b)
              && (status.BufferFull? ==> |line| == b)
              && (status.AtEnd? ==> rest == [])
    {
      var n, b := LineEnd(rest), BufferSize(maxFrame);
      if n < |rest| && n < b {
        line, status := rest[..n + 1], Delimited;
      } else if |rest| >= b {
        line, status := rest[..b], BufferFull;
      } else {
        line, status := rest, AtEnd;
      }
      rest := rest[|line|..];
    }

    /** Discards the remainder of an oversized line, up to and including its newline. */
    method DrainFrame() returns (ok: bool)
      modifies this`rest
      ensures var n := LineEnd(old(rest));
              if n < |old(rest)| then ok && rest == old(rest)[n + 1..]
              else rest == [] && (ok <==> ending.Eof?)
    {
      ghost var s := rest;
      ghost var n := LineEnd(s);
      ghost var at: nat := 0;
      while true
        invariant at <= n <= |s| && rest == s[at..]
        decreases |rest|
      {
        LineEndAfter(s, at);
        var line, status := ReadSlice();
        assert rest == s[at..][|line|..] == s[at + |line|..];
        match status
        case Delimited => return true;
        case AtEnd => return ending.Eof?;
        case BufferFull => at := at + |line|;
      }
    }

    /**
    One frame read.  An unready connection consumes nothing; otherwise exactly
    one line, however long, gives exactly one outcome.
    */
    method ReadFrame(cancelled: bool) returns (r: Outcome)
      modifies this`rest
      ensures cancelled ==> r == Cancelled && rest == old(rest)
      ensures !cancelled && closed ==> r == Done && rest == old(rest)
      ensures !cancelled && !closed ==> (r, rest) == NextFrame(maxFrame, old(rest), ending)
    {
      if cancelled {
        return Cancelled;
      }
      if closed {
        return Done;
      }
      ghost var s := rest;
      ghost var n := LineEnd(s);
      var line, status := ReadSlice();
      assert line == s[..|line|] && rest == s[|line|..];
      if status.BufferFull? {
        LineEndAfter(s, |line|);
        var ok := DrainFrame();
        if n < |s| {
          assert s[|line|..][n - |line| + 1..] == s[n + 1..];
        }
        return if ok then TooLarge else ReadError;
      }
      if status.AtEnd? {
        assert line == s;
        if ending.Broken? {
          return ReadError;
        }
        if |line| == 0 {
          return EndOfStream;
        }
        assert line[|line| - 1] in s[..n];
      } else {
        assert line[..n] == s[..n];
      }
      line := TrimLineEnding(line);
      if |line| > maxFrame {
        return TooLarge;
      }
      if !Valid(line) {
        return BadEncoding;
      }
      return Frame(line);
    }
  }

  // --------------------------------------------------------- reading a stream

  /** Every outcome of a stream, in order, up to its end. */
  function Outcomes(maxFrame: nat, s: seq<byte>, ending: Ending): seq<Outcome>
    decreases |s|
  {
    var n := LineEnd(s);
    if n < |s| then [LineOutcome(maxFrame, s[..n])] + Outcomes(maxFrame, s[n + 1..], ending)
    else [TailOutcome(maxFrame, s, ending)]
  }

  /** Lines, each closed by its newline. */
  function JoinLines(lines: seq<seq<byte>>): seq<byte> {
    if lines == [] then [] else lines[0] + [LF] + JoinLines(lines[1..])
  }

  lemma NoLineEnd(s: seq<byte>)
    requires LF !in s
    ensures LineEnd(s) == |s|
  {
  }

  lemma {:induction false} LineEndOf(line: seq<byte>, more: seq<byte>)
    requires LF !in line
    ensures LineEnd(line + [LF] + more) == |line|
  {
    var s := line + [LF] + more;
    if line == [] {
      assert s[0] == LF;
    } else {
      assert s[1..] == line[1..] + [LF] + more;
      LineEndOf(line[1..], more);
    }
  }

  /**
  Resynchronisation: in an arbitrary stream of lines each line gives exactly one
  outcome, its own, so an oversized or badly encoded line neither swallows nor
  splits its neighbours.
  */
  lemma {:induction false} OneOutcomePerLine(maxFrame: nat, lines: seq<seq<byte>>, tail: seq<byte>, ending: Ending)
    requires forall l :: l in lines ==> LF !in l
    requires LF !in tail
    ensures Outcomes(maxFrame, JoinLines(lines) + tail, ending)
         == seq(|lines|, i requires 0 <= i < |lines| => LineOutcome(maxFrame, lines[i]))
            + [TailOutcome(maxFrame, tail, ending)]
  {
    hide LineOutcome, TailOutcome, LineEnd;
    var s := JoinLines(lines) + tail;
    if lines == [] {
      assert s == tail;
      NoLineEnd(tail);
    } else {
      var more := JoinLines(lines[1..]) + tail;
      assert s == lines[0] + [LF] + more;
      LineEndOf(lines[0], more);
      assert s[..|lines[0]|] == lines[0] && s[|lines[0]| + 1..] == more;
      OneOutcomePerLine(maxFrame, lines[1..], tail, ending);
    }
  }

  // ----------------------------------------------------------------- writing

  /** What the output answers to one write: how many bytes it took, or a failure after some. */
  datatype Reply = Took(n: nat) | Broke(n: nat)

  datatype WriteResult = Written | FrameTooLarge | InvalidFrame | WriteCancelled | WriteDone | NoProgress | WriteFailed

  /** The result of pushing `payload` through an output that answers as `script` says. */
  function Push(payload: seq<byte>, script: seq<Reply>): (r: (WriteResult, nat, seq<Reply>))
    ensures r.1 <= |payload|
    ensures r.0.Written? <==> r.1 == |payload| && !r.0.WriteFailed? && !r.0.NoProgress?
    ensures r.0.Written? || r.0.NoProgress? || r.0.WriteFailed?
    decreases |payload|
  {
    if payload == [] then (Written, 0, script)
    else if script == [] then (Written, |payload|, [])
    else if script[0].Broke? then (WriteFailed, Min(script[0].n, |payload|), script[1..])
    else if script[0].n == 0 then (NoProgress, 0, script[1..])
    else
      var k := Min(script[0].n, |payload|);
      var (res, more, left) := Push(payload[k..], script[1..]);
      (res, k + more, left)
  }

  /** How many bytes the first `i` answers take, as far as they take any. */
  function TakenBy(script: seq<Reply>, i: nat): nat
    requires i <= |script|
  {
    if i == 0 then 0 else script[0].n + TakenBy(script[1..], i - 1)
  }

  /** Answer `i` comes after answers that each took something, and before the payload is all taken. */
  ghost predicate Asked(payload: seq<byte>, script: seq<Reply>, i: nat) {
    && i < |script|
    && (forall j :: 0 <= j < i ==> script[j].Took? && script[j].n > 0)
    && TakenBy(script, i) < |payload|
  }

  lemma AskedLater(payload: seq<byte>, script: seq<Reply>, i: nat)
    requires script != [] && script[0].Took? && 0 < script[0].n < |payload| && i > 0
    ensures Asked(payload, script, i) <==> Asked(payload[script[0].n..], script[1..], i - 1)
  {
    if Asked(payload[script[0].n..], script[1..], i - 1) {
      forall j | 0 <= j < i ensures script[j].Took? && script[j].n > 0 {
        assert j > 0 ==> script[j] == script[1..][j - 1];
      }
    }
  }

  /**
  The first answer that fails or takes nothing, while bytes are left, decides
  the result: a failed write reports the failure, one without progress that
  there was none; with no such answer the whole payload is written.
  */
  lemma {:induction false} PushFate(payload: seq<byte>, script: seq<Reply>, i: nat)
    requires Asked(payload, script, i) && (script[i].Broke? || script[i].n == 0)
    ensures Push(payload, script).0 == if script[i].Broke? then WriteFailed else NoProgress
    ensures Push(payload, script).1 == TakenBy(script, i) + Min(script[i].n, |payload| - TakenBy(script, i))
    decreases i
  {
    if i > 0 {
      AskedLater(payload, script, i);
      PushFate(payload[script[0].n..], script[1..], i - 1);
    }
  }

  lemma {:induction false} PushSucceeds(payload: seq<byte>, script: seq<Reply>)
    requires forall i: nat :: Asked(payload, script, i) ==> script[i].Took? && script[i].n > 0
    ensures Push(payload, script).0.Written?
    decreases |script|
  {
    if payload != [] && script != [] {
      assert Asked(payload, script, 0);
      var k := script[0].n;
      if k < |payload| {
        forall i: nat | Asked(payload[k..], script[1..], i) ensures script[1..][i].Took? && script[1..][i].n > 0 {
          AskedLater(payload, script, i + 1);
        }
        PushSucceeds(payload[k..], script[1..]);
      }
    }
  }

  /** A frame `WriteFrame` passes on to the output. */
  predicate Accepted(maxFrame: nat, frame: seq<byte>) {
    |frame| <= maxFrame && CR !in frame && LF !in frame
  }

  /** The write half; `script` is what the output will answer, then it takes everything. */
  class FrameWriter {
    const maxFrame: nat
    var output: seq<byte>
    var script: seq<Reply>
    var closed: bool

    constructor (maxFrame: nat, script: seq<Reply>)
      ensures this.maxFrame == maxFrame && this.script == script && output == [] && !closed
    {
      this.maxFrame := maxFrame;
      this.script := script;
      output, closed := [], false;
    }

    /** The output takes part of the payload, as its next answer says. */
    method Write(payload: seq<byte>) returns (n: nat, failed: bool)
      modifies this`output, this`script
      ensures n <= |payload| && output == old(output) + payload[..n]
      ensures old(script) == [] ==> n == |payload| && !failed && script == []
      ensures old(script) != [] ==>
                script == old(script)[1..] && n == Min(old(script)[0].n, |payload|) && failed == old(script)[0].Broke?
    {
      n, failed := |payload|, false;
      if script != [] {
        n, failed, script := Min(script[0].n, |payload|), script[0].Broke?, script[1..];
      }
      output := output + payload[..n];
    }

    /**
    Writes one frame and its newline.  The frame is on the output, whole and
    delimited, exactly when the result says written; after any other result
    only a proper or full prefix of it may be there, and a refused frame left
    nothing.
    */
    method WriteFrame(frame: seq<byte>, cancelled: bool) returns (r: WriteResult)
      modifies this`output, this`script
      ensures r.FrameTooLarge? <==> |frame| > maxFrame
      ensures r.InvalidFrame? <==> |frame| <= maxFrame && !Accepted(maxFrame, frame)
      ensures Accepted(maxFrame, frame) && cancelled ==> r.WriteCancelled?
      ensures Accepted(maxFrame, frame) && !cancelled && closed ==> r.WriteDone?
      ensures Accepted(maxFrame, frame) && !cancelled && !closed ==>
                var (res, n, left) := Push(frame + [LF], old(script));
                r == res && script == left && output == old(output) + (frame + [LF])[..n]
      ensures !Accepted(maxFrame, frame) || cancelled || closed ==> output == old(output) && script == old(script)
      ensures r.Written? ==> output == old(output) + frame + [LF]
    {
      if |frame| > maxFrame {
        return FrameTooLarge;
      }
      if CR in frame || LF in frame {
        return InvalidFrame;
      }
      if cancelled {
        return WriteCancelled;
      }
      if closed {
        return WriteDone;
      }
      ghost var whole := frame + [LF];
      ghost var spec := Push(whole, script);
      var payload := frame + [LF];
      while |payload| > 0
        invariant |payload| <= |whole| && payload == whole[|whole| - |payload|..]
        invariant output == old(output) + whole[..|whole| - |payload|]
        invariant Push(payload, script).0 == spec.0 && Push(payload, script).2 == spec.2
        invariant |whole| - |payload| + Push(payload, script).1 == spec.1
        decreases |payload|
      {
        ghost var before := payload;
        ghost var was := script;
        var written, failed := Write(payload);
        assert whole[..|whole| - |before| + written] == whole[..|whole| - |before|] + before[..written];
        if failed {
          return WriteFailed;
        }
        if written <= 0 {
          return NoProgress;
        }
        payload := payload[written..];
        if was == [] {
          assert payload == [];
        }
      }
      assert whole[..|whole|] == whole;
      return Written;
    }
  }

  /** The same frame writes as a function of the output's answers; stops at the first failure. */
  function WriteAll(frames: seq<seq<byte>>, script: seq<Reply>): (WriteResult, seq<byte>)
    decreases |frames|
  {
    if frames == [] then (Written, []) else
    var payload := frames[0] + [LF];
    var (res, n, left) := Push(payload, script);
    if !res.Written? then (res, payload[..n]) else
    var (res2, more) := WriteAll(frames[1..], left);
    (res2, payload + more)
  }

  /** However the output splits the payloads, a run of successful writes leaves the plain joined lines. */
  lemma {:induction false} PartialWritesDoNotMatter(frames: seq<seq<byte>>, script: seq<Reply>)
    requires WriteAll(frames, script).0.Written?
    ensures WriteAll(frames, script).1 == JoinLines(frames)
    decreases |frames|
  {
    if frames != [] {
      var payload := frames[0] + [LF];
      var (res, n, left) := Push(payload, script);
      assert payload[..n] == payload;
      PartialWritesDoNotMatter(frames[1..], left);
    }
  }

  // -------------------------------------------------------------- round trip

  /**
  What the reader makes of written frames, under any pattern of partial writes:
  frame by frame, the frame itself, or an encoding error because the write side
  does not check UTF-8.
  */
  lemma WrittenFramesReadBack(maxFrame: nat, frames: seq<seq<byte>>, script: seq<Reply>)
    requires forall f :: f in frames ==> Accepted(maxFrame, f)
    requires WriteAll(frames, script).0.Written?
    ensures Outcomes(maxFrame, WriteAll(frames, script).1, Eof)
         == seq(|frames|, i requires 0 <= i < |frames| => if Valid(frames[i]) then Frame(frames[i]) else BadEncoding)
            + [EndOfStream]
  {
    PartialWritesDoNotMatter(frames, script);
    OneOutcomePerLine(maxFrame, frames, [], Eof);
    assert JoinLines(frames) + [] == JoinLines(frames);
    forall i | 0 <= i < |frames|
      ensures LineOutcome(maxFrame, frames[i]) == if Valid(frames[i]) then Frame(frames[i]) else BadEncoding
    {
      var f := frames[i];
      assert Accepted(maxFrame, f);
      if |f| > 0 {
        assert f[|f| - 1] in f;
      }
    }
  }

  /** The frames themselves, then the end of the stream. */
  function AsRead(frames: seq<seq<byte>>): seq<Outcome> {
    seq(|frames|, i requires 0 <= i < |frames| => Frame(frames[i])) + [EndOfStream]
  }

  /** The round trip holds exactly for frames that are valid UTF-8. */
  lemma RoundTripIffValidUtf8(maxFrame: nat, frames: seq<seq<byte>>, script: seq<Reply>)
    requires forall f :: f in frames ==> Accepted(maxFrame, f)
    requires WriteAll(frames, script).0.Written?
    ensures Outcomes(maxFrame, WriteAll(frames, script).1, Eof) == AsRead(frames)
        <==> forall f :: f in frames ==> Valid(f)
  {
    WrittenFramesReadBack(maxFrame, frames, script);
    var got := Outcomes(maxFrame, WriteAll(frames, script).1, Eof);
    var want := AsRead(frames);
    if f :| f in frames && !Valid(f) {
      var i :| 0 <= i < |frames| && frames[i] == f;
      assert got[i] == BadEncoding && want[i] == Frame(f);
    }
  }

  /** A frame the write side accepts and the read side rejects. */
  lemma RoundTripCanFail()
    ensures Accepted(4, [0xFF]) && WriteAll([[0xFF]], []).0.Written?
    ensures Outcomes(4, WriteAll([[0xFF]], []).1, Eof) != AsRead([[0xFF]])
  {
    var frames: seq<seq<byte>> := [[0xFF]];
    assert WriteAll(frames, []).0.Written?;
    forall f | f in frames ensures Accepted(4, f) {}
    RoundTripIffValidUtf8(4, frames, []);
    assert frames[0] in frames && !Valid(frames[0]);
  }
}
