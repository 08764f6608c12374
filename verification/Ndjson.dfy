/** The newline-delimited frame codec of observer/contracts.ts. */
module Ndjson {
  import opened Contracts
  import opened Sequences
  import opened Text

  const ENVELOPE_BYTES: nat := 16384
  const DECODE_BUFFER_BYTES: nat := 32768

  datatype Error = EmptyFrame | EnvelopeTooLarge | MalformedFrame | BufferExceeded

  datatype Outcome<F> = Frames(frames: seq<F>) | Broken(error: Error)

  /** One decoded line: a trailing carriage return belongs to the line ending. */
  function Stripped(line: Text): Text {
    if line != [] && line[|line| - 1] == RETURN then line[..|line| - 1] else line
  }

  /** `parse` stands for JSON.parse and the envelope validation. */
  function DecodeLine<F>(parse: Text -> Option<F>, line: Text): Outcome<F> {
    var t := Stripped(line);
    if t == [] then Broken(EmptyFrame)
    else if Utf8Bytes(t) > ENVELOPE_BYTES then Broken(EnvelopeTooLarge)
    else match parse(t)
      case None => Broken(MalformedFrame)
      case Some(f) => Frames([f])
  }

  /** What a push does to a buffer that already holds the new chunk: the outcome, what stays, and the lines consumed. */
  function Drain<F>(parse: Text -> Option<F>, buffer: Text): (Outcome<F>, Text, nat)
    decreases |buffer|
  {
    var i := NewlineIndex(buffer);
    if i == |buffer| then
      (if Utf8Bytes(buffer) > DECODE_BUFFER_BYTES then Broken(BufferExceeded) else Frames([]), buffer, 0)
    else
      match DecodeLine(parse, buffer[..i])
      case Broken(error) => (Broken(error), buffer[i + 1..], 1)
      case Frames(first) =>
        var (outcome, rest, lines) := Drain(parse, buffer[i + 1..]);
        (if outcome.Broken? then outcome else Frames(first + outcome.frames), rest, lines + 1)
  }

  /** A buffer without a complete line stays as it is. */
  lemma DrainStops<F>(parse: Text -> Option<F>, buffer: Text)
    requires NewlineIndex(buffer) == |buffer|
    ensures Drain(parse, buffer) == (if Utf8Bytes(buffer) > DECODE_BUFFER_BYTES then Broken(BufferExceeded) else Frames([]), buffer, 0)
  {
    hide NewlineIndex, Utf8Bytes, DecodeLine;
  }

  /** The first line of a buffer is decoded before the rest. */
  lemma DrainTakesLine<F>(parse: Text -> Option<F>, buffer: Text)
    requires NewlineIndex(buffer) < |buffer|
    ensures var i := NewlineIndex(buffer); var line := DecodeLine(parse, buffer[..i]); var later := Drain(parse, buffer[i + 1..]);
      Drain(parse, buffer) ==
        if line.Broken? then (line, buffer[i + 1..], 1)
        else (if later.0.Broken? then later.0 else Frames(line.frames + later.0.frames), later.1, later.2 + 1)
  {
    hide NewlineIndex, Utf8Bytes, DecodeLine;
  }

  class NdjsonDecoder<F> {
    const parse: Text -> Option<F>
    var buffer: Text
    var lineOffset: nat

    constructor (parse: Text -> Option<F>)
      ensures this.parse == parse && buffer == [] && lineOffset == 0
    {
      this.parse, buffer, lineOffset := parse, [], 0;
    }

    /** On an error the frames of this push are lost, and the buffer starts after the offending line. */
    method Push(chunk: Text) returns (outcome: Outcome<F>)
      modifies this
      ensures (outcome, buffer, lineOffset - old(lineOffset)) == Drain(parse, old(buffer) + chunk)
    {
      hide Drain, DecodeLine, NewlineIndex, Utf8Bytes;
      buffer := buffer + chunk;
      var frames: seq<F> := [];
      ghost var all := Drain(parse, buffer);
      Resuming(all);
      var newline := NewlineIndex(buffer);
      while newline < |buffer|
        invariant newline == NewlineIndex(buffer) && lineOffset >= old(lineOffset)
        invariant Resumes(all, frames, Drain(parse, buffer), lineOffset - old(lineOffset))
        decreases |buffer|
      {
        var line := buffer[..newline];
        ghost var before := buffer;
        DrainTakesLine(parse, buffer);
        buffer := buffer[newline + 1..];
        lineOffset := lineOffset + 1;
        var decoded := DecodeLine(parse, line);
        if decoded.Broken? {
          return decoded;
        }
        LineResumed(all, frames, decoded.frames, Drain(parse, before), Drain(parse, buffer), lineOffset - 1 - old(lineOffset));
        frames := frames + decoded.frames;
        newline := NewlineIndex(buffer);
      }
      DrainStops(parse, buffer);
      if Utf8Bytes(buffer) > DECODE_BUFFER_BYTES {
        return Broken(BufferExceeded);
      }
      NothingAdded(frames);
      outcome := Frames(frames);
    }
  }

  /** `all` is what remains to be drained, after `frames` and `lines` lines. */
  predicate Resumes<F(==)>(all: (Outcome<F>, Text, nat), frames: seq<F>, later: (Outcome<F>, Text, nat), lines: nat) {
    && all.1 == later.1 && all.2 == lines + later.2
    && all.0 == if later.0.Broken? then later.0 else Frames(frames + later.0.frames)
  }

  lemma Resuming<F>(all: (Outcome<F>, Text, nat))
    ensures Resumes(all, [], all, 0)
  {
    if all.0.Frames? { NothingAdded(all.0.frames); }
  }

  lemma LineResumed<F>(all: (Outcome<F>, Text, nat), frames: seq<F>, line: seq<F>, before: (Outcome<F>, Text, nat), after: (Outcome<F>, Text, nat), lines: nat)
    requires Resumes(all, frames, before, lines)
    requires before == (if after.0.Broken? then after.0 else Frames(line + after.0.frames), after.1, after.2 + 1)
    ensures Resumes(all, frames + line, after, lines + 1)
  {
    if after.0.Frames? { Regrouped(frames, line, after.0.frames); }
  }

  // ---- Chunking. ----

  /** Pushing one chunk after the other, up to the first error. */
  function PushAll<F>(parse: Text -> Option<F>, buffer: Text, chunks: seq<Text>): (Outcome<F>, Text)
    decreases |chunks|
  {
    if chunks == [] then (Frames([]), buffer)
    else
      var (outcome, rest, _) := Drain(parse, buffer + chunks[0]);
      if outcome.Broken? then (outcome, rest)
      else
        var (later, last) := PushAll(parse, rest, chunks[1..]);
        (if later.Broken? then later else Frames(outcome.frames + later.frames), last)
  }

  /** A line that decodes fits the buffer, with room for its carriage return. */
  lemma DecodedLineFits<F>(parse: Text -> Option<F>, line: Text, k: nat)
    requires DecodeLine(parse, line).Frames? && k <= |line|
    ensures Utf8Bytes(line[..k]) <= DECODE_BUFFER_BYTES
  {
    PrefixBytes(line, k);
    if line != Stripped(line) {
      assert line == Stripped(line) + [line[|line| - 1]];
      BytesAppend(Stripped(line), line[|line| - 1]);
    }
  }

  lemma {:induction false} BytesAppend(t: Text, u: Unit)
    ensures Utf8Bytes(t + [u]) <= Utf8Bytes(t) + 3
    decreases |t|
  {
    if t == [] {
      assert [u][1..] == [];
    } else if |t| >= 2 && HighSurrogate(t[0]) && LowSurrogate(t[1]) {
      assert (t + [u])[2..] == t[2..] + [u];
      BytesAppend(t[2..], u);
    } else if |t| == 1 {
      assert (t + [u])[2..] == [] && (t + [u])[1..] == [u] && t[1..] == [] && [u][1..] == [];
    } else {
      assert (t + [u])[1..] == t[1..] + [u];
      BytesAppend(t[1..], u);
    }
  }

  /** Draining a text that decodes whole is draining its first part, then what is left with the second. */
  lemma {:induction false} DrainSplit<F>(parse: Text -> Option<F>, a: Text, b: Text)
    requires Drain(parse, a + b).0.Frames?
    ensures var first := Drain(parse, a);
      && first.0.Frames?
      && var second := Drain(parse, first.1 + b);
         second.0.Frames? && Drain(parse, a + b).0.frames == first.0.frames + second.0.frames && Drain(parse, a + b).1 == second.1
    decreases |a|
  {
    hide Drain, DecodeLine, NewlineIndex, Utf8Bytes;
    var i := NewlineIndex(a);
    if i == |a| {
      FirstPartFits(parse, a, b) by { assert a[..i] == a; }
      DrainStops(parse, a);
      NothingAdded(Drain(parse, a + b).0.frames);
    } else {
      FirstNewlineStays(a, b);
      DrainTakesLine(parse, a + b);
      DrainTakesLine(parse, a);
      DrainSplit(parse, a[i + 1..], b);
      var first := Drain(parse, a[i + 1..]);
      Regrouped(DecodeLine(parse, a[..i]).frames, first.0.frames, Drain(parse, first.1 + b).0.frames);
    }
  }

  /** Before its first newline, a text that decodes stays within the buffer bound wherever it is cut. */
  lemma FirstPartFits<F>(parse: Text -> Option<F>, a: Text, b: Text)
    requires Drain(parse, a + b).0.Frames? && NEWLINE !in a
    ensures Utf8Bytes(a) <= DECODE_BUFFER_BYTES
  {
    hide Drain, DecodeLine, NewlineIndex, Utf8Bytes;
    var j := NewlineIndex(a + b);
    var line := (a + b)[..j];
    assert j >= |a| by {
      assert forall k :: 0 <= k < |a| ==> (a + b)[k] != NEWLINE;
    }
    assert line[..|a|] == a;
    if j < |a + b| {
      DrainTakesLine(parse, a + b);
      DecodedLineFits(parse, line, |a|);
    } else {
      DrainStops(parse, a + b);
      PrefixBytes(a + b, |a|) by { assert (a + b)[..|a|] == a; }
      assert (a + b)[..|a|] == a;
    }
  }

  /** And the other way round: if both drains go through, so does the whole. */
  lemma {:induction false} DrainJoin<F>(parse: Text -> Option<F>, a: Text, b: Text)
    requires Drain(parse, a).0.Frames? && Drain(parse, Drain(parse, a).1 + b).0.Frames?
    ensures Drain(parse, a + b).0.Frames?
    decreases |a|
  {
    hide Drain, DecodeLine, NewlineIndex, Utf8Bytes;
    var i := NewlineIndex(a);
    if i < |a| {
      FirstNewlineStays(a, b);
      DrainTakesLine(parse, a + b);
      DrainTakesLine(parse, a);
      DrainJoin(parse, a[i + 1..], b);
    } else {
      DrainStops(parse, a);
    }
  }

  /**
   * Chunking independence: pushing the pieces goes through exactly when draining the whole does, and then
   * the frames and the remainder are the same.
   */
  lemma {:induction false} ChunkingIndependent<F>(parse: Text -> Option<F>, buffer: Text, chunks: seq<Text>)
    requires Drain(parse, buffer) == (Frames([]), buffer, 0)
    ensures PushAll(parse, buffer, chunks).0.Frames? <==> Drain(parse, buffer + Concat(chunks)).0.Frames?
    ensures PushAll(parse, buffer, chunks).0.Frames? ==>
      PushAll(parse, buffer, chunks) == (Drain(parse, buffer + Concat(chunks)).0, Drain(parse, buffer + Concat(chunks)).1)
    decreases |chunks|
  {
    hide Drain, DecodeLine, NewlineIndex, Utf8Bytes;
    if chunks == [] {
      NothingAdded(buffer);
    } else {
      var a, b := buffer + chunks[0], Concat(chunks[1..]);
      Regrouped(buffer, chunks[0], b);
      var first := Drain(parse, a);
      if Drain(parse, a + b).0.Frames? {
        DrainSplit(parse, a, b);
      }
      if first.0.Frames? {
        RestSettled(parse, a);
        ChunkingIndependent(parse, first.1, chunks[1..]);
        if Drain(parse, first.1 + b).0.Frames? {
          DrainJoin(parse, a, b);
          DrainSplit(parse, a, b);
        }
      }
    }
  }

  /** What a successful push leaves holds no complete line and is within the bound. */
  lemma {:induction false} RestSettled<F>(parse: Text -> Option<F>, buffer: Text)
    requires Drain(parse, buffer).0.Frames?
    ensures var rest := Drain(parse, buffer).1; Drain(parse, rest) == (Frames([]), rest, 0) && NEWLINE !in rest
    decreases |buffer|
  {
    hide Drain, DecodeLine, NewlineIndex, Utf8Bytes;
    var i := NewlineIndex(buffer);
    if i < |buffer| {
      DrainTakesLine(parse, buffer);
      RestSettled(parse, buffer[i + 1..]);
    } else {
      DrainStops(parse, buffer);
      assert buffer[..i] == buffer;
    }
  }

  // ---- Round trip. ----

  /** What JSON.stringify and JSON.parse promise each other: one line, that reads back. */
  ghost predicate Faithful<F(!new)>(write: F -> Text, parse: Text -> Option<F>) {
    forall f :: parse(write(f)) == Some(f) && write(f) != [] && NEWLINE !in write(f) && write(f)[|write(f)| - 1] != RETURN
  }

  /** encodeFrame: a frame over the envelope bound is refused. */
  function Encode<F>(write: F -> Text, f: F): Option<Text> {
    if Utf8Bytes(write(f)) > ENVELOPE_BYTES then None else Some(write(f) + [NEWLINE])
  }

  function EncodeAll<F>(write: F -> Text, frames: seq<F>): Option<Text> {
    if frames == [] then Some([])
    else match (Encode(write, frames[0]), EncodeAll(write, frames[1..]))
      case (Some(first), Some(rest)) => Some(first + rest)
      case _ => None
  }

  lemma {:induction false} EncodedDrains<F(!new)>(write: F -> Text, parse: Text -> Option<F>, frames: seq<F>)
    requires Faithful(write, parse) && EncodeAll(write, frames).Some?
    ensures Drain(parse, EncodeAll(write, frames).value) == (Frames(frames), [], |frames|)
    decreases |frames|
  {
    if frames == [] {
      DrainStops(parse, []) by { NewlineIndexIs([], 0); }
    } else {
      hide Drain, DecodeLine, NewlineIndex, Utf8Bytes, Faithful, Encode;
      EncodedDrains(write, parse, frames[1..]);
      EncodedLine(write, parse, frames[0], EncodeAll(write, frames[1..]).value, frames[1..]);
      assert [frames[0]] + frames[1..] == frames;
    }
  }

  lemma EncodedLine<F(!new)>(write: F -> Text, parse: Text -> Option<F>, f: F, rest: Text, later: seq<F>)
    requires Faithful(write, parse) && Encode(write, f).Some? && Drain(parse, rest) == (Frames(later), [], |later|)
    ensures Drain(parse, Encode(write, f).value + rest) == (Frames([f] + later), [], |later| + 1)
  {
    var line := write(f);
    hide Drain, NewlineIndex, Utf8Bytes;
    assert parse(line) == Some(f);
    assert Stripped(line) == line;
    assert DecodeLine(parse, line) == Frames([f]);
    hide Drain, DecodeLine, NewlineIndex, Utf8Bytes, Faithful;
    var whole := line + [NEWLINE] + rest;
    assert whole[..|line|] == line && whole[|line| + 1..] == rest;
    NewlineIndexIs(whole, |line|);
    DrainTakesLine(parse, whole);
  }

  /** Decoding any chunking of encoded frames returns those frames and leaves nothing behind. */
  lemma RoundTrip<F(!new)>(write: F -> Text, parse: Text -> Option<F>, frames: seq<F>, chunks: seq<Text>)
    requires Faithful(write, parse) && EncodeAll(write, frames) == Some(Concat(chunks))
    ensures PushAll(parse, [], chunks) == (Frames(frames), [])
  {
    EncodedDrains(write, parse, frames);
    NothingAdded(Concat(chunks));
    DrainStops(parse, []) by { NewlineIndexIs([], 0); }
    hide Drain, EncodeAll, Faithful, PushAll, Concat;
    ChunkingIndependent(parse, [], chunks);
  }
}
