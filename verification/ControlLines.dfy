/** The bounded control-line reader of manual/live-observer-gateway.ts. */
module ControlLines {
  import opened Sequences
  import opened Text

  const MAX_CONTROL_LINE_CHARACTERS: nat := 64

  datatype Control = Line(value: Text) | TooLong

  function Mark(line: Text): Control {
    if |line| > MAX_CONTROL_LINE_CHARACTERS then TooLong else Line(line)
  }

  /** The marks of the complete lines of a text. */
  function Complete(t: Text): seq<Control>
    decreases |t|
  {
    var i := NewlineIndex(t);
    if i == |t| then [] else [Mark(t[..i])] + Complete(t[i + 1..])
  }

  /** What follows the last newline. */
  function Rest(t: Text): Text
    decreases |t|
  {
    var i := NewlineIndex(t);
    if i == |t| then t else Rest(t[i + 1..])
  }

  /** Splitting the whole text on newlines and marking every line; an empty last line is none. */
  function Expected(t: Text): seq<Control> {
    Complete(t) + if Rest(t) == [] then [] else [Mark(Rest(t))]
  }

  /** How the first newline of a text splits it. */
  lemma FirstLine(t: Text)
    ensures var i := NewlineIndex(t);
      if i == |t| then Complete(t) == [] && Rest(t) == t
      else Complete(t) == [Mark(t[..i])] + Complete(t[i + 1..]) && Rest(t) == Rest(t[i + 1..])
  {
    hide NewlineIndex, Mark;
    FirstComplete(t);
    FirstRest(t);
    hide Complete, Rest;
  }

  lemma FirstComplete(t: Text)
    ensures var i := NewlineIndex(t);
      if i == |t| then Complete(t) == [] else Complete(t) == [Mark(t[..i])] + Complete(t[i + 1..])
  {
    hide NewlineIndex, Mark;
  }

  lemma FirstRest(t: Text)
    ensures var i := NewlineIndex(t);
      if i == |t| then Rest(t) == t else Rest(t) == Rest(t[i + 1..])
  {
    hide NewlineIndex;
  }

  /** Splitting is the same wherever the text is cut. */
  lemma {:induction false} SplitAnywhere(a: Text, b: Text)
    ensures Complete(a + b) == Complete(a) + Complete(Rest(a) + b)
    ensures Rest(a + b) == Rest(Rest(a) + b)
    decreases |a|
  {
    hide Complete, Rest, Mark, NewlineIndex;
    FirstLine(a);
    var i := NewlineIndex(a);
    if i < |a| {
      FirstNewlineStays(a, b);
      FirstLine(a + b);
      SplitAnywhere(a[i + 1..], b);
      Regrouped([Mark(a[..i])], Complete(a[i + 1..]), Complete(Rest(a) + b));
    } else {
      NothingAdded(Complete(a + b));
    }
  }

  class ControlReader {
    var line: Text
    var tooLong: bool
    /** Everything since the last newline; the reader itself never keeps more than 64 characters of it. */
    ghost var pending: Text

    ghost predicate Valid()
      reads this
    {
      && NEWLINE !in pending
      && tooLong == (|pending| > MAX_CONTROL_LINE_CHARACTERS)
      && line == (if tooLong then [] else pending)
      && |line| <= MAX_CONTROL_LINE_CHARACTERS
    }

    constructor ()
      ensures Valid() && pending == []
    {
      line, tooLong, pending := [], false, [];
    }

    /** One segment of a chunk, up to a newline or to the end of the chunk. */
    method Segment(segment: Text, complete: bool) returns (controls: seq<Control>)
      requires Valid() && NEWLINE !in segment
      modifies this
      ensures Valid()
      ensures controls == if complete then [Mark(old(pending) + segment)] else []
      ensures pending == if complete then [] else old(pending) + segment
    {
      controls := [];
      pending := pending + segment;
      if tooLong {
        if complete {
          controls := [TooLong];
          tooLong, pending := false, [];
        }
      } else {
        if |line| + |segment| > MAX_CONTROL_LINE_CHARACTERS {
          line, tooLong := [], true;
        } else {
          line := line + segment;
        }
        if complete {
          controls := [if tooLong then TooLong else Line(line)];
          line, tooLong, pending := [], false, [];
        }
      }
    }

    /** The part of a chunk from `start` up to its next newline, or to its end. */
    method Step(text: Text, start: nat) returns (controls: seq<Control>, next: nat, complete: bool)
      requires Valid() && start <= |text|
      modifies this
      ensures Valid() && complete == (NewlineIndex(text[start..]) < |text[start..]|)
      ensures complete ==> start < next <= |text| && text[next..] == text[start..][NewlineIndex(text[start..]) + 1..]
      ensures controls == if complete then [Mark(old(pending) + text[start..][..NewlineIndex(text[start..])])] else []
      ensures pending == if complete then [] else old(pending) + text[start..]
    {
      var newline := start + NewlineIndex(text[start..]);
      complete := newline < |text|;
      var segment := text[start..newline];
      assert segment == text[start..][..newline - start];
      assert !complete ==> segment == text[start..];
      controls := Segment(segment, complete);
      next := newline + 1;
    }

    /** One chunk: every newline in it completes a line. */
    method Feed(text: Text) returns (controls: seq<Control>)
      requires Valid()
      modifies this
      ensures Valid()
      ensures controls == Complete(old(pending) + text) && pending == Rest(old(pending) + text)
    {
      controls := [];
      var start := 0;
      var complete := true;
      ghost var whole := pending + text;
      assert text[0..] == text && [] + Complete(whole) == Complete(whole);
      assert Splitting(whole, controls, pending, text[start..]);
      hide Complete, Rest, Splitting, Mark;
      while complete
        invariant 0 <= start <= |text| && Valid()
        invariant complete ==> Splitting(whole, controls, pending, text[start..])
        invariant !complete ==> controls == Complete(whole) && pending == Rest(whole)
        decreases |text| - start, complete
      {
        LineTaken(whole, controls, pending, text[start..]);
        var more, next;
        more, next, complete := Step(text, start);
        controls := controls + more;
        if complete {
          start := next;
        }
      }
    }

    /** The end of the input: what is left is a line of its own. `tail` is what the byte decoder still held. */
    method Finish(tail: Text) returns (controls: seq<Control>)
      requires Valid() && NEWLINE !in tail
      modifies this
      ensures controls == var last := old(pending) + tail; if last == [] then [] else [Mark(last)]
      ensures |line| <= MAX_CONTROL_LINE_CHARACTERS
    {
      assert tail == [] ==> pending + tail == pending;
      pending := pending + tail;
      if |tail| > 0 && !tooLong {
        if |line| + |tail| > MAX_CONTROL_LINE_CHARACTERS {
          line, tooLong := [], true;
        } else {
          line := line + tail;
        }
      }
      if tooLong {
        return [TooLong];
      }
      controls := if |line| > 0 then [Line(line)] else [];
    }
  }

  /** `controls` are the lines of `whole` so far; what is pending and `text` are still to be split. */
  ghost predicate Splitting(whole: Text, controls: seq<Control>, pending: Text, text: Text) {
    Complete(whole) == controls + Complete(pending + text) && Rest(whole) == Rest(pending + text)
  }

  /** Taking the first line of `text`, or all of it. */
  lemma LineTaken(whole: Text, controls: seq<Control>, pending: Text, text: Text)
    requires NEWLINE !in pending && Splitting(whole, controls, pending, text)
    ensures var i := NewlineIndex(text);
      if i == |text| then controls + [] == Complete(whole) && pending + text == Rest(whole)
      else Splitting(whole, controls + [Mark(pending + text[..i])], [], text[i + 1..])
  {
    hide Complete, Rest, Mark, NewlineIndex;
    NextLine(pending, text);
    NothingAdded(controls);
    var i := NewlineIndex(text);
    if i < |text| {
      NothingAdded(text[i + 1..]);
      Regrouped(controls, [Mark(pending + text[..i])], Complete(text[i + 1..]));
    }
  }

  /** How the first newline of `text` splits what is pending. */
  lemma NextLine(pending: Text, text: Text)
    requires NEWLINE !in pending
    ensures var i := NewlineIndex(text);
      if i == |text| then Complete(pending + text) == [] && Rest(pending + text) == pending + text
      else Complete(pending + text) == [Mark(pending + text[..i])] + Complete(text[i + 1..]) && Rest(pending + text) == Rest(text[i + 1..])
  {
    hide Complete, Rest, Mark, NewlineIndex;
    var i := NewlineIndex(text);
    assert (pending + text)[..|pending| + i] == pending + text[..i];
    NewlineIndexIs(pending + text, |pending| + i);
    FirstLine(pending + text);
    if i < |text| {
      assert (pending + text)[|pending| + i + 1..] == text[i + 1..];
    }
  }

  lemma {:induction false} ConcatAppend(chunks: seq<Text>, last: Text)
    ensures Concat(chunks + [last]) == Concat(chunks) + last
  {
    if chunks == [] {
      assert [last][1..] == [];
    } else {
      assert (chunks + [last])[1..] == chunks[1..] + [last];
      ConcatAppend(chunks[1..], last);
    }
  }

  lemma ConcatNext(chunks: seq<Text>, i: nat)
    requires i < |chunks|
    ensures Concat(chunks[..i + 1]) == Concat(chunks[..i]) + chunks[i]
  {
    assert chunks[..i + 1] == chunks[..i] + [chunks[i]];
    ConcatAppend(chunks[..i], chunks[i]);
  }

  lemma NothingRead()
    ensures Concat([]) == [] && Complete([]) == [] && Rest([]) == []
  {
  }

  /** A last stretch without a newline completes nothing and is the rest. */
  lemma LastStretch(whole: Text, tail: Text)
    requires NEWLINE !in tail && NEWLINE !in Rest(whole)
    ensures Complete(whole + tail) == Complete(whole) && Rest(whole + tail) == Rest(whole) + tail
  {
    SplitAnywhere(whole, tail);
    NextLine(Rest(whole), tail);
    hide Complete, Rest;
    NewlineIndexIs(tail, |tail|) by { assert tail[..|tail|] == tail; }
    NothingAdded(Complete(whole));
  }

  /**
   * Whatever the chunks are, the streaming reader yields what splitting the whole text would, and between any two
   * chunks it holds at most 64 characters (ControlReader.Valid).
   */
  method ReadControls(chunks: seq<Text>, tail: Text) returns (controls: seq<Control>)
    requires NEWLINE !in tail
    ensures controls == Expected(Concat(chunks) + tail)
  {
    NothingRead();
    hide Complete, Rest, Concat, Mark;
    var reader := new ControlReader();
    controls := [];
    var i := 0;
    assert chunks[..0] == [];
    while i < |chunks|
      invariant 0 <= i <= |chunks| && reader.Valid() && fresh(reader)
      invariant controls == Complete(Concat(chunks[..i])) && reader.pending == Rest(Concat(chunks[..i]))
    {
      ConcatNext(chunks, i);
      SplitAnywhere(Concat(chunks[..i]), chunks[i]);
      var more := reader.Feed(chunks[i]);
      controls := controls + more;
      i := i + 1;
    }
    assert chunks[..i] == chunks;
    LastStretch(Concat(chunks), tail);
    var last := reader.Finish(tail);
    controls := controls + last;
  }
}
