/** What a whole session of log chunks shows: its text, its cursor and its steps, in terms of the lines that arrived. */
module LogViewMeaning {
  import opened Common
  import opened LogView

  // Lines.

  predicate NoBreak(line: string) {
    '\n' !in line
  }

  function JoinLines(lines: seq<string>): string {
    if lines == [] then ""
    else if |lines| == 1 then lines[0]
    else JoinLines(lines[..|lines| - 1]) + "\n" + lines[|lines| - 1]
  }

  /** Splitting a text is undone by joining the lines, and no line is split further. */
  lemma {:induction false} SplitJoins(text: string)
    ensures JoinLines(Split(text)) == text && forall line :: line in Split(text) ==> NoBreak(line)
  {
    if text != "" {
      var n := |text| - 1;
      var init, last := Split(text[..n]), text[n];
      SplitJoins(text[..n]);
      assert text == text[..n] + [last];
      if last == '\n' {
        assert (init + [""])[..|init|] == init;
      } else {
        var k := |init| - 1;
        var front, end := init[..k], init[k];
        assert init == front + [end] && end in init;
        LongerLast(front, end, last);
      }
    }
  }

  lemma LongerLast(front: seq<string>, end: string, c: char)
    ensures JoinLines(front + [end + [c]]) == JoinLines(front + [end]) + [c]
  {
    assert (front + [end + [c]])[..|front|] == front && (front + [end])[..|front|] == front;
    if front != [] {
      ConcatAssociative(JoinLines(front) + "\n", end, [c]);
    }
  }

  /** The lines that count. */
  function NonEmpty(lines: seq<string>): seq<string> {
    if lines == [] then []
    else
      var init, last := NonEmpty(lines[..|lines| - 1]), lines[|lines| - 1];
      if last == "" then init else init + [last]
  }

  /** A line as the view shows it: an event with its time, anything else as it came; in any case one line. */
  function AsShown(parse: Parser, line: string): string {
    var parsed := parse(line);
    if parsed.Garbage? || parsed.message.None? then line + "\n"
    else
      var text := parsed.stamp + " " + parsed.message.value;
      if parsed.message.value != "" && parsed.message.value[|parsed.message.value| - 1] == '\n' then text else text + "\n"
  }

  function AllShown(parse: Parser, lines: seq<string>): seq<string> {
    seq(|lines|, i requires 0 <= i < |lines| => AsShown(parse, lines[i]))
  }

  function EffectsOf(parse: Parser, lines: seq<string>): seq<Effect> {
    if lines == [] then []
    else
      var init, last := EffectsOf(parse, lines[..|lines| - 1]), parse(lines[|lines| - 1]);
      if last.Event? && last.effect.Some? then init + [last.effect.value] else init
  }

  // Steps.

  /** Started, and since then nothing was started and this step was not finished. */
  ghost predicate IsRunning(effects: seq<Effect>, step: string) {
    exists i :: 0 <= i < |effects| && effects[i] == Started(step)
                && forall j :: i < j < |effects| ==> effects[j].Finished? && effects[j].step != step
  }

  /** The steps are those that were started or finished; the one that runs is shown so, all others as done. */
  ghost predicate StepsAre(steps: map<string, StepState>, effects: seq<Effect>) {
    && (forall step :: step in steps <==> Started(step) in effects || Finished(step) in effects)
    && forall step :: step in steps ==> (steps[step] == Running <==> IsRunning(effects, step))
  }

  lemma RunningNext(effects: seq<Effect>, e: Effect, step: string)
    ensures IsRunning(effects + [e], step) <==>
              e == Started(step) || (e.Finished? && e.step != step && IsRunning(effects, step))
  {
    var longer, n := effects + [e], |effects|;
    assert longer[n] == e && forall i :: 0 <= i < n ==> longer[i] == effects[i];
    if i :| 0 <= i < |longer| && longer[i] == Started(step)
            && forall j :: i < j < |longer| ==> longer[j].Finished? && longer[j].step != step {
      if i < n {
        assert longer[n].Finished? && longer[n].step != step && effects[i] == Started(step);
        assert forall j :: i < j < n ==> effects[j] == longer[j];
      }
    }
    if e == Started(step) {
      assert longer[n] == Started(step);
    } else if e.Finished? && e.step != step && IsRunning(effects, step) {
      var i :| 0 <= i < |effects| && effects[i] == Started(step)
               && forall j :: i < j < |effects| ==> effects[j].Finished? && effects[j].step != step;
      assert longer[i] == Started(step);
    }
  }

  lemma StepsNext(steps: map<string, StepState>, effects: seq<Effect>, parsed: Parsed)
    requires StepsAre(steps, effects)
    ensures var more := if parsed.Event? && parsed.effect.Some? then effects + [parsed.effect.value] else effects;
            StepsAre(Applied(steps, parsed), more)
  {
    if parsed.Event? && parsed.effect.Some? {
      var e, after := parsed.effect.value, Applied(steps, parsed);
      forall step
        ensures step in after <==> Started(step) in effects + [e] || Finished(step) in effects + [e]
        ensures step in after ==> (after[step] == Running <==> IsRunning(effects + [e], step))
      {
        RunningNext(effects, e, step);
      }
    }
  }

  // Content.

  /** The content after these lines. */
  ghost predicate Means(parse: Parser, c: Content, lines: seq<string>) {
    c.text == Flatten(AllShown(parse, lines)) && StepsAre(c.steps, EffectsOf(parse, lines))
  }

  lemma LineMeans(parse: Parser, c: Content, lines: seq<string>, line: string)
    requires Means(parse, c, lines)
    ensures Means(parse, AddLine(parse, c, line), if line == "" then lines else lines + [line])
  {
    if line != "" {
      var more := lines + [line];
      assert more[..|lines|] == lines;
      StepsNext(c.steps, EffectsOf(parse, lines), parse(line));
      assert AllShown(parse, more) == AllShown(parse, lines) + [AsShown(parse, line)];
      FlattenSnoc(AllShown(parse, lines), AsShown(parse, line));
    }
  }

  lemma {:induction false} LinesMean(parse: Parser, c: Content, lines: seq<string>, more: seq<string>)
    requires Means(parse, c, lines)
    ensures Means(parse, AddLines(parse, c, more), lines + NonEmpty(more))
    ensures AddLines(parse, c, more).cursor == c.cursor
  {
    if more == [] {
      assert lines + [] == lines;
    } else {
      var n := |more| - 1;
      var init, last := more[..n], more[n];
      var before, kept := AddLines(parse, c, init), NonEmpty(init);
      LinesMean(parse, c, lines, init);
      LineMeans(parse, before, lines + kept, last);
      ConcatAssociative(lines, kept, [last]);
    }
  }

  /** No chunk before it has a number as high, and its own is not negative. */
  predicate IsFresh(chunks: seq<Chunk>, i: nat)
    requires i < |chunks|
  {
    chunks[i].seqNo >= 0 && forall j :: 0 <= j < i ==> chunks[j].seqNo < chunks[i].seqNo
  }

  /** The lines of the fresh chunks, in order. */
  function Arrived(chunks: seq<Chunk>): seq<string> {
    if chunks == [] then []
    else
      var n := |chunks| - 1;
      if IsFresh(chunks, n) then Arrived(chunks[..n]) + NonEmpty(Split(chunks[n].text)) else Arrived(chunks[..n])
  }

  predicate IsHighest(cursor: int, chunks: seq<Chunk>) {
    && cursor >= -1 && (forall chunk :: chunk in chunks ==> chunk.seqNo <= cursor)
    && (cursor >= 0 ==> exists chunk :: chunk in chunks && chunk.seqNo == cursor)
  }

  lemma HighestNext(cursor: int, init: seq<Chunk>, last: Chunk)
    requires IsHighest(cursor, init)
    ensures IsHighest(if last.seqNo > cursor then last.seqNo else cursor, init + [last])
    ensures IsFresh(init + [last], |init|) <==> last.seqNo > cursor
  {
    var chunks, n := init + [last], |init|;
    assert chunks[n] == last && last in chunks;
    assert forall j :: 0 <= j < n ==> chunks[j] == init[j] && init[j] in init;
    if cursor >= 0 {
      var chunk :| chunk in init && chunk.seqNo == cursor;
      var j :| 0 <= j < n && init[j] == chunk;
      assert chunks[j] == chunk && chunk in chunks;
    }
  }

  /** Over any session: the whole text is the arrived lines as they are shown, the cursor is the highest number, and the
      steps are as the arrived events say. */
  lemma {:induction false} SessionMeans(parse: Parser, chunks: seq<Chunk>)
    ensures Means(parse, AddChunks(parse, NOTHING, chunks), Arrived(chunks))
    ensures IsHighest(AddChunks(parse, NOTHING, chunks).cursor, chunks)
  {
    if chunks != [] {
      var n := |chunks| - 1;
      var init, last := chunks[..n], chunks[n];
      SessionMeans(parse, init);
      var c := AddChunks(parse, NOTHING, init);
      assert chunks == init + [last];
      HighestNext(c.cursor, init, last);
      if last.seqNo > c.cursor {
        LinesMean(parse, c.(cursor := last.seqNo), Arrived(init), Split(last.text));
      }
    }
  }
}
