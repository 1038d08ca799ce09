/** `frontend/src/model.ts`: the bounded log view that the browser keeps of a running job. */
module LogView {
  import opened Common

  /** 512 Ki characters */
  const LIMIT: nat := 512 * 1024

  datatype StepState = Running | Done

  /** What a line does to the list of steps. */
  datatype Effect = Started(step: string) | Finished(step: string)

  /** The meaning of one line: not JSON, or an event. `message` is `None` if rendering it throws. */
  datatype Parsed = Garbage | Event(stamp: string, effect: Option<Effect>, message: Option<string>)

  type Parser = string -> Parsed

  datatype Chunk = Chunk(seqNo: int, text: string)

  datatype LogState = LogState(cursor: int, text: string, steps: map<string, StepState>, clipped: bool)

  const EMPTY_LOG := LogState(-1, "", map[], false)

  /** `text.split("\n")` */
  function Split(text: string): (lines: seq<string>)
    ensures |lines| > 0
  {
    if text == "" then [""]
    else
      var lines, last := Split(text[..|text| - 1]), text[|text| - 1];
      if last == '\n' then lines + [""]
      else lines[..|lines| - 1] + [lines[|lines| - 1] + [last]]
  }

  predicate EndsLine(text: string) {
    text != "" && text[|text| - 1] == '\n'
  }

  function Rendered(parse: Parser, line: string): (text: string)
    ensures EndsLine(text)
  {
    match parse(line)
    case Garbage => line + "\n"
    case Event(_, _, None) => line + "\n"
    case Event(stamp, _, Some(message)) =>
      stamp + " " + message + (if EndsLine(message) then "" else "\n")
  }

  function AllDone(steps: map<string, StepState>): map<string, StepState> {
    map key | key in steps :: Done
  }

  function Applied(steps: map<string, StepState>, parsed: Parsed): map<string, StepState> {
    match parsed
    case Event(_, Some(Started(step)), _) => AllDone(steps)[step := Running]
    case Event(_, Some(Finished(step)), _) => steps[step := Done]
    case _ => steps
  }

  // The view without a bound.

  datatype Content = Content(cursor: int, text: string, steps: map<string, StepState>)

  function AddLine(parse: Parser, c: Content, line: string): Content {
    if line == "" then c
    else c.(text := c.text + Rendered(parse, line), steps := Applied(c.steps, parse(line)))
  }

  function AddLines(parse: Parser, c: Content, lines: seq<string>): Content {
    if lines == [] then c
    else AddLine(parse, AddLines(parse, c, lines[..|lines| - 1]), lines[|lines| - 1])
  }

  /** A chunk that was seen before is skipped. */
  function AddChunk(parse: Parser, c: Content, chunk: Chunk): Content {
    if chunk.seqNo <= c.cursor then c
    else AddLines(parse, c.(cursor := chunk.seqNo), Split(chunk.text))
  }

  function AddChunks(parse: Parser, c: Content, chunks: seq<Chunk>): Content {
    if chunks == [] then c
    else AddChunk(parse, AddChunks(parse, c, chunks[..|chunks| - 1]), chunks[|chunks| - 1])
  }

  const NOTHING := Content(-1, "", map[])

  // The bounded view.

  /** `text.indexOf("\n", from)` */
  function IndexOf(text: string, from: nat): (index: int)
    requires from <= |text|
    ensures index < 0 ==> forall i :: from <= i < |text| ==> text[i] != '\n'
    ensures index >= 0 ==> from <= index < |text| && text[index] == '\n'
                           && forall i :: from <= i < index ==> text[i] != '\n'
    decreases |text| - from
  {
    if from == |text| then -1
    else if text[from] == '\n' then from
    else IndexOf(text, from + 1)
  }

  function Cut(text: string): string {
    if |text| <= LIMIT then text
    else
      var start := IndexOf(text, |text| - LIMIT);
      if start < 0 then text[|text| - LIMIT..] else text[start + 1..]
  }

  function Append(parse: Parser, previous: LogState, chunks: seq<Chunk>): LogState {
    var c := AddChunks(parse, Content(previous.cursor, previous.text, previous.steps), chunks);
    LogState(c.cursor, Cut(c.text), c.steps, previous.clipped || |c.text| > LIMIT)
  }

  /** Before a step starts, every running one is marked done. */
  method MarkDone(steps: map<string, StepState>) returns (done: map<string, StepState>)
    ensures done == AllDone(steps)
  {
    done := steps;
    var keys := steps.Keys;
    while keys != {}
      invariant keys <= steps.Keys && done.Keys == steps.Keys
      invariant forall key :: key in done ==> done[key] == if key in keys then steps[key] else Done
      decreases |keys|
    {
      var key :| key in keys;
      if done[key] == Running {
        done := done[key := Done];
      }
      keys := keys - {key};
    }
  }

  method RenderLine(parse: Parser, line: string, before: Content) returns (after: Content)
    requires line != ""
    ensures after == AddLine(parse, before, line)
  {
    var text, steps := before.text, before.steps;
    match parse(line) {
      case Garbage =>
        text := text + (line + "\n");
      case Event(stamp, effect, message) =>
        match effect {
          case None =>
          case Some(Started(step)) =>
            steps := MarkDone(steps);
            steps := steps[step := Running];
          case Some(Finished(step)) =>
            steps := steps[step := Done];
        }
        if message.None? {
          text := text + (line + "\n");
        } else {
          text := text + (stamp + " " + message.value + (if EndsLine(message.value) then "" else "\n"));
        }
    }
    after := before.(text := text, steps := steps);
  }

  method RenderLines(parse: Parser, lines: seq<string>, before: Content) returns (after: Content)
    ensures after == AddLines(parse, before, lines)
  {
    after := before;
    var i := 0;
    while i < |lines|
      invariant i <= |lines| && after == AddLines(parse, before, lines[..i])
    {
      assert lines[..i + 1][..i] == lines[..i];
      var line := lines[i];
      i := i + 1;
      if line == "" {
        continue;
      }
      after := RenderLine(parse, line, after);
    }
    assert lines[..i] == lines;
  }

  method AppendLogs(parse: Parser, previous: LogState, chunks: seq<Chunk>) returns (next: LogState)
    ensures next == Append(parse, previous, chunks)
  {
    var c := Content(previous.cursor, previous.text, previous.steps);
    ghost var first := c;
    var i := 0;
    while i < |chunks|
      invariant i <= |chunks| && c == AddChunks(parse, first, chunks[..i])
    {
      assert chunks[..i + 1][..i] == chunks[..i];
      var chunk := chunks[i];
      i := i + 1;
      if chunk.seqNo <= c.cursor {
        continue;
      }
      c := RenderLines(parse, Split(chunk.text), c.(cursor := chunk.seqNo));
    }
    assert chunks[..i] == chunks;
    var text, clipped := c.text, previous.clipped || |c.text| > LIMIT;
    if |text| > LIMIT {
      var start := IndexOf(text, |text| - LIMIT);
      text := if start < 0 then text[|text| - LIMIT..] else text[start + 1..];
    }
    next := LogState(c.cursor, text, c.steps, clipped);
  }

  // Adding only ever appends whole lines, whatever is already there.

  function After(prefix: string, c: Content): Content {
    c.(text := prefix + c.text)
  }

  predicate WholeLines(text: string) {
    text == "" || EndsLine(text)
  }

  lemma {:induction false} LinesAppend(parse: Parser, prefix: string, c: Content, lines: seq<string>)
    ensures AddLines(parse, After(prefix, c), lines) == After(prefix, AddLines(parse, c, lines))
    ensures c.text <= AddLines(parse, c, lines).text
    ensures WholeLines(c.text) ==> WholeLines(AddLines(parse, c, lines).text)
  {
    if lines != [] {
      var init, line := lines[..|lines| - 1], lines[|lines| - 1];
      LinesAppend(parse, prefix, c, init);
      if line != "" {
        ConcatAssociative(prefix, AddLines(parse, c, init).text, Rendered(parse, line));
      }
    }
  }

  lemma {:induction false} ChunksAppend(parse: Parser, prefix: string, c: Content, chunks: seq<Chunk>)
    ensures AddChunks(parse, After(prefix, c), chunks) == After(prefix, AddChunks(parse, c, chunks))
    ensures c.text <= AddChunks(parse, c, chunks).text
    ensures WholeLines(c.text) ==> WholeLines(AddChunks(parse, c, chunks).text)
  {
    if chunks != [] {
      var init, chunk := chunks[..|chunks| - 1], chunks[|chunks| - 1];
      ChunksAppend(parse, prefix, c, init);
      var middle := AddChunks(parse, c, init);
      if chunk.seqNo > middle.cursor {
        LinesAppend(parse, prefix, middle.(cursor := chunk.seqNo), Split(chunk.text));
      }
    }
  }

  lemma {:induction false} ChunksConcat(parse: Parser, c: Content, a: seq<Chunk>, b: seq<Chunk>)
    ensures AddChunks(parse, c, a + b) == AddChunks(parse, AddChunks(parse, c, a), b)
  {
    if b == [] {
      assert a + b == a;
    } else {
      ChunksConcat(parse, c, a, b[..|b| - 1]);
      assert (a + b)[..|a + b| - 1] == a + b[..|b| - 1];
    }
  }

  // The bounded view against the unbounded one.

  /** A line of `text` starts at `i`. */
  predicate LineStart(text: string, i: nat)
    requires i <= |text|
  {
    i == 0 || text[i - 1] == '\n'
  }

  /** `tail` is the end of `text` from the start of a line, and every longer such end has 512 Ki characters or more. */
  ghost predicate Ending(text: string, tail: string) {
    && |tail| <= |text|
    && text[|text| - |tail|..] == tail
    && LineStart(text, |text| - |tail|)
    && forall i :: 0 <= i < |text| - |tail| && LineStart(text, i) ==> |text| - i >= 524288
  }

  ghost predicate Refines(view: LogState, full: Content) {
    && view.cursor == full.cursor && view.steps == full.steps
    && WholeLines(full.text)
    && (view.clipped <==> |full.text| > 524288)
    && (!view.clipped ==> view.text == full.text)
    && |view.text| <= 524288
    && Ending(full.text, view.text)
  }

  lemma EndingExtended(text: string, tail: string, more: string)
    requires Ending(text, tail)
    ensures Ending(text + more, tail + more)
  {
    var k := |text| - |tail|;
    assert (text + more)[k..] == text[k..] + more;
    forall i | 0 <= i < k && LineStart(text + more, i) ensures |text + more| - i >= LIMIT {
      assert LineStart(text, i);
    }
  }

  /** The text always ends a line, so a newline is found: the branch for a negative index is never taken. */
  lemma CutFindsNewline(text: string)
    requires EndsLine(text) && |text| > LIMIT
    ensures IndexOf(text, |text| - LIMIT) >= 0
  {
    assert text[|text| - 1] == '\n';
  }

  lemma CutIsEnding(text: string)
    requires EndsLine(text) && |text| > LIMIT
    ensures Ending(text, Cut(text)) && |Cut(text)| < LIMIT
  {
    CutFindsNewline(text);
  }

  lemma EndingNested(text: string, tail: string, end: string)
    requires Ending(text, tail) && Ending(tail, end)
    ensures Ending(text, end)
  {
    var k, m := |text| - |tail|, |tail| - |end|;
    assert text[k + m..] == tail[m..];
    assert m > 0 ==> text[k + m - 1] == tail[m - 1];
    forall i | 0 <= i < k + m && LineStart(text, i) ensures |text| - i >= LIMIT {
      if i >= k {
        assert i > k ==> text[i - 1] == tail[i - k - 1];
        assert LineStart(tail, i - k);
      }
    }
  }

  lemma CutEnding(text: string, tail: string)
    requires Ending(text, tail) && WholeLines(tail)
    ensures |Cut(tail)| <= LIMIT
    ensures Ending(text, Cut(tail))
  {
    if |tail| > LIMIT {
      CutIsEnding(tail);
      EndingNested(text, tail, Cut(tail));
    }
  }

  lemma EndingCut(text: string, tail: string, longer: string)
    requires Ending(text, tail) && tail <= longer && WholeLines(longer)
    ensures var prefix := text[..|text| - |tail|];
            text == prefix + tail && text <= prefix + longer
            && Ending(prefix + longer, Cut(longer)) && |Cut(longer)| <= LIMIT
  {
    var prefix, more := text[..|text| - |tail|], longer[|tail|..];
    assert text == prefix + tail && longer == tail + more;
    EndingExtended(text, tail, more);
    ConcatAssociative(prefix, tail, more);
    CutEnding(prefix + longer, longer);
  }

  lemma AppendRefines(parse: Parser, view: LogState, full: Content, chunks: seq<Chunk>)
    requires Refines(view, full)
    ensures Refines(Append(parse, view, chunks), AddChunks(parse, full, chunks))
  {
    var prefix := full.text[..|full.text| - |view.text|];
    var c := Content(view.cursor, view.text, view.steps);
    ChunksAppend(parse, prefix, c, chunks);
    ChunksAppend(parse, "", full, chunks);
    EndingWhole(full.text, view.text);
    EndingCut(full.text, view.text, AddChunks(parse, c, chunks).text);
    assert full == After(prefix, c);
  }

  lemma EndingWhole(text: string, tail: string)
    requires Ending(text, tail) && WholeLines(text)
    ensures WholeLines(tail)
  {
    if tail != "" {
      assert tail[|tail| - 1] == text[|text| - 1];
    }
  }

  /** The view after a session that delivered its chunks in these batches. */
  function View(parse: Parser, batches: seq<seq<Chunk>>): LogState {
    if batches == [] then EMPTY_LOG
    else Append(parse, View(parse, batches[..|batches| - 1]), batches[|batches| - 1])
  }

  /** In every session the bounded view shows the end of the unbounded one: whole lines, at most 512 Ki characters,
      everything while it is not marked as clipped, and marked exactly once there is more. */
  lemma {:induction false} ViewRefines(parse: Parser, batches: seq<seq<Chunk>>)
    ensures Refines(View(parse, batches), AddChunks(parse, NOTHING, Flatten(batches)))
  {
    if batches != [] {
      var init, last := batches[..|batches| - 1], batches[|batches| - 1];
      ViewRefines(parse, init);
      AppendRefines(parse, View(parse, init), AddChunks(parse, NOTHING, Flatten(init)), last);
      ChunksConcat(parse, NOTHING, Flatten(init), last);
    }
  }

  /** Of two maximal ends of one text the longer one has at least `LIMIT` characters. */
  lemma LongerEnding(text: string, a: string, b: string)
    requires Ending(text, a) && Ending(text, b) && |a| < |b|
    ensures |b| >= LIMIT
  {
    assert LineStart(text, |text| - |b|);
  }

  /** How the chunks are cut into batches changes neither cursor, steps nor mark, and changes the text only
      when a clipped one has grown to exactly `LIMIT` characters. */
  lemma BatchingIsIrrelevant(parse: Parser, a: seq<seq<Chunk>>, b: seq<seq<Chunk>>)
    requires Flatten(a) == Flatten(b)
    ensures var v, w := View(parse, a), View(parse, b);
            && v.cursor == w.cursor && v.steps == w.steps && v.clipped == w.clipped
            && (v.text == w.text || (v.clipped && (|v.text| == LIMIT || |w.text| == LIMIT)))
  {
    ViewRefines(parse, a);
    ViewRefines(parse, b);
    var full := AddChunks(parse, NOTHING, Flatten(a)).text;
    var v, w := View(parse, a), View(parse, b);
    if |v.text| < |w.text| {
      LongerEnding(full, v.text, w.text);
    } else if |w.text| < |v.text| {
      LongerEnding(full, w.text, v.text);
    }
  }

  // Exactly when the text depends on the batching.

  /** The unbounded text of some chunks. */
  function Full(parse: Parser, chunks: seq<Chunk>): string {
    AddChunks(parse, NOTHING, chunks).text
  }

  /** `part` is the text so far, already clipped, and what is still shown of it after a cut there grows to exactly
      `LIMIT` characters when `full` is complete. */
  ghost predicate Fills(full: string, part: string) {
    var p := |full| - LIMIT;
    && 0 < p <= |part| && LIMIT < |part| < |full|
    && LineStart(full, p)
    && forall q :: 0 <= q < p && LineStart(full, q) ==> q <= |part| - LIMIT
  }

  /** After some first chunks of the list, a cut leaves a text that the other chunks fill exactly. */
  ghost predicate BatchingMatters(parse: Parser, chunks: seq<Chunk>) {
    exists k {:trigger chunks[..k]} :: 0 <= k <= |chunks| && Fills(Full(parse, chunks), Full(parse, chunks[..k]))
  }

  function Shown(view: LogState): Content {
    Content(view.cursor, view.text, view.steps)
  }

  /** What is appended to the view is appended to the whole text. */
  lemma AppendLonger(parse: Parser, view: LogState, full: Content, chunks: seq<Chunk>)
    requires Refines(view, full)
    ensures var prefix, longer := full.text[..|full.text| - |view.text|], AddChunks(parse, Shown(view), chunks).text;
            && full.text == prefix + view.text && AddChunks(parse, full, chunks).text == prefix + longer
            && view.text <= longer && WholeLines(longer)
  {
    var prefix := full.text[..|full.text| - |view.text|];
    assert full == After(prefix, Shown(view));
    EndingWhole(full.text, view.text);
    ChunksAppend(parse, prefix, Shown(view), chunks);
  }

  lemma AppendText(parse: Parser, view: LogState, full: Content, chunks: seq<Chunk>) returns (more: string)
    requires Refines(view, full)
    ensures AddChunks(parse, full, chunks).text == full.text + more
    ensures Append(parse, view, chunks).text == Cut(view.text + more)
    ensures WholeLines(view.text + more)
  {
    var prefix, longer := full.text[..|full.text| - |view.text|], AddChunks(parse, Shown(view), chunks).text;
    AppendLonger(parse, view, full, chunks);
    more := Regroup(prefix, view.text, longer);
    assert Append(parse, view, chunks).text == Cut(longer);
  }

  lemma Regroup(prefix: string, shown: string, longer: string) returns (more: string)
    requires shown <= longer
    ensures longer == shown + more && prefix + longer == (prefix + shown) + more
  {
    more := longer[|shown|..];
    assert longer == shown + more;
    ConcatAssociative(prefix, shown, more);
  }

  lemma TailFills(part: string, tail: string, more: string)
    requires Ending(part, tail) && |tail| + |more| == LIMIT && |part| > LIMIT && more != ""
    ensures Fills(part + more, part)
  {
    var full := part + more;
    var p := |full| - LIMIT;
    assert p == |part| - |tail|;
    forall q | 0 <= q < p && LineStart(full, q) ensures q <= |part| - LIMIT {
      assert LineStart(part, q);
    }
  }

  lemma FillsTail(full: string, part: string, more: string)
    requires full == part + more && Fills(full, part)
    ensures var p := |full| - LIMIT;
            Ending(part, part[p..]) && |part[p..]| < LIMIT && full[p..] == part[p..] + more
  {
    var p := |full| - LIMIT;
    var tail := part[p..];
    assert part[|part| - |tail|..] == tail;
    forall q | 0 <= q < p && LineStart(part, q) ensures |part| - q >= LIMIT {
      assert LineStart(full, q);
    }
  }

  lemma MattersLonger(parse: Parser, init: seq<Chunk>, last: seq<Chunk>)
    requires BatchingMatters(parse, init) && Full(parse, init + last) == Full(parse, init)
    ensures BatchingMatters(parse, init + last)
  {
    var k :| 0 <= k <= |init| && Fills(Full(parse, init), Full(parse, init[..k]));
    assert (init + last)[..k] == init[..k];
  }

  /** A clipped text of `LIMIT` characters arises only where the chunks allow it. */
  lemma {:induction false} LimitIsFilled(parse: Parser, batches: seq<seq<Chunk>>)
    requires |View(parse, batches).text| == LIMIT && |Full(parse, Flatten(batches))| > LIMIT
    ensures BatchingMatters(parse, Flatten(batches))
  {
    if batches != [] {
      var init, last := batches[..|batches| - 1], batches[|batches| - 1];
      var view, chunks := View(parse, init), Flatten(init);
      ViewRefines(parse, init);
      ChunksConcat(parse, NOTHING, chunks, last);
      var more := AppendText(parse, view, AddChunks(parse, NOTHING, chunks), last);
      assert Flatten(batches) == chunks + last;
      assert |view.text + more| == LIMIT by {
        if |view.text + more| > LIMIT {
          CutIsEnding(view.text + more);
        }
      }
      if more == "" {
        assert view.text + more == view.text && Full(parse, chunks) + more == Full(parse, chunks);
        LimitIsFilled(parse, init);
        MattersLonger(parse, chunks, last);
      } else {
        TailFills(Full(parse, chunks), view.text, more);
        assert (chunks + last)[..|chunks|] == chunks;
      }
    }
  }

  lemma ViewOfOne(parse: Parser, chunks: seq<Chunk>)
    ensures Flatten([chunks]) == chunks
    ensures View(parse, [chunks]).text == Cut(Full(parse, chunks))
    ensures WholeLines(Full(parse, chunks))
  {
    assert [chunks][..0] == [];
    ViewRefines(parse, [chunks]);
  }

  lemma FlattenTwo(a: seq<Chunk>, b: seq<Chunk>)
    ensures Flatten([a, b]) == a + b
  {
    FlattenSnoc([a], b);
    FlattenSnoc([], a);
    var none: seq<seq<Chunk>> := [];
    assert none + [a] == [a] && [a] + [b] == [a, b];
  }

  lemma OnlyTailFills(full: string, part: string, more: string, shown: string)
    requires full == part + more && Fills(full, part) && Ending(part, shown) && |shown| < LIMIT
    ensures |shown + more| == LIMIT
  {
    FillsTail(full, part, more);
    var tail := part[|full| - LIMIT..];
    if |shown| < |tail| {
      LongerEnding(part, shown, tail);
    } else if |tail| < |shown| {
      LongerEnding(part, tail, shown);
    }
  }

  lemma ClippedOfOne(parse: Parser, chunks: seq<Chunk>)
    requires |Full(parse, chunks)| > LIMIT
    ensures |View(parse, [chunks]).text| < LIMIT && Ending(Full(parse, chunks), View(parse, [chunks]).text)
    ensures Refines(View(parse, [chunks]), AddChunks(parse, NOTHING, chunks))
  {
    ViewOfOne(parse, chunks);
    CutIsEnding(Full(parse, chunks));
    ViewRefines(parse, [chunks]);
  }

  /** Where the chunks allow it, delivering them in two batches shows a longer text than delivering them at once. */
  lemma TwoBatchesFill(parse: Parser, first: seq<Chunk>, second: seq<Chunk>)
    requires Fills(Full(parse, first + second), Full(parse, first))
    ensures |View(parse, [first, second]).text| == LIMIT
    ensures |View(parse, [first + second]).text| < LIMIT
  {
    ClippedOfOne(parse, first + second);
    ClippedOfOne(parse, first);
    ChunksConcat(parse, NOTHING, first, second);
    var view := View(parse, [first]);
    var more := AppendText(parse, view, AddChunks(parse, NOTHING, first), second);
    OnlyTailFills(Full(parse, first + second), Full(parse, first), more, view.text);
    assert [first, second][..1] == [first];
  }

  ghost predicate SameForAll(parse: Parser, chunks: seq<Chunk>) {
    forall a, b {:trigger Flatten(a), Flatten(b)} ::
      Flatten(a) == chunks && Flatten(b) == chunks ==> View(parse, a).text == View(parse, b).text
  }

  lemma FilledDiffers(parse: Parser, first: seq<Chunk>, second: seq<Chunk>)
    requires Fills(Full(parse, first + second), Full(parse, first))
    ensures !SameForAll(parse, first + second)
  {
    TwoBatchesFill(parse, first, second);
    FlattenTwo(first, second);
    ViewOfOne(parse, first + second);
    var a, b := [first, second], [first + second];
    assert View(parse, a).text != View(parse, b).text;
    assert Flatten(a) == first + second && Flatten(b) == first + second;
  }

  lemma MattersDiffers(parse: Parser, chunks: seq<Chunk>)
    requires BatchingMatters(parse, chunks)
    ensures !SameForAll(parse, chunks)
  {
    var k :| 0 <= k <= |chunks| && Fills(Full(parse, chunks), Full(parse, chunks[..k]));
    assert chunks == chunks[..k] + chunks[k..];
    FilledDiffers(parse, chunks[..k], chunks[k..]);
  }

  lemma UnfilledAgree(parse: Parser, a: seq<seq<Chunk>>, b: seq<seq<Chunk>>)
    requires Flatten(a) == Flatten(b) && !BatchingMatters(parse, Flatten(a))
    ensures View(parse, a).text == View(parse, b).text
  {
    BatchingIsIrrelevant(parse, a, b);
    ViewRefines(parse, a);
    if View(parse, a).clipped && |View(parse, a).text| == LIMIT {
      LimitIsFilled(parse, a);
    } else if View(parse, a).clipped && |View(parse, b).text| == LIMIT {
      LimitIsFilled(parse, b);
    }
  }

  /** All ways to deliver the chunks show the same text if and only if no first part of them, cut, is filled to
      exactly `LIMIT` characters by the others. */
  lemma BatchingIsExact(parse: Parser, chunks: seq<Chunk>)
    ensures SameForAll(parse, chunks) <==> !BatchingMatters(parse, chunks)
  {
    if BatchingMatters(parse, chunks) {
      MattersDiffers(parse, chunks);
    } else {
      forall a, b | Flatten(a) == chunks && Flatten(b) == chunks ensures View(parse, a).text == View(parse, b).text {
        UnfilledAgree(parse, a, b);
      }
    }
  }

  // It does depend on it: three chunks that show different texts.

  function Line(n: nat): string {
    seq(n, _ => 'x') + "\n"
  }

  lemma {:induction false} SplitLine(n: nat)
    ensures Split(Line(n)) == [Line(n)[..n], ""]
  {
    SplitNone(Line(n)[..n]);
    assert Line(n)[..|Line(n)| - 1] == Line(n)[..n];
  }

  lemma {:induction false} SplitNone(text: string)
    requires forall i :: 0 <= i < |text| ==> text[i] != '\n'
    ensures Split(text) == [text]
  {
    if text != "" {
      var init := text[..|text| - 1];
      SplitNone(init);
      assert init + [text[|text| - 1]] == text;
    }
  }

  const PLAIN: Parser := _ => Garbage

  lemma AddPlainChunk(c: Content, seqNo: int, n: nat)
    requires n > 0 && c.cursor < seqNo
    ensures AddChunk(PLAIN, c, Chunk(seqNo, Line(n))) == c.(cursor := seqNo, text := c.text + Line(n))
  {
    var line := Line(n)[..n];
    SplitLine(n);
    var start := c.(cursor := seqNo);
    assert Split(Line(n))[..1] == [line];
    assert [line][..0] == [];
    assert line + "\n" == Line(n);
    assert AddLines(PLAIN, start, [line]) == AddLine(PLAIN, start, line);
  }

  lemma FullNext(parse: Parser, init: seq<Chunk>, last: Chunk)
    ensures AddChunks(parse, NOTHING, init + [last]) == AddChunk(parse, AddChunks(parse, NOTHING, init), last)
  {
    assert (init + [last])[..|init|] == init;
  }

  const FIRST := Chunk(0, Line(LIMIT - 1))
  const SECOND := Chunk(1, Line(LIMIT - 3))
  const THIRD := Chunk(2, Line(1))

  lemma ThreeLines()
    ensures Full(PLAIN, [FIRST, SECOND]) == Line(LIMIT - 1) + Line(LIMIT - 3)
    ensures Full(PLAIN, [FIRST, SECOND] + [THIRD]) == Line(LIMIT - 1) + Line(LIMIT - 3) + Line(1)
  {
    var none: seq<Chunk> := [];
    assert none + [FIRST] == [FIRST] && [FIRST] + [SECOND] == [FIRST, SECOND];
    assert "" + Line(LIMIT - 1) == Line(LIMIT - 1);
    FullNext(PLAIN, [], FIRST);
    AddPlainChunk(NOTHING, 0, LIMIT - 1);
    FullNext(PLAIN, [FIRST], SECOND);
    AddPlainChunk(AddChunks(PLAIN, NOTHING, [FIRST]), 1, LIMIT - 3);
    FullNext(PLAIN, [FIRST, SECOND], THIRD);
    AddPlainChunk(AddChunks(PLAIN, NOTHING, [FIRST, SECOND]), 2, 1);
  }

  lemma ThreeLinesFill(a: string, b: string, c: string)
    requires a == Line(LIMIT - 1) && |b| == LIMIT - 2 && |c| == 2
    ensures Fills(a + b + c, a + b)
  {
    var full := a + b + c;
    assert full[..LIMIT] == a;
    assert forall i :: 0 <= i < LIMIT - 1 ==> full[i] == a[i] == 'x';
    assert full[LIMIT - 1] == a[LIMIT - 1] == '\n';
  }

  /** Shown one by one, the last two of these lines stay; shown at once, only the last. */
  lemma BatchingCanMatter()
    ensures exists a, b :: Flatten(a) == Flatten(b) && View(PLAIN, a).text != View(PLAIN, b).text
  {
    ThreeLines();
    ThreeLinesFill(Line(LIMIT - 1), Line(LIMIT - 3), Line(1));
    FilledDiffers(PLAIN, [FIRST, SECOND], [THIRD]);
    var a, b :| Flatten(a) == [FIRST, SECOND] + [THIRD] && Flatten(b) == [FIRST, SECOND] + [THIRD]
                && View(PLAIN, a).text != View(PLAIN, b).text;
  }

  lemma {:induction false} SeenChunksAreSkipped(parse: Parser, c: Content, chunks: seq<Chunk>)
    requires forall chunk :: chunk in chunks ==> chunk.seqNo <= c.cursor
    ensures AddChunks(parse, c, chunks) == c
  {
    if chunks != [] {
      SeenChunksAreSkipped(parse, c, chunks[..|chunks| - 1]);
    }
  }

  lemma {:induction false} CursorCovers(parse: Parser, c: Content, chunks: seq<Chunk>)
    ensures var after := AddChunks(parse, c, chunks);
            c.cursor <= after.cursor && forall chunk :: chunk in chunks ==> chunk.seqNo <= after.cursor
  {
    if chunks != [] {
      var init, chunk := chunks[..|chunks| - 1], chunks[|chunks| - 1];
      CursorCovers(parse, c, init);
      LinesKeepCursor(parse, AddChunks(parse, c, init).(cursor := chunk.seqNo), Split(chunk.text));
    }
  }

  lemma {:induction false} LinesKeepCursor(parse: Parser, c: Content, lines: seq<string>)
    ensures AddLines(parse, c, lines).cursor == c.cursor
  {
    if lines != [] {
      LinesKeepCursor(parse, c, lines[..|lines| - 1]);
    }
  }

  /** Chunks that were delivered before, in whatever batch and order, change nothing. */
  lemma ReplayChangesNothing(parse: Parser, batches: seq<seq<Chunk>>, replay: seq<Chunk>)
    requires forall chunk :: chunk in replay ==> chunk in Flatten(batches)
    ensures View(parse, batches + [replay]) == View(parse, batches)
  {
    ViewRefines(parse, batches);
    CursorCovers(parse, NOTHING, Flatten(batches));
    var v := View(parse, batches);
    SeenChunksAreSkipped(parse, Content(v.cursor, v.text, v.steps), replay);
    assert (batches + [replay])[..|batches|] == batches;
  }

  ghost predicate OneRunning(steps: map<string, StepState>) {
    forall a, b :: a in steps && b in steps && steps[a] == Running && steps[b] == Running ==> a == b
  }

  lemma {:induction false} LinesKeepOneRunning(parse: Parser, c: Content, lines: seq<string>)
    requires OneRunning(c.steps)
    ensures OneRunning(AddLines(parse, c, lines).steps)
  {
    if lines != [] {
      LinesKeepOneRunning(parse, c, lines[..|lines| - 1]);
    }
  }

  lemma {:induction false} ChunksKeepOneRunning(parse: Parser, c: Content, chunks: seq<Chunk>)
    requires OneRunning(c.steps)
    ensures OneRunning(AddChunks(parse, c, chunks).steps)
  {
    if chunks != [] {
      var init, chunk := chunks[..|chunks| - 1], chunks[|chunks| - 1];
      ChunksKeepOneRunning(parse, c, init);
      LinesKeepOneRunning(parse, AddChunks(parse, c, init).(cursor := chunk.seqNo), Split(chunk.text));
    }
  }

  /** At most one step is shown as running, even when finish events were dropped. */
  lemma AtMostOneRunning(parse: Parser, batches: seq<seq<Chunk>>)
    ensures OneRunning(View(parse, batches).steps)
  {
    ViewRefines(parse, batches);
    ChunksKeepOneRunning(parse, NOTHING, Flatten(batches));
  }
}
