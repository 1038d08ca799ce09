/** What the outside does to a child process, event by event, and what follows for its streams: nothing is lost, repeated
    or reordered between the system calls and the two ends. */
module ProcessHistory {
  import opened Common

  datatype Stream = Stdin | Stdout | Stderr

  /** What `select` reports for one stream, and what the system call on it then does. */
  datatype Ready = Wrote(count: nat) | BrokenPipe | Read(stream: Stream, data: bytes)

  /** One `select`: whether the job is cancelled or out of time, the ready streams, and if the child has exited. */
  datatype Batch = Batch(stop: bool, ready: seq<Ready>, exited: bool)

  /** Bytes were given to `send`, or a ready stream was seen. */
  datatype Event = Given(data: bytes) | Seen(ready: Ready)

  /** The end of the stream was read. */
  predicate Ended(history: seq<Event>, stream: Stream) {
    Seen(Read(stream, [])) in history
  }

  /** Everything that was read from a stream, up to its end. */
  function ReadFrom(history: seq<Event>, stream: Stream): bytes {
    if history == [] then []
    else
      var init := history[..|history| - 1];
      match history[|history| - 1]
      case Seen(Read(s, data)) => if s == stream && !Ended(init, stream) then ReadFrom(init, stream) + data
                                  else ReadFrom(init, stream)
      case _ => ReadFrom(init, stream)
  }

  /** A write takes the first bytes that wait, at most as many as it reports. */
  function Taken(waiting: bytes, count: nat): nat {
    if count < |waiting| then count else |waiting|
  }

  /** What was given and is not written yet. */
  function Waiting(history: seq<Event>): bytes {
    if history == [] then []
    else
      var waiting := Waiting(history[..|history| - 1]);
      match history[|history| - 1]
      case Given(data) => waiting + data
      case Seen(Wrote(count)) => waiting[Taken(waiting, count)..]
      case _ => waiting
  }

  function WrittenTo(history: seq<Event>): bytes {
    if history == [] then []
    else
      var init := history[..|history| - 1];
      match history[|history| - 1]
      case Seen(Wrote(count)) => WrittenTo(init) + Waiting(init)[..Taken(Waiting(init), count)]
      case _ => WrittenTo(init)
  }

  function GivenTo(history: seq<Event>): bytes {
    if history == [] then []
    else
      var init := history[..|history| - 1];
      match history[|history| - 1]
      case Given(data) => GivenTo(init) + data
      case _ => GivenTo(init)
  }

  function ReadyOf(batches: seq<Batch>): seq<Ready> {
    if batches == [] then [] else ReadyOf(batches[..|batches| - 1]) + batches[|batches| - 1].ready
  }

  lemma ReadyOfNext(batches: seq<Batch>, batch: Batch)
    ensures ReadyOf(batches + [batch]) == ReadyOf(batches) + batch.ready
  {
    assert (batches + [batch])[..|batches|] == batches;
  }

  lemma HistoryInit(history: seq<Event>, event: Event)
    ensures (history + [event])[..|history + [event]| - 1] == history
  {
  }

  lemma GivenNext(history: seq<Event>, data: bytes)
    ensures var next := history + [Given(data)];
            && Waiting(next) == Waiting(history) + data && WrittenTo(next) == WrittenTo(history)
            && GivenTo(next) == GivenTo(history) + data
  {
    HistoryInit(history, Given(data));
  }

  lemma ReadNext(history: seq<Event>, stream: Stream, data: bytes)
    ensures var next := history + [Seen(Read(stream, data))];
            && Waiting(next) == Waiting(history) && WrittenTo(next) == WrittenTo(history)
            && GivenTo(next) == GivenTo(history)
  {
    HistoryInit(history, Seen(Read(stream, data)));
  }

  lemma WroteNext(history: seq<Event>, count: nat)
    ensures var next, n := history + [Seen(Wrote(count))], Taken(Waiting(history), count);
            && Waiting(next) == Waiting(history)[n..] && WrittenTo(next) == WrittenTo(history) + Waiting(history)[..n]
            && GivenTo(next) == GivenTo(history)
  {
    HistoryInit(history, Seen(Wrote(count)));
  }

  lemma BrokenNext(history: seq<Event>)
    ensures var next := history + [Seen(BrokenPipe)];
            && Waiting(next) == Waiting(history) && WrittenTo(next) == WrittenTo(history)
            && GivenTo(next) == GivenTo(history)
  {
    HistoryInit(history, Seen(BrokenPipe));
  }

  /** Only a read of a stream adds to what was read from it. */
  lemma OtherNext(history: seq<Event>, event: Event, s: Stream)
    requires !(event.Seen? && event.ready.Read?)
    ensures ReadFrom(history + [event], s) == ReadFrom(history, s)
    ensures Ended(history + [event], s) <==> Ended(history, s)
  {
    HistoryInit(history, event);
  }

  lemma DataNext(history: seq<Event>, stream: Stream, data: bytes, s: Stream)
    ensures var next := history + [Seen(Read(stream, data))];
            && ReadFrom(next, s) == (if s == stream && !Ended(history, s) then ReadFrom(history, s) + data
                                     else ReadFrom(history, s))
            && (Ended(next, s) <==> Ended(history, s) || (s == stream && data == []))
  {
    HistoryInit(history, Seen(Read(stream, data)));
  }

  /** Whatever the sizes of the writes: what was written and what waits is what was given, in order. */
  lemma {:induction false} NothingIsLost(history: seq<Event>)
    ensures WrittenTo(history) + Waiting(history) == GivenTo(history)
  {
    if history != [] {
      var init, last := history[..|history| - 1], history[|history| - 1];
      NothingIsLost(init);
      var a, b := WrittenTo(init), Waiting(init);
      match last {
        case Given(data) => ConcatAssociative(a, b, data);
        case Seen(Wrote(count)) =>
          var n := Taken(b, count);
          ConcatAssociative(a, b[..n], b[n..]);
          assert b == b[..n] + b[n..];
        case _ =>
      }
    }
  }

  /** Data that arrives before the end of its stream is read in full, and nothing that arrives after it. */
  lemma {:induction false} EndIsFinal(history: seq<Event>, later: seq<Event>, stream: Stream)
    requires Ended(history, stream)
    ensures ReadFrom(history + later, stream) == ReadFrom(history, stream) && Ended(history + later, stream)
  {
    if later == [] {
      assert history + later == history;
    } else {
      var init := later[..|later| - 1];
      EndIsFinal(history, init, stream);
      assert (history + later)[..|history + later| - 1] == history + init;
    }
  }

  function Reads(stream: Stream, chunks: seq<bytes>): seq<Event> {
    seq(|chunks|, i requires 0 <= i < |chunks| => Seen(Read(stream, chunks[i])))
  }

  /** Reads of any sizes add up. */
  lemma {:induction false} ReadsAddUp(stream: Stream, chunks: seq<bytes>)
    requires forall i :: 0 <= i < |chunks| ==> chunks[i] != []
    ensures ReadFrom(Reads(stream, chunks), stream) == Flatten(chunks) && !Ended(Reads(stream, chunks), stream)
  {
    if chunks != [] {
      var n := |chunks| - 1;
      ReadsAddUp(stream, chunks[..n]);
      assert Reads(stream, chunks)[..n] == Reads(stream, chunks[..n]);
    }
  }

  // The fields of a process along its history.

  datatype Streams = Streams(keepLines: bool, registered: set<Stream>, pending: bytes, given: bytes, written: bytes,
                             out: bytes, total: nat, stdoutFile: bytes, stderrFile: bytes)

  function Begun(keepLines: bool): Streams {
    Streams(keepLines, {Stdout, Stderr}, [], [], [], [], 0, [], [])
  }

  predicate SameOutputs(a: Streams, b: Streams) {
    (Stdout in b.registered <==> Stdout in a.registered) && (Stderr in b.registered <==> Stderr in a.registered)
  }

  /** Bytes from an output stream go to its file, and from stdout to the records; above the limit they only count. */
  function Added(a: Streams, stream: Stream, data: bytes, limit: nat): Streams {
    var counted := a.(total := a.total + |data|);
    if counted.total > limit then counted
    else if stream == Stderr then counted.(stderrFile := a.stderrFile + data)
    else counted.(stdoutFile := a.stdoutFile + data, out := if a.keepLines then a.out + data else a.out)
  }

  lemma AddedIs(a: Streams, b: Streams, stream: Stream, data: bytes, limit: nat)
    requires stream != Stdin && data != [] && stream in a.registered
    requires b == a.(total := a.total + |data|, stdoutFile := b.stdoutFile, stderrFile := b.stderrFile, out := b.out)
    requires b.total > limit ==> (b.stdoutFile, b.stderrFile, b.out) == (a.stdoutFile, a.stderrFile, a.out)
    requires b.total <= limit && stream == Stdout ==>
               && b.stdoutFile == a.stdoutFile + data && b.stderrFile == a.stderrFile
               && b.out == if a.keepLines then a.out + data else a.out
    requires b.total <= limit && stream == Stderr ==>
               b.stderrFile == a.stderrFile + data && b.stdoutFile == a.stdoutFile && b.out == a.out
    ensures Follows(a, Seen(Read(stream, data)), b, limit)
  {
  }

  /** What one event does to the fields. */
  ghost predicate Follows(a: Streams, event: Event, b: Streams, limit: nat) {
    match event
    case Given(data) =>
      b == a.(pending := a.pending + data, given := a.given + data, registered := b.registered) && SameOutputs(a, b)
    case Seen(Wrote(count)) =>
      var n := Taken(a.pending, count);
      b == a.(pending := a.pending[n..], written := a.written + a.pending[..n], registered := b.registered)
      && SameOutputs(a, b)
    case Seen(BrokenPipe) => b == a
    case Seen(Read(stream, data)) =>
      if stream == Stdin || stream !in a.registered then b == a
      else if data == [] then b == a.(registered := a.registered - {stream})
      else b == Added(a, stream, data, limit)
  }

  datatype Moment = Moment(before: Streams, event: Event)

  /** The fields went through these moments to `s`. */
  ghost predicate RunsTo(log: seq<Moment>, s: Streams, limit: nat) {
    if log == [] then s == Begun(s.keepLines)
    else
      var last := log[|log| - 1];
      RunsTo(log[..|log| - 1], last.before, limit) && Follows(last.before, last.event, s, limit)
  }

  function Events(log: seq<Moment>): seq<Event> {
    seq(|log|, i requires 0 <= i < |log| => log[i].event)
  }

  /** The ready streams among the events. */
  function Handled(log: seq<Moment>): seq<Ready> {
    if log == [] then []
    else
      var init, last := Handled(log[..|log| - 1]), log[|log| - 1].event;
      if last.Seen? then init + [last.ready] else init
  }

  lemma RunsNext(log: seq<Moment>, a: Streams, event: Event, b: Streams, limit: nat)
    requires RunsTo(log, a, limit) && Follows(a, event, b, limit)
    ensures RunsTo(log + [Moment(a, event)], b, limit)
    ensures Handled(log + [Moment(a, event)]) ==
            if event.Seen? then Handled(log) + [event.ready] else Handled(log)
  {
    assert (log + [Moment(a, event)])[..|log|] == log;
  }

  /** What the fields say of the history. */
  ghost predicate Reflects(s: Streams, history: seq<Event>, limit: nat) {
    ReflectsWrites(s, history) && ReflectsReads(s, history) && (s.total <= limit ==> ReflectsFiles(s, history))
  }

  ghost predicate ReflectsWrites(s: Streams, history: seq<Event>) {
    s.pending == Waiting(history) && s.written == WrittenTo(history) && s.given == GivenTo(history)
  }

  ghost predicate ReflectsReads(s: Streams, history: seq<Event>) {
    && s.total == |ReadFrom(history, Stdout)| + |ReadFrom(history, Stderr)|
    && (Stdout in s.registered <==> !Ended(history, Stdout)) && (Stderr in s.registered <==> !Ended(history, Stderr))
  }

  ghost predicate ReflectsFiles(s: Streams, history: seq<Event>) {
    && s.stdoutFile == ReadFrom(history, Stdout) && s.stderrFile == ReadFrom(history, Stderr)
    && s.out == if s.keepLines then ReadFrom(history, Stdout) else []
  }

  lemma NoReadReflects(a: Streams, history: seq<Event>, event: Event, b: Streams, limit: nat)
    requires Reflects(a, history, limit) && !(event.Seen? && event.ready.Read?)
    requires SameOutputs(a, b) && b == a.(pending := b.pending, given := b.given, written := b.written,
                                          registered := b.registered)
    requires ReflectsWrites(b, history + [event])
    ensures Reflects(b, history + [event], limit)
  {
    OtherNext(history, event, Stdout);
    OtherNext(history, event, Stderr);
  }

  /** A read that changes at most what is registered. */
  lemma NothingReflects(a: Streams, history: seq<Event>, stream: Stream, data: bytes, b: Streams, limit: nat)
    requires Reflects(a, history, limit) && Follows(a, Seen(Read(stream, data)), b, limit)
    requires stream == Stdin || stream !in a.registered || data == []
    ensures Reflects(b, history + [Seen(Read(stream, data))], limit)
  {
    ReadNext(history, stream, data);
    DataNext(history, stream, data, Stdout);
    DataNext(history, stream, data, Stderr);
    assert data == [] ==> ReadFrom(history, stream) + data == ReadFrom(history, stream);
  }

  lemma DataReflects(a: Streams, history: seq<Event>, stream: Stream, data: bytes, limit: nat)
    requires Reflects(a, history, limit) && stream != Stdin && stream in a.registered && data != []
    ensures Reflects(Added(a, stream, data, limit), history + [Seen(Read(stream, data))], limit)
  {
    ReadNext(history, stream, data);
    DataNext(history, stream, data, Stdout);
    DataNext(history, stream, data, Stderr);
  }

  lemma NextReflects(a: Streams, history: seq<Event>, event: Event, b: Streams, limit: nat)
    requires Reflects(a, history, limit) && Follows(a, event, b, limit)
    ensures Reflects(b, history + [event], limit)
  {
    match event {
      case Given(data) =>
        GivenNext(history, data);
        NoReadReflects(a, history, event, b, limit);
      case Seen(Wrote(count)) =>
        WroteNext(history, count);
        NoReadReflects(a, history, event, b, limit);
      case Seen(BrokenPipe) =>
        BrokenNext(history);
        NoReadReflects(a, history, event, b, limit);
      case Seen(Read(stream, data)) =>
        if stream == Stdin || stream !in a.registered || data == [] {
          NothingReflects(a, history, stream, data, b, limit);
        } else {
          DataReflects(a, history, stream, data, limit);
        }
    }
  }

  /** After any run the fields hold what was read, written and given. */
  lemma {:induction false} RunReflects(log: seq<Moment>, s: Streams, limit: nat)
    requires RunsTo(log, s, limit)
    ensures Reflects(s, Events(log), limit)
  {
    if log != [] {
      var n := |log| - 1;
      RunReflects(log[..n], log[n].before, limit);
      NextReflects(log[n].before, Events(log[..n]), log[n].event, s, limit);
      assert Events(log) == Events(log[..n]) + [log[n].event];
    }
  }
}
