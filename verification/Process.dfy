/** `macqueue/process.py`: one child process, its bounded output, and JSON-lines requests to it. */
module Process {
  import opened Common
  import opened Lines
  import opened ProcessHistory

  const QUEUED_LINES: nat := 64

  datatype Failure = Stopped | StdinClosed | OutputLimit | RecordTooLong | TooManyLines | NoRecord | NotAnObject
                   | PendingWrite | UnexpectedOutput | IncompleteOutput | BadExit

  datatype Outcome = Fine | Failed(failure: Failure)

  /** The part of a process that its callers reason about. */
  datatype View = View(streams: Streams, popped: seq<bytes>)

  /** What pumping does: streams only close, output only grows, nothing is read after the end of stdout. */
  ghost predicate Advances(a: View, b: View) {
    var s, t := a.streams, b.streams;
    && t.keepLines == s.keepLines && t.given == s.given && b.popped == a.popped
    && t.registered <= s.registered
    && s.out <= t.out && s.written <= t.written
    && (Stdout !in s.registered || !s.keepLines ==> t.out == s.out)
    && (Stdin !in s.registered ==> t.pending == s.pending)
  }

  lemma AdvancesTransitive(a: View, b: View, c: View)
    requires Advances(a, b) && Advances(b, c)
    ensures Advances(a, c)
  {
  }

  lemma PrefixNext<T>(a: seq<T>, b: seq<T>, i: nat)
    requires i < |b|
    ensures a + b[..i] + [b[i]] == a + b[..i + 1] <= a + b
  {
  }

  ghost predicate AnyExited(past: seq<Batch>) {
    exists i :: 0 <= i < |past| && past[i].exited
  }

  lemma Consumed(past: seq<Batch>, future: seq<Batch>)
    requires future != []
    ensures past + future == (past + [future[0]]) + future[1..]
    ensures ReadyOf(past + [future[0]]) == ReadyOf(past) + future[0].ready
    ensures AnyExited(past + [future[0]]) <==> future[0].exited || AnyExited(past)
  {
    ReadyOfNext(past, future[0]);
    var longer := past + [future[0]];
    assert longer[|past|] == future[0];
    assert forall i :: 0 <= i < |past| ==> longer[i] == past[i];
  }

  /** The bytes of consecutive requests, each ended by a newline. */
  function Encoded(requests: seq<bytes>): bytes {
    Join(requests)
  }

  /** What had been written and read when the writing of a request began; the child may answer before it ends. */
  datatype Turn = Turn(written: bytes, records: seq<bytes>)

  /** The writing of request `i` began when exactly the requests before it had been written, and exactly the ready
      record and their responses had been read. */
  ghost predicate Paired(turns: seq<Turn>, requests: seq<bytes>, records: seq<bytes>) {
    && |turns| == |requests| && |records| == 1 + |requests|
    && forall i :: 0 <= i < |turns| ==> turns[i] == Turn(Encoded(requests[..i]), records[..i + 1])
  }

  lemma PairedNext(turns: seq<Turn>, requests: seq<bytes>, records: seq<bytes>, request: bytes, response: bytes)
    requires Paired(turns, requests, records)
    ensures Paired(turns + [Turn(Encoded(requests), records)], requests + [request], records + [response])
  {
    var n := |requests|;
    var longer, more := requests + [request], records + [response];
    forall i | 0 <= i <= n
      ensures (turns + [Turn(Encoded(requests), records)])[i] == Turn(Encoded(longer[..i]), more[..i + 1])
    {
      assert more[..i + 1] == records[..i + 1];
      if i < n {
        assert longer[..i] == requests[..i];
      } else {
        assert longer[..i] == requests && records[..i + 1] == records;
      }
    }
  }

  lemma EncodedNext(requests: seq<bytes>, request: bytes)
    ensures Encoded(requests + [request]) == Encoded(requests) + request + [NEWLINE]
  {
    assert (requests + [request])[..|requests|] == requests;
  }

  class Process {
    const maxOutput: nat
    const maxRecord: nat
    /** Whether a line is a JSON object, and the exit status. */
    const isObject: bytes -> bool
    const exitCode: int

    var keepLines: bool
    var total: nat
    var pending: bytes
    var lines: seq<bytes>
    var partial: bytes
    var registered: set<Stream>
    var exited: bool
    var stdoutFile: bytes
    var stderrFile: bytes
    /** What the child and the clock are going to do. */
    var future: seq<Batch>

    /** All stdout read with `keep_lines` on, the records popped from it, and the bytes given and written to stdin. */
    ghost var out: bytes
    ghost var popped: seq<bytes>
    ghost var given: bytes
    ghost var written: bytes
    /** One entry for each request. */
    ghost var turns: seq<Turn>
    /** What has happened so far, and the part of the whole scenario that it comes from. */
    ghost var log: seq<Moment>
    ghost var past: seq<Batch>
    ghost const scenario: seq<Batch>

    ghost predicate Valid()
      reads this
    {
      && popped + lines == NonBlank(Complete(out))
      && partial == Tail(out)
      && Fits(out, maxRecord)
      && |lines| <= QUEUED_LINES
      && written + pending == given
      && (Stdin in registered <==> pending != [])
    }

    ghost predicate Logged()
      reads this
    {
      RunsTo(log, Streams(), maxOutput)
    }

    ghost predicate Linked()
      reads this
    {
      scenario == past + future && (exited <==> AnyExited(past))
    }

    /** Between two calls of `pump`: everything that happened in the past is in the log. */
    ghost predicate Steady()
      reads this
    {
      Valid() && Logged() && Linked() && Handled(log) == ReadyOf(past) && total <= maxOutput
    }

    /** The fields hold the reason for a failure. */
    ghost predicate Because(failure: Failure)
      reads this
    {
      && (total <= maxOutput || failure == OutputLimit)
      && match failure
         case Stopped => future == [] || future[0].stop
         case StdinClosed => log != [] && log[|log| - 1].event == Seen(BrokenPipe) && pending != []
         case OutputLimit => total > maxOutput
         case RecordTooLong => !SegmentsFit(out, maxRecord)
         case TooManyLines => |popped| + QUEUED_LINES < |NonBlank(Complete(out))|
         case NoRecord => Stdout !in registered && |popped| == |NonBlank(Complete(out))|
         case NotAnObject => popped != [] && !isObject(popped[|popped| - 1])
         case PendingWrite => pending != []
         case UnexpectedOutput => |popped| < |NonBlank(Complete(out))|
         case IncompleteOutput => Tail(out) != []
         case BadExit => exitCode != 0
    }

    /** A failure, with its reason, after a part of the scenario. */
    ghost predicate Failing(failure: Failure)
      reads this
    {
      Logged() && Because(failure) && scenario == past + future && Handled(log) <= ReadyOf(past)
    }

    /** The reason in terms of what was read, written and given. */
    ghost predicate Explains(failure: Failure)
      reads this
    {
      var history := Events(log);
      var stdout, stderr := ReadFrom(history, Stdout), ReadFrom(history, Stderr);
      && scenario == past + future && Handled(log) <= ReadyOf(past)
      && match failure
         case Stopped => future == [] || future[0].stop
         case StdinClosed => history != [] && history[|history| - 1] == Seen(BrokenPipe) && Waiting(history) != []
         case OutputLimit => |stdout| + |stderr| > maxOutput
         case RecordTooLong => !SegmentsFit(stdout, maxRecord)
         case TooManyLines => |popped| + 64 < |NonBlank(Complete(stdout))|
         case NoRecord => Ended(history, Stdout) && |popped| == |NonBlank(Complete(stdout))|
         case NotAnObject => popped != [] && !isObject(popped[|popped| - 1])
         case PendingWrite => Waiting(history) != []
         case UnexpectedOutput => |popped| < |NonBlank(Complete(stdout))|
         case IncompleteOutput => Tail(stdout) != []
         case BadExit => exitCode != 0
    }

    lemma FailureIsExplained(failure: Failure)
      requires Failing(failure) && keepLines
      ensures Explains(failure)
    {
      RunReflects(log, Streams(), maxOutput);
    }

    ghost predicate IsNew()
      reads this
    {
      out == [] && popped == [] && given == [] && pending == [] && turns == [] && log == []
    }

    /** A started process: nothing read or written yet. */
    constructor (maxOutput: nat, maxRecordBytes: nat, isObject: bytes -> bool, exitCode: int, future: seq<Batch>)
      ensures Valid() && IsNew() && Steady() && keepLines == false && this.maxOutput == maxOutput && scenario == future
      ensures this.maxRecord == (if maxRecordBytes < maxOutput then maxRecordBytes else maxOutput)
      ensures this.isObject == isObject && this.future == future && this.exitCode == exitCode
    {
      this.maxOutput := maxOutput;
      this.maxRecord := if maxRecordBytes < maxOutput then maxRecordBytes else maxOutput;
      this.isObject, this.exitCode, this.future := isObject, exitCode, future;
      keepLines, total, pending, lines, partial := false, 0, [], [], [];
      registered, exited, stdoutFile, stderrFile := {Stdout, Stderr}, false, [], [];
      out, popped, given, written, turns := [], [], [], [], [];
      log, past, scenario := [], [], future;
    }

    static method Find(s: bytes, from: nat) returns (newline: Option<nat>)
      requires from <= |s| && NoNewline(s[..from])
      ensures newline.None? ==> NoNewline(s)
      ensures newline.Some? ==> newline.value < |s| && s[newline.value] == NEWLINE && NoNewline(s[..newline.value])
    {
      var i := from;
      while i < |s|
        invariant from <= i <= |s| && NoNewline(s[..i])
      {
        if s[i] == NEWLINE {
          return Some(i);
        }
        i := i + 1;
      }
      return None;
    }

    /** `done` are the lines already taken off the front of `partial`, all but the blank ones popped or queued. */
    static ghost predicate Taken(out: bytes, partial: bytes, done: seq<bytes>, records: seq<bytes>, limit: nat) {
      && done + Complete(partial) == Complete(out) && Tail(partial) == Tail(out)
      && records == NonBlank(done)
      && AllWithin(done, limit)
    }

    static ghost predicate AllWithin(lines: seq<bytes>, limit: nat) {
      forall k :: 0 <= k < |lines| ==> |lines[k]| <= limit
    }

    static lemma WithinSnoc(lines: seq<bytes>, line: bytes, limit: nat)
      requires AllWithin(lines, limit) && |line| <= limit
      ensures AllWithin(lines + [line], limit)
    {
    }

    /** In the middle of splitting. */
    ghost predicate Splitting(done: seq<bytes>)
      reads this
    {
      && Taken(out, partial, done, popped + lines, maxRecord) && |lines| <= QUEUED_LINES
      && written + pending == given
      && (Stdin in registered <==> pending != [])
    }

    /** Taking one more line off what is left. */
    static lemma OneMore(whole: seq<bytes>, done: seq<bytes>, line: bytes, rest: seq<bytes>, records: seq<bytes>)
      requires done + ([line] + rest) == whole && records == NonBlank(done)
      ensures (done + [line]) + rest == whole
      ensures var next := if Blank(line) then records else records + [line];
              NonBlank(done + [line]) == next && |next| <= |NonBlank(whole)|
    {
      ConcatAssociative(done, [line], rest);
      NonBlankSnoc(done, line);
      NonBlankConcat(done + [line], rest);
    }

    static lemma LineTaken(out: bytes, partial: bytes, newline: nat, done: seq<bytes>, records: seq<bytes>, limit: nat)
      requires newline < |partial| && partial[newline] == NEWLINE && NoNewline(partial[..newline])
      requires Taken(out, partial, done, records, limit)
      ensures var line, rest := partial[..newline], partial[newline + 1..];
              var next := if Blank(line) then records else records + [line];
              && (newline <= limit ==> Taken(out, rest, done + [line], next, limit))
              && |next| <= |NonBlank(Complete(out))|
    {
      var line, rest := partial[..newline], partial[newline + 1..];
      FirstLine(partial, newline);
      OneMore(Complete(out), done, line, Complete(rest), records);
      if newline <= limit {
        WithinSnoc(done, line, limit);
      }
    }

    static lemma LineTooLong(out: bytes, partial: bytes, newline: nat, done: seq<bytes>, records: seq<bytes>, limit: nat)
      requires newline < |partial| && partial[newline] == NEWLINE && NoNewline(partial[..newline])
      requires Taken(out, partial, done, records, limit) && newline > limit
      ensures !SegmentsFit(out, limit)
    {
      FirstLine(partial, newline);
      assert Complete(out)[|done|] == partial[..newline];
      FitsIffSegmentsFit(out, limit);
    }

    /** Queue a line unless it is blank. */
    method Enqueue(line: bytes) returns (r: Outcome)
      requires |lines| <= QUEUED_LINES
      modifies this`lines
      ensures popped + lines == if Blank(line) then old(popped + lines) else old(popped + lines) + [line]
      ensures r == if |lines| > QUEUED_LINES then Failed(TooManyLines) else Fine
    {
      if !Blank(line) {
        ConcatAssociative(popped, lines, [line]);
        lines := lines + [line];
        if |lines| > QUEUED_LINES {
          return Failed(TooManyLines);
        }
      }
      return Fine;
    }

    /** Take the line that ends at `newline`. */
    method TakeLine(newline: nat) returns (r: Outcome)
      requires newline < |partial| && |lines| <= QUEUED_LINES
      modifies this`lines, this`partial
      ensures newline > maxRecord ==> r == Failed(RecordTooLong)
      ensures newline <= maxRecord ==>
                && partial == old(partial)[newline + 1..]
                && popped + lines == (if Blank(old(partial)[..newline]) then old(popped + lines)
                                      else old(popped + lines) + [old(partial)[..newline]])
                && r == if |lines| > QUEUED_LINES then Failed(TooManyLines) else Fine
    {
      var line := partial[..newline];
      if newline > maxRecord {
        return Failed(RecordTooLong);
      }
      partial := partial[newline + 1..];
      r := Enqueue(line);
    }

    /** One turn of the splitting loop. */
    method SplitLine(newline: nat, ghost done: seq<bytes>) returns (r: Outcome)
      requires Splitting(done)
      requires newline < |partial| && partial[newline] == NEWLINE && NoNewline(partial[..newline])
      modifies this`lines, this`partial
      ensures r.Fine? ==> Splitting(done + [old(partial)[..newline]]) && partial == old(partial)[newline + 1..]
      ensures r.Failed? ==> r.failure == RecordTooLong || r.failure == TooManyLines
      ensures r == Failed(RecordTooLong) ==> !SegmentsFit(out, maxRecord)
      ensures r == Failed(TooManyLines) ==> |popped| + QUEUED_LINES < |NonBlank(Complete(out))|
    {
      ghost var before, records := partial, popped + lines;
      r := TakeLine(newline);
      if newline > maxRecord {
        LineTooLong(out, before, newline, done, records, maxRecord);
      } else {
        LineTaken(out, before, newline, done, records, maxRecord);
        assert |popped + lines| == |popped| + |lines|;
      }
    }

    /** Append newly read bytes to what is left of the bytes before. */
    method Extend(data: bytes)
      requires Valid()
      modifies this`partial, this`out
      ensures out == old(out) + data && partial == old(partial) + data
      ensures Splitting(Complete(old(out))) && NoNewline(old(partial))
    {
      JoinSplit(out);
      SplitConcat(out, data);
      partial := partial + data;
      out := out + data;
    }

    lemma AllTaken(done: seq<bytes>)
      requires Splitting(done) && NoNewline(partial)
      ensures |partial| <= maxRecord ==> Valid()
      ensures |partial| <= maxRecord <==> SegmentsFit(out, maxRecord)
    {
      NoNewlineSplit(partial);
      assert done + [] == done;
      FitsIffSegmentsFit(out, maxRecord);
    }

    /**
     The splitting part of `pump`. It searches only the new bytes, yet it agrees with splitting everything read
     so far; and apart from the limit of 64 queued lines it fails exactly when a record is too long.
     */
    method Split(data: bytes) returns (r: Outcome)
      requires Valid()
      modifies this`lines, this`partial, this`out
      ensures out == old(out) + data
      ensures r.Fine? ==> Valid()
      ensures r.Failed? ==> r.failure == RecordTooLong || r.failure == TooManyLines
      ensures r != Failed(TooManyLines) ==> (r == Failed(RecordTooLong) <==> !SegmentsFit(out, maxRecord))
      ensures r == Failed(TooManyLines) ==> |popped| + QUEUED_LINES < |NonBlank(Complete(out))|
    {
      var searchFrom := |partial|;
      ghost var done := Complete(out);
      Extend(data);
      assert partial[..searchFrom] == old(partial);
      var newline: Option<nat> := Find(partial, searchFrom);
      while newline.Some?
        invariant Splitting(done) && out == old(out) + data
        invariant newline.None? ==> NoNewline(partial)
        invariant newline.Some? ==>
                    newline.value < |partial| && partial[newline.value] == NEWLINE && NoNewline(partial[..newline.value])
        decreases |partial|
      {
        ghost var before := partial;
        r := SplitLine(newline.value, done);
        done := done + [before[..newline.value]];
        if r.Failed? {
          return r;
        }
        searchFrom := 0;
        newline := Find(partial, searchFrom);
      }
      AllTaken(done);
      if |partial| > maxRecord {
        return Failed(RecordTooLong);
      }
      return Fine;
    }

    ghost function Streams(): Streams
      reads this
    {
      ProcessHistory.Streams.Streams(keepLines, registered, pending, given, written, out, total, stdoutFile, stderrFile)
    }

    ghost function Now(): View
      reads this
    {
      View(Streams(), popped)
    }

    /** One ready stream. */
    method Handle(ready: Ready) returns (r: Outcome)
      requires Valid() && total <= maxOutput
      modifies this`registered, this`total, this`lines, this`partial, this`out
      modifies this`pending, this`written, this`stdoutFile, this`stderrFile
      ensures r.Fine? ==> Valid() && total <= maxOutput
      ensures Follows(old(Streams()), Seen(ready), Streams(), maxOutput)
      ensures r.Failed? ==>
                && (total <= maxOutput || r.failure == OutputLimit)
                && match r.failure
                   case StdinClosed => ready == BrokenPipe && pending != []
                   case OutputLimit => total > maxOutput
                   case RecordTooLong => !SegmentsFit(out, maxRecord)
                   case TooManyLines => |popped| + QUEUED_LINES < |NonBlank(Complete(out))|
                   case _ => false
      ensures Advances(old(Now()), Now())
    {
      match ready {
        case Wrote(count) =>
          if Stdin in registered {
            WriteSome(count);
          } else {
            assert written + [] == written;
          }
          return Fine;
        case BrokenPipe =>
          return if Stdin in registered then Failed(StdinClosed) else Fine;
        case Read(stream, data) =>
          r := HandleRead(stream, data);
      }
    }

    /** `os.read` on one stream returned some bytes, or none at its end. */
    method HandleRead(stream: Stream, data: bytes) returns (r: Outcome)
      requires Valid() && total <= maxOutput
      modifies this`registered, this`total, this`lines, this`partial, this`out, this`stdoutFile, this`stderrFile
      ensures r.Fine? ==> Valid() && total <= maxOutput
      ensures Follows(old(Streams()), Seen(Read(stream, data)), Streams(), maxOutput)
      ensures r.Failed? ==>
                && (total <= maxOutput || r.failure == OutputLimit)
                && match r.failure
                   case OutputLimit => total > maxOutput
                   case RecordTooLong => !SegmentsFit(out, maxRecord)
                   case TooManyLines => |popped| + QUEUED_LINES < |NonBlank(Complete(out))|
                   case _ => false
      ensures Advances(old(Now()), Now())
    {
      if stream == Stdin || stream !in registered {
        return Fine;
      }
      if data == [] {
        registered := registered - {stream};
        return Fine;
      }
      ghost var before := Streams();
      r := Receive(stream, data);
      AddedIs(before, Streams(), stream, data, maxOutput);
    }

    /** Bytes arrived on one of the output streams. */
    method Receive(stream: Stream, data: bytes) returns (r: Outcome)
      requires Valid() && stream in registered && stream != Stdin
      modifies this`total, this`lines, this`partial, this`out, this`stdoutFile, this`stderrFile
      ensures r.Fine? ==> Valid()
      ensures total == old(total) + |data|
      ensures r == Failed(OutputLimit) <==> total > maxOutput
      ensures total > maxOutput ==> unchanged(`out, `stdoutFile, `stderrFile)
      ensures total <= maxOutput && stream == Stdout ==>
                && stdoutFile == old(stdoutFile) + data && stderrFile == old(stderrFile)
                && out == if keepLines then old(out) + data else old(out)
      ensures total <= maxOutput && stream == Stderr ==>
                stderrFile == old(stderrFile) + data && stdoutFile == old(stdoutFile) && out == old(out)
      ensures r.Failed? && r != Failed(OutputLimit) ==>
                || (r == Failed(RecordTooLong) && !SegmentsFit(out, maxRecord))
                || (r == Failed(TooManyLines) && |popped| + QUEUED_LINES < |NonBlank(Complete(out))|)
    {
      total := total + |data|;
      if total > maxOutput {
        return Failed(OutputLimit);
      }
      if stream == Stdout {
        stdoutFile := stdoutFile + data;
      } else {
        stderrFile := stderrFile + data;
      }
      r := Fine;
      if keepLines && stream == Stdout {
        r := Split(data);
      }
    }

    /** `os.write` takes some prefix of the pending bytes. */
    method WriteSome(count: nat)
      requires Valid() && Stdin in registered
      modifies this`registered, this`pending, this`written
      ensures Valid()
      ensures var n := if count < |old(pending)| then count else |old(pending)|;
              written == old(written) + old(pending)[..n] && pending == old(pending)[n..]
      ensures registered == if pending == [] then old(registered) - {Stdin} else old(registered)
    {
      var n := if count < |pending| then count else |pending|;
      ConcatAssociative(written, pending[..n], pending[n..]);
      assert pending == pending[..n] + pending[n..];
      written := written + pending[..n];
      pending := pending[n..];
      if pending == [] {
        registered := registered - {Stdin};
      }
    }

    /** One ready stream, and an entry in the log. */
    method HandleNext(ready: Ready) returns (r: Outcome)
      requires Valid() && Logged() && total <= maxOutput
      modifies this`registered, this`total, this`lines, this`partial, this`out, this`log
      modifies this`pending, this`written, this`stdoutFile, this`stderrFile
      ensures Logged() && Handled(log) == Handled(old(log)) + [ready]
      ensures r.Fine? ==> Valid() && total <= maxOutput
      ensures r.Failed? ==> Because(r.failure) && r.failure != Stopped && r.failure != PendingWrite
      ensures Advances(old(Now()), Now())
    {
      ghost var before := Streams();
      r := Handle(ready);
      RunsNext(log, before, Seen(ready), Streams(), maxOutput);
      log := log + [Moment(before, Seen(ready))];
    }

    /** The streams that one `select` reports, in turn. */
    method HandleAll(ready: seq<Ready>) returns (r: Outcome)
      requires Valid() && Logged() && total <= maxOutput
      modifies this`registered, this`total, this`lines, this`partial, this`out, this`log
      modifies this`pending, this`written, this`stdoutFile, this`stderrFile
      ensures Logged()
      ensures r.Fine? ==> Valid() && total <= maxOutput && Handled(log) == Handled(old(log)) + ready
      ensures r.Failed? ==> Because(r.failure) && r.failure != Stopped && r.failure != PendingWrite
      ensures r.Failed? ==> Handled(log) <= Handled(old(log)) + ready
      ensures Advances(old(Now()), Now())
    {
      var i := 0;
      while i < |ready|
        invariant i <= |ready| && Valid() && Logged() && total <= maxOutput
        invariant Handled(log) == Handled(old(log)) + ready[..i]
        invariant Advances(old(Now()), Now())
      {
        ghost var before := Now();
        r := HandleNext(ready[i]);
        PrefixNext(Handled(old(log)), ready, i);
        AdvancesTransitive(old(Now()), before, Now());
        if r.Failed? {
          return r;
        }
        i := i + 1;
      }
      assert ready[..i] == ready;
      return Fine;
    }

    /** What `select` returns. */
    method Next() returns (batch: Batch)
      requires future != [] && Linked()
      modifies this`future, this`past, this`exited
      ensures Linked() && future == old(future)[1..] && batch == old(future)[0]
      ensures ReadyOf(past) == ReadyOf(old(past)) + batch.ready
    {
      batch := future[0];
      Consumed(past, future);
      future, past := future[1..], past + [batch];
      exited := exited || batch.exited;
    }

    /** One call of `pump`. */
    method Pump() returns (r: Outcome)
      requires Steady()
      modifies this`future, this`past, this`exited, this`registered, this`total, this`lines, this`partial, this`out
      modifies this`pending, this`written, this`stdoutFile, this`stderrFile, this`log
      ensures r.Fine? ==> Steady() && |future| < |old(future)|
      ensures r.Failed? ==> Failing(r.failure) && r.failure != PendingWrite
      ensures Advances(old(Now()), Now())
    {
      if future == [] || future[0].stop {
        return Failed(Stopped);
      }
      var batch := Next();
      r := HandleAll(batch.ready);
    }

    /** Write all of `data` to stdin, pumping output meanwhile. */
    method Send(data: bytes) returns (r: Outcome)
      requires Steady()
      modifies this`future, this`past, this`exited, this`registered, this`total, this`lines, this`partial, this`out
      modifies this`pending, this`written, this`stdoutFile, this`stderrFile, this`given, this`log
      ensures r.Fine? ==> Steady() && |future| <= |old(future)|
      ensures r.Fine? ==> pending == [] && given == written == old(given) + data
      ensures r.Failed? ==> Failing(r.failure)
      ensures old(pending) != [] <==> r == Failed(PendingWrite)
      ensures popped == old(popped) && keepLines == old(keepLines)
    {
      if pending != [] {
        return Failed(PendingWrite);
      }
      Give(data);
      r := Drain();
      assert written + [] == written;
    }

    /** Append to the bytes that wait to be written. */
    method Give(data: bytes)
      requires Steady() && pending == []
      modifies this`pending, this`given, this`log, this`registered
      ensures Steady() && pending == data && given == old(given) + data
    {
      ghost var before := Streams();
      ConcatAssociative(written, pending, data);
      pending := pending + data;
      given := given + data;
      if pending != [] {
        registered := registered + {Stdin};
      }
      RunsNext(log, before, Given(data), Streams(), maxOutput);
      log := log + [Moment(before, Given(data))];
    }

    method Drain() returns (r: Outcome)
      requires Steady()
      modifies this`future, this`past, this`exited, this`registered, this`total, this`lines, this`partial, this`out
      modifies this`pending, this`written, this`stdoutFile, this`stderrFile, this`log
      ensures r.Fine? ==> Steady() && |future| <= |old(future)|
      ensures r.Fine? ==> pending == []
      ensures r.Failed? ==> Failing(r.failure) && r.failure != PendingWrite
      ensures Advances(old(Now()), Now())
    {
      while pending != []
        invariant Steady() && |future| <= |old(future)|
        invariant Advances(old(Now()), Now())
        decreases |future|
      {
        ghost var before := Now();
        r := Pump();
        AdvancesTransitive(old(Now()), before, Now());
        if r.Failed? {
          return r;
        }
      }
      return Fine;
    }

    /** Wait for the next record and pop it. */
    method Record() returns (r: Result<bytes, Failure>)
      requires Steady() && pending == [] && keepLines
      modifies this`future, this`past, this`exited, this`registered, this`total, this`lines, this`partial, this`out
      modifies this`pending, this`written, this`stdoutFile, this`stderrFile, this`popped, this`log
      ensures r.Ok? ==> Steady() && popped == old(popped) + [r.value] && isObject(r.value)
      ensures r.Ok? ==> pending == []
      ensures r.Err? ==> Failing(r.error)
    {
      while lines == []
        invariant Steady() && Advances(old(Now()), Now())
        decreases |future|
      {
        if Stdout !in registered {
          assert popped + [] == popped;
          return Err(NoRecord);
        }
        ghost var before := Now();
        var pumped := Pump();
        AdvancesTransitive(old(Now()), before, Now());
        if pumped.Failed? {
          return Err(pumped.failure);
        }
      }
      var line := lines[0];
      ConcatAssociative(popped, [line], lines[1..]);
      assert lines == [line] + lines[1..];
      popped := popped + [line];
      lines := lines[1..];
      if !isObject(line) {
        return Err(NotAnObject);
      }
      return Ok(line);
    }

    /** One request, one response: nothing may be waiting when the writing of the request begins. */
    method Request(value: bytes) returns (r: Result<bytes, Failure>)
      requires Steady() && pending == [] && keepLines
      modifies this`future, this`past, this`exited, this`registered, this`total, this`lines, this`partial, this`out
      modifies this`pending, this`written, this`stdoutFile, this`stderrFile, this`popped, this`given, this`turns
      modifies this`log
      ensures r.Ok? ==> Steady() && pending == []
      ensures r.Ok? ==> turns == old(turns) + [Turn(old(given), old(popped))]
      ensures r.Ok? ==> popped == old(popped) + [r.value] && isObject(r.value)
      ensures r.Ok? ==> given == old(given) + value + [NEWLINE]
      ensures r.Err? ==> Failing(r.error)
      ensures keepLines
    {
      if future == [] || future[0].stop {
        return Err(Stopped);
      }
      if lines != [] {
        assert |popped + lines| > |popped|;
        return Err(UnexpectedOutput);
      }
      assert popped + [] == popped && written + [] == written;
      turns := turns + [Turn(written, NonBlank(Complete(out)))];
      var sent := Send(value + [NEWLINE]);
      if sent.Failed? {
        return Err(sent.failure);
      }
      ConcatAssociative(old(given), value, [NEWLINE]);
      r := Record();
    }

    /** Read until the child has closed its output and exited; then nothing may be left over. */
    method FinishSession() returns (r: Outcome)
      requires Steady() && pending == [] && keepLines
      modifies this`future, this`past, this`exited, this`registered, this`total, this`lines, this`partial, this`out
      modifies this`pending, this`written, this`stdoutFile, this`stderrFile, this`log
      ensures r.Fine? ==> Steady() && lines == [] && partial == [] && registered == {} && exited && exitCode == 0
      ensures r.Fine? ==> pending == []
      ensures r.Failed? ==> Failing(r.failure)
      ensures given == old(given) && popped == old(popped)
    {
      while registered != {} || !exited
        invariant Steady() && Advances(old(Now()), Now())
        decreases |future|
      {
        ghost var before := Now();
        r := Pump();
        AdvancesTransitive(old(Now()), before, Now());
        if r.Failed? {
          return r;
        }
      }
      if exitCode != 0 {
        return Failed(BadExit);
      }
      if lines != [] {
        assert |popped + lines| > |popped|;
        return Failed(UnexpectedOutput);
      }
      if partial != [] {
        return Failed(IncompleteOutput);
      }
      return Fine;
    }

    /** In the middle of a session: `requests` have been answered by the records after the first. */
    ghost predicate InSession(requests: seq<bytes>, records: seq<bytes>)
      reads this
    {
      && Steady() && pending == [] && keepLines
      && popped == records && given == Encoded(requests)
      && (forall k :: 0 <= k < |records| ==> isObject(records[k]))
      && Paired(turns, requests, records)
    }

    /**
     After a session. Everything the child's streams delivered, in the part of the scenario that is past, is in the
     log: what was read of stdout up to its end is exactly the readiness record and one response per request, each
     ended by a newline, besides blank lines; what the writes took is exactly the encoded requests. The writing of request
     `i` began when exactly `i + 1` records had been read, and record `i + 1` is the response to it. Both output streams
     have ended, and the child has exited with status 0.
     */
    ghost predicate Completed(requests: seq<bytes>, records: seq<bytes>)
      reads this
    {
      var history := Events(log);
      && scenario == past + future && Handled(log) == ReadyOf(past)
      && NonBlank(Complete(ReadFrom(history, Stdout))) == records && Tail(ReadFrom(history, Stdout)) == []
      && WrittenTo(history) == Encoded(requests) && Waiting(history) == []
      && (forall k :: 0 <= k < |records| ==> isObject(records[k]))
      && Paired(turns, requests, records)
      && Ended(history, Stdout) && Ended(history, Stderr)
      && exitCode == 0 && AnyExited(past)
    }

    /** The readiness record. */
    method Open() returns (r: Result<bytes, Failure>)
      requires Steady() && IsNew()
      modifies this
      ensures r.Ok? ==> InSession([], [r.value])
      ensures r.Err? ==> Explains(r.error)
    {
      keepLines := true;
      r := Record();
      if r.Err? {
        FailureIsExplained(r.error);
      }
    }

    /** One request in a session, and its response. */
    method Exchange(request: bytes, ghost requests: seq<bytes>, ghost records: seq<bytes>)
        returns (r: Result<bytes, Failure>)
      requires InSession(requests, records)
      modifies this
      ensures r.Ok? ==> InSession(requests + [request], records + [r.value])
      ensures r.Err? ==> Explains(r.error)
    {
      r := Request(request);
      if r.Ok? {
        PairedNext(old(turns), requests, records, request, r.value);
        EncodedNext(requests, request);
      } else {
        FailureIsExplained(r.error);
      }
    }

    method Close(ghost requests: seq<bytes>, ghost records: seq<bytes>) returns (r: Outcome)
      requires InSession(requests, records)
      modifies this
      ensures r.Fine? ==> Completed(requests, records)
      ensures r.Failed? ==> Explains(r.failure)
    {
      r := FinishSession();
      assert popped + [] == popped && written + [] == written;
      if r.Fine? {
        RunReflects(log, Streams(), maxOutput);
      } else {
        FailureIsExplained(r.failure);
      }
    }

    /** All requests, one after another. */
    method ExchangeAll(requests: seq<bytes>, ready: bytes) returns (r: Result<seq<bytes>, Failure>)
      requires InSession([], [ready])
      modifies this
      ensures r.Ok? ==> InSession(requests, r.value)
      ensures r.Err? ==> Explains(r.error)
    {
      var records := [ready];
      var i := 0;
      while i < |requests|
        invariant i <= |requests| && InSession(requests[..i], records)
      {
        var response := Exchange(requests[i], requests[..i], records);
        if response.Err? {
          return Err(response.error);
        }
        assert requests[..i + 1] == requests[..i] + [requests[i]];
        records := records + [response.value];
        i := i + 1;
      }
      assert requests[..i] == requests;
      return Ok(records);
    }

    /** A whole JSON-lines session, as `train` runs one. */
    method Session(requests: seq<bytes>) returns (r: Result<seq<bytes>, Failure>)
      requires Steady() && IsNew()
      modifies this
      ensures r.Ok? ==> Completed(requests, r.value)
      ensures r.Err? ==> Explains(r.error)
    {
      var ready := Open();
      if ready.Err? {
        return Err(ready.error);
      }
      r := ExchangeAll(requests, ready.value);
      if r.Ok? {
        var closed := Close(requests, r.value);
        if closed.Failed? {
          return Err(closed.failure);
        }
      }
    }
  }

  /** The two sessions of `compare`, as they are interleaved. */
  class SessionPair {
    const baseline: Process
    const candidate: Process

    constructor (baseline: Process, candidate: Process)
      ensures this.baseline == baseline && this.candidate == candidate
    {
      this.baseline, this.candidate := baseline, candidate;
    }

    ghost predicate InSessions(requests: seq<bytes>, fromBaseline: seq<bytes>, fromCandidate: seq<bytes>)
      reads this, baseline, candidate
    {
      && baseline != candidate
      && baseline.InSession(requests, fromBaseline) && candidate.InSession(requests, fromCandidate)
    }

    /** One request to both, in either order. */
    method ExchangeBoth(request: bytes, baselineFirst: bool,
                        ghost requests: seq<bytes>, ghost fromBaseline: seq<bytes>, ghost fromCandidate: seq<bytes>)
        returns (r: Result<(bytes, bytes), Failure>)
      requires InSessions(requests, fromBaseline, fromCandidate)
      modifies baseline, candidate
      ensures r.Ok? ==> InSessions(requests + [request], fromBaseline + [r.value.0], fromCandidate + [r.value.1])
      ensures r.Err? ==> baseline.Explains(r.error) || candidate.Explains(r.error)
    {
      var b, c;
      if baselineFirst {
        b := baseline.Exchange(request, requests, fromBaseline);
        if b.Err? {
          return Err(b.error);
        }
        c := candidate.Exchange(request, requests, fromCandidate);
      } else {
        c := candidate.Exchange(request, requests, fromCandidate);
        if c.Err? {
          return Err(c.error);
        }
        b := baseline.Exchange(request, requests, fromBaseline);
      }
      if b.Err? {
        return Err(b.error);
      }
      if c.Err? {
        return Err(c.error);
      }
      return Ok((b.value, c.value));
    }

    /** Both readiness records. */
    method OpenBoth() returns (r: Result<(bytes, bytes), Failure>)
      requires baseline != candidate
      requires baseline.Steady() && baseline.IsNew() && candidate.Steady() && candidate.IsNew()
      modifies baseline, candidate
      ensures r.Ok? ==> InSessions([], [r.value.0], [r.value.1])
      ensures r.Err? ==> baseline.Explains(r.error) || candidate.Explains(r.error)
    {
      var b := baseline.Open();
      if b.Err? {
        return Err(b.error);
      }
      var c := candidate.Open();
      if c.Err? {
        return Err(c.error);
      }
      return Ok((b.value, c.value));
    }

    method CloseBoth(ghost requests: seq<bytes>, ghost fromBaseline: seq<bytes>, ghost fromCandidate: seq<bytes>)
        returns (r: Outcome)
      requires InSessions(requests, fromBaseline, fromCandidate)
      modifies baseline, candidate
      ensures r.Fine? ==> baseline.Completed(requests, fromBaseline) && candidate.Completed(requests, fromCandidate)
      ensures r.Failed? ==> baseline.Explains(r.failure) || candidate.Explains(r.failure)
    {
      r := baseline.Close(requests, fromBaseline);
      if r.Failed? {
        return;
      }
      r := candidate.Close(requests, fromCandidate);
    }

    /** All requests to both. */
    method ExchangeEach(requests: seq<bytes>, baselineFirst: seq<bool>, first: bytes, second: bytes)
        returns (r: Result<(seq<bytes>, seq<bytes>), Failure>)
      requires InSessions([], [first], [second]) && |baselineFirst| == |requests|
      modifies baseline, candidate
      ensures r.Ok? ==> InSessions(requests, r.value.0, r.value.1)
      ensures r.Err? ==> baseline.Explains(r.error) || candidate.Explains(r.error)
    {
      var fromBaseline, fromCandidate := [first], [second];
      var i := 0;
      while i < |requests|
        invariant i <= |requests| && InSessions(requests[..i], fromBaseline, fromCandidate)
      {
        var both := ExchangeBoth(requests[i], baselineFirst[i], requests[..i], fromBaseline, fromCandidate);
        if both.Err? {
          return Err(both.error);
        }
        PrefixSnoc(requests, i);
        fromBaseline, fromCandidate := fromBaseline + [both.value.0], fromCandidate + [both.value.1];
        i := i + 1;
      }
      assert requests[..i] == requests;
      return Ok((fromBaseline, fromCandidate));
    }

    /** Both sessions from their readiness records to their ends. `requests[i]` goes to baseline first if
        `baselineFirst[i]`; whatever the order, each session pairs every request with its own response. */
    method RunBoth(requests: seq<bytes>, baselineFirst: seq<bool>)
        returns (r: Result<(seq<bytes>, seq<bytes>), Failure>)
      requires baseline != candidate && |baselineFirst| == |requests|
      requires baseline.Steady() && baseline.IsNew() && candidate.Steady() && candidate.IsNew()
      modifies baseline, candidate
      ensures r.Ok? ==> baseline.Completed(requests, r.value.0) && candidate.Completed(requests, r.value.1)
      ensures r.Err? ==> baseline.Explains(r.error) || candidate.Explains(r.error)
    {
      var ready := OpenBoth();
      if ready.Err? {
        return Err(ready.error);
      }
      r := ExchangeEach(requests, baselineFirst, ready.value.0, ready.value.1);
      if r.Ok? {
        var closed := CloseBoth(requests, r.value.0, r.value.1);
        if closed.Failed? {
          return Err(closed.failure);
        }
      }
    }
  }
}
