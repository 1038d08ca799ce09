/** Splitting a byte stream into newline-terminated lines: what it means, whatever way the stream is cut. */
module Lines {
  import opened Common

  const NEWLINE: byte := 10

  predicate NoNewline(s: bytes) {
    forall i :: 0 <= i < |s| ==> s[i] != NEWLINE
  }

  /** The newline-terminated lines of a stream, without their newlines. */
  function Complete(s: bytes): seq<bytes> {
    if s == [] then []
    else
      var init, last := s[..|s| - 1], s[|s| - 1];
      if last == NEWLINE then Complete(init) + [Tail(init)] else Complete(init)
  }

  /** What follows the last newline. */
  function Tail(s: bytes): bytes {
    if s == [] then []
    else
      var init, last := s[..|s| - 1], s[|s| - 1];
      if last == NEWLINE then [] else Tail(init) + [last]
  }

  function Join(lines: seq<bytes>): bytes {
    if lines == [] then [] else Join(lines[..|lines| - 1]) + lines[|lines| - 1] + [NEWLINE]
  }

  /** Splitting loses and invents nothing: it is undone by joining, and no line holds a newline. */
  lemma {:induction false} JoinSplit(s: bytes)
    ensures Join(Complete(s)) + Tail(s) == s
    ensures NoNewline(Tail(s)) && forall k :: 0 <= k < |Complete(s)| ==> NoNewline(Complete(s)[k])
  {
    if s != [] {
      var init, last := s[..|s| - 1], s[|s| - 1];
      JoinSplit(init);
      assert s == init + [last];
      if last == NEWLINE {
        assert Complete(s)[..|Complete(s)| - 1] == Complete(init);
      }
    }
  }

  /** The lines of two consecutive pieces, the first piece's tail being carried over. */
  lemma {:induction false} SplitConcat(a: bytes, b: bytes)
    ensures Complete(a + b) == Complete(a) + Complete(Tail(a) + b)
    ensures Tail(a + b) == Tail(Tail(a) + b)
  {
    if b == [] {
      assert a + b == a && Tail(a) + b == Tail(a);
      JoinSplit(a);
      NoNewlineSplit(Tail(a));
    } else {
      var init, last := b[..|b| - 1], b[|b| - 1];
      SplitConcat(a, init);
      assert (a + b)[..|a + b| - 1] == a + init;
      assert (Tail(a) + b)[..|Tail(a) + b| - 1] == Tail(a) + init;
    }
  }

  lemma {:induction false} NoNewlineSplit(s: bytes)
    requires NoNewline(s)
    ensures Complete(s) == [] && Tail(s) == s
  {
    if s != [] {
      NoNewlineSplit(s[..|s| - 1]);
    }
  }

  lemma OneLine(line: bytes)
    requires NoNewline(line)
    ensures Complete(line + [NEWLINE]) == [line] && Tail(line + [NEWLINE]) == []
  {
    assert (line + [NEWLINE])[..|line|] == line;
    NoNewlineSplit(line);
  }

  lemma FirstLine(s: bytes, n: nat)
    requires n < |s| && s[n] == NEWLINE && NoNewline(s[..n])
    ensures Complete(s) == [s[..n]] + Complete(s[n + 1..]) && Tail(s) == Tail(s[n + 1..])
  {
    var line, rest := s[..n] + [NEWLINE], s[n + 1..];
    assert s == line + rest;
    OneLine(s[..n]);
    SplitConcat(line, rest);
    assert [] + rest == rest;
  }

  /** Every line, and the unfinished tail, fits the record limit. */
  ghost predicate Fits(s: bytes, limit: nat) {
    |Tail(s)| <= limit && forall k :: 0 <= k < |Complete(s)| ==> |Complete(s)[k]| <= limit
  }

  lemma {:induction false} SuffixInTail(s: bytes, i: nat)
    requires i <= |s| && NoNewline(s[i..])
    ensures |s| - i <= |Tail(s)|
  {
    if i < |s| {
      var init := s[..|s| - 1];
      assert s[i..][|s| - 1 - i] == s[|s| - 1];
      forall k | 0 <= k < |init[i..]| ensures init[i..][k] != NEWLINE {
        assert init[i..][k] == s[i..][k];
      }
      SuffixInTail(init, i);
    }
  }

  ghost predicate SegmentsFit(s: bytes, limit: nat) {
    forall i, j {:trigger s[i..j]} :: 0 <= i <= j <= |s| && NoNewline(s[i..j]) ==> j - i <= limit
  }

  lemma {:induction false} FitsSegments(s: bytes, limit: nat)
    requires Fits(s, limit)
    ensures SegmentsFit(s, limit)
  {
    if s != [] {
      var init := s[..|s| - 1];
      FitsInit(s, limit);
      FitsSegments(init, limit);
      forall i, j | 0 <= i <= j <= |s| && NoNewline(s[i..j]) ensures j - i <= limit {
        if j == |s| {
          assert s[i..j] == s[i..];
          SuffixInTail(s, i);
        } else {
          assert init[i..j] == s[i..j];
        }
      }
    }
  }

  lemma FitsInit(s: bytes, limit: nat)
    requires s != [] && Fits(s, limit)
    ensures Fits(s[..|s| - 1], limit)
  {
    var init := s[..|s| - 1];
    if s[|s| - 1] == NEWLINE {
      assert Complete(s)[|Complete(init)|] == Tail(init);
      forall k | 0 <= k < |Complete(init)| ensures |Complete(init)[k]| <= limit {
        assert Complete(s)[k] == Complete(init)[k];
      }
    } else {
      assert Tail(s) == Tail(init) + [s[|s| - 1]];
      assert Complete(s) == Complete(init);
    }
  }

  lemma {:induction false} SegmentsFits(s: bytes, limit: nat)
    requires SegmentsFit(s, limit)
    ensures Fits(s, limit)
  {
    if s != [] {
      var init := s[..|s| - 1];
      forall i, j | 0 <= i <= j <= |init| && NoNewline(init[i..j]) ensures j - i <= limit {
        assert s[i..j] == init[i..j];
      }
      SegmentsFits(init, limit);
      JoinSplit(s);
      var start := |s| - |Tail(s)|;
      assert s[start..|s|] == Tail(s);
    }
  }

  /** The record limit holds line by line exactly if no stretch of the stream without a newline exceeds it. */
  lemma FitsIffSegmentsFit(s: bytes, limit: nat)
    ensures Fits(s, limit) <==> SegmentsFit(s, limit)
  {
    if Fits(s, limit) {
      FitsSegments(s, limit);
    }
    if SegmentsFit(s, limit) {
      SegmentsFits(s, limit);
    }
  }

  /** `not line.strip()`: nothing but ASCII whitespace. */
  predicate Blank(line: bytes) {
    forall i :: 0 <= i < |line| ==> line[i] == 32 || 9 <= line[i] <= 13
  }

  function NonBlank(lines: seq<bytes>): seq<bytes> {
    if lines == [] then []
    else
      var init, last := lines[..|lines| - 1], lines[|lines| - 1];
      if Blank(last) then NonBlank(init) else NonBlank(init) + [last]
  }

  lemma NonBlankSnoc(lines: seq<bytes>, line: bytes)
    ensures NonBlank(lines + [line]) == if Blank(line) then NonBlank(lines) else NonBlank(lines) + [line]
  {
    assert (lines + [line])[..|lines|] == lines;
  }

  lemma {:induction false} NonBlankConcat(a: seq<bytes>, b: seq<bytes>)
    ensures NonBlank(a + b) == NonBlank(a) + NonBlank(b)
  {
    if b == [] {
      assert a + b == a;
    } else {
      NonBlankConcat(a, b[..|b| - 1]);
      assert (a + b)[..|a + b| - 1] == a + b[..|b| - 1];
    }
  }

  /** Splitting incrementally: each read extends the carried tail. */
  function Incremental(pieces: seq<bytes>): (seq<bytes>, bytes) {
    if pieces == [] then ([], [])
    else
      var (lines, tail) := Incremental(pieces[..|pieces| - 1]);
      var carried := tail + pieces[|pieces| - 1];
      (lines + Complete(carried), Tail(carried))
  }

  /** However a stream is cut into reads, incremental splitting finds the lines and the tail of the whole stream. */
  lemma {:induction false} ChunkingIsIrrelevant(pieces: seq<bytes>)
    ensures Incremental(pieces) == (Complete(Flatten(pieces)), Tail(Flatten(pieces)))
  {
    if pieces != [] {
      var init, last := pieces[..|pieces| - 1], pieces[|pieces| - 1];
      ChunkingIsIrrelevant(init);
      SplitConcat(Flatten(init), last);
    }
  }
}
