/** What the plan of a paired benchmark guarantees: equal work, alternation, and the number of records. */
module CompareProps {
  import opened Common
  import opened Compare

  /** Everything that `f` extracts from the steps of a trace, in order. */
  function Select<T>(trace: seq<Op>, f: Op -> seq<T>): seq<T> {
    if trace == [] then [] else Select(trace[..|trace| - 1], f) + f(trace[|trace| - 1])
  }

  lemma {:induction false} SelectConcat<T>(a: seq<Op>, b: seq<Op>, f: Op -> seq<T>)
    ensures Select(a + b, f) == Select(a, f) + Select(b, f)
  {
    if b == [] {
      assert a + b == a;
    } else {
      SelectConcat(a, b[..|b| - 1], f);
      assert (a + b)[..|a + b| - 1] == a + b[..|b| - 1];
    }
  }

  lemma SelectSum<T>(whole: seq<Op>, a: seq<Op>, b: seq<Op>, f: Op -> seq<T>, x: seq<T>, y: seq<T>)
    requires whole == a + b && Select(a, f) == x && Select(b, f) == y
    ensures Select(whole, f) == x + y
  {
    SelectConcat(a, b, f);
  }

  lemma SelectTwo<T>(x: Op, y: Op, f: Op -> seq<T>)
    ensures Select([x, y], f) == f(x) + f(y)
  {
    assert [x, y][..1] == [x] && [x][..0] == [];
    assert Select([x], f) == [] + f(x) == f(x);
  }

  lemma SelectPair<T>(c: Comparison, workers: nat, phase: Phase, index: nat, r: nat, f: Op -> seq<T>)
    requires r < c.Width()
    ensures var one := Turn(c, workers, phase, index, r, First(index));
            var two := Turn(c, workers, phase, index, r, Other(First(index)));
            Select(Pair(c, workers, phase, index, r), f) == (f(one[0]) + f(one[1])) + (f(two[0]) + f(two[1]))
  {
    var one := Turn(c, workers, phase, index, r, First(index));
    var two := Turn(c, workers, phase, index, r, Other(First(index)));
    SelectConcat(one, two, f);
    SelectTwo(one[0], one[1], f);
    SelectTwo(two[0], two[1], f);
  }

  lemma SelectAtCount<T>(c: Comparison, workers: nat, f: Op -> seq<T>)
    ensures Select(AtCount(c, workers), f)
         == Select(Opening(c, workers), f) + Select(Rounds(c, workers, Warmup, c.warmups), f)
          + Select(Rounds(c, workers, Sample, c.samples), f) + Select(Closing(c, workers), f)
  {
    var opening, warmups := Opening(c, workers), Rounds(c, workers, Warmup, c.warmups);
    var samples, closing := Rounds(c, workers, Sample, c.samples), Closing(c, workers);
    SelectConcat(opening, warmups, f);
    SelectConcat(opening + warmups, samples, f);
    SelectConcat(opening + warmups + samples, closing, f);
  }

  lemma SelectOpening<T>(c: Comparison, workers: nat, f: Op -> seq<T>)
    ensures Select(Opening(c, workers), f) ==
            (if !c.jsonl then []
             else (f(Start(c.listed, workers, None)) + f(Note(Ready(c.listed, workers))))
                  + (f(Start(Other(c.listed), workers, None)) + f(Note(Ready(Other(c.listed), workers)))))
  {
    var one, two := Opened(c, workers, c.listed), Opened(c, workers, Other(c.listed));
    SelectConcat(one, two, f);
    SelectTwo(one[0], one[1], f);
    SelectTwo(two[0], two[1], f);
  }

  lemma SelectClosing<T>(c: Comparison, workers: nat, f: Op -> seq<T>)
    ensures Select(Closing(c, workers), f) ==
            if !c.jsonl then [] else f(Finish(c.listed, workers)) + f(Finish(Other(c.listed), workers))
  {
    SelectTwo(Finish(c.listed, workers), Finish(Other(c.listed), workers), f);
  }

  lemma {:induction false} SelectNone<T>(trace: seq<Op>, f: Op -> seq<T>)
    requires forall i :: 0 <= i < |trace| ==> f(trace[i]) == []
    ensures Select(trace, f) == []
  {
    if trace != [] {
      SelectNone(trace[..|trace| - 1], f);
    }
  }

  /** `g(0) + g(1) + ... + g(n - 1)` */
  function Joined<T>(g: nat -> seq<T>, n: nat): seq<T> {
    if n == 0 then [] else Joined(g, n - 1) + g(n - 1)
  }

  /** If `f` extracts `g(r)` from pair `r`, it extracts their concatenation from the round. */
  lemma {:induction false} SelectRound<T>(c: Comparison, w: nat, phase: Phase, index: nat, n: nat,
                                          f: Op -> seq<T>, g: nat -> seq<T>)
    requires n <= c.Width()
    requires forall r: nat {:trigger g(r)} :: r < n ==> Select(Pair(c, w, phase, index, r), f) == g(r)
    ensures Select(Round(c, w, phase, index, n), f) == Joined(g, n)
  {
    if n > 0 {
      var m := n - 1;
      SelectRound(c, w, phase, index, m, f, g);
      var round, pair, y := Round(c, w, phase, index, m), Pair(c, w, phase, index, m), g(m);
      assert Select(pair, f) == y;
      SelectSum(round + pair, round, pair, f, Joined(g, m), y);
    }
  }

  lemma SelectNextRound<T>(c: Comparison, w: nat, phase: Phase, n: nat, f: Op -> seq<T>, before: seq<T>, last: seq<T>)
    requires Select(Rounds(c, w, phase, n), f) == before
    requires Select(Round(c, w, phase, n, c.Width()), f) == last
    ensures Select(Rounds(c, w, phase, n + 1), f) == before + last
  {
    SelectConcat(Rounds(c, w, phase, n), Round(c, w, phase, n, c.Width()), f);
  }

  lemma {:induction false} SelectRounds<T>(c: Comparison, w: nat, phase: Phase, n: nat,
                                           f: Op -> seq<T>, g: nat -> seq<T>)
    requires forall i: nat {:trigger g(i)} :: i < n ==> Select(Round(c, w, phase, i, c.Width()), f) == g(i)
    ensures Select(Rounds(c, w, phase, n), f) == Joined(g, n)
  {
    if n > 0 {
      var m := n - 1;
      SelectRounds(c, w, phase, m, f, g);
      var x, y := Joined(g, m), g(m);
      assert Select(Round(c, w, phase, m, c.Width()), f) == y;
      SelectNextRound(c, w, phase, m, f, x, y);
    }
  }

  predicate Silent<T(==)>(f: Op -> seq<T>, w: nat, v: Variant) {
    f(Start(v, w, None)) == [] && f(Note(Ready(v, w))) == [] && f(Finish(v, w)) == []
  }

  /** From a worker count: what comes from its rounds, if nothing comes from its beginning and end. */
  lemma SelectInner<T>(c: Comparison, w: nat, f: Op -> seq<T>, x: seq<T>, y: seq<T>)
    requires Silent(f, w, Baseline) && Silent(f, w, Candidate)
    requires Select(Rounds(c, w, Warmup, c.warmups), f) == x && Select(Rounds(c, w, Sample, c.samples), f) == y
    ensures Select(AtCount(c, w), f) == x + y
  {
    SelectAtCount(c, w, f);
    SelectOpening(c, w, f);
    SelectClosing(c, w, f);
    InnerSums(x, y);
  }

  lemma InnerSums<T>(a: seq<T>, b: seq<T>)
    ensures [] + a + b + [] == a + b
  {
  }

  /** The worker count at which a step happens. */
  function At(op: Op): nat {
    match op
    case Start(_, workers, _) => workers
    case Ask(_, workers, _) => workers
    case Note(record) => record.workers
    case Finish(_, workers) => workers
  }

  ghost predicate AllAt(trace: seq<Op>, w: nat) {
    forall i :: 0 <= i < |trace| ==> At(trace[i]) == w
  }

  lemma {:induction false} RoundAt(c: Comparison, w: nat, phase: Phase, index: nat, n: nat)
    requires n <= c.Width()
    ensures AllAt(Round(c, w, phase, index, n), w)
  {
    if n > 0 {
      RoundAt(c, w, phase, index, n - 1);
    }
  }

  lemma {:induction false} RoundsAt(c: Comparison, w: nat, phase: Phase, n: nat)
    ensures AllAt(Rounds(c, w, phase, n), w)
  {
    if n > 0 {
      RoundsAt(c, w, phase, n - 1);
      RoundAt(c, w, phase, n - 1, c.Width());
    }
  }

  lemma CountAt(c: Comparison, w: nat)
    ensures AllAt(AtCount(c, w), w)
  {
    RoundsAt(c, w, Warmup, c.warmups);
    RoundsAt(c, w, Sample, c.samples);
  }

  // Both variants are asked the same.

  function AskedBy(variant: Variant, workers: nat): Op -> seq<Request> {
    (op: Op) => if op.Ask? && op.variant == variant && op.workers == workers then [op.request] else []
  }

  function Expanded(requests: seq<Request>): seq<Request> {
    seq(|requests|, i requires 0 <= i < |requests| => Expand(requests[i]))
  }

  function Repeated<T>(s: seq<T>, n: nat): seq<T> {
    if n == 0 then [] else Repeated(s, n - 1) + s
  }

  lemma {:induction false} RepeatedSum<T>(s: seq<T>, m: nat, n: nat)
    ensures Repeated(s, m) + Repeated(s, n) == Repeated(s, m + n)
  {
    if n > 0 {
      RepeatedSum(s, m, n - 1);
      ConcatAssociative(Repeated(s, m), Repeated(s, n - 1), s);
    }
  }

  /** What a variant is asked in pair `r` of a round. */
  function AskedOnce(c: Comparison): nat -> seq<Request> {
    (r: nat) => if c.jsonl && r < |c.requests| then [Expand(c.requests[r])] else []
  }

  /** What a variant is asked in a round. */
  function AskedRound(c: Comparison): nat -> seq<Request> {
    (index: nat) => if c.jsonl then Expanded(c.requests) else []
  }

  /** What a variant is asked in `n` rounds. */
  function AskedIn(c: Comparison, n: nat): seq<Request> {
    if c.jsonl then Repeated(Expanded(c.requests), n) else []
  }

  lemma {:induction false} AskedOnceJoined(c: Comparison, n: nat)
    requires n <= |c.requests| || !c.jsonl
    ensures Joined(AskedOnce(c), n) == if c.jsonl then Expanded(c.requests)[..n] else []
  {
    if n > 0 {
      AskedOnceJoined(c, n - 1);
    }
  }

  lemma {:induction false} AskedRoundJoined(c: Comparison, n: nat)
    ensures Joined(AskedRound(c), n) == AskedIn(c, n)
  {
    if n > 0 {
      AskedRoundJoined(c, n - 1);
    }
  }

  lemma AskedInPair(c: Comparison, w: nat, phase: Phase, index: nat, r: nat, variant: Variant)
    requires c.ModeFits() && r < c.Width()
    ensures Select(Pair(c, w, phase, index, r), AskedBy(variant, w)) == AskedOnce(c)(r)
  {
    SelectPair(c, w, phase, index, r, AskedBy(variant, w));
  }

  lemma AskedInRound(c: Comparison, w: nat, phase: Phase, index: nat, variant: Variant)
    requires c.ModeFits()
    ensures Select(Round(c, w, phase, index, c.Width()), AskedBy(variant, w)) == AskedRound(c)(index)
  {
    forall r: nat | r < c.Width()
      ensures Select(Pair(c, w, phase, index, r), AskedBy(variant, w)) == AskedOnce(c)(r)
    {
      AskedInPair(c, w, phase, index, r, variant);
    }
    SelectRound(c, w, phase, index, c.Width(), AskedBy(variant, w), AskedOnce(c));
    AskedOnceJoined(c, c.Width());
    assert c.jsonl ==> Expanded(c.requests)[..|c.requests|] == Expanded(c.requests);
  }

  lemma AskedInRounds(c: Comparison, w: nat, phase: Phase, n: nat, variant: Variant)
    requires c.ModeFits()
    ensures Select(Rounds(c, w, phase, n), AskedBy(variant, w)) == AskedIn(c, n)
  {
    forall i: nat | i < n
      ensures Select(Round(c, w, phase, i, c.Width()), AskedBy(variant, w)) == AskedRound(c)(i)
    {
      AskedInRound(c, w, phase, i, variant);
    }
    SelectRounds(c, w, phase, n, AskedBy(variant, w), AskedRound(c));
    AskedRoundJoined(c, n);
  }

  lemma AskedSum(c: Comparison, m: nat, n: nat)
    ensures AskedIn(c, m) + AskedIn(c, n) == AskedIn(c, m + n)
  {
    RepeatedSum(Expanded(c.requests), m, n);
  }

  lemma AskedAtCount(c: Comparison, w: nat, variant: Variant)
    requires c.ModeFits()
    ensures Select(AtCount(c, w), AskedBy(variant, w)) == AskedIn(c, c.warmups + c.samples)
  {
    var f, x, y := AskedBy(variant, w), AskedIn(c, c.warmups), AskedIn(c, c.samples);
    assert Select(AtCount(c, w), f) == x + y by {
      AskedInRounds(c, w, Warmup, c.warmups, variant);
      AskedInRounds(c, w, Sample, c.samples, variant);
      assert Silent(f, w, Baseline) && Silent(f, w, Candidate);
      SelectInner(c, w, f, x, y);
    }
    assert x + y == AskedIn(c, c.warmups + c.samples) by {
      AskedSum(c, c.warmups, c.samples);
    }
  }

  lemma AskedElsewhere(c: Comparison, w: nat, variant: Variant, workers: nat)
    requires w != workers
    ensures Select(AtCount(c, w), AskedBy(variant, workers)) == []
  {
    CountAt(c, w);
    SelectNone(AtCount(c, w), AskedBy(variant, workers));
  }

  ghost predicate NoDuplicates<T(!new)>(s: seq<T>) {
    forall i, j :: 0 <= i < j < |s| ==> s[i] != s[j]
  }

  /** At every worker count each variant is asked the listed requests, expanded, once per warmup and sample:
      both variants get the same sequence. */
  lemma {:induction false} SameRequests(c: Comparison, counts: seq<nat>, variant: Variant, workers: nat)
    requires c.ModeFits() && NoDuplicates(counts)
    ensures Select(Plan(c, counts), AskedBy(variant, workers)) ==
            if c.jsonl && workers in counts then Repeated(Expanded(c.requests), c.warmups + c.samples) else []
  {
    if counts != [] {
      var init, last := counts[..|counts| - 1], counts[|counts| - 1];
      SameRequests(c, init, variant, workers);
      if last == workers {
        AskedAtCount(c, last, variant);
      } else {
        AskedElsewhere(c, last, variant, workers);
      }
      SelectConcat(Plan(c, init), AtCount(c, last), AskedBy(variant, workers));
    }
  }

  // The number of records.

  function Noted(): Op -> seq<Record> {
    (op: Op) => if op.Note? then [op.record] else []
  }

  function NotedOnce(c: Comparison, w: nat, phase: Phase, index: nat): nat -> seq<Record> {
    (r: nat) => [Measured(phase, index, First(index), First(index), w, r),
                 Measured(phase, index, First(index), Other(First(index)), w, r)]
  }

  function NotedRound(c: Comparison, w: nat, phase: Phase): nat -> seq<Record> {
    (index: nat) => Joined(NotedOnce(c, w, phase, index), c.Width())
  }

  lemma {:induction false} JoinedLength<T>(g: nat -> seq<T>, n: nat, k: nat)
    requires forall i: nat {:trigger g(i)} :: i < n ==> |g(i)| == k
    ensures |Joined(g, n)| == n * k
  {
    if n > 0 {
      var m := n - 1;
      JoinedLength(g, m, k);
      assert |g(m)| == k;
      Distribute(m, 1, k);
    }
  }

  lemma NotedInRound(c: Comparison, w: nat, phase: Phase, index: nat)
    ensures Select(Round(c, w, phase, index, c.Width()), Noted()) == NotedRound(c, w, phase)(index)
    ensures |NotedRound(c, w, phase)(index)| == 2 * c.Width()
  {
    var f, g := Noted(), NotedOnce(c, w, phase, index);
    forall r: nat | r < c.Width() ensures Select(Pair(c, w, phase, index, r), f) == g(r) {
      SelectPair(c, w, phase, index, r, f);
    }
    SelectRound(c, w, phase, index, c.Width(), f, g);
    JoinedLength(g, c.Width(), 2);
  }

  lemma NotedInRounds(c: Comparison, w: nat, phase: Phase, n: nat)
    ensures |Select(Rounds(c, w, phase, n), Noted())| == n * (2 * c.Width())
  {
    var f, g := Noted(), NotedRound(c, w, phase);
    forall i: nat | i < n
      ensures Select(Round(c, w, phase, i, c.Width()), f) == g(i)
      ensures |g(i)| == 2 * c.Width()
    {
      NotedInRound(c, w, phase, i);
    }
    SelectRounds(c, w, phase, n, f, g);
    JoinedLength(g, n, 2 * c.Width());
  }

  lemma Distribute(a: int, b: int, k: int)
    ensures (a + b) * k == a * k + b * k
  {
  }

  function RecordsPerCount(c: Comparison): nat {
    (if c.jsonl then 2 else 0) + (c.warmups + c.samples) * (2 * c.Width())
  }

  lemma NotedAtEnds(c: Comparison, w: nat)
    ensures |Select(Opening(c, w), Noted())| == (if c.jsonl then 2 else 0)
    ensures |Select(Closing(c, w), Noted())| == 0
  {
    SelectOpening(c, w, Noted());
    SelectClosing(c, w, Noted());
  }

  lemma NotedAdds(c: Comparison, w: nat)
    ensures |Select(AtCount(c, w), Noted())| ==
            |Select(Opening(c, w), Noted())| + |Select(Rounds(c, w, Warmup, c.warmups), Noted())|
            + |Select(Rounds(c, w, Sample, c.samples), Noted())| + |Select(Closing(c, w), Noted())|
  {
    SelectAtCount(c, w, Noted());
  }

  lemma NotedAtCount(c: Comparison, w: nat)
    ensures |Select(AtCount(c, w), Noted())| == RecordsPerCount(c)
  {
    NotedAdds(c, w);
    NotedAtEnds(c, w);
    NotedInRounds(c, w, Warmup, c.warmups);
    NotedInRounds(c, w, Sample, c.samples);
    Distribute(c.warmups, c.samples, 2 * c.Width());
  }

  /** The number of records in the output file, in closed form. */
  lemma {:induction false} RecordCount(c: Comparison, counts: seq<nat>)
    ensures |Select(Plan(c, counts), Noted())| == |counts| * RecordsPerCount(c)
  {
    if counts != [] {
      var init, last := counts[..|counts| - 1], counts[|counts| - 1];
      RecordCount(c, init);
      NotedAtCount(c, last);
      SelectConcat(Plan(c, init), AtCount(c, last), Noted());
      Distribute(|init|, 1, RecordsPerCount(c));
    }
  }

  // Alternation.

  /** Rounds of a phase, at one worker count and for one request, in which `variant` went first. */
  function Led(workers: nat, phase: Phase, r: nat, variant: Variant): Op -> seq<nat> {
    (op: Op) =>
      if op.Note? && op.record.Measured? && op.record.workers == workers && op.record.phase == phase
         && op.record.requestIndex == r && op.record.first == variant && op.record.variant == variant
      then [op.record.index] else []
  }

  /** The rounds below `n` in which `variant` is first. */
  function Turns(n: nat, variant: Variant): seq<nat> {
    Joined(LedRound(variant), n)
  }

  lemma {:induction false} TurnsAreFair(n: nat)
    ensures |Turns(n, Baseline)| + |Turns(n, Candidate)| == n
    ensures |Turns(n, Baseline)| - |Turns(n, Candidate)| == n % 2
  {
    if n > 0 {
      TurnsAreFair(n - 1);
    }
  }

  lemma LedInPair(c: Comparison, w: nat, phase: Phase, index: nat, q: nat, r: nat, variant: Variant)
    requires q < c.Width()
    ensures Select(Pair(c, w, phase, index, q), Led(w, phase, r, variant)) ==
            if q == r && First(index) == variant then [index] else []
  {
    SelectPair(c, w, phase, index, q, Led(w, phase, r, variant));
  }

  function LedOnce(index: nat, r: nat, variant: Variant): nat -> seq<nat> {
    (q: nat) => if q == r && First(index) == variant then [index] else []
  }

  function LedRound(variant: Variant): nat -> seq<nat> {
    (index: nat) => if First(index) == variant then [index] else []
  }

  lemma {:induction false} LedOnceJoined(index: nat, r: nat, variant: Variant, n: nat)
    ensures Joined(LedOnce(index, r, variant), n) == if r < n then LedRound(variant)(index) else []
  {
    if n > 0 {
      LedOnceJoined(index, r, variant, n - 1);
    }
  }

  lemma LedInRound(c: Comparison, w: nat, phase: Phase, index: nat, r: nat, variant: Variant)
    requires r < c.Width()
    ensures Select(Round(c, w, phase, index, c.Width()), Led(w, phase, r, variant)) == LedRound(variant)(index)
  {
    forall q: nat | q < c.Width()
      ensures Select(Pair(c, w, phase, index, q), Led(w, phase, r, variant)) == LedOnce(index, r, variant)(q)
    {
      LedInPair(c, w, phase, index, q, r, variant);
    }
    SelectRound(c, w, phase, index, c.Width(), Led(w, phase, r, variant), LedOnce(index, r, variant));
    LedOnceJoined(index, r, variant, c.Width());
  }

  lemma LedInRounds(c: Comparison, w: nat, phase: Phase, n: nat, r: nat, variant: Variant)
    requires r < c.Width()
    ensures Select(Rounds(c, w, phase, n), Led(w, phase, r, variant)) == Joined(LedRound(variant), n)
  {
    forall i: nat | i < n
      ensures Select(Round(c, w, phase, i, c.Width()), Led(w, phase, r, variant)) == LedRound(variant)(i)
    {
      LedInRound(c, w, phase, i, r, variant);
    }
    SelectRounds(c, w, phase, n, Led(w, phase, r, variant), LedRound(variant));
  }

  ghost predicate AllIn(trace: seq<Op>, phase: Phase) {
    forall i :: 0 <= i < |trace| && trace[i].Note? && trace[i].record.Measured? ==> trace[i].record.phase == phase
  }

  lemma {:induction false} RoundsIn(c: Comparison, w: nat, phase: Phase, n: nat)
    ensures AllIn(Rounds(c, w, phase, n), phase)
  {
    if n > 0 {
      RoundsIn(c, w, phase, n - 1);
      RoundIn(c, w, phase, n - 1, c.Width());
    }
  }

  lemma {:induction false} RoundIn(c: Comparison, w: nat, phase: Phase, index: nat, n: nat)
    requires n <= c.Width()
    ensures AllIn(Round(c, w, phase, index, n), phase)
  {
    if n > 0 {
      RoundIn(c, w, phase, index, n - 1);
    }
  }

  function RoundsOf(c: Comparison, phase: Phase): nat {
    if phase == Warmup then c.warmups else c.samples
  }

  lemma LedInPhase(c: Comparison, w: nat, p: Phase, n: nat, phase: Phase, r: nat, variant: Variant)
    requires r < c.Width()
    ensures Select(Rounds(c, w, p, n), Led(w, phase, r, variant)) == if p == phase then Turns(n, variant) else []
  {
    if p == phase {
      LedInRounds(c, w, p, n, r, variant);
    } else {
      RoundsIn(c, w, p, n);
      SelectNone(Rounds(c, w, p, n), Led(w, phase, r, variant));
    }
  }

  lemma LedAtCount(c: Comparison, w: nat, phase: Phase, r: nat, variant: Variant)
    requires r < c.Width()
    ensures Select(AtCount(c, w), Led(w, phase, r, variant)) == Turns(RoundsOf(c, phase), variant)
  {
    var p := Led(w, phase, r, variant);
    LedInPhase(c, w, Warmup, c.warmups, phase, r, variant);
    LedInPhase(c, w, Sample, c.samples, phase, r, variant);
    SelectInner(c, w, p, Select(Rounds(c, w, Warmup, c.warmups), p), Select(Rounds(c, w, Sample, c.samples), p));
  }

  lemma LedElsewhere(c: Comparison, w: nat, workers: nat, phase: Phase, r: nat, variant: Variant)
    requires w != workers
    ensures Select(AtCount(c, w), Led(workers, phase, r, variant)) == []
  {
    CountAt(c, w);
    SelectNone(AtCount(c, w), Led(workers, phase, r, variant));
  }

  lemma {:induction false} LedInPlan(c: Comparison, counts: seq<nat>, workers: nat, phase: Phase, r: nat, variant: Variant)
    requires NoDuplicates(counts) && r < c.Width()
    ensures Select(Plan(c, counts), Led(workers, phase, r, variant)) ==
            if workers in counts then Turns(RoundsOf(c, phase), variant) else []
  {
    if counts != [] {
      var init, last := counts[..|counts| - 1], counts[|counts| - 1];
      LedInPlan(c, init, workers, phase, r, variant);
      if last == workers {
        LedAtCount(c, last, phase, r, variant);
      } else {
        LedElsewhere(c, last, workers, phase, r, variant);
      }
      SelectConcat(Plan(c, init), AtCount(c, last), Led(workers, phase, r, variant));
    }
  }

  /** At every worker count, in every phase and for every request, baseline goes first as often as candidate,
      or once more; and every round has a first. */
  lemma FairAlternation(c: Comparison, counts: seq<nat>, workers: nat, phase: Phase, r: nat)
    requires NoDuplicates(counts) && workers in counts && r < c.Width()
    ensures var trace := Plan(c, counts);
            var baseline := |Select(trace, Led(workers, phase, r, Baseline))|;
            var candidate := |Select(trace, Led(workers, phase, r, Candidate))|;
            baseline + candidate == RoundsOf(c, phase) && baseline - candidate == RoundsOf(c, phase) % 2
  {
    LedInPlan(c, counts, workers, phase, r, Baseline);
    LedInPlan(c, counts, workers, phase, r, Candidate);
    TurnsAreFair(RoundsOf(c, phase));
  }

  predicate LedNote(op: Op) {
    op.Note? && op.record.Measured? && op.record.variant == op.record.first
  }

  /** After the variant that is labelled first comes the other one, on the same request. */
  ghost predicate LabelsHold(trace: seq<Op>) {
    forall i {:trigger trace[i]} :: 0 <= i < |trace| && LedNote(trace[i]) ==>
      i + 2 < |trace| && trace[i + 2] == Note(trace[i].record.(variant := Other(trace[i].record.first)))
  }

  lemma LabelsConcat(a: seq<Op>, b: seq<Op>)
    requires LabelsHold(a) && LabelsHold(b)
    ensures LabelsHold(a + b)
  {
    var t := a + b;
    forall i | 0 <= i < |t| && LedNote(t[i])
      ensures i + 2 < |t| && t[i + 2] == Note(t[i].record.(variant := Other(t[i].record.first)))
    {
      assert t[i] == if i < |a| then a[i] else b[i - |a|];
    }
  }

  lemma {:induction false} LabelsInRounds(c: Comparison, w: nat, phase: Phase, n: nat)
    ensures LabelsHold(Rounds(c, w, phase, n))
  {
    if n > 0 {
      LabelsInRounds(c, w, phase, n - 1);
      LabelsInRound(c, w, phase, n - 1, c.Width());
      LabelsConcat(Rounds(c, w, phase, n - 1), Round(c, w, phase, n - 1, c.Width()));
    }
  }

  lemma {:induction false} LabelsInRound(c: Comparison, w: nat, phase: Phase, index: nat, n: nat)
    requires n <= c.Width()
    ensures LabelsHold(Round(c, w, phase, index, n))
  {
    if n > 0 {
      LabelsInRound(c, w, phase, index, n - 1);
      LabelsConcat(Round(c, w, phase, index, n - 1), Pair(c, w, phase, index, n - 1));
    }
  }

  /** The recorded order is the order in which the variants really ran. */
  lemma {:induction false} OrderIsRecorded(c: Comparison, counts: seq<nat>)
    ensures LabelsHold(Plan(c, counts))
  {
    if counts != [] {
      var init, last := counts[..|counts| - 1], counts[|counts| - 1];
      OrderIsRecorded(c, init);
      var warmups, samples := Rounds(c, last, Warmup, c.warmups), Rounds(c, last, Sample, c.samples);
      LabelsInRounds(c, last, Warmup, c.warmups);
      LabelsInRounds(c, last, Sample, c.samples);
      LabelsConcat(Opening(c, last), warmups);
      LabelsConcat(Opening(c, last) + warmups, samples);
      LabelsConcat(Opening(c, last) + warmups + samples, Closing(c, last));
      LabelsConcat(Plan(c, init), AtCount(c, last));
    }
  }

  lemma {:induction false} DistinctCounts(counts: seq<nat>)
    ensures NoDuplicates(Distinct(counts))
    ensures forall n :: n in Distinct(counts) <==> n in counts
    ensures Distinct(Distinct(counts)) == Distinct(counts)
  {
    if counts != [] {
      var init, last := counts[..|counts| - 1], counts[|counts| - 1];
      DistinctCounts(init);
      assert counts == init + [last];
      var kept := Distinct(init);
      if last !in kept {
        assert (kept + [last])[..|kept|] == kept;
      }
    }
  }
}
