/** The plan of a paired benchmark in closed form: which operation stands at which position, for every worker count, phase,
    round and request; and which worker counts there are. */
module ComparePlan {
  import opened Common
  import opened Compare
  import opened CompareProps

  // Worker counts.

  /** The counts are the numbers as written, and the measured ones for the names; a name that was not measured is an
      error. */
  lemma {:induction false} ResolvedIs(counts: seq<Count>, cores: map<string, nat>)
    ensures Resolved(counts, cores).None? <==> exists count :: count in counts && count.Named? && count.name !in cores
    ensures Resolved(counts, cores).Some? ==>
              && |Resolved(counts, cores).value| == |counts|
              && forall i :: 0 <= i < |counts| ==>
                   match counts[i]
                   case Fixed(n) => Resolved(counts, cores).value[i] == n
                   case Named(name) => name in cores && Resolved(counts, cores).value[i] == cores[name]
  {
    if counts != [] {
      var init, last := counts[..|counts| - 1], counts[|counts| - 1];
      ResolvedIs(init, cores);
      assert counts == init + [last];
    }
  }

  /** Of equal numbers the first is kept, and the order stays: entry `k` is number `at[k]`. */
  lemma {:induction false} DistinctKeepsFirsts(counts: seq<nat>) returns (at: seq<nat>)
    ensures |at| == |Distinct(counts)| && forall i, j :: 0 <= i < j < |at| ==> at[i] < at[j]
    ensures forall k :: 0 <= k < |at| ==>
              at[k] < |counts| && counts[at[k]] == Distinct(counts)[k] && counts[at[k]] !in counts[..at[k]]
    ensures forall n :: n in counts ==> n in Distinct(counts)
  {
    if counts == [] {
      at := [];
    } else {
      var m := |counts| - 1;
      var init, last := counts[..m], counts[m];
      at := DistinctKeepsFirsts(init);
      assert counts == init + [last];
      forall k | 0 <= k < |at| ensures counts[..at[k]] == init[..at[k]] {
      }
      if last !in Distinct(init) {
        at := at + [m];
        assert counts[..m] == init;
      }
    }
  }

  // Pieces of a sequence.

  /** `piece` stands at `from`. */
  predicate StandsAt<T(==)>(s: seq<T>, from: nat, piece: seq<T>) {
    from + |piece| <= |s| && s[from..from + |piece|] == piece
  }

  lemma SliceOfSlice<T>(s: seq<T>, from: nat, to: nat, p: nat, q: nat)
    requires from <= to <= |s| && p <= q <= to - from
    ensures s[from..to][p..q] == s[from + p..from + q]
  {
    var a, b := s[from..to][p..q], s[from + p..from + q];
    forall i | 0 <= i < |a| ensures a[i] == b[i] {
      assert a[i] == s[from..to][p + i] == s[from + p + i];
    }
  }

  lemma StandsIn<T>(s: seq<T>, from: nat, piece: seq<T>, at: nat, part: seq<T>)
    requires StandsAt(s, from, piece) && StandsAt(piece, at, part)
    ensures StandsAt(s, from + at, part)
  {
    SliceOfSlice(s, from, from + |piece|, at, at + |part|);
  }

  lemma SliceOfFirst<T>(a: seq<T>, b: seq<T>, from: nat, to: nat)
    requires from <= to <= |a|
    ensures (a + b)[from..to] == a[from..to]
  {
  }

  lemma StandsLonger<T>(a: seq<T>, b: seq<T>, from: nat, piece: seq<T>)
    requires StandsAt(a, from, piece)
    ensures StandsAt(a + b, from, piece)
  {
    SliceOfFirst(a, b, from, from + |piece|);
  }

  lemma StandsLast<T>(a: seq<T>, b: seq<T>)
    ensures StandsAt(a + b, |a|, b)
  {
  }

  /** `i` pieces of this size. */
  function Times(i: nat, size: nat): nat {
    if i == 0 then 0 else Times(i - 1, size) + size
  }

  lemma {:induction false} TimesIs(i: nat, size: nat)
    ensures Times(i, size) == i * size
  {
    if i > 0 {
      TimesIs(i - 1, size);
      Distribute(i - 1, 1, size);
    }
  }

  /** Among pieces of one length, each stands at its multiple. */
  lemma {:induction false} JoinedAt<T>(g: nat -> seq<T>, n: nat, size: nat, i: nat)
    requires forall j: nat :: j < n ==> |g(j)| == size
    ensures |Joined(g, n)| == Times(n, size)
    ensures i < n ==> StandsAt(Joined(g, n), Times(i, size), g(i))
  {
    if n > 0 {
      var m := n - 1;
      JoinedAt(g, m, size, i);
      var a, b := Joined(g, m), g(m);
      assert |b| == size;
      if i < m {
        StandsLonger(a, b, Times(i, size), g(i));
      } else if i == m {
        StandsLast(a, b);
      }
    }
  }

  // Rounds.

  function PairOf(c: Comparison, w: nat, phase: Phase, index: nat): nat -> seq<Op> {
    (r: nat) => if r < c.Width() then Pair(c, w, phase, index, r) else []
  }

  lemma {:induction false} RoundIsJoined(c: Comparison, w: nat, phase: Phase, index: nat, n: nat)
    requires n <= c.Width()
    ensures Round(c, w, phase, index, n) == Joined(PairOf(c, w, phase, index), n)
  {
    if n > 0 {
      var m := n - 1;
      RoundIsJoined(c, w, phase, index, m);
    }
  }

  lemma RoundAt(c: Comparison, w: nat, phase: Phase, index: nat, r: nat)
    requires r < c.Width()
    ensures |Round(c, w, phase, index, c.Width())| == Times(c.Width(), 4)
    ensures StandsAt(Round(c, w, phase, index, c.Width()), Times(r, 4), Pair(c, w, phase, index, r))
  {
    RoundIsJoined(c, w, phase, index, c.Width());
    JoinedAt(PairOf(c, w, phase, index), c.Width(), 4, r);
  }

  function RoundOf(c: Comparison, w: nat, phase: Phase): nat -> seq<Op> {
    (index: nat) => Round(c, w, phase, index, c.Width())
  }

  lemma {:induction false} RoundsAreJoined(c: Comparison, w: nat, phase: Phase, n: nat)
    ensures Rounds(c, w, phase, n) == Joined(RoundOf(c, w, phase), n)
  {
    if n > 0 {
      var m := n - 1;
      RoundsAreJoined(c, w, phase, m);
    }
  }

  lemma RoundsAt(c: Comparison, w: nat, phase: Phase, n: nat, i: nat)
    ensures |Rounds(c, w, phase, n)| == Times(n, Times(c.Width(), 4))
    ensures i < n ==> StandsAt(Rounds(c, w, phase, n), Times(i, Times(c.Width(), 4)), Round(c, w, phase, i, c.Width()))
  {
    RoundsAreJoined(c, w, phase, n);
    forall j: nat | j < n ensures |RoundOf(c, w, phase)(j)| == Times(c.Width(), 4) {
      RoundAt(c, w, phase, j, 0);
    }
    JoinedAt(RoundOf(c, w, phase), n, Times(c.Width(), 4), i);
  }

  // One worker count.

  /** How many operations a phase has. */
  function PhaseOps(c: Comparison, phase: Phase): nat {
    Times(RoundsOf(c, phase), Times(c.Width(), 4))
  }

  function OpeningOps(c: Comparison): nat {
    if c.jsonl then 4 else 0
  }

  function OpsPerCount(c: Comparison): nat {
    OpeningOps(c) + PhaseOps(c, Warmup) + PhaseOps(c, Sample) + if c.jsonl then 2 else 0
  }

  /** Where a phase begins. */
  function PhaseStart(c: Comparison, phase: Phase): nat {
    OpeningOps(c) + if phase == Sample then PhaseOps(c, Warmup) else 0
  }

  lemma FourParts<T>(a: seq<T>, b: seq<T>, d: seq<T>, e: seq<T>)
    ensures var s := a + b + d + e;
            && StandsAt(s, 0, a) && StandsAt(s, |a|, b) && StandsAt(s, |a| + |b|, d)
            && StandsAt(s, |a| + |b| + |d|, e)
  {
  }

  lemma PartLengths(c: Comparison, w: nat)
    ensures |Opening(c, w)| == OpeningOps(c) && |Closing(c, w)| == if c.jsonl then 2 else 0
    ensures |Rounds(c, w, Warmup, c.warmups)| == PhaseOps(c, Warmup)
    ensures |Rounds(c, w, Sample, c.samples)| == PhaseOps(c, Sample)
  {
    RoundsAt(c, w, Warmup, c.warmups, 0);
    RoundsAt(c, w, Sample, c.samples, 0);
  }

  lemma AtCountParts(c: Comparison, w: nat)
    ensures |AtCount(c, w)| == OpsPerCount(c)
    ensures StandsAt(AtCount(c, w), 0, Opening(c, w))
    ensures StandsAt(AtCount(c, w), PhaseStart(c, Warmup), Rounds(c, w, Warmup, c.warmups))
    ensures StandsAt(AtCount(c, w), PhaseStart(c, Sample), Rounds(c, w, Sample, c.samples))
    ensures StandsAt(AtCount(c, w), PhaseStart(c, Sample) + PhaseOps(c, Sample), Closing(c, w))
  {
    PartLengths(c, w);
    FourParts(Opening(c, w), Rounds(c, w, Warmup, c.warmups), Rounds(c, w, Sample, c.samples), Closing(c, w));
  }

  /** Where a pair stands among the operations of its phase. */
  function PairStart(c: Comparison, i: nat, r: nat): nat {
    Times(i, Times(c.Width(), 4)) + Times(r, 4)
  }

  lemma PairInRounds(c: Comparison, w: nat, phase: Phase, i: nat, r: nat)
    requires i < RoundsOf(c, phase) && r < c.Width()
    ensures StandsAt(Rounds(c, w, phase, RoundsOf(c, phase)), PairStart(c, i, r), Pair(c, w, phase, i, r))
  {
    var n, from, at := RoundsOf(c, phase), Times(i, Times(c.Width(), 4)), Times(r, 4);
    RoundsAt(c, w, phase, n, i);
    RoundAt(c, w, phase, i, r);
    StandsIn(Rounds(c, w, phase, n), from, Round(c, w, phase, i, c.Width()), at, Pair(c, w, phase, i, r));
  }

  lemma PairInCount(c: Comparison, w: nat, phase: Phase, i: nat, r: nat)
    requires i < RoundsOf(c, phase) && r < c.Width()
    ensures StandsAt(AtCount(c, w), PhaseStart(c, phase) + PairStart(c, i, r), Pair(c, w, phase, i, r))
  {
    AtCountParts(c, w);
    PairInRounds(c, w, phase, i, r);
    var rounds := Rounds(c, w, phase, RoundsOf(c, phase));
    StandsIn(AtCount(c, w), PhaseStart(c, phase), rounds, PairStart(c, i, r), Pair(c, w, phase, i, r));
  }

  // All worker counts.

  function CountOf(c: Comparison, counts: seq<nat>): nat -> seq<Op> {
    (k: nat) => if k < |counts| then AtCount(c, counts[k]) else []
  }

  lemma PlanNext(c: Comparison, counts: seq<nat>, m: nat)
    requires m < |counts|
    ensures Plan(c, counts[..m + 1]) == Plan(c, counts[..m]) + AtCount(c, counts[m])
  {
    assert counts[..m + 1][..m] == counts[..m];
  }

  lemma {:induction false} PlanIsJoined(c: Comparison, counts: seq<nat>, n: nat)
    requires n <= |counts|
    ensures Plan(c, counts[..n]) == Joined(CountOf(c, counts), n)
  {
    if n > 0 {
      var m := n - 1;
      PlanIsJoined(c, counts, m);
      PlanNext(c, counts, m);
    }
  }

  /** Where a worker count begins. */
  function CountStart(c: Comparison, k: nat): nat {
    Times(k, OpsPerCount(c))
  }

  lemma CountInPlan(c: Comparison, counts: seq<nat>, k: nat)
    ensures |Plan(c, counts)| == Times(|counts|, OpsPerCount(c))
    ensures k < |counts| ==> StandsAt(Plan(c, counts), CountStart(c, k), AtCount(c, counts[k]))
  {
    var n := |counts|;
    PlanIsJoined(c, counts, n);
    assert counts[..n] == counts;
    forall j: nat | j < n ensures |CountOf(c, counts)(j)| == OpsPerCount(c) {
      AtCountParts(c, counts[j]);
    }
    JoinedAt(CountOf(c, counts), n, OpsPerCount(c), k);
  }

  lemma PieceInPlan(c: Comparison, counts: seq<nat>, k: nat, at: nat, piece: seq<Op>)
    requires k < |counts| && StandsAt(AtCount(c, counts[k]), at, piece)
    ensures StandsAt(Plan(c, counts), CountStart(c, k) + at, piece)
  {
    CountInPlan(c, counts, k);
    StandsIn(Plan(c, counts), CountStart(c, k), AtCount(c, counts[k]), at, piece);
  }

  /** The seeds that are asked for: those of the request, or the consecutive ones of its range. */
  ghost predicate AsksFor(request: Request, asked: Request) {
    match request
    case Seeds(seeds) => asked == Seeds(seeds)
    case Range(start, count) =>
      asked.Seeds? && |asked.seeds| == count && forall j :: 0 <= j < count ==> asked.seeds[j] == start + j
  }

  /** What one variant does for a request: in a JSON-lines benchmark it is asked, otherwise it is started once more. */
  ghost predicate IsCall(c: Comparison, op: Op, variant: Variant, w: nat, phase: Phase, i: nat, r: nat) {
    if c.jsonl then
      r < |c.requests| && op.Ask? && op.variant == variant && op.workers == w && AsksFor(c.requests[r], op.request)
    else op == Start(variant, w, Some((phase, i)))
  }

  /** One request of round `i`: baseline comes first if `i` is even and candidate if it is odd; each of the two is called,
      and right after its call its record says so. */
  ghost predicate IsPair(c: Comparison, ops: seq<Op>, w: nat, phase: Phase, i: nat, r: nat) {
    var first, second := if i % 2 == 0 then Baseline else Candidate, if i % 2 == 0 then Candidate else Baseline;
    && |ops| == 4
    && IsCall(c, ops[0], first, w, phase, i, r) && ops[1] == Note(Measured(phase, i, first, first, w, r))
    && IsCall(c, ops[2], second, w, phase, i, r) && ops[3] == Note(Measured(phase, i, first, second, w, r))
  }

  lemma PairIs(c: Comparison, w: nat, phase: Phase, i: nat, r: nat)
    requires c.ModeFits() && r < c.Width()
    ensures IsPair(c, Pair(c, w, phase, i, r), w, phase, i, r)
  {
  }

  /** Position by position: what stands in the plan for each worker count, phase, round and request. */
  lemma PlanAt(c: Comparison, counts: seq<nat>, k: nat, phase: Phase, i: nat, r: nat) returns (ops: seq<Op>)
    requires c.ModeFits() && k < |counts| && i < RoundsOf(c, phase) && r < c.Width()
    ensures StandsAt(Plan(c, counts), CountStart(c, k) + (PhaseStart(c, phase) + PairStart(c, i, r)), ops)
    ensures IsPair(c, ops, counts[k], phase, i, r)
  {
    var w := counts[k];
    ops := Pair(c, w, phase, i, r);
    PairInCount(c, w, phase, i, r);
    PieceInPlan(c, counts, k, PhaseStart(c, phase) + PairStart(c, i, r), ops);
    PairIs(c, w, phase, i, r);
  }

  /** Before the rounds of each worker count, a JSON-lines benchmark opens its two sessions, in the order of the job. */
  lemma PlanOpens(c: Comparison, counts: seq<nat>, k: nat)
    requires k < |counts| && c.jsonl
    ensures var w, other := counts[k], if c.listed == Baseline then Candidate else Baseline;
            StandsAt(Plan(c, counts), CountStart(c, k),
                     [Start(c.listed, w, None), Note(Ready(c.listed, w)), Start(other, w, None), Note(Ready(other, w))])
  {
    var w := counts[k];
    AtCountParts(c, w);
    OpeningIs(c, w);
    PieceInPlan(c, counts, k, 0, Opening(c, w));
  }

  /** After them it closes both. */
  lemma PlanCloses(c: Comparison, counts: seq<nat>, k: nat)
    requires k < |counts| && c.jsonl
    ensures var w, other := counts[k], if c.listed == Baseline then Candidate else Baseline;
            StandsAt(Plan(c, counts), CountStart(c, k) + (PhaseStart(c, Sample) + PhaseOps(c, Sample)),
                     [Finish(c.listed, w), Finish(other, w)])
  {
    var w := counts[k];
    AtCountParts(c, w);
    OpeningIs(c, w);
    PieceInPlan(c, counts, k, PhaseStart(c, Sample) + PhaseOps(c, Sample), Closing(c, w));
  }

  lemma OpeningIs(c: Comparison, w: nat)
    requires c.jsonl
    ensures var other := if c.listed == Baseline then Candidate else Baseline;
            && Opening(c, w) == [Start(c.listed, w, None), Note(Ready(c.listed, w)),
                                 Start(other, w, None), Note(Ready(other, w))]
            && Closing(c, w) == [Finish(c.listed, w), Finish(other, w)]
  {
  }
}
