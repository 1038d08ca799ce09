/** The output files of a paired benchmark: when all of them are distinct. */
module CompareOutputs {
  import opened Common
  import opened Compare
  import opened CompareProps

  // File names.

  function Word(phase: Phase): string {
    if phase == Warmup then "warmup" else "sample"
  }

  /** `w{workers}` for a session, `w{workers}-{phase}-{index}` for a single run. */
  function Suffix(workers: nat, round: Option<(Phase, nat)>): string {
    "w" + Decimal(workers) + RoundSuffix(round)
  }

  function RoundSuffix(round: Option<(Phase, nat)>): string {
    match round
    case None => ""
    case Some((phase, index)) => "-" + Word(phase) + "-" + Decimal(index)
  }

  /** Digits end where a dash or the text ends. */
  lemma DigitsEnd(a: string, x: string, b: string, y: string)
    requires a + x == b + y
    requires (forall i :: 0 <= i < |a| ==> IsDigit(a[i])) && (forall i :: 0 <= i < |b| ==> IsDigit(b[i]))
    requires (x == "" || x[0] == '-') && (y == "" || y[0] == '-')
    ensures a == b && x == y
  {
    var t := a + x;
    assert t == b + y;
    assert x != "" ==> t[|a|] == x[0];
    assert y != "" ==> t[|b|] == y[0];
    assert forall i :: 0 <= i < |a| ==> IsDigit(t[i]);
    assert forall i :: 0 <= i < |b| ==> IsDigit(t[i]);
    assert |a| == |b|;
    assert t[..|a|] == a && t[..|b|] == b;
    assert t[|a|..] == x && t[|b|..] == y;
  }

  lemma SameTail(head: string, a: string, x: string, b: string, y: string)
    requires head + a + x == head + b + y
    ensures a + x == b + y
  {
    assert (head + a + x)[|head|..] == a + x;
    assert (head + b + y)[|head|..] == b + y;
  }

  lemma RoundSuffixInjective(r: Option<(Phase, nat)>, q: Option<(Phase, nat)>)
    requires RoundSuffix(r) == RoundSuffix(q)
    ensures r == q
  {
    if r.Some? && q.Some? {
      var (phase, i) := r.value;
      var (other, j) := q.value;
      assert RoundSuffix(r)[1] == Word(phase)[0] && RoundSuffix(q)[1] == Word(other)[0];
      assert RoundSuffix(r)[8..] == Decimal(i) && RoundSuffix(q)[8..] == Decimal(j);
      DecimalValue(i);
      DecimalValue(j);
    }
  }

  lemma SuffixInjective(w: nat, r: Option<(Phase, nat)>, v: nat, q: Option<(Phase, nat)>)
    requires Suffix(w, r) == Suffix(v, q)
    ensures w == v && r == q
  {
    DecimalValue(w);
    DecimalValue(v);
    SameTail("w", Decimal(w), RoundSuffix(r), Decimal(v), RoundSuffix(q));
    DigitsEnd(Decimal(w), RoundSuffix(r), Decimal(v), RoundSuffix(q));
    RoundSuffixInjective(r, q);
  }

  predicate NoDot(s: string) {
    forall i :: 0 <= i < |s| ==> s[i] != '.'
  }

  lemma NoDotConcat(a: string, b: string)
    requires NoDot(a) && NoDot(b)
    ensures NoDot(a + b)
  {
  }

  lemma DecimalHasNoDot(n: nat)
    ensures NoDot(Decimal(n))
  {
    DecimalValue(n);
    forall i | 0 <= i < |Decimal(n)| ensures Decimal(n)[i] != '.' {
      assert IsDigit(Decimal(n)[i]);
    }
  }

  lemma RoundSuffixHasNoDot(round: Option<(Phase, nat)>)
    ensures NoDot(RoundSuffix(round))
  {
    if round.Some? {
      var phase, digits := round.value.0, Decimal(round.value.1);
      DecimalHasNoDot(round.value.1);
      assert NoDot("-") && NoDot(Word(phase));
      NoDotConcat("-", Word(phase));
      NoDotConcat("-" + Word(phase), "-");
      NoDotConcat("-" + Word(phase) + "-", digits);
    }
  }

  lemma SuffixHasNoDot(w: nat, round: Option<(Phase, nat)>)
    ensures NoDot(Suffix(w, round))
  {
    DecimalHasNoDot(w);
    RoundSuffixHasNoDot(round);
    NoDotConcat("w", Decimal(w));
    NoDotConcat("w" + Decimal(w), RoundSuffix(round));
  }

  lemma LastDot(a: string, s: string, b: string, t: string)
    requires a + "." + s == b + "." + t && NoDot(s) && NoDot(t)
    ensures a == b && s == t
  {
    var x := a + "." + s;
    assert x == b + "." + t;
    assert x[|a|] == '.' && x[|b|] == '.';
    assert forall i :: |a| < i < |x| ==> x[i] == s[i - |a| - 1];
    assert forall i :: |b| < i < |x| ==> x[i] == t[i - |b| - 1];
    assert |a| == |b|;
    assert x[..|a|] == a && x[..|b|] == b;
    assert x[|a| + 1..] == s && x[|b| + 1..] == t;
  }

  /** One output file of one run. */
  datatype Output = Output(variant: Variant, stream: Stream, workers: nat, round: Option<(Phase, nat)>)

  function Path(c: Comparison, o: Output): string {
    c.base.Of(o.variant, o.stream) + "." + Suffix(o.workers, o.round)
  }

  /** The file of a session ends in its worker count, that of one run also in what the run is for and its number. */
  lemma PathIs(c: Comparison, o: Output)
    ensures Path(c, o) == c.base.Of(o.variant, o.stream) + ".w" + Decimal(o.workers)
                          + if o.round.None? then ""
                            else (if o.round.value.0 == Warmup then "-warmup-" else "-sample-") + Decimal(o.round.value.1)
  {
    var base, count, rest := c.base.Of(o.variant, o.stream), Decimal(o.workers), RoundSuffix(o.round);
    assert base + "." + ("w" + count + rest) == base + ".w" + count + rest;
  }

  ghost predicate DistinctBases(c: Comparison) {
    forall v, s, w, t :: c.base.Of(v, s) == c.base.Of(w, t) ==> v == w && s == t
  }

  lemma PathInjective(c: Comparison, o: Output, p: Output)
    requires DistinctBases(c) && Path(c, o) == Path(c, p)
    ensures o == p
  {
    SuffixHasNoDot(o.workers, o.round);
    SuffixHasNoDot(p.workers, p.round);
    LastDot(c.base.Of(o.variant, o.stream), Suffix(o.workers, o.round),
            c.base.Of(p.variant, p.stream), Suffix(p.workers, p.round));
    SuffixInjective(o.workers, o.round, p.workers, p.round);
  }

  // The files of a whole plan.

  function OpensFiles(): Op -> seq<Output> {
    (op: Op) =>
      if op.Start? then [Output(op.variant, Stdout, op.workers, op.round), Output(op.variant, Stderr, op.workers, op.round)]
      else []
  }

  function Files(trace: seq<Op>): seq<Output> {
    Select(trace, OpensFiles())
  }

  function PathsOf(c: Comparison, files: seq<Output>): seq<string> {
    seq(|files|, i requires 0 <= i < |files| => Path(c, files[i]))
  }

  lemma NoDuplicatesConcat<T(!new)>(a: seq<T>, b: seq<T>)
    requires NoDuplicates(a) && NoDuplicates(b)
    requires forall x :: x in a ==> x !in b
    ensures NoDuplicates(a + b)
  {
    var s := a + b;
    forall i, j | 0 <= i < j < |s| ensures s[i] != s[j] {
      if i < |a| <= j {
        assert s[i] in a && s[j] in b;
      }
    }
  }

  lemma {:induction false} OnlyAsks(c: Comparison, w: nat, phase: Phase, index: nat, n: nat)
    requires c.ModeFits() && c.jsonl && n <= c.Width()
    ensures forall i :: 0 <= i < |Round(c, w, phase, index, n)| ==> !Round(c, w, phase, index, n)[i].Start?
  {
    if n > 0 {
      OnlyAsks(c, w, phase, index, n - 1);
    }
  }

  /** Once each, the files for which `p` holds and no others. */
  ghost predicate Exactly(files: seq<Output>, p: Output -> bool) {
    NoDuplicates(files) && forall o: Output {:trigger p(o)} {:trigger o in files} :: o in files <==> p(o)
  }

  lemma ExactlyConcat(a: seq<Output>, b: seq<Output>, p: Output -> bool, q: Output -> bool, r: Output -> bool)
    requires Exactly(a, p) && Exactly(b, q)
    requires forall o: Output {:trigger r(o)} :: !(p(o) && q(o)) && (r(o) <==> p(o) || q(o))
    ensures Exactly(a + b, r)
  {
    forall x | x in a ensures x !in b {
      assert p(x);
      assert r(x) || !r(x);
    }
    NoDuplicatesConcat(a, b);
  }

  /** The files that belong to one worker count. */
  predicate Belongs(c: Comparison, w: nat, o: Output) {
    && o.workers == w
    && if o.round.None? then c.jsonl else !c.jsonl && o.round.value.1 < RoundsOf(c, o.round.value.0)
  }

  function InOpening(c: Comparison, w: nat): Output -> bool {
    (o: Output) => c.jsonl && o.workers == w && o.round == None
  }

  function InRound(c: Comparison, w: nat, phase: Phase, index: nat): Output -> bool {
    (o: Output) => !c.jsonl && o.workers == w && o.round == Some((phase, index))
  }

  function InRounds(c: Comparison, w: nat, phase: Phase, n: nat): Output -> bool {
    (o: Output) => !c.jsonl && o.workers == w && o.round.Some? && o.round.value.0 == phase && o.round.value.1 < n
  }

  function BeforeSamples(c: Comparison, w: nat): Output -> bool {
    (o: Output) => Belongs(c, w, o) && (o.round.Some? ==> o.round.value.0 == Warmup)
  }

  function InPlan(c: Comparison, counts: seq<nat>): Output -> bool {
    (o: Output) => o.workers in counts && Belongs(c, o.workers, o)
  }

  function Four(v: Variant, w: nat, round: Option<(Phase, nat)>): seq<Output> {
    [Output(v, Stdout, w, round), Output(v, Stderr, w, round),
     Output(Other(v), Stdout, w, round), Output(Other(v), Stderr, w, round)]
  }

  lemma FourAreAll(v: Variant, w: nat, round: Option<(Phase, nat)>)
    ensures NoDuplicates(Four(v, w, round))
    ensures forall o: Output :: o in Four(v, w, round) <==> o.workers == w && o.round == round
  {
    forall o: Output | o.workers == w && o.round == round ensures o in Four(v, w, round) {
      var k := (if o.variant == v then 0 else 2) + (if o.stream == Stdout then 0 else 1);
      assert Four(v, w, round)[k] == o;
    }
  }

  /** In a process benchmark every round opens the four files of its index. */
  lemma FilesOfRound(c: Comparison, w: nat, phase: Phase, index: nat)
    requires c.ModeFits()
    ensures Exactly(Files(Round(c, w, phase, index, c.Width())), InRound(c, w, phase, index))
  {
    var n, f := c.Width(), OpensFiles();
    if c.jsonl {
      OnlyAsks(c, w, phase, index, n);
      SelectNone(Round(c, w, phase, index, n), f);
    } else {
      assert Round(c, w, phase, index, 1) == [] + Pair(c, w, phase, index, 0) == Pair(c, w, phase, index, 0);
      SelectPair(c, w, phase, index, 0, f);
      assert Files(Pair(c, w, phase, index, 0)) == Four(First(index), w, Some((phase, index)));
      FourAreAll(First(index), w, Some((phase, index)));
    }
  }

  lemma NextRound(c: Comparison, w: nat, phase: Phase, n: nat, before: seq<Output>, round: seq<Output>)
    requires Exactly(before, InRounds(c, w, phase, n)) && Exactly(round, InRound(c, w, phase, n))
    ensures Exactly(before + round, InRounds(c, w, phase, n + 1))
  {
    ExactlyConcat(before, round, InRounds(c, w, phase, n), InRound(c, w, phase, n), InRounds(c, w, phase, n + 1));
  }

  lemma {:induction false} FilesOfRounds(c: Comparison, w: nat, phase: Phase, n: nat)
    requires c.ModeFits()
    ensures Exactly(Files(Rounds(c, w, phase, n)), InRounds(c, w, phase, n))
  {
    if n > 0 {
      var m := n - 1;
      FilesOfRounds(c, w, phase, m);
      FilesOfRound(c, w, phase, m);
      var rounds, round := Rounds(c, w, phase, m), Round(c, w, phase, m, c.Width());
      assert Files(rounds + round) == Files(rounds) + Files(round) by {
        SelectConcat(rounds, round, OpensFiles());
      }
      NextRound(c, w, phase, m, Files(rounds), Files(round));
    }
  }

  lemma FilesOfOpening(c: Comparison, w: nat)
    ensures Exactly(Files(Opening(c, w)), InOpening(c, w))
  {
    SelectOpening(c, w, OpensFiles());
    if c.jsonl {
      assert Files(Opening(c, w)) == Four(c.listed, w, None);
      FourAreAll(c.listed, w, None);
    }
  }

  function InCount(c: Comparison, w: nat): Output -> bool {
    (o: Output) => Belongs(c, w, o)
  }

  lemma CountIsJoined(c: Comparison, w: nat, a: seq<Output>, b: seq<Output>, d: seq<Output>)
    requires Exactly(a, InOpening(c, w)) && Exactly(b, InRounds(c, w, Warmup, c.warmups))
    requires Exactly(d, InRounds(c, w, Sample, c.samples))
    ensures Exactly(a + b + d, InCount(c, w))
  {
    ExactlyConcat(a, b, InOpening(c, w), InRounds(c, w, Warmup, c.warmups), BeforeSamples(c, w));
    ExactlyConcat(a + b, d, BeforeSamples(c, w), InRounds(c, w, Sample, c.samples), InCount(c, w));
  }

  lemma FilesAreJoined(c: Comparison, w: nat)
    ensures Files(AtCount(c, w)) ==
            Files(Opening(c, w)) + Files(Rounds(c, w, Warmup, c.warmups)) + Files(Rounds(c, w, Sample, c.samples))
  {
    SelectAtCount(c, w, OpensFiles());
    SelectClosing(c, w, OpensFiles());
  }

  lemma FilesAtCount(c: Comparison, w: nat)
    requires c.ModeFits()
    ensures Exactly(Files(AtCount(c, w)), InCount(c, w))
  {
    FilesAreJoined(c, w);
    FilesOfOpening(c, w);
    FilesOfRounds(c, w, Warmup, c.warmups);
    FilesOfRounds(c, w, Sample, c.samples);
    CountIsJoined(c, w, Files(Opening(c, w)), Files(Rounds(c, w, Warmup, c.warmups)),
                  Files(Rounds(c, w, Sample, c.samples)));
  }

  lemma NextCount(c: Comparison, init: seq<nat>, last: nat, before: seq<Output>, files: seq<Output>)
    requires Exactly(before, InPlan(c, init)) && Exactly(files, InCount(c, last)) && last !in init
    ensures Exactly(before + files, InPlan(c, init + [last]))
  {
    ExactlyConcat(before, files, InPlan(c, init), InCount(c, last), InPlan(c, init + [last]));
  }

  lemma {:induction false} FilesOfPlan(c: Comparison, counts: seq<nat>)
    requires c.ModeFits() && NoDuplicates(counts)
    ensures Exactly(Files(Plan(c, counts)), InPlan(c, counts))
  {
    if counts != [] {
      var init, last := counts[..|counts| - 1], counts[|counts| - 1];
      var plan, ops := Plan(c, init), AtCount(c, last);
      assert counts == init + [last];
      FilesOfPlan(c, init);
      FilesAtCount(c, last);
      SelectConcat(plan, ops, OpensFiles());
      NextCount(c, init, last, Files(plan), Files(ops));
    }
  }

  lemma DistinctBasesSuffice(c: Comparison, files: seq<Output>)
    requires DistinctBases(c) && NoDuplicates(files)
    ensures NoDuplicates(PathsOf(c, files))
  {
    forall i, j | 0 <= i < j < |files| ensures PathsOf(c, files)[i] != PathsOf(c, files)[j] {
      if Path(c, files[i]) == Path(c, files[j]) {
        PathInjective(c, files[i], files[j]);
      }
    }
  }

  lemma EqualBasesCollide(c: Comparison, files: seq<Output>, w: nat, round: Option<(Phase, nat)>)
    requires !DistinctBases(c)
    requires forall o: Output :: o.workers == w && o.round == round ==> o in files
    ensures !NoDuplicates(PathsOf(c, files))
  {
    var v, s, u, t :| c.base.Of(v, s) == c.base.Of(u, t) && !(v == u && s == t);
    var o, p := Output(v, s, w, round), Output(u, t, w, round);
    var i :| 0 <= i < |files| && files[i] == o;
    var j :| 0 <= j < |files| && files[j] == p;
    assert PathsOf(c, files)[i] == PathsOf(c, files)[j] && i != j;
  }

  lemma PathsAreDistinct(c: Comparison, counts: seq<nat>, files: seq<Output>)
    requires Exactly(files, InPlan(c, counts)) && counts != [] && c.samples > 0
    ensures NoDuplicates(PathsOf(c, files)) <==> DistinctBases(c)
  {
    if DistinctBases(c) {
      DistinctBasesSuffice(c, files);
    } else {
      var w, round := counts[0], if c.jsonl then None else Some((Sample, 0));
      forall o: Output | o.workers == w && o.round == round ensures o in files {
        assert InPlan(c, counts)(o);
      }
      EqualBasesCollide(c, files, w, round);
    }
  }

  /** No two runs of a comparison write to the same file, exactly if the four base paths are distinct. */
  lemma OutputsAreDistinct(c: Comparison, counts: seq<nat>)
    requires c.ModeFits() && NoDuplicates(counts) && counts != [] && c.samples > 0
    ensures NoDuplicates(PathsOf(c, Files(Plan(c, counts)))) <==> DistinctBases(c)
  {
    FilesOfPlan(c, counts);
    var files := Files(Plan(c, counts));
    PathsAreDistinct(c, counts, files);
  }
}
