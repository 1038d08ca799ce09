/** `macqueue/runner.py`: the paired benchmark that alternates baseline and candidate. */
module Compare {
  import opened Common

  datatype Variant = Baseline | Candidate
  datatype Stream = Stdout | Stderr
  datatype Phase = Warmup | Sample

  /** A worker count as written in the job, or the name of a measured core count. */
  datatype Count = Fixed(n: nat) | Named(name: string)

  datatype Request = Seeds(seeds: seq<nat>) | Range(start: nat, count: nat)

  /** Where each variant's output goes. */
  datatype Paths = Paths(baselineOut: string, baselineErr: string, candidateOut: string, candidateErr: string)
  {
    function Of(variant: Variant, stream: Stream): string {
      match (variant, stream)
      case (Baseline, Stdout) => baselineOut
      case (Baseline, Stderr) => baselineErr
      case (Candidate, Stdout) => candidateOut
      case (Candidate, Stderr) => candidateErr
    }
  }

  datatype Comparison = Comparison(
    jsonl: bool,
    /** Which variant the job lists first. */
    listed: Variant,
    base: Paths,
    counts: seq<Count>,
    warmups: nat,
    samples: nat,
    requests: seq<Request>)
  {
    /** Only a JSON-lines benchmark has requests, and it has some. */
    predicate ModeFits() {
      jsonl <==> requests != []
    }

    /** How many there are in `step["requests"] or [None]`, and which. */
    function Width(): nat {
      if requests == [] then 1 else |requests|
    }

    function RequestAt(r: nat): Option<Request> {
      if r < |requests| then Some(requests[r]) else None
    }
  }

  function Other(v: Variant): Variant {
    if v == Baseline then Candidate else Baseline
  }

  /** `expand_seed_request` */
  function Expand(request: Request): Request {
    match request
    case Seeds(_) => request
    case Range(start, count) => Seeds(seq(count, i => start + i))
  }

  datatype Record =
    | Ready(variant: Variant, workers: nat)
    | Measured(phase: Phase, index: nat, first: Variant, variant: Variant, workers: nat, requestIndex: nat)

  /** What the runner does, in order. `round` is the part of the suffix that tells samples apart. */
  datatype Op =
    | Start(variant: Variant, workers: nat, round: Option<(Phase, nat)>)
    | Ask(variant: Variant, workers: nat, request: Request)
    | Note(record: Record)
    | Finish(variant: Variant, workers: nat)

  // The plan of a comparison.

  /** `if count not in counts` */
  function Distinct(counts: seq<nat>): seq<nat> {
    if counts == [] then []
    else
      var init, last := Distinct(counts[..|counts| - 1]), counts[|counts| - 1];
      if last in init then init else init + [last]
  }

  function First(index: nat): Variant {
    if index % 2 == 0 then Baseline else Candidate
  }

  function Turn(c: Comparison, workers: nat, phase: Phase, index: nat, r: nat, variant: Variant): seq<Op>
    requires r < c.Width()
  {
    var call := match c.RequestAt(r)
      case Some(request) => if c.jsonl then Ask(variant, workers, Expand(request))
                            else Start(variant, workers, Some((phase, index)))
      case None => Start(variant, workers, Some((phase, index)));
    [call, Note(Measured(phase, index, First(index), variant, workers, r))]
  }

  function Pair(c: Comparison, workers: nat, phase: Phase, index: nat, r: nat): seq<Op>
    requires r < c.Width()
  {
    Turn(c, workers, phase, index, r, First(index)) + Turn(c, workers, phase, index, r, Other(First(index)))
  }

  function Round(c: Comparison, workers: nat, phase: Phase, index: nat, n: nat): seq<Op>
    requires n <= c.Width()
  {
    if n == 0 then [] else Round(c, workers, phase, index, n - 1) + Pair(c, workers, phase, index, n - 1)
  }

  function Rounds(c: Comparison, workers: nat, phase: Phase, n: nat): seq<Op> {
    if n == 0 then []
    else Rounds(c, workers, phase, n - 1) + Round(c, workers, phase, n - 1, c.Width())
  }

  function Opened(c: Comparison, workers: nat, variant: Variant): seq<Op> {
    [Start(variant, workers, None), Note(Ready(variant, workers))]
  }

  function Opening(c: Comparison, workers: nat): seq<Op> {
    if c.jsonl then Opened(c, workers, c.listed) + Opened(c, workers, Other(c.listed)) else []
  }

  function Closing(c: Comparison, workers: nat): seq<Op> {
    if c.jsonl then [Finish(c.listed, workers), Finish(Other(c.listed), workers)] else []
  }

  function AtCount(c: Comparison, workers: nat): seq<Op> {
    Opening(c, workers) + Rounds(c, workers, Warmup, c.warmups) + Rounds(c, workers, Sample, c.samples)
    + Closing(c, workers)
  }

  function Plan(c: Comparison, counts: seq<nat>): seq<Op> {
    if counts == [] then [] else Plan(c, counts[..|counts| - 1]) + AtCount(c, counts[|counts| - 1])
  }

  /** The worker counts in numbers; nothing if a core count was not measured. */
  function Resolved(counts: seq<Count>, cores: map<string, nat>): Option<seq<nat>> {
    if counts == [] then Some([])
    else
      match Resolved(counts[..|counts| - 1], cores)
      case None => None
      case Some(init) =>
        match counts[|counts| - 1]
        case Fixed(n) => Some(init + [n])
        case Named(name) => if name in cores then Some(init + [cores[name]]) else None
  }

  lemma {:induction false} ResolvedPrefix(counts: seq<Count>, cores: map<string, nat>, i: nat)
    requires i <= |counts| && Resolved(counts[..i], cores).None?
    ensures Resolved(counts, cores).None?
    decreases |counts|
  {
    if i == |counts| {
      assert counts[..i] == counts;
    } else {
      var init := counts[..|counts| - 1];
      assert init[..i] == counts[..i];
      ResolvedPrefix(init, cores, i);
    }
  }

  method Resolve(counts: seq<Count>, cores: map<string, nat>) returns (r: Option<seq<nat>>)
    ensures r == match Resolved(counts, cores) case None => None case Some(numbers) => Some(Distinct(numbers))
  {
    var kept: seq<nat> := [];
    ghost var numbers: seq<nat> := [];
    var i := 0;
    while i < |counts|
      invariant i <= |counts| && Resolved(counts[..i], cores) == Some(numbers) && kept == Distinct(numbers)
    {
      assert counts[..i + 1][..i] == counts[..i];
      var n;
      match counts[i] {
        case Fixed(k) => n := k;
        case Named(name) =>
          if name !in cores {
            ResolvedPrefix(counts, cores, i + 1);
            return None;
          }
          n := cores[name];
      }
      assert (numbers + [n])[..|numbers|] == numbers;
      numbers := numbers + [n];
      if n !in kept {
        kept := kept + [n];
      }
      i := i + 1;
    }
    assert counts[..i] == counts;
    return Some(kept);
  }

  /** One request to both variants. */
  method RunPair(c: Comparison, workers: nat, phase: Phase, index: nat, r: nat) returns (trace: seq<Op>)
    requires r < c.Width()
    ensures trace == Pair(c, workers, phase, index, r)
  {
    trace := [];
    var order := if index % 2 == 0 then [Baseline, Candidate] else [Candidate, Baseline];
    var request := c.RequestAt(r);
    var expanded := if c.jsonl && request.Some? then Some(Expand(request.value)) else None;
    var k := 0;
    while k < |order|
      invariant k <= 2
      invariant k == 0 ==> trace == []
      invariant k == 1 ==> trace == Turn(c, workers, phase, index, r, order[0])
      invariant k == 2 ==> trace == Pair(c, workers, phase, index, r)
    {
      var variant := order[k];
      var call := if expanded.Some? then Ask(variant, workers, expanded.value)
                  else Start(variant, workers, Some((phase, index)));
      trace := trace + [call, Note(Measured(phase, index, order[0], variant, workers, r))];
      k := k + 1;
    }
  }

  method RunRound(c: Comparison, workers: nat, phase: Phase, index: nat) returns (trace: seq<Op>)
    ensures trace == Round(c, workers, phase, index, c.Width())
  {
    trace := [];
    var r := 0;
    while r < c.Width()
      invariant r <= c.Width() && trace == Round(c, workers, phase, index, r)
    {
      var pair := RunPair(c, workers, phase, index, r);
      trace := trace + pair;
      r := r + 1;
    }
  }

  method RunPhase(c: Comparison, workers: nat, phase: Phase, rounds: nat) returns (trace: seq<Op>)
    ensures trace == Rounds(c, workers, phase, rounds)
  {
    trace := [];
    var index := 0;
    while index < rounds
      invariant index <= rounds && trace == Rounds(c, workers, phase, index)
    {
      var round := RunRound(c, workers, phase, index);
      trace := trace + round;
      index := index + 1;
    }
  }

  method RunCount(c: Comparison, workers: nat) returns (trace: seq<Op>)
    ensures trace == AtCount(c, workers)
  {
    trace := if c.jsonl then Opened(c, workers, c.listed) + Opened(c, workers, Other(c.listed)) else [];
    var warmups := RunPhase(c, workers, Warmup, c.warmups);
    var samples := RunPhase(c, workers, Sample, c.samples);
    trace := trace + warmups + samples;
    if c.jsonl {
      trace := trace + [Finish(c.listed, workers), Finish(Other(c.listed), workers)];
    }
  }

  /** `compare`, as far as nothing it starts fails. */
  method RunComparison(c: Comparison, cores: map<string, nat>) returns (r: Option<seq<Op>>)
    ensures r == match Resolved(c.counts, cores)
                 case None => None
                 case Some(numbers) => Some(Plan(c, Distinct(numbers)))
  {
    var resolved := Resolve(c.counts, cores);
    if resolved.None? {
      return None;
    }
    var counts := resolved.value;
    var trace: seq<Op> := [];
    var i := 0;
    while i < |counts|
      invariant i <= |counts| && trace == Plan(c, counts[..i])
    {
      assert counts[..i + 1][..i] == counts[..i];
      var ops := RunCount(c, counts[i]);
      trace := trace + ops;
      i := i + 1;
    }
    assert counts[..i] == counts;
    return Some(trace);
  }
}
