/** Shared by every component: results, bytes, time, digests, decimal numerals, concatenation and finite sums. */
module Common {

  datatype Option<+T> = None | Some(value: T)

  datatype Result<+T, +E> = Ok(value: T) | Err(error: E)

  newtype byte = x: int | 0 <= x < 256

  type bytes = seq<byte>

  /** Seconds on the server's or the worker's clock. */
  type Time = real

  /** SHA-256 with collisions assumed away: a digest remembers what it is the digest of. */
  datatype Hash = Hash(of: bytes)

  function Digest(data: bytes): Hash {
    Hash(data)
  }

  function Digit(d: nat): char
    requires d < 10
  {
    ('0' as int + d) as char
  }

  predicate IsDigit(c: char) {
    '0' <= c <= '9'
  }

  /** `str(n)` */
  function Decimal(n: nat): string {
    if n < 10 then [Digit(n)] else Decimal(n / 10) + [Digit(n % 10)]
  }

  function Value(s: string): int {
    if s == "" then 0 else 10 * Value(s[..|s| - 1]) + (s[|s| - 1] as int - '0' as int)
  }

  lemma {:induction false} DecimalValue(n: nat)
    ensures Value(Decimal(n)) == n
    ensures forall i :: 0 <= i < |Decimal(n)| ==> IsDigit(Decimal(n)[i])
  {
    if n >= 10 {
      DecimalValue(n / 10);
      assert Decimal(n)[..|Decimal(n)| - 1] == Decimal(n / 10);
    } else {
      assert Value("") == 0;
    }
  }

  function Tens(k: nat): nat {
    if k == 0 then 1 else 10 * Tens(k - 1)
  }

  lemma {:induction false} DecimalLength(n: nat, k: nat)
    requires k > 0 && n < Tens(k)
    ensures |Decimal(n)| <= k
  {
    if n >= 10 {
      DecimalLength(n / 10, k - 1);
    }
  }

  /** Length of one character in UTF-8. */
  function CharBytes(c: char): nat {
    if c as int < 0x80 then 1
    else if c as int < 0x800 then 2
    else if c as int < 0x1_0000 then 3
    else 4
  }

  /** `len(text.encode())` */
  function Utf8(text: string): nat {
    if text == "" then 0 else Utf8(text[..|text| - 1]) + CharBytes(text[|text| - 1])
  }

  lemma {:induction false} Utf8Concat(a: string, b: string)
    ensures Utf8(a + b) == Utf8(a) + Utf8(b)
  {
    if b == "" {
      assert a + b == a;
    } else {
      var init := b[..|b| - 1];
      Utf8Concat(a, init);
      assert (a + b)[..|a + b| - 1] == a + init;
    }
  }

  function Flatten<T>(parts: seq<seq<T>>): seq<T> {
    if parts == [] then [] else Flatten(parts[..|parts| - 1]) + parts[|parts| - 1]
  }

  lemma ConcatAssociative<T>(a: seq<T>, b: seq<T>, c: seq<T>)
    ensures (a + b) + c == a + (b + c)
  {
  }

  lemma PrefixSnoc<T>(s: seq<T>, n: nat)
    requires n < |s|
    ensures s[..n + 1] == s[..n] + [s[n]]
  {
  }

  lemma FlattenSnoc<T>(parts: seq<seq<T>>, last: seq<T>)
    ensures Flatten(parts + [last]) == Flatten(parts) + last
  {
    assert (parts + [last])[..|parts|] == parts;
  }

  lemma {:induction false} FlattenConcat<T>(a: seq<seq<T>>, b: seq<seq<T>>)
    ensures Flatten(a + b) == Flatten(a) + Flatten(b)
  {
    if b == [] {
      assert a + b == a;
    } else {
      var init, last := b[..|b| - 1], b[|b| - 1];
      assert b == init + [last];
      assert a + b == (a + init) + [last];
      FlattenConcat(a, init);
      FlattenSnoc(a + init, last);
    }
  }

  /** One step after another, until one fails. */
  function FoldSteps<S, M>(step: (S, M) -> Option<S>, s: S, ms: seq<M>): Option<S> {
    if ms == [] then Some(s)
    else
      match FoldSteps(step, s, ms[..|ms| - 1])
      case None => None
      case Some(before) => step(before, ms[|ms| - 1])
  }

  lemma FoldStepsSnoc<S, M>(step: (S, M) -> Option<S>, s: S, init: seq<M>, last: M)
    ensures FoldSteps(step, s, init + [last]) ==
            match FoldSteps(step, s, init) case None => None case Some(before) => step(before, last)
  {
    assert (init + [last])[..|init|] == init;
  }

  /** A list of states that every step leads along. */
  lemma {:induction false} FoldStepsAlong<S, M>(step: (S, M) -> Option<S>, s: S, header: seq<M>, ms: seq<M>,
                                                states: seq<S>, n: nat)
    requires |states| == |ms| + 1 && n <= |ms|
    requires FoldSteps(step, s, header) == Some(states[0])
    requires forall i {:trigger ms[i]} :: 0 <= i < |ms| ==> step(states[i], ms[i]) == Some(states[i + 1])
    ensures FoldSteps(step, s, header + ms[..n]) == Some(states[n])
  {
    if n == 0 {
      assert header + ms[..0] == header;
    } else {
      var m := n - 1;
      FoldStepsAlong(step, s, header, ms, states, m);
      FoldStepsSnoc(step, s, header + ms[..m], ms[m]);
      assert header + ms[..n] == (header + ms[..m]) + [ms[m]];
    }
  }

  /** The sum of all values of a finite table. */
  ghost function Sum<K(!new)>(m: map<K, nat>): nat {
    if m == map[] then 0 else
      var k :| k in m;
      m[k] + Sum(m - {k})
  }

  lemma {:induction false} SumRemove<K(!new)>(m: map<K, nat>, k: K)
    requires k in m
    ensures Sum(m) == m[k] + Sum(m - {k})
    decreases |m|
  {
    var c :| c in m && Sum(m) == m[c] + Sum(m - {c});
    if c != k {
      SumRemove(m - {c}, k);
      SumRemove(m - {k}, c);
      assert m - {c} - {k} == m - {k} - {c};
    }
  }

  lemma SumInsert<K(!new)>(m: map<K, nat>, k: K, v: nat)
    requires k !in m
    ensures Sum(m[k := v]) == Sum(m) + v
  {
    SumRemove(m[k := v], k);
    assert m[k := v] - {k} == m;
  }

  lemma {:induction false} SumSubset<K(!new)>(small: map<K, nat>, big: map<K, nat>)
    requires forall k :: k in small ==> k in big && small[k] <= big[k]
    ensures Sum(small) <= Sum(big)
    decreases |small|
  {
    if small != map[] {
      var k :| k in small;
      SumRemove(small, k);
      SumRemove(big, k);
      SumSubset(small - {k}, big - {k});
    }
  }

  /** Renaming the entries of a table, each to a name of its own, keeps the sum. */
  lemma {:induction false} SumRenamed<K(!new), L(!new)>(m: map<K, nat>, names: map<K, L>, renamed: map<L, nat>)
    requires names.Keys == m.Keys
    requires forall k {:trigger names[k]} :: k in m ==> names[k] in renamed && renamed[names[k]] == m[k]
    requires forall l {:trigger l in renamed} :: l in renamed ==> exists k {:trigger names[k]} :: k in m && names[k] == l
    requires forall j, k {:trigger names[j], names[k]} :: j in m && k in m && names[j] == names[k] ==> j == k
    ensures Sum(renamed) == Sum(m)
    decreases |m|
  {
    if m == map[] {
      assert renamed == map[];
    } else {
      var k :| k in m;
      SumRemove(m, k);
      SumRemove(renamed, names[k]);
      forall l | l in renamed - {names[k]} ensures exists j {:trigger (names - {k})[j]} :: j in m - {k} && (names - {k})[j] == l {
        var j :| j in m && names[j] == l;
        assert j in m - {k} && (names - {k})[j] == l;
      }
      SumRenamed(m - {k}, names - {k}, renamed - {names[k]});
    }
  }
}
