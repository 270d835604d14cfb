/** Small types and arithmetic shared by the component models. */
module Common {
  datatype Option<+T> = None | Some(value: T)

  /** Largest value of the 64-bit counters. */
  const U64_MAX: nat := 0xFFFF_FFFF_FFFF_FFFF

  type U64 = x: nat | x <= U64_MAX
  type Byte = x: nat | x < 256
  type U32 = x: nat | x < 0x1_0000_0000
  type U128 = x: nat | x < 0x1_0000_0000_0000_0000_0000_0000_0000_0000

  datatype IpAddr = V4(v4: U32) | V6(v6: U128)

  /** `saturating_add(1)` on a 64-bit counter. */
  function SaturatingInc(n: nat): nat {
    if n < U64_MAX then n + 1 else n
  }

  /** Time between two clock readings; readings in the wrong order count as no time. */
  function Elapsed(since: real, now: real): real {
    if now > since then now - since else 0.0
  }

  /** The clock readings of a run, one an element, never go back. */
  ghost predicate Ordered<T>(run: seq<T>, clock: T -> real) {
    forall i, j :: 0 <= i <= j < |run| ==> clock(run[i]) <= clock(run[j])
  }

  /** Nor do they go back behind the moment the run starts at. */
  ghost predicate Chronological<T>(start: real, run: seq<T>, clock: T -> real) {
    Ordered(run, clock) && (run != [] ==> start <= clock(run[0]))
  }

  /** The clock of a run that consists of bare moments. */
  function Moment(time: real): real {
    time
  }

  function CountIf(b: bool): nat {
    if b then 1 else 0
  }

  function Min(a: real, b: real): real {
    if a <= b then a else b
  }

  function Max(a: real, b: real): real {
    if a >= b then a else b
  }

  /** What a bucket gains at `rate` tokens per second over `seconds`. */
  function Accrued(rate: real, seconds: real): real {
    seconds * rate
  }

  lemma AccruedZero(rate: real)
    ensures Accrued(rate, 0.0) == 0.0
  {
  }

  lemma AccruedGrows(rate: real, seconds: real)
    requires rate >= 0.0 && seconds >= 0.0
    ensures Accrued(rate, seconds) >= 0.0
  {
  }

  lemma AccruedMonotone(a: real, b: real, seconds: real)
    requires a <= b && seconds >= 0.0
    ensures Accrued(a, seconds) <= Accrued(b, seconds)
  {
  }

  lemma AccruedAdds(rate: real, first: real, second: real)
    ensures Accrued(rate, first + second) == Accrued(rate, first) + Accrued(rate, second)
  {
  }

  /** The sum of the values of a map of counters. */
  ghost function Sum<K>(m: map<K, nat>): nat {
    if m == map[] then 0 else
      var k :| k in m;
      m[k] + Sum(m - {k})
  }

  lemma {:induction false} SumWithout<K>(m: map<K, nat>, k: K)
    requires k in m
    ensures Sum(m) == m[k] + Sum(m - {k})
    decreases |m|
  {
    var j :| j in m && Sum(m) == m[j] + Sum(m - {j});
    if j != k {
      SumWithout(m - {j}, k);
      SumWithout(m - {k}, j);
      assert m - {j} - {k} == m - {k} - {j};
    }
  }

  /** Writing one key changes the sum by exactly what that key changed. */
  lemma SumUpdate<K>(m: map<K, nat>, k: K, v: nat)
    ensures Sum(m[k := v]) + (if k in m then m[k] else 0) == Sum(m) + v
  {
    SumWithout(m[k := v], k);
    assert m[k := v] - {k} == m - {k};
    if k in m {
      SumWithout(m, k);
    } else {
      assert m - {k} == m;
    }
  }

  lemma SubsetCount<T>(a: set<T>, b: set<T>)
    requires a <= b
    ensures |a| <= |b|
  {
    assert b == a + (b - a);
  }

  /** The last `n` elements of `s`, or all of them if there are fewer. */
  function LastN<T>(s: seq<T>, n: nat): seq<T> {
    if |s| <= n then s else s[|s| - n..]
  }
}
