/** The frequency hopping of beacons and ping slots. */
module Beacon {

  const US_AU_CHANNELS := 8

  /** The frequency at time t for period p, in any unit of time; it needs at least one frequency. */
  function ComputePeriodicFrequency(t: nat, p: nat, offset: nat, frequencies: seq<nat>): (f: nat)
    requires p > 0 && |frequencies| > 0
    ensures f in frequencies
  {
    if |frequencies| == 1 then frequencies[0]
    else frequencies[(offset + t / p) % |frequencies|]
  }

  method UsAuBeaconFrequencies() returns (freqs: seq<nat>)
    ensures freqs == BeaconTable()
    ensures freqs == [923_300_000, 923_900_000, 924_500_000, 925_100_000, 925_700_000, 926_300_000, 926_900_000, 927_500_000]
  {
    var a := new nat[US_AU_CHANNELS](_ => 0);
    for i := 0 to US_AU_CHANNELS
      invariant forall j | 0 <= j < i :: a[j] == 923300000 + j * 600000
    {
      a[i] := 923300000 + i * 600000;
    }
    freqs := a[..];
  }

  function BeaconTable(): (r: seq<nat>)
  {
    seq(US_AU_CHANNELS, i requires 0 <= i => 923300000 + i * 600000)
  }

  /** The frequencies of n consecutive periods from time t on. */
  ghost function Visited(t: nat, p: nat, offset: nat, frequencies: seq<nat>, n: nat): seq<nat>
    requires p > 0 && |frequencies| > 0
  {
    seq(n, k requires 0 <= k < n => ComputePeriodicFrequency(t + k * p, p, offset, frequencies))
  }

  lemma Periods(t: nat, p: nat, k: nat)
    requires p > 0
    ensures (t + k * p) / p == t / p + k
  {
    var q, r := t / p, t % p;
    assert t == q * p + r;
    assert t + k * p == (q + k) * p + r;
    DivModUnique(t + k * p, p, q + k, r);
  }

  lemma NextMultiple(q: nat, q': nat, p: nat)
    requires q < q'
    ensures q * p + p <= q' * p
  {
    assert (q' - q - 1) * p >= 0;
    assert q' * p == q * p + p + (q' - q - 1) * p;
  }

  lemma SameQuotient(p: nat, q: nat, r: nat, q': nat, r': nat)
    requires r < p && r' < p && q * p + r == q' * p + r'
    ensures q == q' && r == r'
  {
    if q < q' {
      NextMultiple(q, q', p);
    } else if q' < q {
      NextMultiple(q', q, p);
    }
  }

  lemma DivModUnique(a: nat, p: nat, q: nat, r: nat)
    requires p > 0 && a == q * p + r && r < p
    ensures a / p == q && a % p == r
  {
    assert a == (a / p) * p + a % p;
    SameQuotient(p, q, r, a / p, a % p);
  }

  /** Counting on from a position wraps around at n. */
  lemma Wraps(base: nat, k: nat, n: nat)
    requires k < n
    ensures (base + k) % n == if base % n + k < n then base % n + k else base % n + k - n
  {
    var q, r := base / n, base % n;
    assert base == q * n + r;
    if r + k < n {
      DivModUnique(base + k, n, q, r + k);
    } else {
      assert (q + 1) * n == q * n + n;
      DivModUnique(base + k, n, q + 1, r + k - n);
    }
  }

  /** The position of the first period. */
  ghost function First(t: nat, p: nat, offset: nat, n: nat): (r: nat)
    requires p > 0 && n > 0
    ensures r < n
  {
    (offset + t / p) % n
  }

  /** In as many consecutive periods as there are frequencies, from any time and offset, every position
      of the table is used exactly once: they follow each other in order, and from the end to the start. */
  lemma EachPositionOnce(t: nat, p: nat, offset: nat, frequencies: seq<nat>)
    requires p > 0 && |frequencies| > 0
    ensures var n := |frequencies|;
            var r := First(t, p, offset, n);
            && Visited(t, p, offset, frequencies, n) == frequencies[r..] + frequencies[..r]
            && multiset(Visited(t, p, offset, frequencies, n)) == multiset(frequencies)
  {
    var n := |frequencies|;
    var r := First(t, p, offset, n);
    var visited := Visited(t, p, offset, frequencies, n);
    var rotated := frequencies[r..] + frequencies[..r];
    forall k | 0 <= k < n
      ensures visited[k] == rotated[k]
    {
      Periods(t, p, k);
      Wraps(offset + t / p, k, n);
    }
    assert visited == rotated;
    assert frequencies == frequencies[..r] + frequencies[r..];
  }

  /** After a full round the frequencies repeat. */
  lemma RoundRepeats(t: nat, p: nat, offset: nat, frequencies: seq<nat>)
    requires p > 0 && |frequencies| > 0
    ensures ComputePeriodicFrequency(t + |frequencies| * p, p, offset, frequencies) ==
            ComputePeriodicFrequency(t, p, offset, frequencies)
  {
    var n, base := |frequencies|, offset + t / p;
    Periods(t, p, n);
    var q := base / n;
    assert base == q * n + base % n;
    assert (q + 1) * n == q * n + n;
    DivModUnique(base + n, n, q + 1, base % n);
  }

  /** Eight consecutive beacons of a US or AU band are sent on eight different frequencies, and each
      frequency of the table is used by one of them. */
  lemma BeaconsHop(t: nat, p: nat, offset: nat)
    requires p > 0
    ensures var visited := Visited(t, p, offset, BeaconTable(), US_AU_CHANNELS);
            && (forall k, l | 0 <= k < l < US_AU_CHANNELS :: visited[k] != visited[l])
            && (forall f :: f in BeaconTable() <==> f in visited)
  {
    var table, r := BeaconTable(), First(t, p, offset, US_AU_CHANNELS);
    EachPositionOnce(t, p, offset, table);
    var visited := Visited(t, p, offset, table, US_AU_CHANNELS);
    assert forall k | 0 <= k < US_AU_CHANNELS :: visited[k] == (if r + k < US_AU_CHANNELS then table[r + k] else table[r + k - US_AU_CHANNELS]);
    forall f
      ensures f in table <==> f in visited
    {
      assert f in table <==> f in multiset(table);
      assert f in visited <==> f in multiset(visited);
    }
  }
}
