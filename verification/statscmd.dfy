/** The counting loop of the `stats` command: a map from each key to the
    number of records carrying it. The count is generic over the key; the
    command's key is the textual form of the enriched client address. */
module StatsCmd {
  import GeoIP
  import Rtl

  /** The records' keys, in record order. */
  function KeysOf<T, K>(data: seq<T>, key: T -> K): (ks: seq<K>)
    ensures |ks| == |data|
    ensures forall i :: 0 <= i < |data| ==> ks[i] == key(data[i])
  {
    seq(|data|, i requires 0 <= i < |data| => key(data[i]))
  }

  /** How many records carry key `k`. */
  function Occurrences<T, K(==)>(data: seq<T>, key: T -> K, k: K): nat {
    multiset(KeysOf(data, key))[k]
  }

  /** Go's `m[k]++` on a map whose missing keys read as zero. */
  function Increment<K>(m: map<K, nat>, k: K): map<K, nat> {
    m[k := (if k in m then m[k] else 0) + 1]
  }

  lemma KeysOfAppend<T, K>(a: seq<T>, b: seq<T>, key: T -> K)
    ensures KeysOf(a + b, key) == KeysOf(a, key) + KeysOf(b, key)
  {
  }

  /** The count map, folded over the records in order as the loop does:
      its keys are exactly the keys that occur, each mapped to the number
      of records carrying it. */
  function CountMap<T, K(!new)>(data: seq<T>, key: T -> K): (m: map<K, nat>)
    ensures forall k :: k in m <==> Occurrences(data, key, k) > 0
    ensures forall k :: k in m ==> m[k] == Occurrences(data, key, k)
  {
    if |data| == 0 then map[]
    else
      var prefix := data[..|data| - 1];
      KeysOfAppend(prefix, [data[|data| - 1]], key);
      assert prefix + [data[|data| - 1]] == data;
      Increment(CountMap(prefix, key), key(data[|data| - 1]))
  }

  /** The sum of a map's values over some of its keys. */
  ghost function SumOver<K>(m: map<K, nat>, ks: set<K>): nat
    requires ks <= m.Keys
    decreases ks
  {
    if ks == {} then 0
    else
      var k :| k in ks;
      m[k] + SumOver(m, ks - {k})
  }

  /** The sum of all of a map's values. */
  ghost function SumValues<K>(m: map<K, nat>): nat {
    SumOver(m, m.Keys)
  }

  /** The sum does not depend on which key is taken out first. */
  lemma {:induction false} SumOverRemove<K>(m: map<K, nat>, ks: set<K>, k: K)
    requires ks <= m.Keys && k in ks
    ensures SumOver(m, ks) == m[k] + SumOver(m, ks - {k})
    decreases ks
  {
    var k' :| k' in ks && SumOver(m, ks) == m[k'] + SumOver(m, ks - {k'});
    if k' != k {
      SumOverRemove(m, ks - {k'}, k);
      SumOverRemove(m, ks - {k}, k');
      assert ks - {k'} - {k} == ks - {k} - {k'};
    }
  }

  /** Only the values at the summed keys matter. */
  lemma {:induction false} SumOverAgree<K>(m: map<K, nat>, m': map<K, nat>, ks: set<K>)
    requires ks <= m.Keys && ks <= m'.Keys
    requires forall k :: k in ks ==> m[k] == m'[k]
    ensures SumOver(m, ks) == SumOver(m', ks)
    decreases ks
  {
    if ks != {} {
      var k :| k in ks && SumOver(m, ks) == m[k] + SumOver(m, ks - {k});
      SumOverAgree(m, m', ks - {k});
      SumOverRemove(m', ks, k);
    }
  }

  /** One increment adds one to the sum. */
  lemma SumValuesIncrement<K>(m: map<K, nat>, k: K)
    ensures SumValues(Increment(m, k)) == SumValues(m) + 1
  {
    var m' := Increment(m, k);
    SumOverRemove(m', m'.Keys, k);
    assert m'.Keys - {k} == m.Keys - {k};
    SumOverAgree(m, m', m.Keys - {k});
    if k in m {
      SumOverRemove(m, m.Keys, k);
      assert m'[k] == m[k] + 1;
    } else {
      assert m.Keys - {k} == m.Keys;
      assert m'[k] == 1;
    }
  }

  /** The counts add up to the number of records. */
  lemma {:induction false} CountMapSum<T, K(!new)>(data: seq<T>, key: T -> K)
    ensures SumValues(CountMap(data, key)) == |data|
  {
    if |data| > 0 {
      var prefix := data[..|data| - 1];
      CountMapSum(prefix, key);
      SumValuesIncrement(CountMap(prefix, key), key(data[|data| - 1]));
    }
  }

  /** The keys are exactly the keys of the records, each counted at least
      once; an empty batch gives an empty map. */
  lemma CountMapKeys<T, K(!new)>(data: seq<T>, key: T -> K)
    ensures CountMap(data, key).Keys == set i | 0 <= i < |data| :: key(data[i])
    ensures forall k :: k in CountMap(data, key) ==> CountMap(data, key)[k] >= 1
    ensures |data| == 0 ==> CountMap(data, key) == map[]
  {
  }

  /** Reordering the records does not change their keys' multiset. */
  lemma {:induction false} KeysPermutation<T, K>(d1: seq<T>, d2: seq<T>, key: T -> K)
    requires multiset(d1) == multiset(d2)
    ensures multiset(KeysOf(d1, key)) == multiset(KeysOf(d2, key))
    decreases |d1|
  {
    if |d1| == 0 {
      assert |multiset(d2)| == 0;
    } else {
      var x := d1[|d1| - 1];
      var p1 := d1[..|d1| - 1];
      assert d1 == p1 + [x];
      assert x in multiset(d2);
      var j :| 0 <= j < |d2| && d2[j] == x;
      var p2 := d2[..j] + d2[j + 1..];
      assert d2 == d2[..j] + [x] + d2[j + 1..];
      assert multiset(d1) == multiset(p1) + multiset{x};
      assert multiset(d2) == multiset(d2[..j]) + multiset{x} + multiset(d2[j + 1..]);
      assert multiset(p2) == multiset(d2[..j]) + multiset(d2[j + 1..]);
      assert multiset(p1) == multiset(d1) - multiset{x};
      assert multiset(p2) == multiset(d2) - multiset{x};
      KeysPermutation(p1, p2, key);
      KeysOfAppend(p1, [x], key);
      KeysOfAppend(d2[..j], [x], key);
      KeysOfAppend(d2[..j] + [x], d2[j + 1..], key);
      KeysOfAppend(d2[..j], d2[j + 1..], key);
    }
  }

  /** Counts do not depend on the order of the records. */
  lemma CountMapPermutation<T, K(!new)>(d1: seq<T>, d2: seq<T>, key: T -> K)
    requires multiset(d1) == multiset(d2)
    ensures CountMap(d1, key) == CountMap(d2, key)
  {
    KeysPermutation(d1, d2, key);
    var m1, m2 := CountMap(d1, key), CountMap(d2, key);
    assert forall k :: k in m1 <==> k in m2;
    assert m1.Keys == m2.Keys;
  }

  /** The counting loop. */
  method CountBy<T, K(!new)>(data: seq<T>, key: T -> K) returns (counts: map<K, nat>)
    ensures counts == CountMap(data, key)
    ensures SumValues(counts) == |data|
  {
    counts := map[];
    var i := 0;
    while i < |data|
      invariant 0 <= i <= |data|
      invariant counts == CountMap(data[..i], key)
    {
      assert data[..i + 1][..i] == data[..i];
      assert CountMap(data[..i + 1], key) == Increment(CountMap(data[..i], key), key(data[i]));
      counts := Increment(counts, key(data[i]));
      i := i + 1;
    }
    assert data[..i] == data;
    CountMapSum(data, key);
  }

  /** The command's key: the enriched address in textual form (`IP.String()`,
      here `ipText`), not the never-assigned `ClientIPAddr`. */
  function IPKey(ipText: GeoIP.IP -> string): Rtl.Record -> string {
    (r: Rtl.Record) => ipText(r.clientIP.ip)
  }

  /** `getStats` after decoding: the count of each address string. */
  method GetStats(data: seq<Rtl.Record>, ipText: GeoIP.IP -> string) returns (counts: map<string, nat>)
    ensures counts.Keys == set i | 0 <= i < |data| :: ipText(data[i].clientIP.ip)
    ensures forall k :: k in counts ==> counts[k] == Occurrences(data, IPKey(ipText), k) >= 1
    ensures SumValues(counts) == |data|
  {
    counts := CountBy(data, IPKey(ipText));
    CountMapKeys(data, IPKey(ipText));
  }

  /** Three records under one key and one under another count as 3 and 1. */
  lemma ThreeAndOne<T, K(!new)>(data: seq<T>, x: T, y: T, key: T -> K)
    requires data == [x, x, y, x] && key(x) != key(y)
    ensures CountMap(data, key) == map[key(x) := 3, key(y) := 1]
  {
    var a, b := key(x), key(y);
    assert data[..1][..0] == [];
    assert data[..2][..1] == data[..1];
    assert data[..3][..2] == data[..2];
    assert data[..3] == data[..|data| - 1];
    assert CountMap(data[..1], key) == map[a := 1];
    assert CountMap(data[..2], key) == map[a := 2];
    assert CountMap(data[..3], key) == map[a := 2, b := 1];
  }

  /** Three records at 1.2.3.4 and one at 5.6.7.8 count as 3 and 1. */
  lemma StatsExample(ipText: GeoIP.IP -> string, ra: Rtl.Record, rb: Rtl.Record)
    requires ipText(ra.clientIP.ip) == "1.2.3.4" && ipText(rb.clientIP.ip) == "5.6.7.8"
    ensures CountMap([ra, ra, rb, ra], IPKey(ipText)) == map["1.2.3.4" := 3, "5.6.7.8" := 1]
  {
    ThreeAndOne([ra, ra, rb, ra], ra, rb, IPKey(ipText));
  }

  /** Records that all carry one key are counted under that key alone. */
  lemma CountMapUniform<T, K(!new)>(data: seq<T>, key: T -> K, v: K)
    requires |data| > 0
    requires forall i :: 0 <= i < |data| ==> key(data[i]) == v
    ensures CountMap(data, key).Keys == {v}
    ensures CountMap(data, key)[v] == |data|
  {
  }

  /** Keyed by `ClientIPAddr` instead, which the transformer leaves empty,
      every record would fall under "". */
  lemma ClientIPAddrKeyCollapses(data: seq<Rtl.Record>)
    requires |data| > 0
    requires forall i :: 0 <= i < |data| ==> data[i].clientIPAddr == ""
    ensures CountMap(data, (r: Rtl.Record) => r.clientIPAddr).Keys == {""}
    ensures CountMap(data, (r: Rtl.Record) => r.clientIPAddr)[""] == |data|
  {
    CountMapUniform(data, (r: Rtl.Record) => r.clientIPAddr, "");
  }
}
