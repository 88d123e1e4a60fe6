/** The reviewer frequency table: counting normalised reviewer keys in a
    map, listing the map's entries, and sorting them by descending count. */
module Frequency {
  import opened Wrappers
  import opened DisplayName

  /** One row of the table: a normalised reviewer name and its count. */
  type Row = (string, nat)

  /** How many times `k` occurs in `keys`. */
  function Occurrences(keys: seq<string>, k: string): (count: nat)
    ensures count > 0 <==> k in keys
  {
    if keys == [] then 0
    else
      var init := keys[..|keys| - 1];
      assert keys == init + [keys[|keys| - 1]];
      Occurrences(init, k) + (if keys[|keys| - 1] == k then 1 else 0)
  }

  /** The frequency map of `keys`: every key that occurs, with its number of
      occurrences. */
  function Frequencies(keys: seq<string>): (freq: map<string, nat>)
    ensures forall k :: k in freq <==> k in keys
    ensures forall k :: k in freq ==> freq[k] >= 1
  {
    map k | k in keys :: Occurrences(keys, k)
  }

  /** Occurrences counted from the front. */
  lemma {:induction false} OccurrencesCons(x: string, rest: seq<string>, k: string)
    ensures Occurrences([x] + rest, k) == (if x == k then 1 else 0) + Occurrences(rest, k)
    decreases |rest|
  {
    var xs := [x] + rest;
    if rest == [] {
      assert xs[..|xs| - 1] == [];
    } else {
      var init := rest[..|rest| - 1];
      assert xs[..|xs| - 1] == [x] + init;
      OccurrencesCons(x, init, k);
    }
  }

  /** `freq` holds, for every key of `keys` and nothing else, its number of
      occurrences. */
  ghost predicate Counts(freq: map<string, nat>, keys: seq<string>)
  {
    && (forall k :: k in freq <==> k in keys)
    && (forall k :: k in freq ==> freq[k] == Occurrences(keys, k))
  }

  /** Counting one more key bumps its counter, inserting it at 1 if it was
      absent, and leaves every other counter as it was. */
  lemma CountsSnoc(freq: map<string, nat>, keys: seq<string>, k: string)
    requires Counts(freq, keys)
    ensures Counts(freq[k := (if k in freq then freq[k] else 0) + 1], keys + [k])
  {
  }

  lemma CountsAreFrequencies(freq: map<string, nat>, keys: seq<string>)
    requires Counts(freq, keys)
    ensures freq == Frequencies(keys)
  {
  }

  /** The keys of all display names, in order, or the first display name that
      has no space (the dashboard panics on it, indexing a missing second piece). */
  function NormalizeAll(names: seq<string>): (r: Result<seq<string>, string>)
    ensures r.Success? <==> forall i :: 0 <= i < |names| ==> Normalize(names[i]).Some?
    ensures r.Success? ==>
      && |r.value| == |names|
      && forall i :: 0 <= i < |names| ==> Normalize(names[i]) == Some(r.value[i])
    ensures r.Failure? ==>
      exists i :: 0 <= i < |names| && names[i] == r.error && Normalize(names[i]).None?
                  && forall j :: 0 <= j < i ==> Normalize(names[j]).Some?
  {
    if names == [] then Success([])
    else
      match Normalize(names[0])
      case None => Failure(names[0])
      case Some(key) =>
        match NormalizeAll(names[1..])
        case Failure(e) =>
          assert exists i :: 1 <= i < |names| && names[i] == e && Normalize(names[i]).None?
                             && forall j :: 0 <= j < i ==> Normalize(names[j]).Some? by {
            var i :| 0 <= i < |names[1..]| && names[1..][i] == e && Normalize(names[1..][i]).None?
                     && forall j :: 0 <= j < i ==> Normalize(names[1..][j]).Some?;
            assert names[i + 1] == e;
            forall j | 0 <= j < i + 1 ensures Normalize(names[j]).Some? {
              if j > 0 { assert names[j] == names[1..][j - 1]; }
            }
          }
          Failure(e)
        case Success(keys) => Success([key] + keys)
  }

  /** The counting loop: each display name is normalised and its key's
      counter incremented (`entry(name).or_insert(0)` then `+= 1`). The first
      name without a second piece aborts the count. */
  method Tally(names: seq<string>) returns (r: Result<map<string, nat>, string>)
    ensures NormalizeAll(names).Success? ==> r == Success(Frequencies(NormalizeAll(names).value))
    ensures NormalizeAll(names).Failure? ==> r == Failure(NormalizeAll(names).error)
  {
    var freq: map<string, nat> := map[];
    ghost var keys: seq<string> := [];
    for i := 0 to |names|
      invariant |keys| == i
      invariant forall j :: 0 <= j < i ==> Normalize(names[j]) == Some(keys[j])
      invariant Counts(freq, keys)
    {
      var key := Normalize(names[i]);
      if key.None? {
        NormalizeAllStopsAt(names, i);
        return Failure(names[i]);
      }
      var counter := if key.value in freq then freq[key.value] else 0;
      CountsSnoc(freq, keys, key.value);
      freq := freq[key.value := counter + 1];
      keys := keys + [key.value];
    }
    NormalizeAllKeys(names, keys);
    CountsAreFrequencies(freq, keys);
    return Success(freq);
  }

  /** The first display name without a key is the one reported. */
  lemma NormalizeAllStopsAt(names: seq<string>, i: nat)
    requires i < |names| && Normalize(names[i]).None?
    requires forall j :: 0 <= j < i ==> Normalize(names[j]).Some?
    ensures NormalizeAll(names) == Failure(names[i])
  {
  }

  /** When every display name has a key, those keys are the result. */
  lemma NormalizeAllKeys(names: seq<string>, keys: seq<string>)
    requires |keys| == |names|
    requires forall j :: 0 <= j < |names| ==> Normalize(names[j]) == Some(keys[j])
    ensures NormalizeAll(names) == Success(keys)
  {
    var r := NormalizeAll(names);
    assert r.Success?;
    assert r.value == keys;
  }

  /** The number of display names whose key is `k`. */
  function NamesKeyed(names: seq<string>, k: string): nat
  {
    if names == [] then 0
    else (if Normalize(names[0]) == Some(k) then 1 else 0) + NamesKeyed(names[1..], k)
  }

  lemma {:induction false} NamesKeyedAppend(a: seq<string>, b: seq<string>, k: string)
    ensures NamesKeyed(a + b, k) == NamesKeyed(a, k) + NamesKeyed(b, k)
  {
    if a == [] {
      assert a + b == b;
    } else {
      assert (a + b)[1..] == a[1..] + b;
      NamesKeyedAppend(a[1..], b, k);
    }
  }

  /** A key occurs among the keys as often as display names normalise to it. */
  lemma {:induction false} OccurrencesOfKeys(names: seq<string>, keys: seq<string>, k: string)
    requires NormalizeAll(names) == Success(keys)
    ensures Occurrences(keys, k) == NamesKeyed(names, k)
  {
    if names != [] {
      NormalizeAllKeys(names[1..], keys[1..]);
      OccurrencesOfKeys(names[1..], keys[1..], k);
      assert keys == [keys[0]] + keys[1..];
      OccurrencesCons(keys[0], keys[1..], k);
    }
  }

  /** `rows` lists the entries of `freq`: each row is an entry of the map,
      each key of the map has a row, and no key has two. */
  predicate IsTable(rows: seq<Row>, freq: map<string, nat>)
  {
    && (forall i :: 0 <= i < |rows| ==> rows[i].0 in freq && rows[i].1 == freq[rows[i].0])
    && (forall k :: k in freq ==> exists i :: 0 <= i < |rows| && rows[i].0 == k)
    && (forall i, j :: 0 <= i < j < |rows| ==> rows[i].0 != rows[j].0)
  }

  /** The names of the rows. */
  function RowNames(rows: seq<Row>): set<string>
  {
    set i | 0 <= i < |rows| :: rows[i].0
  }

  lemma {:induction false} RowNamesSize(rows: seq<Row>)
    requires forall i, j :: 0 <= i < j < |rows| ==> rows[i].0 != rows[j].0
    ensures |RowNames(rows)| == |rows|
  {
    if rows != [] {
      RowNamesSize(rows[1..]);
      assert RowNames(rows) == {rows[0].0} + RowNames(rows[1..]) by {
        forall n | n in RowNames(rows) ensures n in {rows[0].0} + RowNames(rows[1..]) {
          var i :| 0 <= i < |rows| && rows[i].0 == n;
          if i > 0 { assert rows[1..][i - 1].0 == n; }
        }
      }
      assert rows[0].0 !in RowNames(rows[1..]);
    }
  }

  /** A table has exactly one row per key of its map. */
  lemma TableLength(rows: seq<Row>, freq: map<string, nat>)
    requires IsTable(rows, freq)
    ensures |rows| == |freq|
  {
    RowNamesSize(rows);
    assert RowNames(rows) == freq.Keys;
  }

  /** Two tables of one map hold the same rows, possibly in another order:
      listing a map fixes the table up to its order. */
  lemma TablesAgree(s: seq<Row>, t: seq<Row>, freq: map<string, nat>)
    requires IsTable(s, freq) && IsTable(t, freq)
    ensures |s| == |t|
    ensures forall x :: x in s <==> x in t
  {
    TableLength(s, freq);
    TableLength(t, freq);
    forall x | x in s ensures x in t {
      var i :| 0 <= i < |t| && t[i].0 == x.0;
      assert t[i] == x;
    }
    forall x | x in t ensures x in s {
      var i :| 0 <= i < |s| && s[i].0 == x.0;
      assert s[i] == x;
    }
  }

  /** `frequency.into_iter().collect()`: the entries of the map, one per key,
      in an order the model leaves open (a hash map iterates in no fixed order). */
  method Entries(freq: map<string, nat>) returns (rows: seq<Row>)
    ensures IsTable(rows, freq)
  {
    rows := [];
    var rest := freq.Keys;
    while rest != {}
      invariant rest <= freq.Keys
      invariant forall i :: 0 <= i < |rows| ==>
        rows[i].0 in freq && rows[i].0 !in rest && rows[i].1 == freq[rows[i].0]
      invariant forall k :: k in freq && k !in rest ==> exists i :: 0 <= i < |rows| && rows[i].0 == k
      invariant forall i, j :: 0 <= i < j < |rows| ==> rows[i].0 != rows[j].0
      decreases rest
    {
      var k :| k in rest;
      ghost var before := rows;
      rows := rows + [(k, freq[k])];
      rest := rest - {k};
      forall k' | k' in freq && k' !in rest
        ensures exists i :: 0 <= i < |rows| && rows[i].0 == k'
      {
        if k' == k {
          assert rows[|rows| - 1].0 == k;
        } else {
          var i :| 0 <= i < |before| && before[i].0 == k';
          assert rows[i].0 == k';
        }
      }
    }
  }

  /** Counts never increase from one row to a later one. */
  predicate SortedByCount(rows: seq<Row>)
  {
    forall i, j :: 0 <= i < j < |rows| ==> rows[i].1 >= rows[j].1
  }

  /** `sort_by(|x, y| y.1.cmp(&x.1))` in place: descending by count, as a
      permutation of the rows. */
  method SortByCount(a: array<Row>)
    modifies a
    ensures SortedByCount(a[..])
    ensures multiset(a[..]) == old(multiset(a[..]))
  {
    for i := 0 to a.Length
      invariant SortedByCount(a[..i])
      invariant multiset(a[..]) == old(multiset(a[..]))
    {
      InsertDown(a, i);
    }
    assert a[..a.Length] == a[..];
  }

  /** One insertion step: the row at `i` moves left past every row with a
      strictly smaller count, so rows with equal counts keep their order. */
  method InsertDown(a: array<Row>, i: nat)
    requires i < a.Length
    requires SortedByCount(a[..i])
    modifies a
    ensures SortedByCount(a[..i + 1])
    ensures multiset(a[..]) == old(multiset(a[..]))
  {
    var j := i;
    while j > 0 && a[j - 1].1 < a[j].1
      invariant 0 <= j <= i
      invariant forall p, q :: 0 <= p < q <= i && p != j && q != j ==> a[p].1 >= a[q].1
      invariant forall q :: j < q <= i ==> a[j].1 > a[q].1
      invariant multiset(a[..]) == old(multiset(a[..]))
    {
      Swap(a, j - 1, j);
      j := j - 1;
    }
  }

  /** Exchanges two rows. */
  method Swap(a: array<Row>, i: nat, j: nat)
    requires i < j < a.Length
    modifies a
    ensures a[i] == old(a[j]) && a[j] == old(a[i])
    ensures forall k :: 0 <= k < a.Length && k != i && k != j ==> a[k] == old(a[k])
    ensures multiset(a[..]) == old(multiset(a[..]))
  {
    a[i], a[j] := a[j], a[i];
  }

  /** A name occurs at most once in a table without repeated names. */
  lemma {:induction false} DistinctOnce(rows: seq<Row>, x: Row)
    requires forall i, j :: 0 <= i < j < |rows| ==> rows[i].0 != rows[j].0
    ensures multiset(rows)[x] <= 1
  {
    if rows != [] {
      assert rows == [rows[0]] + rows[1..];
      DistinctOnce(rows[1..], x);
      if x == rows[0] {
        assert x !in rows[1..];
      }
    }
  }

  /** Reordering the rows of a table gives a table of the same map. */
  lemma TablePermutation(s: seq<Row>, t: seq<Row>, freq: map<string, nat>)
    requires IsTable(s, freq)
    requires multiset(s) == multiset(t)
    ensures IsTable(t, freq)
  {
    forall i | 0 <= i < |t|
      ensures t[i].0 in freq && t[i].1 == freq[t[i].0]
    {
      assert t[i] in multiset(t);
      var j :| 0 <= j < |s| && s[j] == t[i];
    }
    forall k | k in freq
      ensures exists i :: 0 <= i < |t| && t[i].0 == k
    {
      var j :| 0 <= j < |s| && s[j].0 == k;
      assert s[j] in multiset(s);
      assert s[j] in t;
    }
    forall i, j | 0 <= i < j < |t|
      ensures t[i].0 != t[j].0
    {
      if t[i].0 == t[j].0 {
        assert t[i] == t[j];
        assert t == t[..i] + [t[i]] + t[i + 1..j] + [t[j]] + t[j + 1..];
        assert multiset(t)[t[i]] >= 2;
        DistinctOnce(s, t[i]);
        assert false;
      }
    }
  }

  /** The sum of the counts of a table. */
  function SumCounts(rows: seq<Row>): nat
  {
    if rows == [] then 0 else rows[0].1 + SumCounts(rows[1..])
  }

  lemma {:induction false} SumCountsUpdate(rows: seq<Row>, m: nat, v: nat)
    requires m < |rows|
    ensures SumCounts(rows[m := (rows[m].0, v)]) + rows[m].1 == SumCounts(rows) + v
  {
    if m > 0 {
      assert rows[m := (rows[m].0, v)][1..] == rows[1..][m - 1 := (rows[m].0, v)];
      SumCountsUpdate(rows[1..], m - 1, v);
    } else {
      assert rows[m := (rows[m].0, v)][1..] == rows[1..];
    }
  }

  lemma {:induction false} SumOfZeros(rows: seq<Row>)
    requires forall i :: 0 <= i < |rows| ==> rows[i].1 == 0
    ensures SumCounts(rows) == 0
  {
    if rows != [] {
      SumOfZeros(rows[1..]);
    }
  }

  /** `rows` counts every key of `keys` exactly once, each with its number of
      occurrences (rows for keys that do not occur carry 0). */
  predicate Covers(rows: seq<Row>, keys: seq<string>)
  {
    && (forall i :: 0 <= i < |rows| ==> rows[i].1 == Occurrences(keys, rows[i].0))
    && (forall k :: k in keys ==> exists i :: 0 <= i < |rows| && rows[i].0 == k)
    && (forall i, j :: 0 <= i < j < |rows| ==> rows[i].0 != rows[j].0)
  }

  lemma {:induction false} CoveringSum(rows: seq<Row>, keys: seq<string>)
    requires Covers(rows, keys)
    ensures SumCounts(rows) == |keys|
    decreases |keys|
  {
    if keys == [] {
      SumOfZeros(rows);
    } else {
      var init, k := keys[..|keys| - 1], keys[|keys| - 1];
      assert keys == init + [k];
      assert k in keys;
      var m :| 0 <= m < |rows| && rows[m].0 == k;
      var fewer := rows[m := (k, rows[m].1 - 1)];
      forall i | 0 <= i < |fewer|
        ensures fewer[i].1 == Occurrences(init, fewer[i].0)
      {
        if i != m {
          assert rows[i].0 != k;
        }
      }
      forall k' | k' in init
        ensures exists i :: 0 <= i < |fewer| && fewer[i].0 == k'
      {
        assert k' in keys;
        var i :| 0 <= i < |rows| && rows[i].0 == k';
        assert fewer[i].0 == k';
      }
      assert Covers(fewer, init);
      CoveringSum(fewer, init);
      SumCountsUpdate(rows, m, rows[m].1 - 1);
    }
  }

  /** The counts of a table of the frequency map of `keys` add up to the
      number of keys counted. */
  lemma TableSum(rows: seq<Row>, keys: seq<string>)
    requires IsTable(rows, Frequencies(keys))
    ensures SumCounts(rows) == |keys|
  {
    var freq := Frequencies(keys);
    forall k | k in keys
      ensures exists i :: 0 <= i < |rows| && rows[i].0 == k
    {
      assert k in freq;
    }
    CoveringSum(rows, keys);
  }
}
