/**
 * A JavaScript `Map<string, V>` as the sequence of its entries in insertion
 * order: `set` on a present key replaces the value where the entry stands,
 * `set` on a new key appends an entry, and `values()` walks the entries in
 * order.
 */
module OrderedMaps {
  import opened Wrappers
  import opened Seqs

  datatype Entry<V> = Entry(key: string, value: V)

  /** `map.has(k)`. */
  predicate Has<V>(es: seq<Entry<V>>, k: string) {
    exists i :: 0 <= i < |es| && es[i].key == k
  }

  predicate UniqueKeys<V>(es: seq<Entry<V>>) {
    forall i, j :: 0 <= i < j < |es| ==> es[i].key != es[j].key
  }

  function KeySet<V>(es: seq<Entry<V>>): set<string> {
    set i | 0 <= i < |es| :: es[i].key
  }

  /** `map.get(k)`: the value of the first entry with key k. */
  function Lookup<V>(es: seq<Entry<V>>, k: string): (r: Option<V>)
    ensures r.Some? <==> Has(es, k)
  {
    if |es| == 0 then None
    else if es[0].key == k then Some(es[0].value)
    else
      var r := Lookup(es[1..], k);
      assert Has(es[1..], k) ==> Has(es, k) by {
        if Has(es[1..], k) {
          var i :| 0 <= i < |es[1..]| && es[1..][i].key == k;
          assert es[i + 1].key == k;
        }
      }
      r
  }

  /** `map.set(k, v)`. */
  function Set<V>(es: seq<Entry<V>>, k: string, v: V): (r: seq<Entry<V>>)
    ensures |r| == if Has(es, k) then |es| else |es| + 1
  {
    if |es| == 0 then [Entry(k, v)]
    else if es[0].key == k then [Entry(k, v)] + es[1..]
    else
      assert Has(es[1..], k) <==> Has(es, k) by {
        if Has(es[1..], k) {
          var i :| 0 <= i < |es[1..]| && es[1..][i].key == k;
          assert es[i + 1].key == k;
        }
        if Has(es, k) {
          var i :| 0 <= i < |es| && es[i].key == k;
          assert es[1..][i - 1].key == k;
        }
      }
      [es[0]] + Set(es[1..], k, v)
  }

  /** After `set(k, v)`, k reads back v and every other key reads as before. */
  lemma {:induction false} SetLookup<V>(es: seq<Entry<V>>, k: string, v: V, j: string)
    ensures Lookup(Set(es, k, v), j) == if j == k then Some(v) else Lookup(es, j)
  {
    if |es| > 0 && es[0].key != k {
      SetLookup(es[1..], k, v, j);
      assert ([es[0]] + Set(es[1..], k, v))[1..] == Set(es[1..], k, v);
    } else if |es| > 0 {
      assert ([Entry(k, v)] + es[1..])[1..] == es[1..];
    }
  }

  /**
   * Insertion order: setting a present key leaves every entry's key where it
   * was, and setting a new key appends one entry at the end.
   */
  lemma {:induction false} SetOrder<V>(es: seq<Entry<V>>, k: string, v: V)
    ensures Has(es, k) ==> forall i :: 0 <= i < |es| ==> Set(es, k, v)[i].key == es[i].key
    ensures !Has(es, k) ==> Set(es, k, v) == es + [Entry(k, v)]
  {
    if |es| > 0 && es[0].key != k {
      SetOrder(es[1..], k, v);
      assert es == [es[0]] + es[1..];
    }
  }

  lemma {:induction false} SetKeySet<V>(es: seq<Entry<V>>, k: string, v: V)
    ensures KeySet(Set(es, k, v)) == KeySet(es) + {k}
  {
    var r := Set(es, k, v);
    SetOrder(es, k, v);
    if Has(es, k) {
      forall x | x in KeySet(r) ensures x in KeySet(es) {
        var i :| 0 <= i < |r| && r[i].key == x;
        assert es[i].key == x;
      }
      forall x | x in KeySet(es) ensures x in KeySet(r) {
        var i :| 0 <= i < |es| && es[i].key == x;
        assert r[i].key == x;
      }
    } else {
      forall x | x in KeySet(r) ensures x in KeySet(es) + {k} {
        var i :| 0 <= i < |r| && r[i].key == x;
        if i < |es| { assert es[i].key == x; }
      }
      forall x | x in KeySet(es) + {k} ensures x in KeySet(r) {
        if x == k {
          assert r[|es|].key == x;
        } else {
          var i :| 0 <= i < |es| && es[i].key == x;
          assert r[i].key == x;
        }
      }
    }
  }

  lemma {:induction false} HasKeySet<V>(es: seq<Entry<V>>, k: string)
    ensures Has(es, k) <==> k in KeySet(es)
  {
    if k in KeySet(es) {
      var i :| 0 <= i < |es| && es[i].key == k;
    }
  }

  /** Setting keeps keys unique, so the entries stay a map. */
  lemma {:induction false} SetUnique<V>(es: seq<Entry<V>>, k: string, v: V)
    requires UniqueKeys(es)
    ensures UniqueKeys(Set(es, k, v))
  {
    var r := Set(es, k, v);
    SetOrder(es, k, v);
    if Has(es, k) {
      forall i, j | 0 <= i < j < |r| ensures r[i].key != r[j].key {
        assert r[i].key == es[i].key && r[j].key == es[j].key;
      }
    } else {
      forall i, j | 0 <= i < j < |r| ensures r[i].key != r[j].key {
        if j == |es| {
          assert r[i] == es[i];
        } else {
          assert r[i] == es[i] && r[j] == es[j];
        }
      }
    }
  }

  /** `kvs.forEach(e => map.set(e.key, e.value))`. */
  function SetAll<V>(es: seq<Entry<V>>, kvs: seq<Entry<V>>): seq<Entry<V>> {
    if |kvs| == 0 then es
    else
      var last := kvs[|kvs| - 1];
      Set(SetAll(es, kvs[..|kvs| - 1]), last.key, last.value)
  }

  /** `kvs.forEach(e => { if (!map.has(e.key)) map.set(e.key, e.value) })`. */
  function AddMissing<V>(es: seq<Entry<V>>, kvs: seq<Entry<V>>): seq<Entry<V>> {
    if |kvs| == 0 then es
    else
      var m := AddMissing(es, kvs[..|kvs| - 1]);
      var last := kvs[|kvs| - 1];
      if Has(m, last.key) then m else Set(m, last.key, last.value)
  }

  /** The value of the last entry of kvs with key k. */
  function LastWith<V>(kvs: seq<Entry<V>>, k: string): Option<V> {
    if |kvs| == 0 then None
    else if kvs[|kvs| - 1].key == k then Some(kvs[|kvs| - 1].value)
    else LastWith(kvs[..|kvs| - 1], k)
  }

  /** The value of the first entry of kvs with key k. */
  function FirstWith<V>(kvs: seq<Entry<V>>, k: string): Option<V> {
    if |kvs| == 0 then None
    else
      var f := FirstWith(kvs[..|kvs| - 1], k);
      if f.Some? then f
      else if kvs[|kvs| - 1].key == k then Some(kvs[|kvs| - 1].value)
      else None
  }

  /** `FirstWith` finds the value of the first entry with the key, and nothing when no entry has it. */
  lemma {:induction false} FirstWithAt<V>(kvs: seq<Entry<V>>, k: string)
    ensures FirstWith(kvs, k).None? <==> forall j :: 0 <= j < |kvs| ==> kvs[j].key != k
    ensures forall i :: 0 <= i < |kvs| && kvs[i].key == k && (forall j :: 0 <= j < i ==> kvs[j].key != k) ==>
      FirstWith(kvs, k) == Some(kvs[i].value)
  {
    if |kvs| > 0 {
      var init := kvs[..|kvs| - 1];
      FirstWithAt(init, k);
      assert forall j :: 0 <= j < |init| ==> init[j] == kvs[j];
    }
  }

  /** Setting a list of entries: the last write to a key wins; untouched keys keep their values. */
  lemma {:induction false} SetAllLookup<V>(es: seq<Entry<V>>, kvs: seq<Entry<V>>, k: string)
    ensures Lookup(SetAll(es, kvs), k) == if LastWith(kvs, k).Some? then LastWith(kvs, k) else Lookup(es, k)
  {
    if |kvs| > 0 {
      var last := kvs[|kvs| - 1];
      SetAllLookup(es, kvs[..|kvs| - 1], k);
      SetLookup(SetAll(es, kvs[..|kvs| - 1]), last.key, last.value, k);
    }
  }

  /** Adding only missing keys: present keys keep their values; a new key takes its first value in kvs. */
  lemma {:induction false} AddMissingLookup<V>(es: seq<Entry<V>>, kvs: seq<Entry<V>>, k: string)
    ensures Lookup(AddMissing(es, kvs), k) == if Has(es, k) then Lookup(es, k) else FirstWith(kvs, k)
  {
    if |kvs| > 0 {
      var init := kvs[..|kvs| - 1];
      var last := kvs[|kvs| - 1];
      var m := AddMissing(es, init);
      AddMissingLookup(es, init, k);
      if !Has(m, last.key) {
        SetLookup(m, last.key, last.value, k);
        if last.key == k {
          assert Lookup(m, k).None?;
        }
      } else if last.key == k {
        assert Lookup(m, k).Some?;
      }
    }
  }

  lemma {:induction false} SetAllUnique<V>(es: seq<Entry<V>>, kvs: seq<Entry<V>>)
    requires UniqueKeys(es)
    ensures UniqueKeys(SetAll(es, kvs))
  {
    if |kvs| > 0 {
      SetAllUnique(es, kvs[..|kvs| - 1]);
      SetUnique(SetAll(es, kvs[..|kvs| - 1]), kvs[|kvs| - 1].key, kvs[|kvs| - 1].value);
    }
  }

  lemma {:induction false} AddMissingUnique<V>(es: seq<Entry<V>>, kvs: seq<Entry<V>>)
    requires UniqueKeys(es)
    ensures UniqueKeys(AddMissing(es, kvs))
  {
    if |kvs| > 0 {
      AddMissingUnique(es, kvs[..|kvs| - 1]);
      SetUnique(AddMissing(es, kvs[..|kvs| - 1]), kvs[|kvs| - 1].key, kvs[|kvs| - 1].value);
    }
  }


  lemma {:induction false} SetAllKeySet<V>(es: seq<Entry<V>>, kvs: seq<Entry<V>>)
    ensures KeySet(SetAll(es, kvs)) == KeySet(es) + KeySet(kvs)
  {
    if |kvs| > 0 {
      var init := kvs[..|kvs| - 1];
      SetAllKeySet(es, init);
      SetKeySet(SetAll(es, init), kvs[|kvs| - 1].key, kvs[|kvs| - 1].value);
      SnocKeySet(kvs);
    }
  }

  lemma {:induction false} AddMissingKeySet<V>(es: seq<Entry<V>>, kvs: seq<Entry<V>>)
    ensures KeySet(AddMissing(es, kvs)) == KeySet(es) + KeySet(kvs)
  {
    if |kvs| > 0 {
      var init := kvs[..|kvs| - 1];
      var m := AddMissing(es, init);
      AddMissingKeySet(es, init);
      SetKeySet(m, kvs[|kvs| - 1].key, kvs[|kvs| - 1].value);
      HasKeySet(m, kvs[|kvs| - 1].key);
      SnocKeySet(kvs);
    }
  }

  lemma {:induction false} SnocKeySet<V>(kvs: seq<Entry<V>>)
    requires |kvs| > 0
    ensures KeySet(kvs) == KeySet(kvs[..|kvs| - 1]) + {kvs[|kvs| - 1].key}
  {
    var init := kvs[..|kvs| - 1];
    forall x | x in KeySet(kvs) ensures x in KeySet(init) + {kvs[|kvs| - 1].key} {
      var i :| 0 <= i < |kvs| && kvs[i].key == x;
      if i < |init| { assert init[i].key == x; }
    }
    forall x | x in KeySet(init) ensures x in KeySet(kvs) {
      var i :| 0 <= i < |init| && init[i].key == x;
      assert kvs[i].key == x;
    }
  }

  /** `Array.from(map.values())`. */
  function Values<V>(es: seq<Entry<V>>): (r: seq<V>)
    ensures |r| == |es| && forall i :: 0 <= i < |es| ==> r[i] == es[i].value
  {
    seq(|es|, i requires 0 <= i < |es| => es[i].value)
  }

  /** Every entry is filed under the key `f` gives its value (as when a list is keyed by `cwd`). */
  predicate KeyedBy<V>(es: seq<Entry<V>>, f: V -> string) {
    forall i :: 0 <= i < |es| ==> f(es[i].value) == es[i].key
  }

  lemma {:induction false} SetKeyed<V>(es: seq<Entry<V>>, k: string, v: V, f: V -> string)
    requires KeyedBy(es, f) && f(v) == k
    ensures KeyedBy(Set(es, k, v), f)
  {
    if |es| > 0 && es[0].key != k {
      SetKeyed(es[1..], k, v, f);
      var r := Set(es, k, v);
      assert forall i :: 1 <= i < |r| ==> r[i] == Set(es[1..], k, v)[i - 1];
    }
  }

  lemma {:induction false} SetAllKeyed<V>(es: seq<Entry<V>>, kvs: seq<Entry<V>>, f: V -> string)
    requires KeyedBy(es, f) && KeyedBy(kvs, f)
    ensures KeyedBy(SetAll(es, kvs), f)
  {
    if |kvs| > 0 {
      SetAllKeyed(es, kvs[..|kvs| - 1], f);
      SetKeyed(SetAll(es, kvs[..|kvs| - 1]), kvs[|kvs| - 1].key, kvs[|kvs| - 1].value, f);
    }
  }

  lemma {:induction false} AddMissingKeyed<V>(es: seq<Entry<V>>, kvs: seq<Entry<V>>, f: V -> string)
    requires KeyedBy(es, f) && KeyedBy(kvs, f)
    ensures KeyedBy(AddMissing(es, kvs), f)
  {
    if |kvs| > 0 {
      AddMissingKeyed(es, kvs[..|kvs| - 1], f);
      SetKeyed(AddMissing(es, kvs[..|kvs| - 1]), kvs[|kvs| - 1].key, kvs[|kvs| - 1].value, f);
    }
  }

  /** With unique keys, looking up an entry's key finds that entry's value. */
  lemma {:induction false} LookupAt<V>(es: seq<Entry<V>>, i: nat)
    requires UniqueKeys(es) && i < |es|
    ensures Lookup(es, es[i].key) == Some(es[i].value)
  {
    if i > 0 {
      assert es[0].key != es[i].key;
      assert es[1..][i - 1] == es[i];
      LookupAt(es[1..], i - 1);
    }
  }

  /**
   * Two passes over an empty map, the first setting every entry of `a` and the
   * second adding the entries of `b` whose keys are still missing, give a map
   * with unique keys: the keys of `a` and `b`, each read as its last value in
   * `a` or else its first value in `b`.
   */
  lemma {:induction false} MergeFacts<V>(a: seq<Entry<V>>, b: seq<Entry<V>>, k: string)
    ensures var es := AddMissing(SetAll([], a), b);
      && UniqueKeys(es)
      && KeySet(es) == KeySet(a) + KeySet(b)
      && Lookup(es, k) == if LastWith(a, k).Some? then LastWith(a, k) else FirstWith(b, k)
  {
    var m := SetAll([], a);
    SetAllUnique([], a);
    AddMissingUnique(m, b);
    SetAllKeySet([], a);
    AddMissingKeySet(m, b);
    SetAllLookup([], a, k);
    AddMissingLookup(m, b, k);
  }

  /**
   * The values of a keyed map with unique keys have pairwise different keys,
   * their keys are the map's keys, and there are as many values as keys.
   */
  lemma {:induction false} ValuesFacts<V>(es: seq<Entry<V>>, f: V -> string)
    requires UniqueKeys(es) && KeyedBy(es, f)
    ensures Injective(Values(es), f)
    ensures Image(Values(es), f) == KeySet(es)
    ensures |Values(es)| == |KeySet(es)|
  {
    ImageSize(Values(es), f);
  }

  /** A key has a last value in kvs exactly when kvs holds it, and that value is one kvs files under it. */
  lemma {:induction false} LastWithFacts<V>(kvs: seq<Entry<V>>, k: string)
    ensures LastWith(kvs, k).Some? <==> k in KeySet(kvs)
    ensures LastWith(kvs, k).Some? ==> exists i :: 0 <= i < |kvs| && kvs[i] == Entry(k, LastWith(kvs, k).value)
  {
    if |kvs| > 0 {
      LastWithFacts(kvs[..|kvs| - 1], k);
      SnocKeySet(kvs);
      if LastWith(kvs, k).Some? && kvs[|kvs| - 1].key != k {
        var i :| 0 <= i < |kvs| - 1 && kvs[..|kvs| - 1][i] == Entry(k, LastWith(kvs, k).value);
        assert kvs[i] == Entry(k, LastWith(kvs, k).value);
      }
    }
  }

  /** The keys of entries built one per element of s, keyed by f, are the image of s under f. */
  lemma {:induction false} KeySetImage<T, V>(s: seq<T>, es: seq<Entry<V>>, f: T -> string)
    requires |es| == |s| && forall i :: 0 <= i < |s| ==> es[i].key == f(s[i])
    ensures KeySet(es) == Image(s, f)
  {
    forall x | x in Image(s, f) ensures x in KeySet(es) {
      var i :| 0 <= i < |s| && f(s[i]) == x;
      assert es[i].key == x;
    }
  }
}
