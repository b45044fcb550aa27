/**
 * The per-property argument dictionary that both command-line front ends keep
 * (`Dictionary<string, IEnumerable<string>> _arguments`, keyed by `nameof(Property)`),
 * modelled as an association list in enumeration order: assigning an existing key keeps
 * its place, a new key goes last, and removing a key drops its entry. The command line is
 * the fixed verb followed by every entry's values in that order. The key type is left open:
 * the front ends key by their own property enumeration, since `nameof` gives every
 * property a distinct name.
 */
module Arguments {
  import opened Wrappers
  import opened Text

  type Entry<K> = (K, seq<string>)
  type Table<K> = seq<Entry<K>>

  /** The values stored under `key`, if any. */
  function Find<K(==)>(t: Table<K>, key: K): Option<seq<string>>
    decreases |t|
  {
    if |t| == 0 then None
    else if t[0].0 == key then Some(t[0].1)
    else Find(t[1..], key)
  }

  predicate Has<K(==)>(t: Table<K>, key: K) { Find(t, key).Some? }

  /** A key is present exactly when some entry carries it. */
  lemma {:induction false} HasAt<K>(t: Table<K>, key: K)
    ensures Has(t, key) <==> exists i :: 0 <= i < |t| && t[i].0 == key
    decreases |t|
  {
    if |t| > 0 {
      HasAt(t[1..], key);
      if exists i :: 0 <= i < |t| && t[i].0 == key {
        var i :| 0 <= i < |t| && t[i].0 == key;
        if i > 0 { assert t[1..][i - 1].0 == key; }
      }
      if Has(t[1..], key) {
        var i :| 0 <= i < |t[1..]| && t[1..][i].0 == key;
        assert t[i + 1].0 == key;
      }
    }
  }

  /** In a table with unique keys, the entry at `i` is what its key finds. */
  lemma {:induction false} FindAt<K>(t: Table<K>, i: nat)
    requires UniqueKeys(t) && i < |t|
    ensures Find(t, t[i].0) == Some(t[i].1)
    decreases |t|
  {
    if i > 0 {
      assert UniqueKeys(t[1..]);
      FindAt(t[1..], i - 1);
    }
  }

  /** A dictionary holds every key once. */
  predicate UniqueKeys<K(==)>(t: Table<K>) {
    forall i, j :: 0 <= i < j < |t| ==> t[i].0 != t[j].0
  }

  /** The same keys at the same positions. */
  predicate SameKeys<K(==)>(a: Table<K>, b: Table<K>) {
    |a| == |b| && forall i :: 0 <= i < |a| ==> a[i].0 == b[i].0
  }

  /** `_arguments[key] = values`: an existing key keeps its position, a new one goes last. */
  function Upserted<K(==)>(t: Table<K>, key: K, values: seq<string>): (r: Table<K>)
    ensures Has(t, key) ==> SameKeys(r, t)
    ensures !Has(t, key) ==> r == t + [(key, values)]
    decreases |t|
  {
    if |t| == 0 then [(key, values)]
    else if t[0].0 == key then [(key, values)] + t[1..]
    else
      assert t == [t[0]] + t[1..];
      [t[0]] + Upserted(t[1..], key, values)
  }

  /** After the assignment the key finds the new values and every other key what it found before. */
  lemma {:induction false} UpsertedFind<K>(t: Table<K>, key: K, values: seq<string>, k: K)
    ensures Find(Upserted(t, key, values), k) == if k == key then Some(values) else Find(t, k)
    decreases |t|
  {
    if |t| > 0 && t[0].0 != key {
      UpsertedFind(t[1..], key, values, k);
    }
  }

  lemma UpsertedUnique<K>(t: Table<K>, key: K, values: seq<string>)
    requires UniqueKeys(t)
    ensures UniqueKeys(Upserted(t, key, values))
  {
    var r := Upserted(t, key, values);
    if !Has(t, key) {
      HasAt(t, key);
    }
  }

  /** `_arguments.Remove(key)`. */
  function Removed<K(==)>(t: Table<K>, key: K): (r: Table<K>)
    ensures |r| <= |t|
    ensures !Has(t, key) ==> r == t
    decreases |t|
  {
    if |t| == 0 then []
    else if t[0].0 == key then t[1..]
    else [t[0]] + Removed(t[1..], key)
  }

  /** After the removal the key finds nothing and every other key what it found before. */
  lemma {:induction false} RemovedFind<K>(t: Table<K>, key: K, k: K)
    requires UniqueKeys(t)
    ensures Find(Removed(t, key), k) == if k == key then None else Find(t, k)
    decreases |t|
  {
    if |t| > 0 {
      assert UniqueKeys(t[1..]);
      if t[0].0 == key {
        if k == key {
          HasAt(t[1..], key);
        }
      } else {
        RemovedFind(t[1..], key, k);
      }
    }
  }

  lemma {:induction false} RemovedUnique<K>(t: Table<K>, key: K)
    requires UniqueKeys(t)
    ensures UniqueKeys(Removed(t, key))
    ensures forall i :: 0 <= i < |Removed(t, key)| ==> Removed(t, key)[i] in t
    decreases |t|
  {
    if |t| > 0 {
      assert UniqueKeys(t[1..]);
      if t[0].0 != key {
        RemovedUnique(t[1..], key);
        var r := Removed(t, key);
        forall i, j | 0 <= i < j < |r| ensures r[i].0 != r[j].0 {
          if i == 0 {
            assert r[j] in t[1..];
            var m :| 0 <= m < |t[1..]| && t[1..][m] == r[j];
            assert t[m + 1] == r[j];
          }
        }
      } else {
        assert forall i :: 0 <= i < |t[1..]| ==> t[1..][i] in t;
      }
    }
  }

  /** `_arguments.Values.SelectMany(argument => argument)`. */
  function Flatten<K>(t: Table<K>): seq<string>
    decreases |t|
  {
    if |t| == 0 then [] else t[0].1 + Flatten(t[1..])
  }

  lemma {:induction false} FlattenAppend<K>(t: Table<K>, e: Entry<K>)
    ensures Flatten(t + [e]) == Flatten(t) + e.1
    decreases |t|
  {
    if |t| == 0 {
      assert t + [e] == [e];
    } else {
      assert (t + [e])[1..] == t[1..] + [e];
      FlattenAppend(t[1..], e);
    }
  }

  /** Whatever a key finds stands, contiguously, on the command line, after the values of the entries before it. */
  /** The command line splits around any one entry. */
  lemma {:induction false} FlattenAround<K>(t: Table<K>, i: nat)
    requires i < |t|
    ensures Flatten(t) == Flatten(t[..i]) + t[i].1 + Flatten(t[i + 1..])
    decreases i
  {
    if i == 0 {
      assert t[..0] == [];
    } else {
      var u := t[1..];
      FlattenAround(u, i - 1);
      assert t[..i] == [t[0]] + u[..i - 1];
      assert ([t[0]] + u[..i - 1])[1..] == u[..i - 1];
      assert u[i..] == t[i + 1..];
    }
  }

  lemma {:induction false} FoundOnCommandLine<K>(t: Table<K>, key: K)
    requires Find(t, key).Some?
    ensures exists i :: (0 <= i < |t| && t[i] == (key, Find(t, key).value)
                         && Flatten(t) == Flatten(t[..i]) + t[i].1 + Flatten(t[i + 1..]))
    decreases |t|
  {
    if t[0].0 == key {
      FlattenAround(t, 0);
    } else {
      var u := t[1..];
      FoundOnCommandLine(u, key);
      var j :| 0 <= j < |u| && u[j] == (key, Find(u, key).value);
      FlattenAround(t, j + 1);
    }
  }

  /** Assigning a new key puts its values at the end of the command line. */
  lemma NewKeyGoesLast<K>(t: Table<K>, key: K, values: seq<string>)
    requires !Has(t, key)
    ensures Flatten(Upserted(t, key, values)) == Flatten(t) + values
  {
    FlattenAppend(t, (key, values));
  }

  /** Reassigning a key replaces its values where they stood, leaving the rest of the command line alone. */
  lemma {:induction false} ReassignInPlace<K>(t: Table<K>, i: nat, values: seq<string>)
    requires UniqueKeys(t) && i < |t|
    ensures Flatten(Upserted(t, t[i].0, values)) == Flatten(t[..i]) + values + Flatten(t[i + 1..])
    decreases |t|
  {
    if i == 0 {
      assert t[..0] == [];
    } else {
      assert t[0].0 != t[i].0;
      var u := t[1..];
      assert UniqueKeys(u);
      assert u[i - 1] == t[i];
      ReassignInPlace(u, i - 1, values);
      assert Upserted(t, t[i].0, values) == [t[0]] + Upserted(u, t[i].0, values);
      assert u[..i - 1] == t[1..i];
      assert u[i..] == t[i + 1..];
      assert t[..i] == [t[0]] + t[1..i];
      assert Flatten(t[..i]) == t[0].1 + Flatten(t[1..i]);
    }
  }

  /** Removing a key drops exactly its values from the command line. */
  lemma {:induction false} RemoveDropsValues<K>(t: Table<K>, i: nat)
    requires UniqueKeys(t) && i < |t|
    ensures Flatten(Removed(t, t[i].0)) == Flatten(t[..i]) + Flatten(t[i + 1..])
    decreases |t|
  {
    if i == 0 {
      assert t[..0] == [];
    } else {
      assert t[0].0 != t[i].0;
      var u := t[1..];
      assert UniqueKeys(u);
      assert u[i - 1] == t[i];
      RemoveDropsValues(u, i - 1);
      assert Removed(t, t[i].0) == [t[0]] + Removed(u, t[i].0);
      assert u[..i - 1] == t[1..i];
      assert u[i..] == t[i + 1..];
      assert t[..i] == [t[0]] + t[1..i];
      assert Flatten(t[..i]) == t[0].1 + Flatten(t[1..i]);
    }
  }

  /**
   * The command line `telepresence <head> <values...>` that `Start`/`Connect` assemble:
   * the `ArgumentList` initialiser followed by a `foreach` over the flattened values.
   */
  method CommandLine<K>(head: seq<string>, t: Table<K>) returns (args: seq<string>)
    ensures args == head + Flatten(t)
  {
    args := head;
    var i := 0;
    while i < |t|
      invariant 0 <= i <= |t|
      invariant args == head + Flatten(t[..i])
    {
      var values := t[i].1;
      var j := 0;
      while j < |values|
        invariant 0 <= j <= |values|
        invariant args == head + Flatten(t[..i]) + values[..j]
      {
        args := args + [values[j]];
        j := j + 1;
      }
      assert values[..j] == values;
      FlattenAppend(t[..i], t[i]);
      assert t[..i + 1] == t[..i] + [t[i]];
      i := i + 1;
    }
    assert t[..i] == t;
  }

  // ----- the argument shapes of list-valued properties -----

  /** `flag, item` for every item, in order. */
  function Repeated(flag: string, items: seq<string>): (r: seq<string>)
    ensures |r| == 2 * |items|
    decreases |items|
  {
    if |items| == 0 then [] else [flag, items[0]] + Repeated(flag, items[1..])
  }

  /** Every even position holds the flag and the next one the item. */
  lemma {:induction false} RepeatedAt(flag: string, items: seq<string>, i: nat)
    requires i < |items|
    ensures Repeated(flag, items)[2 * i] == flag && Repeated(flag, items)[2 * i + 1] == items[i]
    decreases |items|
  {
    if i > 0 {
      RepeatedAt(flag, items[1..], i - 1);
    }
  }

  /** The `foreach` loop of a list-valued setter: `arguments.Add(flag); arguments.Add(item);`. */
  method BuildRepeated(flag: string, items: seq<string>) returns (args: seq<string>)
    ensures args == Repeated(flag, items)
  {
    args := [];
    var i := 0;
    while i < |items|
      invariant 0 <= i <= |items|
      invariant |args| == 2 * i
      invariant forall k :: 0 <= k < i ==> args[2 * k] == flag && args[2 * k + 1] == items[k]
    {
      args := args + [flag, items[i]];
      i := i + 1;
    }
    SameRepeated(args, flag, items);
  }

  /** `Repeated` is determined by its shape. */
  lemma {:induction false} SameRepeated(args: seq<string>, flag: string, items: seq<string>)
    requires |args| == 2 * |items|
    requires forall k :: 0 <= k < |items| ==> args[2 * k] == flag && args[2 * k + 1] == items[k]
    ensures args == Repeated(flag, items)
  {
    var r := Repeated(flag, items);
    forall p | 0 <= p < |args|
      ensures args[p] == r[p]
    {
      var k := p / 2;
      assert p == 2 * k || p == 2 * k + 1;
      RepeatedAt(flag, items, k);
    }
  }

  /** `$"{Key}={Value}"` */
  function Assignment(pair: (string, string)): string {
    pair.0 + "=" + pair.1
  }

  /**
   * The pairs whose value is not blank (`Where(x => !IsNullOrWhiteSpace(x.Value))`), in order
   * (`NonBlankValuedAppend`), each as often as it occurs (`NonBlankValuedMultiplicity`).
   */
  function NonBlankValued(pairs: seq<(string, string)>): (r: seq<(string, string)>)
    ensures |r| <= |pairs|
    ensures forall p :: p in r <==> p in pairs && !IsBlank(p.1)
    decreases |pairs|
  {
    if |pairs| == 0 then []
    else if IsBlank(pairs[0].1) then NonBlankValued(pairs[1..])
    else [pairs[0]] + NonBlankValued(pairs[1..])
  }

  /** Each pair with a non-blank value is kept as often as it occurs, and none with a blank one. */
  lemma {:induction false} NonBlankValuedMultiplicity(pairs: seq<(string, string)>)
    ensures forall p :: multiset(NonBlankValued(pairs))[p] == if IsBlank(p.1) then 0 else multiset(pairs)[p]
    decreases |pairs|
  {
    if |pairs| > 0 {
      assert pairs == [pairs[0]] + pairs[1..];
      NonBlankValuedMultiplicity(pairs[1..]);
    }
  }

  /** Filtering keeps order: the filter of a concatenation is the concatenation of the filters. */
  lemma {:induction false} NonBlankValuedAppend(a: seq<(string, string)>, b: seq<(string, string)>)
    ensures NonBlankValued(a + b) == NonBlankValued(a) + NonBlankValued(b)
    decreases |a|
  {
    if |a| == 0 {
      assert a + b == b;
    } else {
      assert (a + b)[0] == a[0] && (a + b)[1..] == a[1..] + b;
      NonBlankValuedAppend(a[1..], b);
    }
  }

  /** `key=value` for every pair. */
  function Assignments(pairs: seq<(string, string)>): (r: seq<string>)
    ensures |r| == |pairs|
    ensures forall i :: 0 <= i < |pairs| ==> r[i] == Assignment(pairs[i])
  {
    seq(|pairs|, i requires 0 <= i < |pairs| => Assignment(pairs[i]))
  }

  /** `flag, key=value` for every pair with a non-blank value. */
  function PairArguments(flag: string, pairs: seq<(string, string)>): (r: seq<string>)
    ensures |r| == 2 * |NonBlankValued(pairs)|
  {
    Repeated(flag, Assignments(NonBlankValued(pairs)))
  }

  /** `string.Join(',', items.Where(x => !IsNullOrWhiteSpace(x)))`. */
  function JoinedNonBlank(items: seq<string>): string {
    Join(',', NonBlank(items))
  }

  /** A blank entry never reaches a joined list. */
  lemma JoinedSkipsBlank(items: seq<string>, blank: string)
    requires IsBlank(blank)
    ensures JoinedNonBlank(items + [blank]) == JoinedNonBlank(items)
  {
    NonBlankAppendBlank(items, blank);
  }

  lemma {:induction false} NonBlankAppendBlank(items: seq<string>, blank: string)
    requires IsBlank(blank)
    ensures NonBlank(items + [blank]) == NonBlank(items)
    decreases |items|
  {
    if |items| == 0 {
      assert NonBlank([blank]) == NonBlank([blank][1..]);
      assert [blank][1..] == [];
    } else {
      assert (items + [blank])[1..] == items[1..] + [blank];
      NonBlankAppendBlank(items[1..], blank);
    }
  }
}
