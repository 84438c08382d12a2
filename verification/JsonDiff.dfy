/**
 JSON values, the structural difference a migration reports, and the removal of
 nulls. The report is complete (its changes turn the old value into the new one),
 minimal in that equal values give none, and reversible.
 */
module JsonDiff {

  datatype Number = Whole(n: nat) | Negative(i: int) | Float(x: real)

  datatype Json =
    | Null
    | Bool(value: bool)
    | Num(number: Number)
    | Str(text: string)
    | Arr(items: seq<Json>)
    | Obj(fields: map<string, Json>)

  // ---------- Sorted keys ----------

  /** Strings in the order of their characters. */
  predicate Leq(a: string, b: string) {
    a == [] || (b != [] && (a[0] < b[0] || (a[0] == b[0] && Leq(a[1..], b[1..]))))
  }

  lemma {:induction false} LeqOrder(a: string, b: string, c: string)
    ensures Leq(a, b) || Leq(b, a)
    ensures Leq(a, b) && Leq(b, a) ==> a == b
    ensures Leq(a, b) && Leq(b, c) ==> Leq(a, c)
  {
    if a != [] && b != [] {
      LeqOrder(a[1..], b[1..], if c == [] then [] else c[1..]);
      assert a[1..] == b[1..] && a[0] == b[0] ==> a == b;
    }
  }

  predicate First(k: string, keys: set<string>) {
    k in keys && forall j :: j in keys ==> Leq(k, j)
  }

  lemma {:induction false} FirstExists(keys: set<string>) returns (k: string)
    requires keys != {}
    ensures First(k, keys)
    decreases keys
  {
    k :| k in keys;
    var rest := keys - {k};
    LeqOrder(k, k, k);
    if rest != {} {
      var j := FirstExists(rest);
      var best := if Leq(k, j) then k else j;
      forall i | i in keys
        ensures Leq(best, i)
      {
        assert i == k || i in rest;
        LeqOrder(k, j, i);
      }
      k := best;
    } else {
      assert keys == rest + {k};
    }
  }

  lemma FirstUnique(a: string, b: string, keys: set<string>)
    requires First(a, keys) && First(b, keys)
    ensures a == b
  {
    LeqOrder(a, b, a);
  }

  function SortedKeys(keys: set<string>): (r: seq<string>)
    ensures forall k :: k in r <==> k in keys
    ensures forall i, j :: 0 <= i < j < |r| ==> r[i] != r[j]
  {
    if keys == {} then []
    else
      assert exists k :: First(k, keys) by { var k := FirstExists(keys); }
      assert forall a, b :: First(a, keys) && First(b, keys) ==> a == b by {
        forall a, b | First(a, keys) && First(b, keys) ensures a == b { FirstUnique(a, b, keys); }
      }
      var k :| First(k, keys);
      var rest := SortedKeys(keys - {k});
      [k] + rest
  }

  // ---------- The difference ----------

  datatype Step = Key(key: string) | Index(index: nat)

  type Path = seq<Step>

  datatype Change =
    | Added(path: Path, value: Json)
    | Removed(path: Path, value: Json)
    | Changed(path: Path, from: Json, to: Json)

  function Diff(a: Json, b: Json, path: Path): seq<Change>
    decreases a, 2, 0
  {
    if a.Obj? && b.Obj? then DiffKeys(a, b, path, SortedKeys(a.fields.Keys + b.fields.Keys))
    else if a.Arr? && b.Arr? && |a.items| == |b.items| then DiffItems(a, b, path, |a.items|)
    else if a != b then [Changed(path, a, b)]
    else []
  }

  function DiffKeys(a: Json, b: Json, path: Path, keys: seq<string>): seq<Change>
    requires a.Obj? && b.Obj?
    decreases a, 1, |keys|
  {
    if keys == [] then []
    else DiffKeys(a, b, path, keys[..|keys| - 1]) + DiffKey(a, b, path, keys[|keys| - 1])
  }

  function DiffKey(a: Json, b: Json, path: Path, k: string): seq<Change>
    requires a.Obj? && b.Obj?
    decreases a, 0, 0
  {
    if k in a.fields then
      if k in b.fields then Diff(a.fields[k], b.fields[k], path + [Key(k)]) else [Removed(path + [Key(k)], a.fields[k])]
    else if k in b.fields then [Added(path + [Key(k)], b.fields[k])]
    else []
  }

  function DiffItems(a: Json, b: Json, path: Path, n: nat): seq<Change>
    requires a.Arr? && b.Arr? && n <= |a.items| && n <= |b.items|
    decreases a, 1, n
  {
    if n == 0 then []
    else DiffItems(a, b, path, n - 1) + Diff(a.items[n - 1], b.items[n - 1], path + [Index(n - 1)])
  }

  /** The report, pushed to one vector as the recursion goes. */
  method CollectDiff(a: Json, b: Json, path: Path, out: seq<Change>) returns (r: seq<Change>)
    ensures r == out + Diff(a, b, path)
    decreases a, 1
  {
    if a.Obj? && b.Obj? {
      r := CollectKeys(a, b, path, SortedKeys(a.fields.Keys + b.fields.Keys), out);
    } else if a.Arr? && b.Arr? && |a.items| == |b.items| {
      r := CollectItems(a, b, path, out);
    } else if a != b {
      r := out + [Changed(path, a, b)];
    } else {
      r := out;
    }
  }

  method CollectKeys(a: Json, b: Json, path: Path, keys: seq<string>, out: seq<Change>) returns (r: seq<Change>)
    requires a.Obj? && b.Obj?
    ensures r == out + DiffKeys(a, b, path, keys)
    decreases a, 0
  {
    r := out;
    assert keys[..0] == [];
    for i := 0 to |keys|
      invariant r == out + DiffKeys(a, b, path, keys[..i])
    {
      var k := keys[i];
      var p := path + [Key(k)];
      assert keys[..i + 1][..i] == keys[..i] && keys[..i + 1][i] == k;
      if k in a.fields {
        if k in b.fields {
          r := CollectDiff(a.fields[k], b.fields[k], p, r);
        } else {
          r := r + [Removed(p, a.fields[k])];
        }
      } else if k in b.fields {
        r := r + [Added(p, b.fields[k])];
      }
    }
    assert keys[..|keys|] == keys;
  }

  method CollectItems(a: Json, b: Json, path: Path, out: seq<Change>) returns (r: seq<Change>)
    requires a.Arr? && b.Arr? && |a.items| == |b.items|
    ensures r == out + DiffItems(a, b, path, |a.items|)
    decreases a, 0
  {
    r := out;
    for i := 0 to |a.items|
      invariant r == out + DiffItems(a, b, path, i)
    {
      r := CollectDiff(a.items[i], b.items[i], path + [Index(i)], r);
    }
  }

  // ---------- Nothing reported means nothing changed ----------

  lemma SameEverywhere(a: Json, b: Json, keys: seq<string>)
    requires a.Obj? && b.Obj? && forall k :: k in a.fields.Keys + b.fields.Keys ==> k in keys
    ensures a == b <==> forall i :: 0 <= i < |keys| ==> SameAt(a, b, keys[i])
  {
    if forall i :: 0 <= i < |keys| ==> SameAt(a, b, keys[i]) {
      forall k | k in a.fields || k in b.fields
        ensures SameAt(a, b, k)
      {
        assert k in a.fields.Keys + b.fields.Keys;
      }
      assert a.fields.Keys == b.fields.Keys;
      assert a.fields == b.fields;
    }
  }

  lemma {:induction false} NoChangeIffEqual(a: Json, b: Json, path: Path)
    ensures Diff(a, b, path) == [] <==> a == b
    decreases a, 2, 0
  {
    if a.Obj? && b.Obj? {
      var keys := SortedKeys(a.fields.Keys + b.fields.Keys);
      NoKeyChanged(a, b, path, keys);
      SameEverywhere(a, b, keys);
    } else if a.Arr? && b.Arr? && |a.items| == |b.items| {
      NoItemChanged(a, b, path, |a.items|);
      if Diff(a, b, path) == [] { assert a.items == b.items; }
    }
  }

  predicate SameAt(a: Json, b: Json, k: string)
    requires a.Obj? && b.Obj?
  {
    (k in a.fields <==> k in b.fields) && (k in a.fields && k in b.fields ==> a.fields[k] == b.fields[k])
  }

  lemma {:induction false} NoKeyChanged(a: Json, b: Json, path: Path, keys: seq<string>)
    requires a.Obj? && b.Obj?
    ensures DiffKeys(a, b, path, keys) == [] <==> forall i :: 0 <= i < |keys| ==> SameAt(a, b, keys[i])
    decreases a, 1, |keys|
  {
    if keys != [] {
      var k := keys[|keys| - 1];
      NoKeyChanged(a, b, path, keys[..|keys| - 1]);
      if k in a.fields && k in b.fields { NoChangeIffEqual(a.fields[k], b.fields[k], path + [Key(k)]); }
      assert DiffKey(a, b, path, k) == [] <==> SameAt(a, b, k);
    }
  }

  lemma {:induction false} NoItemChanged(a: Json, b: Json, path: Path, n: nat)
    requires a.Arr? && b.Arr? && n <= |a.items| && n <= |b.items|
    ensures DiffItems(a, b, path, n) == [] <==> forall i :: 0 <= i < n ==> a.items[i] == b.items[i]
    decreases a, 1, n
  {
    if n > 0 {
      NoItemChanged(a, b, path, n - 1);
      NoChangeIffEqual(a.items[n - 1], b.items[n - 1], path + [Index(n - 1)]);
    }
  }

  // ---------- The changes turn the old value into the new ----------

  /** Carries out one change at the rest of its path. */
  function Edit(j: Json, path: Path, c: Change): Json
    decreases |path|
  {
    if path == [] then
      match c case Added(_, v) => v case Changed(_, _, v) => v case Removed(_, _) => j
    else
      match path[0]
      case Index(i) =>
        if j.Arr? && i < |j.items| then Arr(j.items[i := Edit(j.items[i], path[1..], c)]) else j
      case Key(k) =>
        if !j.Obj? then j
        else if |path| == 1 && c.Removed? then Obj(j.fields - {k})
        else Obj(j.fields[k := Edit(if k in j.fields then j.fields[k] else Null, path[1..], c)])
  }

  /** Carries out the changes in order, `depth` steps of each path being already behind. */
  function Apply(j: Json, changes: seq<Change>, depth: nat): Json {
    if changes == [] then j
    else
      var c := changes[|changes| - 1];
      var front := Apply(j, changes[..|changes| - 1], depth);
      if depth <= |c.path| then Edit(front, c.path[depth..], c) else front
  }

  lemma {:induction false} ApplyConcat(j: Json, a: seq<Change>, b: seq<Change>, depth: nat)
    ensures Apply(j, a + b, depth) == Apply(Apply(j, a, depth), b, depth)
  {
    if b == [] {
      assert a + b == a;
    } else {
      assert (a + b)[..|a + b| - 1] == a + b[..|b| - 1];
      ApplyConcat(j, a, b[..|b| - 1], depth);
    }
  }

  /** Every path starts with these steps. */
  ghost predicate Beyond(changes: seq<Change>, path: Path) {
    forall i :: 0 <= i < |changes| ==> path <= changes[i].path
  }

  lemma {:induction false} DiffIsBeyond(a: Json, b: Json, path: Path)
    ensures Beyond(Diff(a, b, path), path)
    decreases a, 2, 0
  {
    if a.Obj? && b.Obj? {
      KeysBeyond(a, b, path, SortedKeys(a.fields.Keys + b.fields.Keys));
    } else if a.Arr? && b.Arr? && |a.items| == |b.items| {
      ItemsBeyond(a, b, path, |a.items|);
    }
  }

  lemma {:induction false} KeysBeyond(a: Json, b: Json, path: Path, keys: seq<string>)
    requires a.Obj? && b.Obj?
    ensures Beyond(DiffKeys(a, b, path, keys), path)
    decreases a, 1, |keys|
  {
    if keys != [] {
      var k := keys[|keys| - 1];
      KeysBeyond(a, b, path, keys[..|keys| - 1]);
      KeyBeyond(a, b, path, k);
    }
  }

  lemma {:induction false} KeyBeyond(a: Json, b: Json, path: Path, k: string)
    requires a.Obj? && b.Obj?
    ensures Beyond(DiffKey(a, b, path, k), path + [Key(k)])
    ensures Beyond(DiffKey(a, b, path, k), path)
    decreases a, 0, 0
  {
    if k in a.fields && k in b.fields { DiffIsBeyond(a.fields[k], b.fields[k], path + [Key(k)]); }
    forall i | 0 <= i < |DiffKey(a, b, path, k)|
      ensures path <= DiffKey(a, b, path, k)[i].path
    {
      assert path + [Key(k)] <= DiffKey(a, b, path, k)[i].path;
    }
  }

  lemma {:induction false} ItemsBeyond(a: Json, b: Json, path: Path, n: nat)
    requires a.Arr? && b.Arr? && n <= |a.items| && n <= |b.items|
    ensures Beyond(DiffItems(a, b, path, n), path)
    decreases a, 1, n
  {
    if n > 0 {
      ItemsBeyond(a, b, path, n - 1);
      var step := path + [Index(n - 1)];
      DiffIsBeyond(a.items[n - 1], b.items[n - 1], step);
      var last := Diff(a.items[n - 1], b.items[n - 1], step);
      forall i | 0 <= i < |last|
        ensures path <= last[i].path
      {
        assert step <= last[i].path;
      }
    }
  }

  /** Changes below one key of an object are changes of that key's value. */
  lemma {:induction false} ApplyUnderKey(f: map<string, Json>, k: string, changes: seq<Change>, path: Path)
    requires k in f && Beyond(changes, path + [Key(k)])
    requires forall i :: 0 <= i < |changes| ==> changes[i].Removed? ==> |changes[i].path| > |path| + 1
    ensures Apply(Obj(f), changes, |path|) == Obj(f[k := Apply(f[k], changes, |path| + 1)])
  {
    if changes == [] {
      assert f[k := f[k]] == f;
    } else {
      var front, c := changes[..|changes| - 1], changes[|changes| - 1];
      ApplyUnderKey(f, k, front, path);
      assert path + [Key(k)] <= c.path;
      var rest := c.path[|path|..];
      assert rest[0] == Key(k) && rest[1..] == c.path[|path| + 1..];
    }
  }

  lemma {:induction false} ApplyUnderIndex(items: seq<Json>, i: nat, changes: seq<Change>, path: Path)
    requires i < |items| && Beyond(changes, path + [Index(i)])
    ensures Apply(Arr(items), changes, |path|) == Arr(items[i := Apply(items[i], changes, |path| + 1)])
  {
    if changes == [] {
      assert items[i := items[i]] == items;
    } else {
      var front, c := changes[..|changes| - 1], changes[|changes| - 1];
      ApplyUnderIndex(items, i, front, path);
      assert path + [Index(i)] <= c.path;
      var rest := c.path[|path|..];
      assert rest[0] == Index(i) && rest[1..] == c.path[|path| + 1..];
    }
  }

  /** A value is never reported removed at its own path. */
  lemma {:induction false} RemovalsAreBelow(a: Json, b: Json, path: Path)
    ensures forall i :: 0 <= i < |Diff(a, b, path)| ==>
              Diff(a, b, path)[i].Removed? ==> |Diff(a, b, path)[i].path| > |path|
    decreases a, 2, 0
  {
    if a.Obj? && b.Obj? {
      KeyRemovalsAreBelow(a, b, path, SortedKeys(a.fields.Keys + b.fields.Keys));
    } else if a.Arr? && b.Arr? && |a.items| == |b.items| {
      ItemRemovalsAreBelow(a, b, path, |a.items|);
    }
  }

  lemma {:induction false} KeyRemovalsAreBelow(a: Json, b: Json, path: Path, keys: seq<string>)
    requires a.Obj? && b.Obj?
    ensures forall i :: 0 <= i < |DiffKeys(a, b, path, keys)| ==>
              |DiffKeys(a, b, path, keys)[i].path| > |path|
    decreases a, 1, |keys|
  {
    if keys != [] {
      KeyRemovalsAreBelow(a, b, path, keys[..|keys| - 1]);
      KeyBeyond(a, b, path, keys[|keys| - 1]);
    }
  }

  lemma {:induction false} ItemRemovalsAreBelow(a: Json, b: Json, path: Path, n: nat)
    requires a.Arr? && b.Arr? && n <= |a.items| && n <= |b.items|
    ensures forall i :: 0 <= i < |DiffItems(a, b, path, n)| ==> |DiffItems(a, b, path, n)[i].path| > |path|
    decreases a, 1, n
  {
    if n > 0 {
      ItemRemovalsAreBelow(a, b, path, n - 1);
      DiffIsBeyond(a.items[n - 1], b.items[n - 1], path + [Index(n - 1)]);
    }
  }

  lemma MergedAll(a: Json, b: Json)
    requires a.Obj? && b.Obj?
    ensures Merged(a, b, SortedKeys(a.fields.Keys + b.fields.Keys)) == b.fields
  {
  }

  lemma SplicedAll(a: Json, b: Json)
    requires a.Arr? && b.Arr? && |a.items| == |b.items|
    ensures Spliced(a, b, |a.items|) == b.items
  {
  }

  lemma ChangedApplies(a: Json, b: Json, path: Path)
    ensures Apply(a, [Changed(path, a, b)], |path|) == b
  {
    var c := Changed(path, a, b);
    assert path[|path|..] == [];
    assert [c][..0] == [];
    assert Apply(a, [c], |path|) == Edit(Apply(a, [], |path|), [], c);
  }

  /** The report, carried out on the old value, yields the new one. */
  lemma {:induction false} DiffApplies(a: Json, b: Json, path: Path)
    ensures Apply(a, Diff(a, b, path), |path|) == b
    decreases a, 2, 0
  {
    if a.Obj? && b.Obj? {
      KeysApply(a, b, path, SortedKeys(a.fields.Keys + b.fields.Keys));
      MergedAll(a, b);
    } else if a.Arr? && b.Arr? && |a.items| == |b.items| {
      ItemsApply(a, b, path, |a.items|);
      SplicedAll(a, b);
    } else if a != b {
      ChangedApplies(a, b, path);
    }
  }

  /** The fields of `a`, those among `keys` as `b` has them. */
  function Merged(a: Json, b: Json, keys: seq<string>): map<string, Json>
    requires a.Obj? && b.Obj?
  {
    map k | k in a.fields.Keys + b.fields.Keys && (if k in keys then k in b.fields else k in a.fields)
      :: if k in keys then b.fields[k] else a.fields[k]
  }

  lemma {:induction false} KeysApply(a: Json, b: Json, path: Path, keys: seq<string>)
    requires a.Obj? && b.Obj? && forall i, j :: 0 <= i < j < |keys| ==> keys[i] != keys[j]
    ensures Apply(a, DiffKeys(a, b, path, keys), |path|) == Obj(Merged(a, b, keys))
    decreases a, 1, |keys|
  {
    if keys == [] {
      assert Merged(a, b, keys) == a.fields;
    } else {
      var front, k := keys[..|keys| - 1], keys[|keys| - 1];
      KeysApply(a, b, path, front);
      ApplyConcat(a, DiffKeys(a, b, path, front), DiffKey(a, b, path, k), |path|);
      assert k !in front && keys == front + [k];
      KeyApplies(a, b, path, Merged(a, b, front), k);
      MergedNext(a, b, front, k);
    }
  }

  lemma MergedNext(a: Json, b: Json, front: seq<string>, k: string)
    requires a.Obj? && b.Obj? && k !in front
    ensures var m := Merged(a, b, front);
            Merged(a, b, front + [k]) == if k in b.fields then m[k := b.fields[k]] else m - {k}
  {
  }

  lemma {:induction false} KeyApplies(a: Json, b: Json, path: Path, m: map<string, Json>, k: string)
    requires a.Obj? && b.Obj?
    requires (k in m <==> k in a.fields) && (k in m ==> m[k] == a.fields[k])
    ensures Apply(Obj(m), DiffKey(a, b, path, k), |path|) == Obj(if k in b.fields then m[k := b.fields[k]] else m - {k})
    decreases a, 0, 0
  {
    var p := path + [Key(k)];
    if k in a.fields && k in b.fields {
      var changes := Diff(a.fields[k], b.fields[k], p);
      DiffIsBeyond(a.fields[k], b.fields[k], p);
      RemovalsAreBelow(a.fields[k], b.fields[k], p);
      ApplyUnderKey(m, k, changes, path);
      DiffApplies(a.fields[k], b.fields[k], p);
    } else if k in a.fields || k in b.fields {
      var c := DiffKey(a, b, path, k)[0];
      assert p[|path|..] == [Key(k)] && [Key(k)][1..] == [];
      assert DiffKey(a, b, path, k) == [c] && [c][..0] == [] && c.path == p;
      assert Apply(Obj(m), [c], |path|) == Edit(Obj(m), c.path[|path|..], c);
      if k in b.fields { assert Edit(Null, [], c) == b.fields[k]; }
    } else {
      assert m - {k} == m;
    }
  }

  /** The first `n` items as `b` has them. */
  function Spliced(a: Json, b: Json, n: nat): seq<Json>
    requires a.Arr? && b.Arr? && |a.items| == |b.items| && n <= |a.items|
  {
    b.items[..n] + a.items[n..]
  }

  lemma SplicedNext(a: Json, b: Json, i: nat)
    requires a.Arr? && b.Arr? && |a.items| == |b.items| && i < |a.items|
    ensures Spliced(a, b, i)[i := b.items[i]] == Spliced(a, b, i + 1)
  {
    assert b.items[..i + 1] == b.items[..i] + [b.items[i]];
    assert a.items[i..] == [a.items[i]] + a.items[i + 1..];
  }

  lemma {:induction false} ItemsApply(a: Json, b: Json, path: Path, n: nat)
    requires a.Arr? && b.Arr? && |a.items| == |b.items| && n <= |a.items|
    ensures Apply(a, DiffItems(a, b, path, n), |path|) == Arr(Spliced(a, b, n))
    decreases a, 1, n
  {
    if n == 0 {
      assert Spliced(a, b, 0) == a.items;
    } else {
      ItemsApply(a, b, path, n - 1);
      ApplyConcat(a, DiffItems(a, b, path, n - 1), Diff(a.items[n - 1], b.items[n - 1], path + [Index(n - 1)]), |path|);
      ItemApplies(a, b, path, n - 1);
      SplicedNext(a, b, n - 1);
    }
  }

  lemma {:induction false} ItemApplies(a: Json, b: Json, path: Path, i: nat)
    requires a.Arr? && b.Arr? && |a.items| == |b.items| && i < |a.items|
    ensures var s := Spliced(a, b, i);
            Apply(Arr(s), Diff(a.items[i], b.items[i], path + [Index(i)]), |path|) == Arr(s[i := b.items[i]])
    decreases a, 0, 0
  {
    var p := path + [Index(i)];
    DiffIsBeyond(a.items[i], b.items[i], p);
    ApplyUnderIndex(Spliced(a, b, i), i, Diff(a.items[i], b.items[i], p), path);
    DiffApplies(a.items[i], b.items[i], p);
  }

  // ---------- The report reads both ways ----------

  function Inverse(c: Change): Change {
    match c
    case Added(p, v) => Removed(p, v)
    case Removed(p, v) => Added(p, v)
    case Changed(p, from, to) => Changed(p, to, from)
  }

  function Inverses(cs: seq<Change>): (r: seq<Change>)
    ensures |r| == |cs| && forall i :: 0 <= i < |cs| ==> r[i] == Inverse(cs[i])
  {
    seq(|cs|, i requires 0 <= i < |cs| => Inverse(cs[i]))
  }

  lemma InversesConcat(a: seq<Change>, b: seq<Change>)
    ensures Inverses(a + b) == Inverses(a) + Inverses(b)
  {
  }

  /** Each change inverted, in the same order, is the report of the way back. */
  lemma {:induction false} DiffInverts(a: Json, b: Json, path: Path)
    ensures Diff(b, a, path) == Inverses(Diff(a, b, path))
    decreases a, 2, 0
  {
    if a.Obj? && b.Obj? {
      assert a.fields.Keys + b.fields.Keys == b.fields.Keys + a.fields.Keys;
      KeysInvert(a, b, path, SortedKeys(a.fields.Keys + b.fields.Keys));
    } else if a.Arr? && b.Arr? && |a.items| == |b.items| {
      ItemsInvert(a, b, path, |a.items|);
    }
  }

  lemma {:induction false} KeysInvert(a: Json, b: Json, path: Path, keys: seq<string>)
    requires a.Obj? && b.Obj?
    ensures DiffKeys(b, a, path, keys) == Inverses(DiffKeys(a, b, path, keys))
    decreases a, 1, |keys|
  {
    if keys != [] {
      var front, k := keys[..|keys| - 1], keys[|keys| - 1];
      KeysInvert(a, b, path, front);
      if k in a.fields && k in b.fields { DiffInverts(a.fields[k], b.fields[k], path + [Key(k)]); }
      assert DiffKey(b, a, path, k) == Inverses(DiffKey(a, b, path, k));
      InversesConcat(DiffKeys(a, b, path, front), DiffKey(a, b, path, k));
    }
  }

  lemma {:induction false} ItemsInvert(a: Json, b: Json, path: Path, n: nat)
    requires a.Arr? && b.Arr? && n <= |a.items| && n <= |b.items|
    ensures DiffItems(b, a, path, n) == Inverses(DiffItems(a, b, path, n))
    decreases a, 1, n
  {
    if n > 0 {
      var at := path + [Index(n - 1)];
      ItemsInvert(a, b, path, n - 1);
      DiffInverts(a.items[n - 1], b.items[n - 1], at);
      JoinInverses(DiffItems(a, b, path, n - 1), Diff(a.items[n - 1], b.items[n - 1], at), DiffItems(b, a, path, n - 1),
                   Diff(b.items[n - 1], a.items[n - 1], at));
    }
  }

  lemma JoinInverses(x: seq<Change>, y: seq<Change>, x': seq<Change>, y': seq<Change>)
    requires x' == Inverses(x) && y' == Inverses(y)
    ensures x' + y' == Inverses(x + y)
  {
    InversesConcat(x, y);
  }

  /** The report is empty exactly for equal values, leads from one to the other, and back. */
  lemma ReportIsExact(a: Json, b: Json)
    ensures Diff(a, b, []) == [] <==> a == b
    ensures Apply(a, Diff(a, b, []), 0) == b
    ensures Apply(b, Inverses(Diff(a, b, [])), 0) == a
  {
    NoChangeIffEqual(a, b, []);
    DiffApplies(a, b, []);
    DiffInverts(a, b, []);
    DiffApplies(b, a, []);
  }

  // ---------- Nulls ----------

  /** Fields that are null go, at every depth; nulls in arrays stay. */
  function Strip(j: Json): (r: Json)
    ensures r.Null? <==> j.Null?
    decreases j
  {
    match j
    case Obj(f) => Obj(map k | k in f && f[k] != Null :: Strip(f[k]))
    case Arr(items) => Arr(seq(|items|, i requires 0 <= i < |items| => Strip(items[i])))
    case _ => j
  }

  predicate NoNullField(j: Json)
    decreases j
  {
    match j
    case Obj(f) => forall k :: k in f ==> f[k] != Null && NoNullField(f[k])
    case Arr(items) => forall i :: 0 <= i < |items| ==> NoNullField(items[i])
    case _ => true
  }

  lemma {:induction false} StripClears(j: Json)
    ensures NoNullField(Strip(j))
    decreases j
  {
    match j
    case Obj(f) =>
      forall k | k in f && f[k] != Null
        ensures NoNullField(Strip(f[k]))
      {
        StripClears(f[k]);
      }
    case Arr(items) =>
      forall i | 0 <= i < |items|
        ensures NoNullField(Strip(items[i]))
      {
        StripClears(items[i]);
      }
    case _ =>
  }

  /** Stripping changes a value if and only if some field in it is null; so it is idempotent. */
  lemma {:induction false} StripChangesOnlyNulls(j: Json)
    ensures Strip(j) == j <==> NoNullField(j)
    ensures Strip(Strip(j)) == Strip(j)
    decreases j
  {
    StripClears(j);
    if NoNullField(j) { StripKeeps(j); }
    StripKeeps(Strip(j));
  }

  lemma {:induction false} StripKeeps(j: Json)
    requires NoNullField(j)
    ensures Strip(j) == j
    decreases j
  {
    match j
    case Obj(f) =>
      forall k | k in f
        ensures Strip(f[k]) == f[k]
      {
        StripKeeps(f[k]);
      }
      assert Strip(j).fields == f;
    case Arr(items) =>
      forall i | 0 <= i < |items|
        ensures Strip(items[i]) == items[i]
      {
        StripKeeps(items[i]);
      }
      assert Strip(j).items == items;
    case _ =>
  }

  // ---------- The report is as fine as the structure ----------

  /** Two objects, or two lists of one length, are compared inside. */
  predicate Comparable(a: Json, b: Json) {
    (a.Obj? && b.Obj?) || (a.Arr? && b.Arr? && |a.items| == |b.items|)
  }

  /** A change reports a difference that is not between two comparable values. */
  predicate Fine(c: Change) {
    c.Changed? ==> c.from != c.to && !Comparable(c.from, c.to)
  }

  predicate AllFine(changes: seq<Change>) {
    forall c :: c in changes ==> Fine(c)
  }

  /** Nothing is reported as changed whole that could be compared inside. */
  lemma {:induction false} ChangesAreFine(a: Json, b: Json, path: Path)
    ensures AllFine(Diff(a, b, path))
    decreases a, 2, 0
  {
    if a.Obj? && b.Obj? {
      KeysAreFine(a, b, path, SortedKeys(a.fields.Keys + b.fields.Keys));
    } else if a.Arr? && b.Arr? && |a.items| == |b.items| {
      ItemsAreFine(a, b, path, |a.items|);
    }
  }

  lemma {:induction false} KeysAreFine(a: Json, b: Json, path: Path, keys: seq<string>)
    requires a.Obj? && b.Obj?
    ensures AllFine(DiffKeys(a, b, path, keys))
    decreases a, 1, |keys|
  {
    if keys != [] {
      KeysAreFine(a, b, path, keys[..|keys| - 1]);
      KeyIsFine(a, b, path, keys[|keys| - 1]);
    }
  }

  lemma {:induction false} KeyIsFine(a: Json, b: Json, path: Path, k: string)
    requires a.Obj? && b.Obj?
    ensures AllFine(DiffKey(a, b, path, k))
    decreases a, 0, 0
  {
    if k in a.fields && k in b.fields { ChangesAreFine(a.fields[k], b.fields[k], path + [Key(k)]); }
  }

  lemma {:induction false} ItemsAreFine(a: Json, b: Json, path: Path, n: nat)
    requires a.Arr? && b.Arr? && n <= |a.items| && n <= |b.items|
    ensures AllFine(DiffItems(a, b, path, n))
    decreases a, 1, n
  {
    if n > 0 {
      ItemsAreFine(a, b, path, n - 1);
      ChangesAreFine(a.items[n - 1], b.items[n - 1], path + [Index(n - 1)]);
    }
  }
}
