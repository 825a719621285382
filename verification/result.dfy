/**
 * The `Result` container of mordred/_base/result.py: the values computed for
 * one molecule next to the descriptors that produced them, looked up by
 * position, by name, or by descriptor.
 *
 * Values are of any type `V`; `isMissing` stands for `is_missing` and
 * `str` for `str()` of a descriptor, both given.
 */
module Results {
  import opened Numeric
  import opened Descriptors

  /** A Result: the values, the descriptors, and the index from each descriptor's name to its position. */
  datatype Result<V> = Result(values: seq<V>, descriptors: seq<Desc>, nameToIndex: map<string, nat>)

  /** `{str(a): i for i, a in enumerate(d)}`: each name goes to the last position that carries it. */
  function NameIndex(ds: seq<Desc>, str: Desc -> string): map<string, nat>
  {
    if ds == [] then map[]
    else NameIndex(ds[..|ds| - 1], str)[str(ds[|ds| - 1]) := |ds| - 1]
  }

  /** Every name is in the index, at a position carrying it, and no later position carries it. */
  lemma {:induction false} NameIndexLastWins(ds: seq<Desc>, str: Desc -> string)
    ensures var m := NameIndex(ds, str);
            && (forall i :: 0 <= i < |ds| ==> str(ds[i]) in m)
            && (forall s :: s in m ==> m[s] < |ds| && str(ds[m[s]]) == s)
            && (forall s, j :: s in m && m[s] < j < |ds| ==> str(ds[j]) != s)
  {
    if ds != [] {
      var n := |ds| - 1;
      var init := ds[..n];
      NameIndexLastWins(init, str);
      var m0 := NameIndex(init, str);
      var m := NameIndex(ds, str);
      assert m == m0[str(ds[n]) := n];
      forall i | 0 <= i < |ds|
        ensures str(ds[i]) in m
      {
        if i < n {
          assert init[i] == ds[i];
        }
      }
      forall s | s in m
        ensures m[s] < |ds| && str(ds[m[s]]) == s
      {
        if s != str(ds[n]) {
          assert init[m0[s]] == ds[m0[s]];
        }
      }
      forall s, j | s in m && m[s] < j < |ds|
        ensures str(ds[j]) != s
      {
        if j < n {
          assert init[j] == ds[j];
        }
      }
    }
  }

  /**
   * An argument of `Result.__init__`: a list, which can be read any number of
   * times, or a one-shot iterator, such as `keys()` and `values()` return,
   * which a first full pass exhausts.
   */
  datatype Iterable<T> = List(elems: seq<T>) | Iterator(elems: seq<T>)

  /** What a second pass over an iterable reads once a first pass has read it all. */
  function SecondPass<T>(it: Iterable<T>): seq<T>
  {
    match it
    case List(s) => s
    case Iterator(_) => []
  }

  /**
   * `Result.__init__(r, d)`: `list(r)` and `list(d)` read each argument once,
   * then the name comprehension enumerates `d` a second time.
   */
  function Init<V>(r: Iterable<V>, d: Iterable<Desc>, str: Desc -> string): (res: Result<V>)
    ensures res.values == r.elems && res.descriptors == d.elems
    ensures d.List? ==> WellFormed(res, str)
    ensures d.Iterator? ==> res.nameToIndex == map[]
  {
    Result(r.elems, d.elems, NameIndex(SecondPass(d), str))
  }

  /** `Result(r, d)` called with two lists. */
  function New<V>(r: seq<V>, d: seq<Desc>, str: Desc -> string): (res: Result<V>)
    ensures res.values == r && res.descriptors == d
    ensures WellFormed(res, str)
  {
    Init(List(r), List(d), str)
  }

  /** The name index is the one `__init__` builds from a list of descriptors. */
  predicate WellFormed<V>(res: Result<V>, str: Desc -> string)
  {
    res.nameToIndex == NameIndex(res.descriptors, str)
  }

  /** `keys()`: `iter(self._descriptors)`. */
  function Keys<V>(res: Result<V>): Iterable<Desc>
  {
    Iterator(res.descriptors)
  }

  /** `len(result)`: the number of descriptors. */
  function Len<V>(res: Result<V>): (n: nat)
    ensures n == |res.descriptors|
  {
    |res.descriptors|
  }

  function Min(a: nat, b: nat): nat
  {
    if a < b then a else b
  }

  /** `items()`: `zip(keys(), values())`, as long as the shorter of the two. */
  function Items<V>(res: Result<V>): (ps: seq<(Desc, V)>)
    ensures |ps| == Min(|res.descriptors|, |res.values|)
    ensures forall k :: 0 <= k < |ps| ==> ps[k] == (res.descriptors[k], res.values[k])
  {
    seq(Min(|res.descriptors|, |res.values|), k requires 0 <= k < Min(|res.descriptors|, |res.values|) =>
      (res.descriptors[k], res.values[k]))
  }

  /** The comprehension of `fill_missing`: each missing value replaced by `value`. */
  function Filled<V>(vs: seq<V>, value: V, isMissing: V -> bool): seq<V>
  {
    seq(|vs|, k requires 0 <= k < |vs| => if isMissing(vs[k]) then value else vs[k])
  }

  /**
   * `fill_missing(value)` as written: the descriptors go to `__init__` as
   * `self.keys()`, an iterator that `list(d)` exhausts before the name index
   * is built, so the filled Result has an empty name index.
   */
  function FillMissingAsWritten<V>(res: Result<V>, value: V, isMissing: V -> bool, str: Desc -> string): (r: Result<V>)
    ensures r.descriptors == res.descriptors && |r.values| == |res.values|
    ensures forall k :: 0 <= k < |r.values| ==>
              r.values[k] == if isMissing(res.values[k]) then value else res.values[k]
    ensures r.nameToIndex == map[]
  {
    Init(List(Filled(res.values, value, isMissing)), Keys(res), str)
  }

  /** As written, the filled Result answers every lookup by name or by descriptor with KeyError. */
  lemma FillMissingAsWrittenLosesNames<V>(res: Result<V>, value: V, isMissing: V -> bool, str: Desc -> string, key: Key)
    requires key.ByStr? || key.ByDesc?
    ensures var r := GetItem(FillMissingAsWritten(res, value, isMissing, str), key, str);
            r.Raised? && ClassOf(r.exc) == KeyError
  {
  }

  /**
   * The input that shows it: `Result([1], [d])[d]` is 1, and so is the same
   * lookup after the intended `fill_missing(0)`, but after `fill_missing(0)`
   * as written it raises KeyError.
   */
  lemma FillMissingAsWrittenCounterexample(d: Desc, isMissing: int -> bool, str: Desc -> string)
    requires !isMissing(1)
    ensures GetItem(New([1], [d], str), ByDesc(d), str) == Value(One(1))
    ensures GetItem(FillMissing(New([1], [d], str), 0, isMissing, str), ByDesc(d), str) == Value(One(1))
    ensures GetItem(FillMissingAsWritten(New([1], [d], str), 0, isMissing, str), ByDesc(d), str).Raised?
  {
    assert NameIndex([d], str) == map[str(d) := 0] by {
      assert [d][..0] == [];
    }
  }

  /**
   * `fill_missing(value)` as intended: the filled values next to the same
   * descriptors, passed as a list (`list(self.keys())`), so the name index
   * survives.
   */
  function FillMissing<V>(res: Result<V>, value: V, isMissing: V -> bool, str: Desc -> string): (r: Result<V>)
    ensures r.descriptors == res.descriptors && |r.values| == |res.values|
    ensures forall k :: 0 <= k < |r.values| ==>
              r.values[k] == if isMissing(res.values[k]) then value else res.values[k]
    ensures WellFormed(r, str)
    ensures WellFormed(res, str) ==> r.nameToIndex == res.nameToIndex
  {
    Init(List(Filled(res.values, value, isMissing)), List(res.descriptors), str)
  }

  /**
   * In a well-formed Result, a name or descriptor lookup after the intended
   * `fill_missing(x)` finds what it found before, with a missing value
   * replaced by `x`; a lookup that failed before fails the same way.
   */
  lemma FillMissingKeepsLookups<V>(res: Result<V>, value: V, isMissing: V -> bool, str: Desc -> string, key: Key)
    requires WellFormed(res, str) && (key.ByStr? || key.ByDesc?)
    ensures var before := GetItem(res, key, str);
            var after := GetItem(FillMissing(res, value, isMissing, str), key, str);
            && (before.Value? <==> after.Value?)
            && (!before.Value? ==> after == before)
            && (before.Value? && before.value.One? ==>
                  after == Value(One(if isMissing(before.value.v) then value else before.value.v)))
  {
  }

  /** The pairs whose value is not missing, in their original order. */
  function KeepPresent<V>(ps: seq<(Desc, V)>, isMissing: V -> bool): seq<(Desc, V)>
  {
    if ps == [] then []
    else
      var rest := KeepPresent(ps[..|ps| - 1], isMissing);
      if isMissing(ps[|ps| - 1].1) then rest else rest + [ps[|ps| - 1]]
  }

  function Firsts<V>(ps: seq<(Desc, V)>): (ds: seq<Desc>)
    ensures |ds| == |ps| && forall k :: 0 <= k < |ps| ==> ds[k] == ps[k].0
  {
    seq(|ps|, k requires 0 <= k < |ps| => ps[k].0)
  }

  function Seconds<V>(ps: seq<(Desc, V)>): (vs: seq<V>)
    ensures |vs| == |ps| && forall k :: 0 <= k < |ps| ==> vs[k] == ps[k].1
  {
    seq(|ps|, k requires 0 <= k < |ps| => ps[k].1)
  }

  /** A Result built from a list of pairs. */
  function FromPairs<V>(ps: seq<(Desc, V)>, str: Desc -> string): Result<V>
  {
    New(Seconds(ps), Firsts(ps), str)
  }

  /** What `drop_missing()` returns. */
  function Dropped<V>(res: Result<V>, isMissing: V -> bool, str: Desc -> string): Result<V>
  {
    FromPairs(KeepPresent(Items(res), isMissing), str)
  }

  /** `drop_missing()`: walk the items and append the present ones to two new lists. */
  method DropMissing<V>(res: Result<V>, isMissing: V -> bool, str: Desc -> string) returns (r: Result<V>)
    ensures r == Dropped(res, isMissing, str)
  {
    var items := Items(res);
    var newValues: seq<V> := [];
    var newDescs: seq<Desc> := [];
    for k := 0 to |items|
      invariant newValues == Seconds(KeepPresent(items[..k], isMissing))
      invariant newDescs == Firsts(KeepPresent(items[..k], isMissing))
    {
      var (d, v) := items[k];
      assert items[..k + 1][..k] == items[..k];
      if !isMissing(v) {
        newValues := newValues + [v];
        newDescs := newDescs + [d];
      }
    }
    assert items[..|items|] == items;
    r := New(newValues, newDescs, str);
  }

  /** Zipping the two halves of a list of pairs gives the list back. */
  lemma ItemsFromPairs<V>(ps: seq<(Desc, V)>, str: Desc -> string)
    ensures Items(FromPairs(ps, str)) == ps
  {
  }

  /** The filter keeps exactly the present pairs: none of its pairs is missing, and each is one of the input's. */
  lemma {:induction false} KeepPresentSound<V>(ps: seq<(Desc, V)>, isMissing: V -> bool)
    ensures forall k :: 0 <= k < |KeepPresent(ps, isMissing)| ==>
              !isMissing(KeepPresent(ps, isMissing)[k].1) && KeepPresent(ps, isMissing)[k] in ps
    ensures |KeepPresent(ps, isMissing)| <= |ps|
  {
    if ps != [] {
      KeepPresentSound(ps[..|ps| - 1], isMissing);
    }
  }

  /** The filter drops nothing from a list without missing values. */
  lemma {:induction false} KeepPresentAllPresent<V>(ps: seq<(Desc, V)>, isMissing: V -> bool)
    requires forall k :: 0 <= k < |ps| ==> !isMissing(ps[k].1)
    ensures KeepPresent(ps, isMissing) == ps
  {
    if ps != [] {
      var init := ps[..|ps| - 1];
      assert forall k :: 0 <= k < |init| ==> init[k] == ps[k];
      KeepPresentAllPresent(init, isMissing);
    }
  }

  /** The filter commutes with concatenation: order is kept across any split. */
  lemma {:induction false} KeepPresentAppend<V>(a: seq<(Desc, V)>, b: seq<(Desc, V)>, isMissing: V -> bool)
    ensures KeepPresent(a + b, isMissing) == KeepPresent(a, isMissing) + KeepPresent(b, isMissing)
  {
    if b != [] {
      assert (a + b)[..|a + b| - 1] == a + b[..|b| - 1];
      KeepPresentAppend(a, b[..|b| - 1], isMissing);
    } else {
      assert a + b == a;
    }
  }

  /** After `drop_missing()`, no value is missing. */
  lemma DropLeavesNoMissing<V>(res: Result<V>, isMissing: V -> bool, str: Desc -> string)
    ensures var r := Dropped(res, isMissing, str);
            |r.values| == |r.descriptors| &&
            forall k :: 0 <= k < |r.values| ==> !isMissing(r.values[k])
  {
    KeepPresentSound(Items(res), isMissing);
  }

  /** `drop_missing()` is idempotent. */
  lemma DropIdempotent<V>(res: Result<V>, isMissing: V -> bool, str: Desc -> string)
    ensures Dropped(Dropped(res, isMissing, str), isMissing, str) == Dropped(res, isMissing, str)
  {
    var ps := KeepPresent(Items(res), isMissing);
    ItemsFromPairs(ps, str);
    KeepPresentSound(Items(res), isMissing);
    KeepPresentAllPresent(ps, isMissing);
  }

  /** After `fill_missing(x)` with a present `x`, `drop_missing()` keeps every item. */
  lemma FillThenDropKeepsAll<V>(res: Result<V>, x: V, isMissing: V -> bool, str: Desc -> string)
    requires !isMissing(x)
    ensures Items(Dropped(FillMissing(res, x, isMissing, str), isMissing, str)) ==
            Items(FillMissing(res, x, isMissing, str))
  {
    var filled := FillMissing(res, x, isMissing, str);
    KeepPresentAllPresent(Items(filled), isMissing);
    ItemsFromPairs(Items(filled), str);
  }

  // ---------------------------------------------------------------------
  // Lookups
  // ---------------------------------------------------------------------

  /** An index into a Python list: an integer, or a slice `start:stop` (step 1). */
  datatype Index = At(i: int) | Slice(start: Option<int>, stop: Option<int>)

  /** What a lookup returns: one value, or the list a slice selects. */
  datatype Item<V> = One(v: V) | Many(vs: seq<V>)

  /** A slice bound as `list.__getitem__` resolves it: negatives count from the end, then clamp to `[0, n]`. */
  function SliceBound(b: Option<int>, n: nat, default: nat): (r: nat)
    requires default <= n
    ensures r <= n
    ensures b.None? ==> r == default
    ensures b.Some? && 0 <= b.value ==> r == Min(b.value, n)
    ensures b.Some? && -(n as int) <= b.value < 0 ==> r == b.value + n
    ensures b.Some? && b.value < -(n as int) ==> r == 0
  {
    match b
    case None => default
    case Some(x) => if x < 0 then (if x + n < 0 then 0 else x + n) else if x > n then n else x
  }

  /** `GetValueByIndex(values)[key]`: Python list indexing. */
  function IndexValues<V>(values: seq<V>, key: Index): (r: Outcome<Item<V>>)
    ensures key.At? && 0 <= key.i < |values| ==> r == Value(One(values[key.i]))
    ensures key.At? && -|values| <= key.i < 0 ==> r == Value(One(values[|values| + key.i]))
    ensures key.At? && !(-|values| <= key.i < |values|) ==> r.Raised? && ClassOf(r.exc) == IndexError
    ensures key.Slice? ==> r.Value? && r.value.Many?
    ensures key.Slice? ==>
              var s := SliceBound(key.start, |values|, 0);
              var e := SliceBound(key.stop, |values|, |values|);
              && |r.value.vs| == (if s < e then e - s else 0)
              && forall k :: 0 <= k < |r.value.vs| ==> r.value.vs[k] == values[s + k]
  {
    match key
    case At(i) =>
      if 0 <= i < |values| then Value(One(values[i]))
      else if -|values| <= i < 0 then Value(One(values[|values| + i]))
      else Raised(Error(IndexError, ["list index out of range"]))
    case Slice(start, stop) =>
      var s := SliceBound(start, |values|, 0);
      var e := SliceBound(stop, |values|, |values|);
      Value(Many(if s < e then values[s..e] else []))
  }

  /** `values[:]` is a copy of the whole list, and `values[-1:]` its last element alone. */
  lemma SliceExamples<V>(values: seq<V>)
    ensures IndexValues(values, Slice(None, None)) == Value(Many(values))
    ensures values != [] ==> IndexValues(values, Slice(Some(-1), None)) == Value(Many([values[|values| - 1]]))
  {
    assert values[0..|values|] == values;
    if values != [] {
      assert values[|values| - 1..|values|] == [values[|values| - 1]];
    }
  }

  /** `GetValueByName(values, name_to_index)[key]`, with `key` already turned into its name. */
  function ValueByName<V>(values: seq<V>, nameToIndex: map<string, nat>, name: string): (r: Outcome<V>)
    ensures name !in nameToIndex ==> r.Raised? && ClassOf(r.exc) == KeyError
    ensures name in nameToIndex && nameToIndex[name] < |values| ==> r == Value(values[nameToIndex[name]])
    ensures name in nameToIndex && nameToIndex[name] >= |values| ==> r.Raised? && ClassOf(r.exc) == IndexError
  {
    if name !in nameToIndex then Raised(Error(KeyError, [name]))
    else if nameToIndex[name] < |values| then Value(values[nameToIndex[name]])
    else Raised(Error(IndexError, ["list index out of range"]))
  }

  /** The key of `result[key]`: an int or slice, a str, a descriptor, or anything else (by its type's name). */
  datatype Key = ByIndex(index: Index) | ByStr(s: string) | ByDesc(d: Desc) | OtherKey(typeName: string)

  /** `Result.__getitem__` */
  function GetItem<V>(res: Result<V>, key: Key, str: Desc -> string): (r: Outcome<Item<V>>)
    ensures key.ByIndex? ==> r == IndexValues(res.values, key.index)
    ensures key.ByStr? ==> r == LiftOne(ValueByName(res.values, res.nameToIndex, key.s))
    ensures key.ByDesc? ==> r == LiftOne(ValueByName(res.values, res.nameToIndex, str(key.d)))
    ensures key.OtherKey? ==> r.Raised? && ClassOf(r.exc) == TypeError
  {
    match key
    case ByIndex(i) => IndexValues(res.values, i)
    case ByStr(s) => LiftOne(ValueByName(res.values, res.nameToIndex, s))
    case ByDesc(d) => LiftOne(ValueByName(res.values, res.nameToIndex, str(d)))
    case OtherKey(t) =>
      Raised(Error(TypeError, ["Result indices must be integers, slices, strings or Descriptor instance, not " + t]))
  }

  function LiftOne<V>(o: Outcome<V>): Outcome<Item<V>>
  {
    match o
    case Value(v) => Value(One(v))
    case Missing(e) => Missing(e)
    case Raised(e) => Raised(e)
  }

  /** Looking a descriptor up in a well-formed Result finds the value of the last descriptor with its name. */
  lemma LookupByDescriptor<V>(res: Result<V>, k: nat, str: Desc -> string)
    requires WellFormed(res, str) && |res.values| == |res.descriptors| && k < |res.descriptors|
    ensures var r := GetItem(res, ByDesc(res.descriptors[k]), str);
            && r.Value? && r.value.One?
            && exists j :: k <= j < |res.values| && str(res.descriptors[j]) == str(res.descriptors[k])
                           && r.value.v == res.values[j]
                           && forall l :: j < l < |res.descriptors| ==> str(res.descriptors[l]) != str(res.descriptors[k])
  {
    NameIndexLastWins(res.descriptors, str);
  }

  /** Descriptors with pairwise distinct names are each found at their own position. */
  lemma LookupDistinctNames<V>(res: Result<V>, k: nat, str: Desc -> string)
    requires WellFormed(res, str) && |res.values| == |res.descriptors| && k < |res.descriptors|
    requires forall i, j :: 0 <= i < j < |res.descriptors| ==> str(res.descriptors[i]) != str(res.descriptors[j])
    ensures GetItem(res, ByDesc(res.descriptors[k]), str) == Value(One(res.values[k]))
    ensures GetItem(res, ByStr(str(res.descriptors[k])), str) == Value(One(res.values[k]))
  {
    NameIndexLastWins(res.descriptors, str);
  }

  // ---------------------------------------------------------------------
  // asdict
  // ---------------------------------------------------------------------

  /** `asdict(rawkey=True)`: `dict(self.items())`, later pairs overwriting earlier equal keys. */
  function AsDictRaw<V>(ps: seq<(Desc, V)>): (m: map<Desc, V>)
    ensures forall k :: 0 <= k < |ps| ==> ps[k].0 in m
    ensures forall d :: d in m ==> exists k :: 0 <= k < |ps| && ps[k] == (d, m[d])
  {
    if ps == [] then map[]
    else
      var m := AsDictRaw(ps[..|ps| - 1]);
      assert forall k :: 0 <= k < |ps| - 1 ==> ps[..|ps| - 1][k] == ps[k];
      m[ps[|ps| - 1].0 := ps[|ps| - 1].1]
  }

  /** For a descriptor whose pair at `k` is its last, `asdict(rawkey=True)` maps it to that pair's value. */
  lemma {:induction false} AsDictRawLastWins<V>(ps: seq<(Desc, V)>, k: nat)
    requires k < |ps|
    requires forall l :: k < l < |ps| ==> ps[l].0 != ps[k].0
    ensures ps[k].0 in AsDictRaw(ps) && AsDictRaw(ps)[ps[k].0] == ps[k].1
  {
    if k < |ps| - 1 {
      var init := ps[..|ps| - 1];
      assert init[k] == ps[k];
      forall l | k < l < |init|
        ensures init[l].0 != init[k].0
      {
        assert init[l] == ps[l];
      }
      AsDictRawLastWins(init, k);
    }
  }

  /** `asdict(rawkey=False)`: the same pairs keyed by `str(descriptor)`. */
  function AsDictStr<V>(ps: seq<(Desc, V)>, str: Desc -> string): (m: map<string, V>)
    ensures forall k :: 0 <= k < |ps| ==> str(ps[k].0) in m
    ensures forall s :: s in m ==> exists k :: 0 <= k < |ps| && str(ps[k].0) == s && ps[k].1 == m[s]
  {
    if ps == [] then map[]
    else
      var m := AsDictStr(ps[..|ps| - 1], str);
      assert forall k :: 0 <= k < |ps| - 1 ==> ps[..|ps| - 1][k] == ps[k];
      m[str(ps[|ps| - 1].0) := ps[|ps| - 1].1]
  }

  /**
   * The string-keyed dict agrees with lookup by name: in a well-formed Result
   * with as many values as descriptors, `asdict()[s]` is `result[s]`.
   */
  lemma {:induction false} AsDictStrIsNameLookup<V>(values: seq<V>, ds: seq<Desc>, str: Desc -> string, s: string)
    requires |values| == |ds|
    requires exists k :: 0 <= k < |ds| && str(ds[k]) == s
    ensures s in NameIndex(ds, str)
    ensures var ps := Items(Result(values, ds, NameIndex(ds, str)));
            s in AsDictStr(ps, str) &&
            Value(AsDictStr(ps, str)[s]) == ValueByName(values, NameIndex(ds, str), s)
    decreases |ds|
  {
    var ps := Items(Result(values, ds, NameIndex(ds, str)));
    var n := |ds| - 1;
    var ips := Items(Result(values[..n], ds[..n], NameIndex(ds[..n], str)));
    assert ps[..n] == ips;
    if str(ds[n]) != s {
      AsDictStrIsNameLookup(values[..n], ds[..n], str, s);
    }
  }
}
