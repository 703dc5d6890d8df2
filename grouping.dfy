/**
 * Grouping an array into a plain JavaScript object keyed by a string, the way
 * the admin view does it: for each element in turn, create the key's array if
 * the object has none yet, then `push` the element onto it. The object's keys
 * are then listed by `Object.keys` (insertion order) and, for the level/room
 * groups, ordered by `sort()`.
 */
module Grouping {
  import opened Wrappers
  import opened Text

  /**
   * The properties every plain object inherits from `Object.prototype`.
   * Looking one of them up on an object that has no own property of that name
   * yields the inherited member (a function, or the prototype itself for
   * `__proto__`): a value that is truthy and has no `push`.
   */
  const ObjectPrototypeNames: set<string> := {
    "constructor", "hasOwnProperty", "isPrototypeOf", "propertyIsEnumerable",
    "toLocaleString", "toString", "valueOf", "__proto__",
    "__defineGetter__", "__defineSetter__", "__lookupGetter__", "__lookupSetter__"}

  /** What calling `push` on an inherited member throws. */
  const TypeError: string := "TypeError"

  /** Some element's key names a property the object inherits. */
  predicate SomeInheritedKey<T>(xs: seq<T>, key: T -> string)
  {
    exists i :: 0 <= i < |xs| && key(xs[i]) in ObjectPrototypeNames
  }

  /**
   * A plain JavaScript object used as a dictionary of arrays: `order` is what
   * `Object.keys` lists (keys in the order they were first set), `entries`
   * the arrays themselves.
   */
  datatype Dict<T> = Dict(order: seq<string>, entries: map<string, seq<T>>)

  /** No key occurs twice. */
  predicate Distinct(ks: seq<string>)
  {
    forall i, j :: 0 <= i < j < |ks| ==> ks[i] != ks[j]
  }

  /** The key of every element, in order. */
  function KeysOf<T>(xs: seq<T>, key: T -> string): (r: seq<string>)
    ensures |r| == |xs|
    ensures forall i :: 0 <= i < |xs| ==> r[i] == key(xs[i])
  {
    seq(|xs|, i requires 0 <= i < |xs| => key(xs[i]))
  }

  /** `ks` with every key kept only where it first occurs. */
  function Dedup(ks: seq<string>): (r: seq<string>)
    ensures forall k :: k in r <==> k in ks
    ensures Distinct(r)
  {
    if ks == [] then []
    else
      var p := Dedup(ks[..|ks| - 1]);
      var k := ks[|ks| - 1];
      if k in p then p else p + [k]
  }

  /** The elements of `xs` whose key is `k`, in their order in `xs`. */
  function Select<T>(xs: seq<T>, key: T -> string, k: string): (r: seq<T>)
    ensures |r| <= |xs|
    ensures forall i :: 0 <= i < |r| ==> key(r[i]) == k
  {
    if xs == [] then []
    else
      var x := xs[|xs| - 1];
      Select(xs[..|xs| - 1], key, k) + (if key(x) == k then [x] else [])
  }

  /**
   * The object built by the grouping loop over `xs`: its keys are the keys of
   * `xs` in order of first appearance, and the array under each key holds
   * exactly the elements with that key, in input order.
   */
  ghost predicate IsGrouping<T>(d: Dict<T>, xs: seq<T>, key: T -> string)
  {
    && d.order == Dedup(KeysOf(xs, key))
    && (forall k :: k in d.entries <==> k in d.order)
    && (forall k :: k in d.entries ==> d.entries[k] == Select(xs, key, k))
  }

  /** A key that no element has selects nothing. */
  lemma {:induction false} SelectAbsent<T>(xs: seq<T>, key: T -> string, k: string)
    requires k !in KeysOf(xs, key)
    ensures Select(xs, key, k) == []
  {
    if xs != [] {
      var p := xs[..|xs| - 1];
      assert forall i :: 0 <= i < |p| ==> KeysOf(p, key)[i] == KeysOf(xs, key)[i];
      SelectAbsent(p, key, k);
      assert KeysOf(xs, key)[|xs| - 1] == key(xs[|xs| - 1]);
    }
  }

  /** One step of the grouping loop: the keys and selections grow by the next element. */
  lemma GroupingStep<T>(xs: seq<T>, key: T -> string, i: nat)
    requires i < |xs|
    ensures KeysOf(xs[..i + 1], key) == KeysOf(xs[..i], key) + [key(xs[i])]
    ensures forall k ::
      Select(xs[..i + 1], key, k) == Select(xs[..i], key, k) + (if key(xs[i]) == k then [xs[i]] else [])
  {
    assert xs[..i + 1][..i] == xs[..i];
  }

  /** One step of the grouping loop: a key not seen before is listed last with an empty array, then `x` joins its key's array. */
  function Push<T>(d: Dict<T>, k: string, x: T): Dict<T>
  {
    if k in d.entries then Dict(d.order, d.entries[k := d.entries[k] + [x]])
    else Dict(d.order + [k], d.entries[k := [x]])
  }

  /** The listed keys after a push are those of the longer prefix, first appearances first. */
  lemma PushOrder<T>(d: Dict<T>, xs: seq<T>, key: T -> string, i: nat)
    requires i < |xs| && IsGrouping(d, xs[..i], key)
    ensures Push(d, key(xs[i]), xs[i]).order == Dedup(KeysOf(xs[..i + 1], key))
  {
    GroupingStep(xs, key, i);
    assert KeysOf(xs[..i + 1], key)[..i] == KeysOf(xs[..i], key);
  }

  /** Each array after a push holds the longer prefix's elements with its key. */
  lemma PushEntries<T>(d: Dict<T>, xs: seq<T>, key: T -> string, i: nat)
    requires i < |xs| && IsGrouping(d, xs[..i], key)
    ensures var e := Push(d, key(xs[i]), xs[i]).entries;
      forall k :: k in e ==> e[k] == Select(xs[..i + 1], key, k)
  {
    GroupingStep(xs, key, i);
    if key(xs[i]) !in d.entries {
      SelectAbsent(xs[..i], key, key(xs[i]));
    }
  }

  /** Pushing the next element onto the grouping of a prefix gives the grouping of the longer prefix. */
  lemma PushKeepsGrouping<T>(d: Dict<T>, xs: seq<T>, key: T -> string, i: nat)
    requires i < |xs| && IsGrouping(d, xs[..i], key)
    ensures IsGrouping(Push(d, key(xs[i]), xs[i]), xs[..i + 1], key)
  {
    PushOrder(d, xs, key, i);
    PushEntries(d, xs, key, i);
  }

  /** Pushing every element of `xs` in turn, starting from no keys. */
  ghost function PushAll<T>(xs: seq<T>, key: T -> string): Dict<T>
    decreases |xs|
  {
    if xs == [] then Dict([], map[])
    else Push(PushAll(xs[..|xs| - 1], key), key(xs[|xs| - 1]), xs[|xs| - 1])
  }

  /** Pushing every element yields the grouping of `xs`. */
  lemma {:induction false} PushAllGroups<T>(xs: seq<T>, key: T -> string)
    ensures IsGrouping(PushAll(xs, key), xs, key)
    decreases |xs|
  {
    if xs != [] {
      var i := |xs| - 1;
      PushAllGroups(xs[..i], key);
      PushKeepsGrouping(PushAll(xs[..i], key), xs, key, i);
      assert xs[..i + 1] == xs;
    }
  }

  /**
   * The loop of static/script.js that builds `receiptsByProject` (and, per
   * project, `receiptsByLevelRoom`): a key with no array yet gets an empty
   * one, then the element is pushed onto its key's array. A key naming an
   * inherited property finds that property instead, which is truthy, so no
   * array is created and the `push` throws: the loop stops with a `TypeError`
   * at the first such element.
   */
  method GroupBy<T>(xs: seq<T>, key: T -> string) returns (r: Result<Dict<T>, string>)
    ensures r.Err? <==> SomeInheritedKey(xs, key)
    ensures r.Err? ==> r.error == TypeError
    ensures r.Ok? ==> IsGrouping(r.value, xs, key)
  {
    var d: Dict<T> := Dict([], map[]);
    for i := 0 to |xs|
      invariant d == PushAll(xs[..i], key)
      invariant !SomeInheritedKey(xs[..i], key)
    {
      var k := key(xs[i]);
      if k in d.entries {
        PushAllGroups(xs[..i], key);
        InheritedNeverListed(xs[..i], key, k);
      }
      var next := PushStep(d, k, xs[i]);
      if next.Err? {
        assert key(xs[i]) in ObjectPrototypeNames;
        return Err(next.error);
      }
      d := next.value;
      InheritedSnoc(xs, key, i);
      assert xs[..i + 1][..i] == xs[..i];
    }
    assert xs[..|xs|] == xs;
    PushAllGroups(xs, key);
    r := Ok(d);
  }

  /**
   * One pass of the loop body: a key with no array of its own gets an empty
   * one, unless it names an inherited property, on which the `push` throws;
   * then the element is pushed onto the key's array.
   */
  method PushStep<T>(d: Dict<T>, k: string, x: T) returns (r: Result<Dict<T>, string>)
    ensures r.Err? <==> k !in d.entries && k in ObjectPrototypeNames
    ensures r.Err? ==> r.error == TypeError
    ensures r.Ok? ==> r.value == Push(d, k, x)
  {
    var order := d.order;
    var entries := d.entries;
    if k !in entries {
      if k in ObjectPrototypeNames {
        return Err(TypeError);
      }
      entries := entries[k := []];
      order := order + [k];
      assert entries[k] + [x] == [x];
    }
    entries := entries[k := entries[k] + [x]];
    r := Ok(Dict(order, entries));
  }

  /** A prefix one element longer has an inherited key iff the shorter one has or the new element's key is one. */
  lemma InheritedSnoc<T>(xs: seq<T>, key: T -> string, i: nat)
    requires i < |xs|
    ensures SomeInheritedKey(xs[..i + 1], key) <==> SomeInheritedKey(xs[..i], key) || key(xs[i]) in ObjectPrototypeNames
  {
    if SomeInheritedKey(xs[..i + 1], key) {
      var t :| 0 <= t < i + 1 && key(xs[..i + 1][t]) in ObjectPrototypeNames;
      if t < i {
        assert xs[..i + 1][t] == xs[..i][t];
      }
    }
    if SomeInheritedKey(xs[..i], key) {
      var t :| 0 <= t < i && key(xs[..i][t]) in ObjectPrototypeNames;
      assert xs[..i][t] == xs[..i + 1][t];
    }
    if key(xs[i]) in ObjectPrototypeNames {
      assert xs[..i + 1][i] == xs[i];
    }
  }

  /** A key that is already an own array of the loop's object is not an inherited name. */
  lemma InheritedNeverListed<T>(xs: seq<T>, key: T -> string, k: string)
    requires !SomeInheritedKey(xs, key)
    requires IsGrouping(PushAll(xs, key), xs, key)
    requires k in PushAll(xs, key).entries
    ensures k !in ObjectPrototypeNames
  {
    assert k in Dedup(KeysOf(xs, key));
    var t :| 0 <= t < |xs| && KeysOf(xs, key)[t] == k;
  }

  // ---------------------------------------------------------------- order within a group

  /** The positions in `xs` of the elements whose key is `k`, ascending. */
  function Positions<T>(xs: seq<T>, key: T -> string, k: string): (r: seq<nat>)
    ensures forall t :: 0 <= t < |r| ==> r[t] < |xs| && key(xs[r[t]]) == k
    ensures forall t1, t2 :: 0 <= t1 < t2 < |r| ==> r[t1] < r[t2]
    ensures forall i :: 0 <= i < |xs| && key(xs[i]) == k ==> i in r
  {
    if xs == [] then []
    else
      var n := |xs| - 1;
      var p := Positions(xs[..n], key, k);
      p + (if key(xs[n]) == k then [n] else [])
  }

  /**
   * A group keeps input order: its t-th element is the element of `xs` at the
   * t-th position holding that key, and those positions ascend.
   */
  lemma {:induction false} SelectAtPositions<T>(xs: seq<T>, key: T -> string, k: string)
    ensures |Select(xs, key, k)| == |Positions(xs, key, k)|
    ensures forall t :: 0 <= t < |Select(xs, key, k)| ==> Select(xs, key, k)[t] == xs[Positions(xs, key, k)[t]]
  {
    if xs != [] {
      var n := |xs| - 1;
      SelectAtPositions(xs[..n], key, k);
    }
  }

  // ---------------------------------------------------------------- groups cover the input

  /** The groups of the keys `ks`, one after another: the elements as a view visits them. */
  function Gather<T>(xs: seq<T>, key: T -> string, ks: seq<string>): seq<T>
  {
    if ks == [] then [] else Gather(xs, key, ks[..|ks| - 1]) + Select(xs, key, ks[|ks| - 1])
  }

  lemma {:induction false} GatherEmpty<T>(key: T -> string, ks: seq<string>)
    ensures Gather([], key, ks) == []
  {
    if ks != [] {
      GatherEmpty(key, ks[..|ks| - 1]);
    }
  }

  /** Appending an element adds it to the gathered groups exactly when its key is one of `ks`. */
  lemma {:induction false} GatherSnoc<T>(xs: seq<T>, x: T, key: T -> string, ks: seq<string>)
    requires Distinct(ks)
    ensures multiset(Gather(xs + [x], key, ks))
      == multiset(Gather(xs, key, ks)) + (if key(x) in ks then multiset{x} else multiset{})
  {
    if ks != [] {
      var init := ks[..|ks| - 1];
      var last := ks[|ks| - 1];
      assert Distinct(init);
      GatherSnoc(xs, x, key, init);
      assert (xs + [x])[..|xs|] == xs;
      assert Select(xs + [x], key, last) == Select(xs, key, last) + (if key(x) == last then [x] else []);
      assert key(x) in ks <==> key(x) in init || key(x) == last;
      assert key(x) == last ==> key(x) !in init;
    }
  }

  /**
   * Groups under distinct keys that cover every element's key hold each
   * element exactly once: together they are a permutation of the input.
   */
  lemma {:induction false} GatherPermutation<T>(xs: seq<T>, key: T -> string, ks: seq<string>)
    requires Distinct(ks)
    requires forall i :: 0 <= i < |xs| ==> key(xs[i]) in ks
    ensures multiset(Gather(xs, key, ks)) == multiset(xs)
    ensures |Gather(xs, key, ks)| == |xs|
  {
    if xs == [] {
      GatherEmpty(key, ks);
    } else {
      var p := xs[..|xs| - 1];
      var x := xs[|xs| - 1];
      assert forall i :: 0 <= i < |p| ==> p[i] == xs[i];
      GatherPermutation(p, key, ks);
      assert p + [x] == xs;
      GatherSnoc(p, x, key, ks);
    }
    assert |multiset(Gather(xs, key, ks))| == |Gather(xs, key, ks)|;
  }

  /**
   * Each element lands in exactly one group: its key is listed exactly once
   * among the object's keys, and the element is in that key's group.
   */
  lemma LandsInOneGroup<T>(xs: seq<T>, key: T -> string, i: nat)
    requires i < |xs|
    ensures key(xs[i]) in Dedup(KeysOf(xs, key))
    ensures forall j1, j2 :: 0 <= j1 < j2 < |Dedup(KeysOf(xs, key))| ==>
      Dedup(KeysOf(xs, key))[j1] != Dedup(KeysOf(xs, key))[j2]
    ensures xs[i] in Select(xs, key, key(xs[i]))
  {
    assert KeysOf(xs, key)[i] == key(xs[i]);
    var k := key(xs[i]);
    SelectAtPositions(xs, key, k);
    var ps := Positions(xs, key, k);
    var t :| 0 <= t < |ps| && ps[t] == i;
    assert Select(xs, key, k)[t] == xs[i];
  }

  /** Every element of a group comes from the input. */
  lemma {:induction false} SelectFromInput<T>(xs: seq<T>, key: T -> string, k: string, t: nat)
    requires t < |Select(xs, key, k)|
    ensures Select(xs, key, k)[t] in xs
  {
    SelectAtPositions(xs, key, k);
  }

  // ---------------------------------------------------------------- mapping

  /** `f` applied to every element, in order (`Array.prototype.map`). */
  function MapSeq<A, B>(f: A -> B, xs: seq<A>): (r: seq<B>)
    ensures |r| == |xs| && forall i :: 0 <= i < |xs| ==> r[i] == f(xs[i])
  {
    seq(|xs|, i requires 0 <= i < |xs| => f(xs[i]))
  }

  /** Mapping one more element appends its image. */
  lemma MapSeqSnoc<A, B>(f: A -> B, xs: seq<A>, i: nat)
    requires i < |xs|
    ensures MapSeq(f, xs[..i + 1]) == MapSeq(f, xs[..i]) + [f(xs[i])]
  {
  }

  // ---------------------------------------------------------------- sorting keys

  /** Strictly ascending in the default `sort()` order. */
  predicate StrictlySorted(ks: seq<string>)
  {
    forall i, j :: 0 <= i < j < |ks| ==> Less(ks[i], ks[j])
  }

  /** `k` placed into the ascending `s` before the first key above it. */
  function Insert(k: string, s: seq<string>): (r: seq<string>)
    ensures multiset(r) == multiset(s) + multiset{k}
  {
    if s == [] then [k]
    else if Less(k, s[0]) then [k] + s
    else
      assert s == [s[0]] + s[1..];
      [s[0]] + Insert(k, s[1..])
  }

  lemma {:induction false} InsertSorted(k: string, s: seq<string>)
    requires StrictlySorted(s) && k !in s
    ensures StrictlySorted(Insert(k, s))
  {
    if s != [] {
      if Less(k, s[0]) {
        var r := [k] + s;
        forall i, j | 0 <= i < j < |r| ensures Less(r[i], r[j]) {
          if i == 0 && j > 1 { LessTransitive(k, s[0], s[j - 1]); }
        }
      } else {
        LessTotal(k, s[0]);
        InsertSorted(k, s[1..]);
        var r := Insert(k, s[1..]);
        forall j | 0 <= j < |r| ensures Less(s[0], r[j]) {
          assert r[j] in multiset(r);
          assert r[j] == k || r[j] in s[1..];
        }
      }
    }
  }

  /** The keys in ascending order, as `Object.keys(...).sort()` lists them. */
  function SortKeys(ks: seq<string>): (r: seq<string>)
    ensures multiset(r) == multiset(ks)
  {
    if ks == [] then []
    else
      assert ks == [ks[0]] + ks[1..];
      Insert(ks[0], SortKeys(ks[1..]))
  }

  /** Sorting distinct keys gives them strictly ascending, with the same keys and no others. */
  lemma {:induction false} SortKeysSorted(ks: seq<string>)
    requires Distinct(ks)
    ensures StrictlySorted(SortKeys(ks))
    ensures Distinct(SortKeys(ks))
    ensures forall k :: k in SortKeys(ks) <==> k in ks
  {
    if ks != [] {
      SortKeysSorted(ks[1..]);
      var rest := SortKeys(ks[1..]);
      assert ks[0] !in ks[1..];
      assert ks[0] !in multiset(rest);
      InsertSorted(ks[0], rest);
    }
    var r := SortKeys(ks);
    forall k ensures k in r <==> k in ks {
      assert k in r <==> k in multiset(r);
    }
    forall i, j | 0 <= i < j < |r| ensures r[i] != r[j] {
      if r[i] == r[j] { LessIrreflexive(r[i]); }
    }
  }
}
