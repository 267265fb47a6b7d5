/** Vocabulary shared by the other modules: optional values, Go's unsigned widths,
    the ways a remote operation can end, and a few facts about sequences and maps. */
module Basics {
  datatype Option<+T> = None | Some(value: T)

  const TWO_32 := 0x1_0000_0000

  type uint8 = x: int | 0 <= x < 0x100
  type uint16 = x: int | 0 <= x < 0x1_0000
  type uint32 = x: int | 0 <= x < TWO_32

  /** How a call to a remote service ends. `Unacknowledged` is the awkward case: the service did
      what it was asked to, but the caller sees an error (a timeout, a broken connection). */
  datatype Effect = Applied | Refused | Unacknowledged {
    predicate Reported() { Applied? }
    predicate Happened() { !Refused? }
  }

  function Last<T>(s: seq<T>): (x: T)
    requires s != []
    ensures x in s
  {
    s[|s| - 1]
  }

  ghost predicate Increasing(s: seq<nat>) {
    forall i, j | 0 <= i < j < |s| :: s[i] < s[j]
  }

  ghost predicate NoDuplicates<T>(s: seq<T>) {
    forall i, j | 0 <= i < j < |s| :: s[i] != s[j]
  }

  /** An order in which a Go `range` may visit the keys of a map: each key once. */
  ghost predicate Visits<T(!new)>(order: seq<T>, keys: set<T>) {
    NoDuplicates(order) && forall k :: k in order <==> k in keys
  }

  lemma EmptyOrHasElement<T(!new)>(s: seq<T>)
    ensures s == [] || exists x :: x in s
  {
    if s != [] { assert s[0] in s; }
  }

  ghost predicate Extends<K, V>(m: map<K, V>, m': map<K, V>) {
    forall k | k in m :: k in m' && m'[k] == m[k]
  }

  lemma ExtendsItself<K, V>(m: map<K, V>)
    ensures Extends(m, m)
  {
  }

  lemma ExtendsOn<K, V>(a: map<K, V>, b: map<K, V>, c: map<K, V>)
    requires Extends(a, b) && Extends(b, c)
    ensures Extends(a, c)
  {
  }

  lemma {:induction false} ValuesCounted<K, V>(m: map<K, V>)
    requires forall a, b | a in m && b in m && m[a] == m[b] :: a == b
    ensures |m.Values| == |m.Keys|
    decreases |m.Keys|
  {
    if m.Keys != {} {
      var k :| k in m.Keys;
      var rest := m - {k};
      ValuesCounted(rest);
      assert m.Keys == rest.Keys + {k};
      forall a | a in rest
        ensures rest[a] in m.Values
      {
        assert a in m;
      }
      forall v
        ensures v in m.Values <==> v in rest.Values + {m[k]}
      {
        if v in m.Values && v != m[k] {
          var a :| a in m && m[a] == v;
          assert a in rest && rest[a] == v;
        }
      }
      assert m.Values == rest.Values + {m[k]} && m[k] !in rest.Values;
    } else {
      assert m == map[];
    }
  }

  /** The values a loop over `order` appends when it skips the keys that have no value. */
  function Emit<K, V>(m: map<K, V>, order: seq<K>): (vs: seq<V>)
    ensures |vs| <= |order|
  {
    if order == [] then []
    else if order[0] in m then [m[order[0]]] + Emit(m, order[1..])
    else Emit(m, order[1..])
  }

  function Emitting<K(!new), V>(m: map<K, V>, order: seq<K>): (ks: seq<K>)
    ensures forall k :: k in ks <==> k in order && k in m
  {
    if order == [] then []
    else
      assert order == [order[0]] + order[1..];
      if order[0] in m then [order[0]] + Emitting(m, order[1..])
      else Emitting(m, order[1..])
  }

  /** Entry i of `Emit` is the value of key i of `Emitting`, and no key is emitted twice. */
  lemma {:induction false} EmitAt<K(!new), V>(m: map<K, V>, order: seq<K>)
    requires NoDuplicates(order)
    ensures |Emit(m, order)| == |Emitting(m, order)|
    ensures forall i | 0 <= i < |Emit(m, order)| :: Emit(m, order)[i] == m[Emitting(m, order)[i]]
    ensures NoDuplicates(Emitting(m, order))
  {
    if order != [] {
      EmitAt(m, order[1..]);
      assert order[0] !in order[1..];
    }
  }

  lemma {:induction false} EmitAppend<K, V>(m: map<K, V>, order: seq<K>, k: K)
    ensures Emit(m, order + [k]) == Emit(m, order) + if k in m then [m[k]] else []
  {
    if order == [] {
      assert order + [k] == [k];
    } else {
      assert (order + [k])[1..] == order[1..] + [k];
      EmitAppend(m, order[1..], k);
    }
  }

  lemma {:induction false} EmitSplit<K, V>(m: map<K, V>, a: seq<K>, b: seq<K>)
    ensures Emit(m, a + b) == Emit(m, a) + Emit(m, b)
  {
    if a == [] {
      assert a + b == b;
    } else {
      assert (a + b)[1..] == a[1..] + b;
      EmitSplit(m, a[1..], b);
    }
  }

  lemma EmitRemove<K, V>(m: map<K, V>, order: seq<K>, i: nat)
    requires i < |order|
    ensures multiset(Emit(m, order)) ==
            multiset(Emit(m, [order[i]])) + multiset(Emit(m, order[..i] + order[i + 1..]))
  {
    assert order == order[..i] + ([order[i]] + order[i + 1..]);
    EmitSplit(m, order[..i], [order[i]] + order[i + 1..]);
    EmitSplit(m, [order[i]], order[i + 1..]);
    EmitSplit(m, order[..i], order[i + 1..]);
  }

  /** The visiting order changes neither which values are emitted nor how often. */
  lemma {:induction false} EmitOrderIrrelevant<K(!new), V>(m: map<K, V>, o1: seq<K>, o2: seq<K>, keys: set<K>)
    requires Visits(o1, keys) && Visits(o2, keys)
    ensures multiset(Emit(m, o1)) == multiset(Emit(m, o2))
    decreases |o1|
  {
    if o1 == [] {
      EmptyOrHasElement(o2);
    } else {
      var k := o1[0];
      assert k in o2;
      var i :| 0 <= i < |o2| && o2[i] == k;
      VisitsRest(o1, o2, i, keys);
      EmitOrderIrrelevant(m, o1[1..], o2[..i] + o2[i + 1..], keys - {k});
      EmitRemove(m, o2, i);
      EmitRemove(m, o1, 0);
      assert o1[..0] + o1[1..] == o1[1..];
    }
  }

  lemma VisitsRest<K(!new)>(o1: seq<K>, o2: seq<K>, i: nat, keys: set<K>)
    requires Visits(o1, keys) && Visits(o2, keys)
    requires o1 != [] && i < |o2| && o2[i] == o1[0]
    ensures Visits(o1[1..], keys - {o1[0]})
    ensures Visits(o2[..i] + o2[i + 1..], keys - {o1[0]})
  {
    var k := o1[0];
    var rest := o2[..i] + o2[i + 1..];
    forall x
      ensures x in o1[1..] <==> x in keys - {k}
      ensures x in rest <==> x in keys - {k}
    {
      if x in keys && x != k {
        var a :| 0 <= a < |o1| && o1[a] == x;
        assert o1[1..][a - 1] == x;
        var b :| 0 <= b < |o2| && o2[b] == x;
        assert rest[if b < i then b else b - 1] == x;
      }
      if x in rest {
        var c :| 0 <= c < |rest| && rest[c] == x;
        assert x == o2[if c < i then c else c + 1];
      }
    }
  }

  /** When all values are alike, the emitted list itself is independent of the order. */
  lemma EmitAlike<K(!new), V>(m: map<K, V>, o1: seq<K>, o2: seq<K>, keys: set<K>)
    requires Visits(o1, keys) && Visits(o2, keys)
    requires forall a, b | a in m && b in m && a in keys && b in keys :: m[a] == m[b]
    ensures Emit(m, o1) == Emit(m, o2)
  {
    EmitOrderIrrelevant(m, o1, o2, keys);
    EmitAt(m, o1);
    EmitAt(m, o2);
    assert |Emit(m, o1)| == |multiset(Emit(m, o1))| == |Emit(m, o2)|;
    forall i | 0 <= i < |Emit(m, o1)|
      ensures Emit(m, o1)[i] == Emit(m, o2)[i]
    {
      assert Emitting(m, o1)[i] in Emitting(m, o1) && Emitting(m, o2)[i] in Emitting(m, o2);
    }
  }

  lemma {:induction false} SomeOrder<K(!new)>(keys: set<K>) returns (order: seq<K>)
    ensures Visits(order, keys)
    decreases |keys|
  {
    if keys == {} {
      order := [];
    } else {
      var k :| k in keys;
      order := OrderFrom(keys, k);
    }
  }

  /** A loop over a map may start with any of its keys. */
  lemma {:induction false} OrderFrom<K(!new)>(keys: set<K>, first: K) returns (order: seq<K>)
    requires first in keys
    ensures Visits(order, keys) && order[0] == first
    decreases |keys|, 1
  {
    var rest := SomeOrder(keys - {first});
    order := [first] + rest;
  }

  /** And when they are not, it depends on it. */
  lemma EmitOrderVisible<K(!new), V>(m: map<K, V>, keys: set<K>, a: K, b: K) returns (o1: seq<K>, o2: seq<K>)
    requires a in m && b in m && a in keys && b in keys && m[a] != m[b]
    ensures Visits(o1, keys) && Visits(o2, keys)
    ensures Emit(m, o1) != [] && Emit(m, o2) != [] && Emit(m, o1) != Emit(m, o2)
  {
    o1 := OrderFrom(keys, a);
    o2 := OrderFrom(keys, b);
    assert Emit(m, o1)[0] == m[a] && Emit(m, o2)[0] == m[b];
  }

  /** Every arrangement of the values comes from some order. */
  lemma {:induction false} Rearranged<K(!new), V>(m: map<K, V>, o: seq<K>, keys: set<K>, vs: seq<V>)
      returns (order: seq<K>)
    requires Visits(o, keys) && multiset(vs) == multiset(Emit(m, o))
    ensures Visits(order, keys) && Emit(m, order) == vs
    decreases |o|
  {
    assert |multiset(vs)| == |vs| && |multiset(Emit(m, o))| == |Emit(m, o)|;
    if vs == [] {
      order := o;
    } else {
      assert vs[0] in multiset(Emit(m, o));
      var p, k := KeyOfValue(m, o, vs[0]);
      var rest := o[..p] + o[p + 1..];
      assert k in o;
      var other := OrderFrom(keys, k);
      VisitsRest(other, o, p, keys);
      EmitRemove(m, o, p);
      assert Emit(m, [k]) == [m[k]] + Emit(m, [k][1..]) == [vs[0]];
      assert vs == [vs[0]] + vs[1..];
      assert multiset(Emit(m, [k])) == multiset{vs[0]};
      assert multiset(vs) == multiset{vs[0]} + multiset(vs[1..]) == multiset{vs[0]} + multiset(Emit(m, rest));
      assert multiset(vs[1..]) == multiset(vs) - multiset{vs[0]} == multiset(Emit(m, rest));
      var tail := Rearranged(m, rest, keys - {k}, vs[1..]);
      order := [k] + tail;
      assert order[1..] == tail;
    }
  }

  lemma {:induction false} KeyOfValue<K(!new), V>(m: map<K, V>, o: seq<K>, v: V) returns (p: nat, k: K)
    requires v in Emit(m, o)
    ensures p < |o| && o[p] == k && k in m && m[k] == v
  {
    assert o != [];
    if o[0] in m && m[o[0]] == v {
      p, k := 0, o[0];
    } else {
      p, k := KeyOfValue(m, o[1..], v);
      p := p + 1;
    }
  }
}
