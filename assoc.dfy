/**
 * Maps built by inserting key/value pairs one after another, as the Rust code
 * does with `HashMap::insert`: a later insert of a key replaces the earlier one.
 */
module Assoc {
  import opened Wrappers

  /** The map after inserting every pair of `es` in order. */
  function ToMap<K(==, !new), V>(es: seq<(K, V)>): (m: map<K, V>)
  {
    if es == [] then map[]
    else
      var m := ToMap(es[..|es| - 1]);
      var e := es[|es| - 1];
      m[e.0 := e.1]
  }

  /** The keys of the map are exactly the keys inserted. */
  lemma {:induction false} ToMapKeys<K(!new), V>(es: seq<(K, V)>)
    ensures forall k :: k in ToMap(es) <==> exists i :: 0 <= i < |es| && es[i].0 == k
  {
    if es != [] {
      var front := es[..|es| - 1];
      ToMapKeys(front);
      assert forall i :: 0 <= i < |front| ==> front[i] == es[i];
    }
  }

  /** Every entry of the map is a pair that was inserted. */
  lemma {:induction false} ToMapEntryInserted<K(!new), V>(es: seq<(K, V)>, k: K)
    requires k in ToMap(es)
    ensures exists i :: 0 <= i < |es| && es[i] == (k, ToMap(es)[k])
  {
    var front := es[..|es| - 1];
    var e := es[|es| - 1];
    if e.0 == k {
      assert es[|es| - 1] == (k, ToMap(es)[k]);
    } else {
      ToMapEntryInserted(front, k);
      var i :| 0 <= i < |front| && front[i] == (k, ToMap(front)[k]);
      assert es[i] == (k, ToMap(es)[k]);
    }
  }

  /** The value a key ends up with is the one its last insert carried. */
  lemma {:induction false} LastInsertWins<K(!new), V>(es: seq<(K, V)>, i: nat)
    requires i < |es|
    requires forall j :: i < j < |es| ==> es[j].0 != es[i].0
    ensures es[i].0 in ToMap(es) && ToMap(es)[es[i].0] == es[i].1
  {
    if i < |es| - 1 {
      var front := es[..|es| - 1];
      assert front[i] == es[i];
      assert forall j :: i < j < |front| ==> front[j] == es[j];
      LastInsertWins(front, i);
    }
  }

  /** Inserting one more pair. */
  lemma ToMapSnoc<K(!new), V>(es: seq<(K, V)>, e: (K, V))
    ensures ToMap(es + [e]) == ToMap(es)[e.0 := e.1]
  {
    assert (es + [e])[..|es|] == es;
  }

  /** Inserting the pairs of `b` after those of `a`: `b`'s keys take their values from `b`. */
  lemma {:induction false} ToMapConcat<K(!new), V>(a: seq<(K, V)>, b: seq<(K, V)>)
    ensures ToMap(a + b) == ToMap(a) + ToMap(b)
    decreases |b|
  {
    if b == [] {
      assert a + b == a;
      assert ToMap(a) + ToMap(b) == ToMap(a);
    } else {
      var front := b[..|b| - 1];
      var e := b[|b| - 1];
      ToMapConcat(a, front);
      assert a + b == (a + front) + [e];
      assert b == front + [e];
      ToMapSnoc(a + front, e);
      ToMapSnoc(front, e);
      UnionUpdate(ToMap(a), ToMap(front), e.0, e.1);
    }
  }

  /** Updating a union is updating its right operand. */
  lemma UnionUpdate<K, V>(m1: map<K, V>, m2: map<K, V>, k: K, v: V)
    ensures (m1 + m2)[k := v] == m1 + m2[k := v]
  {
  }

  lemma AppendAssoc<T>(a: seq<T>, b: seq<T>, c: seq<T>)
    ensures a + (b + c) == (a + b) + c
  {
  }

  /** A sequence is its prefix followed by the rest. */
  lemma SplitAt<T>(s: seq<T>, i: nat)
    requires i <= |s|
    ensures s[..i] + s[i..] == s
  {
  }

  /** One more element of a prefix is the prefix with that element appended. */
  lemma TakeSnoc<T>(s: seq<T>, i: nat)
    requires i < |s|
    ensures s[..i + 1] == s[..i] + [s[i]]
  {
  }

  lemma ToMapOne<K(!new), V>(e: (K, V))
    ensures ToMap([e]) == map[e.0 := e.1]
  {
    assert [e][..0] == [];
  }

  lemma ToMapTwo<K(!new), V>(e: (K, V), f: (K, V))
    ensures ToMap([e, f]) == map[e.0 := e.1, f.0 := f.1]
  {
    assert [e, f][..1] == [e];
    ToMapOne(e);
  }

  /** The values `f` gives, in order, skipping the elements it gives nothing for. */
  function Collect<A, B>(f: A -> Option<B>, s: seq<A>): seq<B>
    decreases |s|
  {
    if s == [] then []
    else
      var front := Collect(f, s[..|s| - 1]);
      match f(s[|s| - 1])
      case Some(b) => front + [b]
      case None => front
  }

  /** One more element adds its value, if it has one, at the end. */
  lemma CollectSnoc<A, B>(f: A -> Option<B>, s: seq<A>, a: A)
    ensures Collect(f, s + [a]) == Collect(f, s) + (if f(a).Some? then [f(a).value] else [])
  {
    assert (s + [a])[..|s|] == s;
  }

  /** The prefix one element longer adds that element's value, if it has one. */
  lemma CollectPrefix<A, B>(f: A -> Option<B>, s: seq<A>, k: nat)
    requires k < |s|
    ensures Collect(f, s[..k + 1]) == Collect(f, s[..k]) + (if f(s[k]).Some? then [f(s[k]).value] else [])
  {
    assert s[..k + 1][..k] == s[..k];
  }

  /**
   * Inserting the pairs of one more element, after the pairs `done` and
   * those of the elements before it: the element's pair, if it has one,
   * is inserted last.
   */
  lemma ToMapCollectStep<A, K(!new), V>(f: A -> Option<(K, V)>, done: seq<(K, V)>, s: seq<A>, k: nat)
    requires k < |s|
    ensures f(s[k]).Some? ==>
      ToMap(done + Collect(f, s[..k + 1])) == ToMap(done + Collect(f, s[..k]))[f(s[k]).value.0 := f(s[k]).value.1]
    ensures f(s[k]).None? ==> ToMap(done + Collect(f, s[..k + 1])) == ToMap(done + Collect(f, s[..k]))
  {
    CollectPrefix(f, s, k);
    var before := done + Collect(f, s[..k]);
    if f(s[k]).Some? {
      assert done + Collect(f, s[..k + 1]) == before + [f(s[k]).value];
      ToMapSnoc(before, f(s[k]).value);
    } else {
      assert done + Collect(f, s[..k + 1]) == before;
    }
  }

  /** A key is inserted exactly when some element gives a pair with that key. */
  lemma {:induction false} CollectKeys<A, K(!new), V>(f: A -> Option<(K, V)>, s: seq<A>, key: K)
    ensures key in ToMap(Collect(f, s)) <==> exists i :: 0 <= i < |s| && f(s[i]).Some? && f(s[i]).value.0 == key
    decreases |s|
  {
    if s != [] {
      var front := s[..|s| - 1];
      CollectKeys(f, front, key);
      assert forall i :: 0 <= i < |front| ==> front[i] == s[i];
      match f(s[|s| - 1])
      case None =>
      case Some(e) =>
        ToMapSnoc(Collect(f, front), e);
    }
  }

  /** When every value `f` gives carries `v`, so does everything collected. */
  lemma {:induction false} CollectValues<A, K, V>(f: A -> Option<(K, V)>, s: seq<A>, v: V)
    requires forall x :: f(x).Some? ==> f(x).value.1 == v
    ensures forall e :: e in Collect(f, s) ==> e.1 == v
    decreases |s|
  {
    if s != [] {
      CollectValues(f, s[..|s| - 1], v);
    }
  }

  /** The function pairing each key `g` gives with the fixed value `v`. */
  function Tagged<A, K, V>(g: A -> Option<K>, v: V): A -> Option<(K, V)>
  {
    x => match g(x) case None => None case Some(k) => Some((k, v))
  }

  /**
   * Collecting tagged keys: a key is inserted exactly when `g` gives it for
   * some element, and it is always mapped to `v`.
   */
  lemma CollectTagged<A, K(!new), V>(g: A -> Option<K>, v: V, s: seq<A>, key: K)
    ensures key in ToMap(Collect(Tagged(g, v), s)) <==> exists i :: 0 <= i < |s| && g(s[i]) == Some(key)
    ensures key in ToMap(Collect(Tagged(g, v), s)) ==> ToMap(Collect(Tagged(g, v), s))[key] == v
  {
    var f := Tagged(g, v);
    CollectKeys(f, s, key);
    CollectValues(f, s, v);
    if key in ToMap(Collect(f, s)) {
      ToMapEntryInserted(Collect(f, s), key);
    }
  }
}
