/**
 * Generic sequence operations shared by the components: `Array.prototype.filter`,
 * "keep the first item of each key" as done with a `Set` of seen keys, and the
 * order-preserving subsequence relation used to state that both keep order.
 */
module Seqs {

  /** `r` can be obtained from `s` by deleting elements, keeping the rest in order. */
  ghost predicate IsSubseq<T>(r: seq<T>, s: seq<T>)
    decreases |s|
  {
    if r == [] then true
    else if s == [] then false
    else if r[|r| - 1] == s[|s| - 1] then IsSubseq(r[..|r| - 1], s[..|s| - 1])
    else IsSubseq(r, s[..|s| - 1])
  }

  lemma SubseqSnoc<T>(r: seq<T>, s: seq<T>, x: T)
    requires IsSubseq(r, s)
    ensures IsSubseq(r + [x], s + [x])
  {
    assert (r + [x])[..|r|] == r;
    assert (s + [x])[..|s|] == s;
  }

  lemma {:induction false} SubseqExtend<T>(r: seq<T>, s: seq<T>, x: T)
    requires IsSubseq(r, s)
    ensures IsSubseq(r, s + [x])
    decreases |s|, 1
  {
    assert (s + [x])[..|s|] == s;
    if r != [] && r[|r| - 1] == x {
      SubseqDropLast(r, s);
    }
  }

  lemma {:induction false} SubseqDropLast<T>(r: seq<T>, s: seq<T>)
    requires r != [] && IsSubseq(r, s)
    ensures IsSubseq(r[..|r| - 1], s)
    decreases |s|, 0
  {
    var s' := s[..|s| - 1];
    assert s == s' + [s[|s| - 1]];
    if r[|r| - 1] == s[|s| - 1] {
      SubseqExtend(r[..|r| - 1], s', s[|s| - 1]);
    } else {
      SubseqDropLast(r, s');
      SubseqExtend(r[..|r| - 1], s', s[|s| - 1]);
    }
  }

  lemma {:induction false} SubseqRefl<T>(s: seq<T>)
    ensures IsSubseq(s, s)
  {
    if s != [] {
      SubseqRefl(s[..|s| - 1]);
      SubseqSnoc(s[..|s| - 1], s[..|s| - 1], s[|s| - 1]);
      assert s[..|s| - 1] + [s[|s| - 1]] == s;
    }
  }

  /** A subsequence of a subsequence is a subsequence. */
  lemma {:induction false} SubseqTrans<T>(a: seq<T>, b: seq<T>, c: seq<T>)
    requires IsSubseq(a, b) && IsSubseq(b, c)
    ensures IsSubseq(a, c)
    decreases |c|
  {
    if a != [] {
      var c' := c[..|c| - 1];
      var x := c[|c| - 1];
      assert c == c' + [x];
      if b[|b| - 1] == x {
        var b' := b[..|b| - 1];
        if a[|a| - 1] == b[|b| - 1] {
          SubseqTrans(a[..|a| - 1], b', c');
          SubseqSnoc(a[..|a| - 1], c', x);
          assert a[..|a| - 1] + [x] == a;
        } else {
          SubseqTrans(a, b', c');
          SubseqExtend(a, c', x);
        }
      } else {
        SubseqTrans(a, b, c');
        SubseqExtend(a, c', x);
      }
    }
  }

  /** A subsequence only holds elements of the sequence it was taken from. */
  lemma {:induction false} SubseqMembers<T>(r: seq<T>, s: seq<T>)
    requires IsSubseq(r, s)
    ensures forall x :: x in r ==> x in s
    ensures |r| <= |s|
    decreases |s|
  {
    if r != [] {
      var s' := s[..|s| - 1];
      assert s == s' + [s[|s| - 1]];
      if r[|r| - 1] == s[|s| - 1] {
        SubseqMembers(r[..|r| - 1], s');
        assert r == r[..|r| - 1] + [r[|r| - 1]];
      } else {
        SubseqMembers(r, s');
      }
    }
  }

  /** `s.filter(p)`: the elements of `s` that satisfy `p`, in their original order. */
  function Filter<T>(s: seq<T>, p: T -> bool): (r: seq<T>)
    ensures |r| <= |s|
    ensures forall i :: 0 <= i < |r| ==> r[i] in s && p(r[i])
    ensures forall i :: 0 <= i < |s| && p(s[i]) ==> s[i] in r
  {
    if s == [] then []
    else
      var init := s[..|s| - 1];
      assert s == init + [s[|s| - 1]];
      if p(s[|s| - 1]) then Filter(init, p) + [s[|s| - 1]] else Filter(init, p)
  }

  lemma FilterSnoc<T>(s: seq<T>, x: T, p: T -> bool)
    ensures Filter(s + [x], p) == if p(x) then Filter(s, p) + [x] else Filter(s, p)
  {
    assert (s + [x])[..|s|] == s;
  }

  lemma {:induction false} FilterIsSubseq<T>(s: seq<T>, p: T -> bool)
    ensures IsSubseq(Filter(s, p), s)
  {
    if s != [] {
      var init := s[..|s| - 1];
      assert s == init + [s[|s| - 1]];
      FilterIsSubseq(init, p);
      if p(s[|s| - 1]) {
        SubseqSnoc(Filter(init, p), init, s[|s| - 1]);
      } else {
        SubseqExtend(Filter(init, p), init, s[|s| - 1]);
      }
    }
  }

  /** Each element that satisfies `p` is kept with all its copies; the others are dropped entirely. */
  lemma {:induction false} FilterMultiset<T>(s: seq<T>, p: T -> bool)
    ensures forall x :: multiset(Filter(s, p))[x] == if p(x) then multiset(s)[x] else 0
  {
    if s != [] {
      var init := s[..|s| - 1];
      assert s == init + [s[|s| - 1]];
      FilterMultiset(init, p);
      assert multiset(s) == multiset(init) + multiset{s[|s| - 1]};
    }
  }

  lemma {:induction false} FilterAppend<T>(s: seq<T>, t: seq<T>, p: T -> bool)
    ensures Filter(s + t, p) == Filter(s, p) + Filter(t, p)
    decreases |t|
  {
    if t == [] {
      assert s + t == s;
    } else {
      var t' := t[..|t| - 1];
      var x := t[|t| - 1];
      assert t == t' + [x];
      assert s + t == (s + t') + [x];
      FilterAppend(s, t', p);
      FilterSnoc(s + t', x, p);
      FilterSnoc(t', x, p);
    }
  }

  lemma {:induction false} FilterKeepsAll<T>(s: seq<T>, p: T -> bool)
    requires forall i :: 0 <= i < |s| ==> p(s[i])
    ensures Filter(s, p) == s
  {
    if s != [] {
      FilterKeepsAll(s[..|s| - 1], p);
    }
  }

  /** Filtering out a single position deletes exactly that element. */
  lemma {:induction false} FilterDropsOne<T>(s: seq<T>, k: nat, p: T -> bool)
    requires k < |s| && !p(s[k])
    requires forall i :: 0 <= i < |s| && i != k ==> p(s[i])
    ensures Filter(s, p) == s[..k] + s[k + 1..]
  {
    var init := s[..|s| - 1];
    if k == |s| - 1 {
      FilterKeepsAll(init, p);
    } else {
      FilterDropsOne(init, k, p);
      assert init[..k] + init[k + 1..] + [s[|s| - 1]] == s[..k] + s[k + 1..];
    }
  }

  /** The first element `filter` keeps is the first element of `s` satisfying `p`. */
  lemma {:induction false} FilterFirst<T>(s: seq<T>, p: T -> bool)
    requires Filter(s, p) != []
    ensures exists k :: 0 <= k < |s| && s[k] == Filter(s, p)[0] && p(s[k]) &&
                        forall j :: 0 <= j < k ==> !p(s[j])
  {
    var init := s[..|s| - 1];
    assert s == init + [s[|s| - 1]];
    if Filter(init, p) != [] {
      FilterFirst(init, p);
      var k :| 0 <= k < |init| && init[k] == Filter(init, p)[0] && p(init[k]) &&
               forall j :: 0 <= j < k ==> !p(init[j]);
      assert s[k] == init[k];
      assert forall j :: 0 <= j < k ==> s[j] == init[j];
    } else {
      var k := |s| - 1;
      forall j | 0 <= j < k ensures !p(s[j]) {
        assert s[j] == init[j];
        assert s[j] !in Filter(init, p);
      }
    }
  }

  /** The keys of the elements of `s`. */
  ghost function KeysOf<T, K>(s: seq<T>, key: T -> K): set<K> {
    set i | 0 <= i < |s| :: key(s[i])
  }

  lemma KeysOfSnoc<T, K>(s: seq<T>, x: T, key: T -> K)
    ensures KeysOf(s + [x], key) == KeysOf(s, key) + {key(x)}
  {
    var t := s + [x];
    assert forall i :: 0 <= i < |s| ==> t[i] == s[i];
    assert t[|s|] == x;
  }

  /**
   * The elements of `s` whose key has not been seen earlier in `s`, in order:
   * the first element of each key is kept, the later ones are dropped.
   */
  ghost function KeepFirstBy<T, K>(s: seq<T>, key: T -> K): seq<T> {
    if s == [] then []
    else
      var init := s[..|s| - 1];
      if key(s[|s| - 1]) in KeysOf(init, key) then KeepFirstBy(init, key)
      else KeepFirstBy(init, key) + [s[|s| - 1]]
  }

  lemma KeepFirstSnoc<T, K>(s: seq<T>, x: T, key: T -> K)
    ensures KeepFirstBy(s + [x], key) ==
      if key(x) in KeysOf(s, key) then KeepFirstBy(s, key) else KeepFirstBy(s, key) + [x]
  {
    assert (s + [x])[..|s|] == s;
  }

  /** Keeping the first of each key loses no key and adds none. */
  lemma {:induction false} KeepFirstKeys<T, K>(s: seq<T>, key: T -> K)
    ensures KeysOf(KeepFirstBy(s, key), key) == KeysOf(s, key)
  {
    if s != [] {
      var init := s[..|s| - 1];
      var x := s[|s| - 1];
      assert s == init + [x];
      KeepFirstKeys(init, key);
      KeysOfSnoc(init, x, key);
      if key(x) !in KeysOf(init, key) {
        KeysOfSnoc(KeepFirstBy(init, key), x, key);
      }
    }
  }

  /** No two kept elements share a key. */
  lemma {:induction false} KeepFirstDistinct<T, K>(s: seq<T>, key: T -> K)
    ensures var r := KeepFirstBy(s, key);
      forall i, j :: 0 <= i < j < |r| ==> key(r[i]) != key(r[j])
  {
    if s != [] {
      var init := s[..|s| - 1];
      var x := s[|s| - 1];
      KeepFirstDistinct(init, key);
      if key(x) !in KeysOf(init, key) {
        var r0 := KeepFirstBy(init, key);
        KeepFirstKeys(init, key);
        forall i | 0 <= i < |r0| ensures key(r0[i]) != key(x) {
          assert r0[i] in r0;
        }
      }
    }
  }

  /** Keeping the first of each key keeps order. */
  lemma {:induction false} KeepFirstIsSubseq<T, K>(s: seq<T>, key: T -> K)
    ensures IsSubseq(KeepFirstBy(s, key), s)
  {
    if s != [] {
      var init := s[..|s| - 1];
      var x := s[|s| - 1];
      assert s == init + [x];
      KeepFirstIsSubseq(init, key);
      if key(x) in KeysOf(init, key) {
        SubseqExtend(KeepFirstBy(init, key), init, x);
      } else {
        SubseqSnoc(KeepFirstBy(init, key), init, x);
      }
    }
  }

  /** Every kept element is the first element of `s` with its key. */
  lemma {:induction false} KeepFirstIsFirst<T, K>(s: seq<T>, key: T -> K, i: nat)
    requires i < |KeepFirstBy(s, key)|
    ensures exists k :: 0 <= k < |s| && s[k] == KeepFirstBy(s, key)[i] &&
                        forall j :: 0 <= j < k ==> key(s[j]) != key(s[k])
  {
    var init := s[..|s| - 1];
    var x := s[|s| - 1];
    var r0 := KeepFirstBy(init, key);
    if i < |r0| {
      KeepFirstIsFirst(init, key, i);
      var k :| 0 <= k < |init| && init[k] == r0[i] && forall j :: 0 <= j < k ==> key(init[j]) != key(init[k]);
      assert s[k] == init[k];
      assert forall j :: 0 <= j < k ==> s[j] == init[j];
    } else {
      assert KeepFirstBy(s, key)[i] == x;
      forall j | 0 <= j < |s| - 1 ensures key(s[j]) != key(x) {
        assert s[j] == init[j] && init[j] in init;
      }
    }
  }
}
