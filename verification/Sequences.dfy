/** Counting, filtering and reordering of finite sequences, used by every component. */
module Sequences {

  datatype Option<+T> = None | Some(value: T)

  function Count<T>(p: T -> bool, s: seq<T>): nat {
    if s == [] then 0 else (if p(s[0]) then 1 else 0) + Count(p, s[1..])
  }

  function Sum<T>(f: T -> real, s: seq<T>): real {
    if s == [] then 0.0 else f(s[0]) + Sum(f, s[1..])
  }

  function Filter<T>(p: T -> bool, s: seq<T>): (r: seq<T>)
    ensures forall x | x in r :: x in s && p(x)
    ensures forall x | x in s && p(x) :: x in r
  {
    if s == [] then [] else (if p(s[0]) then [s[0]] else []) + Filter(p, s[1..])
  }

  /** The first element satisfying p, as Python's next(... for ... if ...) gives it. */
  function Find<T>(p: T -> bool, s: seq<T>): (r: Option<T>)
    ensures r.None? <==> forall x | x in s :: !p(x)
    ensures r.Some? ==> r.value in s && p(r.value)
  {
    if s == [] then None else if p(s[0]) then Some(s[0]) else Find(p, s[1..])
  }

  lemma {:induction false} FindIsFirst<T>(p: T -> bool, s: seq<T>)
    ensures Find(p, s).Some? ==>
              exists i :: 0 <= i < |s| && p(s[i]) && s[i] == Find(p, s).value && forall j :: 0 <= j < i ==> !p(s[j])
  {
    if s != [] && !p(s[0]) {
      FindIsFirst(p, s[1..]);
      if Find(p, s[1..]).Some? {
        var k :| 0 <= k < |s[1..]| && p(s[1..][k]) && s[1..][k] == Find(p, s[1..]).value && forall j :: 0 <= j < k ==> !p(s[1..][j]);
        assert forall j :: 0 < j < |s| ==> s[j] == s[1..][j - 1];
        assert s[k + 1] == Find(p, s).value;
      }
    }
  }

  /** The first element of least key, as Python's min(s, key=...) gives it. */
  function FirstMin<T>(key: T -> real, s: seq<T>): (r: Option<T>) {
    if s == [] then None else
      match FirstMin(key, s[1..])
      case None => Some(s[0])
      case Some(m) => if key(s[0]) <= key(m) then Some(s[0]) else Some(m)
  }

  predicate IsFirstMinAt<T>(key: T -> real, s: seq<T>, i: nat)
    requires i < |s|
  {
    && (forall j :: 0 <= j < |s| ==> key(s[i]) <= key(s[j]))
    && (forall j :: 0 <= j < i ==> key(s[i]) < key(s[j]))
  }

  ghost predicate IsFirstMin<T>(key: T -> real, s: seq<T>, m: T) {
    exists i :: 0 <= i < |s| && IsFirstMinAt(key, s, i) && s[i] == m
  }

  lemma {:induction false} FirstMinIsFirst<T>(key: T -> real, s: seq<T>)
    ensures FirstMin(key, s).None? <==> s == []
    ensures FirstMin(key, s).Some? ==> IsFirstMin(key, s, FirstMin(key, s).value)
  {
    if s != [] {
      var rest := s[1..];
      FirstMinIsFirst(key, rest);
      assert forall j :: 0 < j < |s| ==> s[j] == rest[j - 1];
      if rest == [] || key(s[0]) <= key(FirstMin(key, rest).value) {
        assert IsFirstMinAt(key, s, 0);
      } else {
        var k :| 0 <= k < |rest| && IsFirstMinAt(key, rest, k) && rest[k] == FirstMin(key, rest).value;
        assert IsFirstMinAt(key, s, k + 1);
      }
    }
  }

  /** s[i] is kept, dearer kept elements may come anywhere, equal ones only later. */
  ghost predicate FirstKept<T>(key: T -> real, keep: T -> bool, s: seq<T>, i: nat) {
    && i < |s| && keep(s[i])
    && (forall j :: 0 <= j < i && keep(s[j]) ==> key(s[i]) < key(s[j]))
    && (forall j :: i <= j < |s| && keep(s[j]) ==> key(s[i]) <= key(s[j]))
  }

  lemma FirstKeptStep<T>(key: T -> real, keep: T -> bool, s: seq<T>, k: nat)
    requires s != [] && FirstKept(key, keep, s[1..], k)
    ensures FirstKept(key, keep, s, if keep(s[0]) && key(s[0]) <= key(s[1..][k]) then 0 else k + 1)
  {
    assert forall j :: 0 < j < |s| ==> s[j] == s[1..][j - 1];
  }

  /** The first minimum of a filtered sequence, by its position in the whole sequence. */
  lemma {:induction false} FirstMinFiltered<T>(key: T -> real, keep: T -> bool, s: seq<T>) returns (i: nat)
    requires FirstMin(key, Filter(keep, s)).Some?
    ensures FirstKept(key, keep, s, i) && s[i] == FirstMin(key, Filter(keep, s)).value
  {
    var rest := Filter(keep, s[1..]);
    assert Filter(keep, s) == (if keep(s[0]) then [s[0]] else []) + rest;
    assert ([s[0]] + rest)[1..] == rest && [] + rest == rest;
    FirstMinIsFirst(key, rest);
    if rest == [] {
      i := 0;
      assert forall j :: 0 < j < |s| ==> s[j] in s[1..];
    } else {
      var k := FirstMinFiltered(key, keep, s[1..]);
      FirstKeptStep(key, keep, s, k);
      i := if keep(s[0]) && key(s[0]) <= key(s[1..][k]) then 0 else k + 1;
    }
  }

  /** step applied to the elements in order, from the left. */
  function Fold<S, T>(step: (S, T) -> S, start: S, s: seq<T>): S {
    if s == [] then start else step(Fold(step, start, s[..|s| - 1]), s[|s| - 1])
  }

  lemma FoldOne<S, T>(step: (S, T) -> S, start: S, x: T)
    ensures Fold(step, start, [x]) == step(start, x)
  {
    assert [x][..0] == [];
  }

  lemma {:induction false} FoldAppend<S, T>(step: (S, T) -> S, start: S, a: seq<T>, b: seq<T>)
    ensures Fold(step, start, a + b) == Fold(step, Fold(step, start, a), b)
    decreases |b|
  {
    if b == [] {
      assert a + b == a;
    } else {
      var n := |b| - 1;
      FoldAppend(step, start, a, b[..n]);
      assert (a + b)[..|a| + n] == a + b[..n];
    }
  }

  function Remove<T>(s: seq<T>, i: nat): seq<T>
    requires i < |s|
  {
    s[..i] + s[i + 1..]
  }

  lemma {:induction false} CountAppend<T>(p: T -> bool, s: seq<T>, t: seq<T>)
    ensures Count(p, s + t) == Count(p, s) + Count(p, t)
  {
    if s == [] {
      assert s + t == t;
    } else {
      assert (s + t)[1..] == s[1..] + t;
      CountAppend(p, s[1..], t);
    }
  }

  lemma {:induction false} SumAppend<T>(f: T -> real, s: seq<T>, t: seq<T>)
    ensures Sum(f, s + t) == Sum(f, s) + Sum(f, t)
  {
    if s == [] {
      assert s + t == t;
    } else {
      assert (s + t)[1..] == s[1..] + t;
      SumAppend(f, s[1..], t);
    }
  }

  lemma TakenOut<T>(s: seq<T>, i: nat)
    requires i < |s|
    ensures s == s[..i] + ([s[i]] + s[i + 1..])
  {
  }

  lemma CountAround<T>(p: T -> bool, a: seq<T>, x: T, b: seq<T>)
    ensures Count(p, a + ([x] + b)) == Count(p, a + b) + (if p(x) then 1 else 0)
  {
    CountAppend(p, a, [x] + b);
    CountAppend(p, a, b);
    assert ([x] + b)[1..] == b;
  }

  lemma CountRemove<T>(p: T -> bool, s: seq<T>, i: nat)
    requires i < |s|
    ensures Count(p, s) == Count(p, Remove(s, i)) + (if p(s[i]) then 1 else 0)
  {
    TakenOut(s, i);
    CountAround(p, s[..i], s[i], s[i + 1..]);
  }

  lemma SumAround<T>(f: T -> real, a: seq<T>, x: T, b: seq<T>)
    ensures Sum(f, a + ([x] + b)) == Sum(f, a + b) + f(x)
  {
    SumAppend(f, a, [x] + b);
    SumAppend(f, a, b);
    assert ([x] + b)[1..] == b;
  }

  lemma SumRemove<T>(f: T -> real, s: seq<T>, i: nat)
    requires i < |s|
    ensures Sum(f, s) == Sum(f, Remove(s, i)) + f(s[i])
  {
    TakenOut(s, i);
    SumAround(f, s[..i], s[i], s[i + 1..]);
  }

  lemma {:induction false} CountZero<T>(p: T -> bool, s: seq<T>)
    ensures Count(p, s) == 0 <==> forall x | x in s :: !p(x)
  {
    if s != [] {
      CountZero(p, s[1..]);
      assert s == [s[0]] + s[1..];
    }
  }

  /** A pointwise weaker predicate counts no fewer elements. */
  lemma {:induction false} CountMonotone<T>(p: T -> bool, q: T -> bool, s: seq<T>)
    requires forall x | x in s && p(x) :: q(x)
    ensures Count(p, s) <= Count(q, s)
  {
    if s != [] {
      CountMonotone(p, q, s[1..]);
    }
  }

  lemma {:induction false} CountSame<T>(p: T -> bool, q: T -> bool, s: seq<T>)
    requires forall x | x in s :: p(x) <==> q(x)
    ensures Count(p, s) == Count(q, s)
  {
    if s != [] {
      CountSame(p, q, s[1..]);
    }
  }

  lemma MultisetRemove<T>(s: seq<T>, i: nat)
    requires i < |s|
    ensures multiset(Remove(s, i)) == multiset(s) - multiset{s[i]}
  {
    assert s == s[..i] + [s[i]] + s[i + 1..];
  }

  /** f and g are mutually inverse renumberings under which t is s reordered. */
  ghost predicate Renumbers<T>(s: seq<T>, t: seq<T>, f: seq<nat>, g: seq<nat>) {
    && |f| == |g| == |s| == |t|
    && (forall k :: 0 <= k < |t| ==> f[k] < |s| && t[k] == s[f[k]])
    && (forall k :: 0 <= k < |s| ==> g[k] < |t| && s[k] == t[g[k]])
    && (forall k :: 0 <= k < |t| ==> g[f[k]] == k)
    && (forall k :: 0 <= k < |s| ==> f[g[k]] == k)
  }

  /** Position k of s with index i removed, as a position of s. */
  function Skip(i: nat, k: nat): nat {
    if k < i then k else k + 1
  }

  lemma {:induction false} Renumber<T>(s: seq<T>, t: seq<T>) returns (f: seq<nat>, g: seq<nat>)
    requires multiset(s) == multiset(t)
    ensures Renumbers(s, t, f, g)
    decreases |s|
  {
    assert |s| == |multiset(s)| == |multiset(t)| == |t|;
    if s == [] {
      f, g := [], [];
    } else {
      var n := |s| - 1;
      assert s == s[..n] + [s[n]];
      assert s[n] in multiset(t);
      var i :| 0 <= i < |t| && t[i] == s[n];
      MultisetRemove(t, i);
      var f', g' := Renumber(s[..n], Remove(t, i));
      f, g := RenumberExtend(s, t, i, f', g');
    }
  }

  /** f' and g' with the last position of s and position i of t put back. */
  lemma RenumberExtend<T>(s: seq<T>, t: seq<T>, i: nat, f': seq<nat>, g': seq<nat>)
    returns (f: seq<nat>, g: seq<nat>)
    requires |s| > 0 && i < |t| && t[i] == s[|s| - 1]
    requires Renumbers(s[..|s| - 1], Remove(t, i), f', g')
    ensures Renumbers(s, t, f, g)
  {
    var n, t' := |s| - 1, Remove(t, i);
    f := f'[..i] + [n] + f'[i..];
    g := seq(n, k requires 0 <= k < n => Skip(i, g'[k])) + [i];
    forall k | 0 <= k < n
      ensures f[Skip(i, k)] == f'[k] < n && t[Skip(i, k)] == s[f'[k]]
      ensures g[k] == Skip(i, g'[k]) < |t| && s[k] == t[g[k]]
    {
      assert t'[k] == s[..n][f'[k]] && t[Skip(i, k)] == t'[k];
      assert s[..n][k] == t'[g'[k]] && t[Skip(i, g'[k])] == t'[g'[k]];
    }
    RenumberInverse(i, n, f', g', f, g);
    forall k | 0 <= k <= n ensures f[k] < |s| && t[k] == s[f[k]] {
      if k != i {
        var j := if k < i then k else k - 1;
        assert k == Skip(i, j);
      }
    }
  }

  lemma RenumberInverse(i: nat, n: nat, f': seq<nat>, g': seq<nat>, f: seq<nat>, g: seq<nat>)
    requires i <= n && |f'| == |g'| == n && |f| == |g| == n + 1
    requires forall k :: 0 <= k < n ==> f'[k] < n && g'[f'[k]] == k
    requires forall k :: 0 <= k < n ==> g'[k] < n && f'[g'[k]] == k
    requires f[i] == n && forall k :: 0 <= k < n ==> f[Skip(i, k)] == f'[k]
    requires g[n] == i && forall k :: 0 <= k < n ==> g[k] == Skip(i, g'[k])
    ensures forall k :: 0 <= k <= n ==> f[k] <= n && g[f[k]] == k
    ensures forall k :: 0 <= k <= n ==> g[k] <= n && f[g[k]] == k
  {
    forall k | 0 <= k <= n ensures f[k] <= n && g[f[k]] == k {
      if k != i {
        var j := if k < i then k else k - 1;
        assert k == Skip(i, j) && f[k] == f'[j];
      }
    }
  }

  lemma {:induction false} SumReorder<T>(f: T -> real, s: seq<T>, t: seq<T>)
    requires multiset(s) == multiset(t)
    ensures Sum(f, s) == Sum(f, t)
    decreases |s|
  {
    assert |s| == |multiset(s)| == |multiset(t)| == |t|;
    if s != [] {
      assert s == [s[0]] + s[1..];
      assert s[0] in multiset(t);
      var i :| 0 <= i < |t| && t[i] == s[0];
      MultisetRemove(t, i);
      SumReorder(f, s[1..], Remove(t, i));
      SumRemove(f, t, i);
    }
  }
}
