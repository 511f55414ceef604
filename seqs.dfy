/** Generic sequence operations that mirror the JavaScript array methods the
    source relies on: `filter`, `find`, `map`, `slice` and `splice`. */
module Seqs {
  import opened Wrappers

  /** `s.filter(p)`: the elements satisfying `p`, in their original order. */
  function Filter<T>(s: seq<T>, p: T -> bool): (r: seq<T>)
    ensures |r| <= |s|
  {
    if s == [] then []
    else if p(s[0]) then [s[0]] + Filter(s[1..], p)
    else Filter(s[1..], p)
  }

  /** The filter keeps exactly the elements that pass `p`: whatever it keeps
      comes from `s` and passes, and whatever passes is kept. */
  lemma {:induction false} FilterMembers<T>(s: seq<T>, p: T -> bool)
    ensures forall i :: 0 <= i < |Filter(s, p)| ==> Filter(s, p)[i] in s && p(Filter(s, p)[i])
    ensures forall i :: 0 <= i < |s| && p(s[i]) ==> s[i] in Filter(s, p)
  {
    if s != [] {
      FilterMembers(s[1..], p);
      var t := Filter(s[1..], p);
      forall i | 0 <= i < |s| && p(s[i]) ensures s[i] in Filter(s, p) {
        if i > 0 {
          assert s[i] == s[1..][i - 1];
        }
      }
      if p(s[0]) {
        assert Filter(s, p) == [s[0]] + t;
        assert forall i :: 1 <= i < |Filter(s, p)| ==> Filter(s, p)[i] == t[i - 1];
      }
    }
  }

  /** Filtering distributes over concatenation: each element is kept or dropped
      on its own, and the kept ones keep their relative order. */
  lemma {:induction false} FilterAppend<T>(s: seq<T>, t: seq<T>, p: T -> bool)
    ensures Filter(s + t, p) == Filter(s, p) + Filter(t, p)
  {
    if s == [] {
      assert s + t == t;
    } else {
      assert (s + t)[1..] == s[1..] + t;
      FilterAppend(s[1..], t, p);
    }
  }

  /** Filtering out every element leaves nothing. */
  lemma {:induction false} FilterDropsAll<T>(s: seq<T>, p: T -> bool)
    requires forall i :: 0 <= i < |s| ==> !p(s[i])
    ensures Filter(s, p) == []
  {
    if s != [] {
      FilterDropsAll(s[1..], p);
    }
  }

  /** A filter that keeps everything is the identity. */
  lemma {:induction false} FilterKeepsAll<T>(s: seq<T>, p: T -> bool)
    requires forall i :: 0 <= i < |s| ==> p(s[i])
    ensures Filter(s, p) == s
  {
    if s != [] {
      FilterKeepsAll(s[1..], p);
    }
  }

  /** `s.findIndex(p)`, with `None` for -1: the index of the first element satisfying `p`. */
  function FindIndex<T>(s: seq<T>, p: T -> bool): (r: Option<nat>)
    ensures r.Some? ==> r.value < |s| && p(s[r.value])
    ensures r.Some? ==> forall j :: 0 <= j < r.value ==> !p(s[j])
    ensures r.None? ==> forall j :: 0 <= j < |s| ==> !p(s[j])
  {
    if s == [] then None
    else if p(s[0]) then Some(0)
    else match FindIndex(s[1..], p)
      case None => None
      case Some(i) => Some(i + 1)
  }

  /** `s.find(p)`: the first element satisfying `p`, or `None` (`undefined`). */
  function Find<T>(s: seq<T>, p: T -> bool): (r: Option<T>)
    ensures r.Some? ==> r.value in s && p(r.value)
    ensures r.Some? ==> exists k :: 0 <= k < |s| && s[k] == r.value && forall j :: 0 <= j < k ==> !p(s[j])
    ensures r.None? <==> forall i :: 0 <= i < |s| ==> !p(s[i])
  {
    match FindIndex(s, p)
    case None => None
    case Some(i) => Some(s[i])
  }

  /** Searching a sequence with a first element `x` finds `x` when it passes `q`
      and searches the rest otherwise. */
  lemma FindCons<T>(x: T, t: seq<T>, q: T -> bool)
    ensures Find([x] + t, q) == if q(x) then Some(x) else Find(t, q)
  {
    var s := [x] + t;
    assert s[0] == x && s[1..] == t;
    if !q(x) {
      match FindIndex(t, q)
      case None =>
      case Some(i) =>
        assert s[i + 1] == t[i];
    }
  }

  /** Searching the elements that pass `p` for the first one that passes `q`
      finds the first element of the whole sequence that passes both. */
  lemma {:induction false} FindInFilter<T>(s: seq<T>, p: T -> bool, q: T -> bool, k: nat)
    requires k < |s| && p(s[k]) && q(s[k])
    requires forall j :: 0 <= j < k ==> !(p(s[j]) && q(s[j]))
    ensures Find(Filter(s, p), q) == Some(s[k])
  {
    var t := Filter(s[1..], p);
    if k > 0 {
      forall j | 0 <= j < k - 1 ensures !(p(s[1..][j]) && q(s[1..][j])) {
        assert s[1..][j] == s[j + 1];
      }
      FindInFilter(s[1..], p, q, k - 1);
    }
    if p(s[0]) {
      FindCons(s[0], t, q);
    }
  }

  /** Finding the first element that passes `q` among those that pass `p` is
      finding the first element that passes both (`pq`). */
  lemma FindFiltered<T>(s: seq<T>, p: T -> bool, q: T -> bool, pq: T -> bool)
    requires forall i :: 0 <= i < |s| ==> pq(s[i]) == (p(s[i]) && q(s[i]))
    ensures FindIndex(s, pq).Some? <==> Find(Filter(s, p), q).Some?
    ensures FindIndex(s, pq).Some? ==> Find(Filter(s, p), q) == Some(s[FindIndex(s, pq).value])
  {
    match FindIndex(s, pq)
    case Some(k) =>
      FindInFilter(s, p, q, k);
    case None =>
      FilterMembers(s, p);
      var f := Filter(s, p);
      forall i | 0 <= i < |f| ensures !q(f[i]) {
        var j :| 0 <= j < |s| && s[j] == f[i];
        assert !pq(s[j]);
      }
  }

  /** `s.map(f).filter(x => x !== null)`: the results of `f` that are
      present, in the order of their arguments. */
  function FilterMap<A, B>(s: seq<A>, f: A -> Option<B>): seq<B> {
    if s == [] then []
    else match f(s[0])
      case None => FilterMap(s[1..], f)
      case Some(b) => [b] + FilterMap(s[1..], f)
  }

  /** Mapping and filtering works element by element, so it distributes over
      concatenation. */
  lemma {:induction false} FilterMapAppend<A, B>(s: seq<A>, t: seq<A>, f: A -> Option<B>)
    ensures FilterMap(s + t, f) == FilterMap(s, f) + FilterMap(t, f)
  {
    if s == [] {
      assert s + t == t;
    } else {
      assert (s + t)[0] == s[0] && (s + t)[1..] == s[1..] + t;
      FilterMapAppend(s[1..], t, f);
    }
  }

  /** One result per element for which `f` gives one: as many as the elements
      that pass a test `p` matching `f`. */
  lemma {:induction false} FilterMapCount<A, B>(s: seq<A>, f: A -> Option<B>, p: A -> bool)
    requires forall i :: 0 <= i < |s| ==> (p(s[i]) <==> f(s[i]).Some?)
    ensures |FilterMap(s, f)| == |Filter(s, p)|
  {
    if s != [] {
      FilterMapCount(s[1..], f, p);
    }
  }

  /** An element for which `f` gives nothing contributes nothing. */
  lemma FilterMapDropped<A, B>(x: A, f: A -> Option<B>)
    requires f(x).None?
    ensures FilterMap([x], f) == []
  {
    assert [x][1..] == [];
  }

  /** `s.map(f)`. */
  function Map<A, B>(f: A -> B, s: seq<A>): (r: seq<B>)
    ensures |r| == |s|
    ensures forall i :: 0 <= i < |s| ==> r[i] == f(s[i])
  {
    seq(|s|, i requires 0 <= i < |s| => f(s[i]))
  }

  /** Mapping works element by element, so it distributes over concatenation. */
  lemma MapAppend<A, B>(f: A -> B, s: seq<A>, t: seq<A>)
    ensures Map(f, s + t) == Map(f, s) + Map(f, t)
  {
    var l, r := Map(f, s + t), Map(f, s) + Map(f, t);
    forall i | 0 <= i < |l| ensures l[i] == r[i] {
      if i < |s| {
        assert (s + t)[i] == s[i];
      } else {
        assert (s + t)[i] == t[i - |s|];
      }
    }
  }

  /** Every result of `FilterMap` is what `f` gives for some element. */
  lemma {:induction false} FilterMapFrom<A, B>(s: seq<A>, f: A -> Option<B>)
    ensures |FilterMap(s, f)| <= |s|
    ensures forall i :: 0 <= i < |FilterMap(s, f)| ==>
              exists k :: 0 <= k < |s| && f(s[k]) == Some(FilterMap(s, f)[i])
  {
    if s != [] {
      FilterMapFrom(s[1..], f);
      var t := FilterMap(s[1..], f);
      forall i | 0 <= i < |FilterMap(s, f)|
        ensures exists k :: 0 <= k < |s| && f(s[k]) == Some(FilterMap(s, f)[i])
      {
        if f(s[0]).Some? && i == 0 {
          assert f(s[0]) == Some(FilterMap(s, f)[0]);
        } else {
          var i' := if f(s[0]).Some? then i - 1 else i;
          assert FilterMap(s, f)[i] == t[i'];
          var k :| 0 <= k < |s[1..]| && f(s[1..][k]) == Some(t[i']);
          assert s[1..][k] == s[k + 1];
        }
      }
    }
  }

  /** `s.slice(0, n)`. */
  function Take<T>(s: seq<T>, n: nat): (r: seq<T>)
    ensures |r| == if |s| <= n then |s| else n
    ensures r == s[..|r|]
  {
    if |s| <= n then s else s[..n]
  }

  /** The slice and the rest of the list make up the list; slicing again to
      the same length changes nothing; a list no longer than `n` is kept whole. */
  lemma TakeRest<T>(s: seq<T>, n: nat)
    ensures Take(s, n) + s[|Take(s, n)|..] == s
    ensures Take(Take(s, n), n) == Take(s, n)
    ensures |s| <= n <==> Take(s, n) == s
  {
  }

  /** `items.splice(i, 1)` on a copy: the list without its element at `i`. */
  function RemoveAt<T>(s: seq<T>, i: nat): (r: seq<T>)
    requires i < |s|
    ensures |r| == |s| - 1
    ensures multiset(r) + multiset{s[i]} == multiset(s)
  {
    assert s == s[..i] + [s[i]] + s[i + 1..];
    s[..i] + s[i + 1..]
  }

  /** `items.splice(i, 0, x)` on a copy: `x` inserted before position `i`,
      an index past the end meaning "at the end", as `splice` clamps it. */
  function InsertAt<T>(s: seq<T>, i: nat, x: T): (r: seq<T>)
    ensures |r| == |s| + 1
    ensures multiset(r) == multiset(s) + multiset{x}
    ensures r[if i < |s| then i else |s|] == x
  {
    var k := if i < |s| then i else |s|;
    assert s == s[..k] + s[k..];
    s[..k] + [x] + s[k..]
  }

  /** The two splices of a drag within one list: take the element at `from`
      out and put it back in at `to`. */
  function Move<T>(s: seq<T>, from: nat, to: nat): (r: seq<T>)
    requires from < |s|
    ensures |r| == |s|
    ensures multiset(r) == multiset(s)
    ensures r[if to < |s| then to else |s| - 1] == s[from]
  {
    InsertAt(RemoveAt(s, from), to, s[from])
  }

  /** Dragging an element back to where it came from undoes the first drag. */
  lemma MoveBack<T>(s: seq<T>, from: nat, to: nat)
    requires from < |s| && to < |s|
    ensures Move(Move(s, from, to), to, from) == s
  {
    var x := s[from];
    var t := RemoveAt(s, from);
    var u := Move(s, from, to);
    assert u == t[..to] + [x] + t[to..];
    assert u[to] == x;
    assert RemoveAt(u, to) == t by {
      assert u[..to] == t[..to];
      assert u[to + 1..] == t[to..];
    }
    assert InsertAt(t, from, x) == s by {
      assert t[..from] == s[..from];
      assert t[from..] == s[from + 1..];
      assert s == s[..from] + [x] + s[from + 1..];
    }
  }
}
