/** Small vocabulary shared by every module: optional values, results, and
    sequences that list a set without repeating an element. */
module Base {
  datatype Option<+T> = None | Some(value: T)

  datatype Result<+T, +E> = Ok(value: T) | Err(error: E)

  ghost predicate NoDup<T>(q: seq<T>) {
    forall i, j :: 0 <= i < j < |q| ==> q[i] != q[j]
  }

  ghost function Elems<T>(q: seq<T>): set<T> {
    set x | x in q
  }

  /** `q` lists every element of `s` exactly once and nothing else, in some order. */
  ghost predicate Enumerates<T(!new)>(q: seq<T>, s: set<T>) {
    NoDup(q) && forall x :: x in q <==> x in s
  }

  /** The entries of `q` that are in `keep`, in the order they had. */
  ghost function Kept<T>(q: seq<T>, keep: set<T>): seq<T> {
    if q == [] then []
    else
      var rest := Kept(q[..|q| - 1], keep);
      if q[|q| - 1] in keep then rest + [q[|q| - 1]] else rest
  }

  lemma {:induction false} EnumerationSize<T(!new)>(q: seq<T>, s: set<T>)
    requires Enumerates(q, s)
    ensures |q| == |s|
  {
    if q == [] {
      assert s == {};
    } else {
      var n := |q| - 1;
      assert q[n] in q;
      forall x ensures x in q[..n] <==> x in s - {q[n]} {
        if x in q[..n] { assert x in q; }
        if x in s && x != q[n] { assert x in q; }
      }
      EnumerationSize(q[..n], s - {q[n]});
    }
  }

  lemma EnumerationAppend<T(!new)>(q: seq<T>, s: set<T>, x: T)
    requires Enumerates(q, s) && x !in s
    ensures Enumerates(q + [x], s + {x})
  {
  }

  lemma {:induction false} KeptElems<T(!new)>(q: seq<T>, keep: set<T>)
    ensures forall x :: x in Kept(q, keep) <==> x in q && x in keep
    ensures NoDup(q) ==> NoDup(Kept(q, keep))
    ensures |Kept(q, keep)| <= |q|
  {
    if q != [] {
      var n := |q| - 1;
      KeptElems(q[..n], keep);
      assert q == q[..n] + [q[n]];
    }
  }

  lemma {:induction false} KeptAll<T>(q: seq<T>, keep: set<T>)
    requires forall x :: x in q ==> x in keep
    ensures Kept(q, keep) == q
  {
    if q != [] {
      var n := |q| - 1;
      assert q == q[..n] + [q[n]] && q[n] in q;
      KeptAll(q[..n], keep);
    }
  }

  /** Only membership of the entries themselves matters. */
  lemma {:induction false} KeptAgree<T>(q: seq<T>, keep: set<T>, keep': set<T>)
    requires forall x :: x in q ==> (x in keep <==> x in keep')
    ensures Kept(q, keep) == Kept(q, keep')
  {
    if q != [] {
      var n := |q| - 1;
      assert q == q[..n] + [q[n]] && q[n] in q;
      KeptAgree(q[..n], keep, keep');
    }
  }

  lemma {:induction false} KeptConcat<T>(q: seq<T>, r: seq<T>, keep: set<T>)
    ensures Kept(q + r, keep) == Kept(q, keep) + Kept(r, keep)
  {
    if r == [] {
      assert q + r == q;
    } else {
      var n := |r| - 1;
      assert (q + r)[..|q + r| - 1] == q + r[..n];
      KeptConcat(q, r[..n], keep);
    }
  }

  /** Filtering a longer queue keeps at least what filtering the shorter one kept. */
  lemma KeptPrefix<T>(q: seq<T>, r: seq<T>, keep: set<T>)
    requires q <= r
    ensures Kept(q, keep) <= Kept(r, keep)
  {
    assert r == q + r[|q|..];
    KeptConcat(q, r[|q|..], keep);
  }

  lemma SubsetSize<T>(a: set<T>, b: set<T>)
    requires a <= b
    ensures |a| <= |b|
  {
    assert b == a + (b - a);
  }

  /** A set seen through a shrinking remainder gains the element that leaves it. */
  lemma Grow<T>(s: set<T>, remaining: set<T>, id: T)
    requires id in remaining
    ensures |s - (remaining - {id})| == |s - remaining| + if id in s then 1 else 0
  {
    assert s - (remaining - {id}) == (s - remaining) + if id in s then {id} else {};
  }
}
