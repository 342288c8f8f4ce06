/** Values shared by the other modules. */
module Fleet {

  datatype Option<+T> = None | Some(value: T)

  datatype Result<+T, +E> = Ok(value: T) | Err(error: E)

  /** A pointer to one backend object together with the two fields that never change
      (internal/backend/backend.go:113-114).  Two handles are the same pointer when they are equal. */
  datatype Handle = Handle(id: nat, name: string, url: string)

  function Names(s: set<Handle>): set<string> {
    set h | h in s :: h.name
  }

  predicate NamesApart(s: set<Handle>) {
    forall g, h :: g in s && h in s && g.name == h.name ==> g == h
  }
}

/** Order-preserving selection from a sequence, built from the left as an appending loop builds it. */
module Seqs {

  function Filter<T(!new)>(s: seq<T>, keep: T -> bool): (r: seq<T>)
    ensures |r| <= |s|
    ensures forall x :: x in r <==> x in s && keep(x)
  {
    if s == [] then []
    else
      var r := Filter(s[..|s| - 1], keep);
      var x := s[|s| - 1];
      assert s == s[..|s| - 1] + [x];
      if keep(x) then r + [x] else r
  }

  lemma FilterSnoc<T(!new)>(s: seq<T>, x: T, keep: T -> bool)
    ensures Filter(s + [x], keep) == if keep(x) then Filter(s, keep) + [x] else Filter(s, keep)
  {
    assert (s + [x])[..|s|] == s;
  }

  lemma FilterTake<T(!new)>(s: seq<T>, i: nat, keep: T -> bool)
    requires i < |s|
    ensures Filter(s[..i + 1], keep) == if keep(s[i]) then Filter(s[..i], keep) + [s[i]] else Filter(s[..i], keep)
  {
    assert s[..i + 1] == s[..i] + [s[i]];
    FilterSnoc(s[..i], s[i], keep);
  }

  lemma {:induction false} FilterAppend<T(!new)>(a: seq<T>, b: seq<T>, keep: T -> bool)
    ensures Filter(a + b, keep) == Filter(a, keep) + Filter(b, keep)
  {
    if b == [] {
      assert a + b == a;
    } else {
      assert (a + b)[..|a + b| - 1] == a + b[..|b| - 1];
      FilterAppend(a, b[..|b| - 1], keep);
    }
  }

  lemma {:induction false} FilterAll<T(!new)>(s: seq<T>, keep: T -> bool)
    requires forall x :: x in s ==> keep(x)
    ensures Filter(s, keep) == s
  {
    if s != [] {
      assert s == s[..|s| - 1] + [s[|s| - 1]];
      FilterAll(s[..|s| - 1], keep);
    }
  }

  lemma {:induction false} FilterNone<T(!new)>(s: seq<T>, keep: T -> bool)
    requires forall x :: x in s ==> !keep(x)
    ensures Filter(s, keep) == []
  {
    if s != [] {
      assert s == s[..|s| - 1] + [s[|s| - 1]];
      FilterNone(s[..|s| - 1], keep);
    }
  }

  predicate Distinct<T(==)>(s: seq<T>) {
    forall i, j :: 0 <= i < j < |s| ==> s[i] != s[j]
  }
}

/** The two facts of nonlinear arithmetic the other modules need. */
module Arith {

  lemma MulMonotone(p: nat, a: int, b: int)
    requires a <= b
    ensures p * a <= p * b
  {
    assert p * (b - a) >= 0;
  }

  lemma DivUnique(x: nat, p: nat, q: int, r: nat)
    requires r < p && x == p * q + r
    ensures x / p == q && x % p == r
  {
    var d := x / p;
    assert p * d <= x < p * d + p;
    if d < q { MulMonotone(p, d + 1, q); }
    if q < d { MulMonotone(p, q + 1, d); }
  }
}
