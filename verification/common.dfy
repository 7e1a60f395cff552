/** Small vocabulary shared by the component models. */
module Common {

  datatype Option<+T> = None | Some(value: T)

  function Max(a: int, b: int): int {
    if a < b then b else a
  }

  /** `sub` stands in `s` at index `i`. */
  predicate Occurs(s: string, sub: string, i: nat) {
    i + |sub| <= |s| && forall j | 0 <= j < |sub| :: s[i + j] == sub[j]
  }

  lemma OccursIsSlice(s: string, sub: string, i: nat)
    ensures Occurs(s, sub, i) <==> i + |sub| <= |s| && s[i..i + |sub|] == sub
  {
    if i + |sub| <= |s| {
      var t := s[i..i + |sub|];
      assert forall j | 0 <= j < |sub| :: t[j] == s[i + j];
    }
  }

  lemma OccursFirst(s: string, sub: string, i: nat)
    requires sub != ""
    ensures Occurs(s, sub, i) ==> i < |s| && s[i] == sub[0]
  {
    assert Occurs(s, sub, i) ==> s[i + 0] == sub[0];
  }

  /** The sequence without the element at index `i`. */
  function RemoveAt<T>(s: seq<T>, i: nat): seq<T>
    requires i < |s|
  {
    s[..i] + s[i + 1..]
  }

  lemma Parts<T>(s: seq<T>, i: nat)
    requires i < |s|
    ensures s == s[..i] + [s[i]] + s[i + 1..]
  {
  }

  lemma RemoveAtMultiset<T>(s: seq<T>, i: nat)
    requires i < |s|
    ensures multiset(s) == multiset(RemoveAt(s, i)) + multiset{s[i]}
  {
    Parts(s, i);
  }

  /** The elements that satisfy `f`, in order. */
  function Filter<T>(s: seq<T>, f: T -> bool): seq<T> {
    if s == [] then []
    else Filter(s[..|s| - 1], f) + if f(s[|s| - 1]) then [s[|s| - 1]] else []
  }

  lemma {:induction false} FilterConcat<T>(a: seq<T>, b: seq<T>, f: T -> bool)
    ensures Filter(a + b, f) == Filter(a, f) + Filter(b, f)
    decreases |b|
  {
    if b == [] {
      assert a + b == a;
    } else {
      FilterConcat(a, b[..|b| - 1], f);
      assert (a + b)[..|a + b| - 1] == a + b[..|b| - 1];
    }
  }

  lemma FilterOne<T>(x: T, f: T -> bool)
    ensures Filter([x], f) == if f(x) then [x] else []
  {
    assert [x][..0] == [];
  }

  lemma FilterAround<T>(a: seq<T>, x: T, c: seq<T>, f: T -> bool)
    ensures Filter(a + [x] + c, f) == Filter(a, f) + (if f(x) then [x] else []) + Filter(c, f)
  {
    FilterConcat(a + [x], c, f);
    FilterConcat(a, [x], f);
    FilterOne(x, f);
  }

  lemma FilterSplit<T>(s: seq<T>, i: nat, f: T -> bool)
    requires i < |s|
    ensures Filter(s, f) == Filter(s[..i], f) + (if f(s[i]) then [s[i]] else []) + Filter(s[i + 1..], f)
  {
    FilterAround(s[..i], s[i], s[i + 1..], f);
    Parts(s, i);
  }

  lemma FilterRemoved<T>(s: seq<T>, i: nat, f: T -> bool)
    requires i < |s|
    ensures Filter(RemoveAt(s, i), f) == Filter(s[..i], f) + Filter(s[i + 1..], f)
  {
    FilterConcat(s[..i], s[i + 1..], f);
  }

  lemma InFilter<T>(s: seq<T>, i: nat, f: T -> bool)
    requires i < |s| && f(s[i])
    ensures s[i] in Filter(s, f)
  {
    FilterSplit(s, i, f);
  }

  lemma {:induction false} FromFilter<T>(s: seq<T>, x: T, f: T -> bool)
    requires x in Filter(s, f)
    ensures x in s && f(x)
  {
    var n := |s| - 1;
    if x in Filter(s[..n], f) {
      FromFilter(s[..n], x, f);
    }
  }

  /** Where in `s` the `k`-th element of the filtered sequence stands. */
  lemma {:induction false} Locate<T>(s: seq<T>, f: T -> bool, k: nat) returns (i: nat)
    requires k < |Filter(s, f)|
    ensures i < |s| && f(s[i]) && s[i] == Filter(s, f)[k]
    ensures Filter(s[..i], f) == Filter(s, f)[..k]
    ensures Filter(RemoveAt(s, i), f) == RemoveAt(Filter(s, f), k)
  {
    var n := |s| - 1;
    if k < |Filter(s[..n], f)| {
      i := Locate(s[..n], f, k);
      assert s[..n][..i] == s[..i];
    } else {
      i := n;
    }
    FilterSplit(s, i, f);
    FilterRemoved(s, i, f);
  }
}
