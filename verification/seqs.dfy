/** Sequence helpers shared by the model: duplicate-freedom, the "append only what is
    not there yet" fold used when attaching policies to a user, and the collapse of
    adjacent repeats used to state in which order the provisioner visits resources. */
module Seqs {

  /** No element occurs twice. */
  predicate NoDup<T(==)>(xs: seq<T>)
  {
    forall i, j :: 0 <= i < j < |xs| ==> xs[i] != xs[j]
  }

  /** Every element of `xs` equals `s`. */
  predicate Uniform<T(==)>(xs: seq<T>, s: T)
  {
    forall i :: 0 <= i < |xs| ==> xs[i] == s
  }

  /** Walks `ys` in order and appends each element that the list built so far does
      not contain yet. Defined over the prefix of `ys`, exactly as a `foreach` loop
      extends its accumulator one argument at a time. */
  function AppendNew<T(==,!new)>(xs: seq<T>, ys: seq<T>): (r: seq<T>)
    ensures |xs| <= |r| && r[..|xs|] == xs
    ensures forall x :: x in r <==> x in xs || x in ys
    ensures NoDup(xs) ==> NoDup(r)
    decreases |ys|
  {
    if |ys| == 0 then xs
    else
      var acc := AppendNew(xs, ys[..|ys| - 1]);
      var y := ys[|ys| - 1];
      assert forall x :: x in ys <==> x in ys[..|ys| - 1] || x == y by {
        assert ys == ys[..|ys| - 1] + [y];
      }
      if y in acc then acc else acc + [y]
  }

  /** The elements of `ys` that are not in `xs`, in order (repeats kept). */
  function Without<T(==)>(ys: seq<T>, xs: seq<T>): seq<T>
    decreases |ys|
  {
    if |ys| == 0 then []
    else Without(ys[..|ys| - 1], xs) + (if ys[|ys| - 1] in xs then [] else [ys[|ys| - 1]])
  }

  /** The first occurrence of every element of `ys`, in order. */
  function Distinct<T(==)>(ys: seq<T>): seq<T>
    decreases |ys|
  {
    if |ys| == 0 then []
    else
      var d := Distinct(ys[..|ys| - 1]);
      if ys[|ys| - 1] in d then d else d + [ys[|ys| - 1]]
  }

  /** Appending what is new is the same as appending, in argument order, the first
      occurrence of every argument not already present. */
  lemma {:induction false} AppendNewIsDistinctFresh<T(!new)>(xs: seq<T>, ys: seq<T>)
    ensures AppendNew(xs, ys) == xs + Distinct(Without(ys, xs))
    decreases |ys|
  {
    if |ys| > 0 {
      var pre, y := ys[..|ys| - 1], ys[|ys| - 1];
      AppendNewIsDistinctFresh(xs, pre);
      var w := Without(pre, xs);
      var d := Distinct(w);
      assert AppendNew(xs, pre) == xs + d;
      if y in xs {
        assert Without(ys, xs) == w;
        assert y in xs + d;
      } else {
        assert Without(ys, xs) == w + [y];
        assert (w + [y])[..|w|] == w;
        assert Distinct(w + [y]) == if y in d then d else d + [y];
        assert y in xs + d <==> y in d;
        assert (xs + d) + [y] == xs + (d + [y]);
      }
    }
  }

  /** Once every argument is present, appending them again changes nothing. */
  lemma {:induction false} AppendNewPresent<T(!new)>(zs: seq<T>, ys: seq<T>)
    requires forall y :: y in ys ==> y in zs
    ensures AppendNew(zs, ys) == zs
    decreases |ys|
  {
    if |ys| > 0 {
      assert forall y :: y in ys[..|ys| - 1] ==> y in ys;
      AppendNewPresent(zs, ys[..|ys| - 1]);
    }
  }

  /** Attaching the same arguments twice is the same as attaching them once. */
  lemma AppendNewIdempotent<T(!new)>(xs: seq<T>, ys: seq<T>)
    ensures AppendNew(AppendNew(xs, ys), ys) == AppendNew(xs, ys)
  {
    AppendNewPresent(AppendNew(xs, ys), ys);
  }

  /** Merges every run of equal adjacent elements into one element. */
  function Collapse<T(==)>(xs: seq<T>): seq<T>
    decreases |xs|
  {
    if |xs| <= 1 then xs
    else if xs[0] == xs[1] then Collapse(xs[1..])
    else [xs[0]] + Collapse(xs[1..])
  }

  lemma {:induction false} CollapseHead<T>(xs: seq<T>)
    requires |xs| > 0
    ensures |Collapse(xs)| > 0 && Collapse(xs)[0] == xs[0]
    decreases |xs|
  {
    if |xs| > 1 && xs[0] == xs[1] {
      CollapseHead(xs[1..]);
    }
  }

  /** A non-empty run of one value collapses to that value. */
  lemma {:induction false} CollapseUniform<T>(xs: seq<T>, s: T)
    requires |xs| > 0 && Uniform(xs, s)
    ensures Collapse(xs) == [s]
    decreases |xs|
  {
    if |xs| > 1 {
      CollapseUniform(xs[1..], s);
    }
  }

  /** Collapsing distributes over a concatenation whose seam joins different values. */
  lemma {:induction false} CollapseAppend<T>(a: seq<T>, b: seq<T>)
    requires |a| == 0 || |b| == 0 || a[|a| - 1] != b[0]
    ensures Collapse(a + b) == Collapse(a) + Collapse(b)
    decreases |a|
  {
    if |a| == 0 {
      assert a + b == b;
    } else if |b| == 0 {
      assert a + b == a;
    } else if |a| == 1 {
      assert (a + b)[1..] == b;
    } else {
      assert (a + b)[1..] == a[1..] + b;
      CollapseAppend(a[1..], b);
    }
  }

  lemma PrefixAppend<T>(a: seq<T>, b: seq<T>, c: seq<T>)
    requires a <= b
    ensures a <= b + c
  {
    assert (b + c)[..|b|] == b;
  }

  /** Collapsing a run that covers `xs` followed by one drawn from a disjoint `ys`. */
  lemma CollapseJoin<T>(a: seq<T>, b: seq<T>, xs: seq<T>, ys: seq<T>)
    requires Collapse(a) == xs && Collapse(b) <= ys
    requires forall x :: x in a ==> x in xs
    requires forall y :: y in b ==> y in ys
    requires forall x :: x in xs ==> x !in ys
    ensures Collapse(a + b) <= xs + ys
    ensures Collapse(b) == ys ==> Collapse(a + b) == xs + ys
  {
    if |a| > 0 && |b| > 0 {
      assert a[|a| - 1] in xs && b[0] in ys;
    }
    CollapseAppend(a, b);
  }

  /** Three runs drawn from pairwise disjoint `xs`, `ys`, `zs`, each collapsing to a
      prefix of its own part and to all of it when `full*` holds: every stage of their
      concatenation collapses to a prefix of `xs + ys + zs`. */
  lemma CollapseThree<T>(a: seq<T>, b: seq<T>, c: seq<T>, xs: seq<T>, ys: seq<T>, zs: seq<T>,
                         fullA: bool, fullB: bool, fullC: bool)
    requires Collapse(a) <= xs && Collapse(b) <= ys && Collapse(c) <= zs
    requires fullA ==> Collapse(a) == xs
    requires fullB ==> Collapse(b) == ys
    requires fullC ==> Collapse(c) == zs
    requires (forall x :: x in a ==> x in xs) && (forall x :: x in b ==> x in ys) && (forall x :: x in c ==> x in zs)
    requires forall x :: x in xs ==> x !in ys && x !in zs
    requires forall x :: x in ys ==> x !in zs
    ensures Collapse(a) <= xs + ys + zs
    ensures fullA ==> Collapse(a + b) <= xs + ys + zs
    ensures fullA && fullB ==> Collapse(a + b + c) <= xs + ys + zs
    ensures fullA && fullB && fullC ==> Collapse(a + b + c) == xs + ys + zs
  {
    assert xs + ys + zs == xs + (ys + zs);
    PrefixAppend(Collapse(a), xs, ys + zs);
    if fullA {
      CollapseJoin(a, b, xs, ys);
      PrefixAppend(Collapse(a + b), xs + ys, zs);
      if fullB {
        CollapseJoin(a + b, c, xs + ys, zs);
      }
    }
  }

  /** Duplicate-freedom of a concatenation of two disjoint duplicate-free parts. */
  lemma NoDupAppend<T>(a: seq<T>, b: seq<T>)
    requires NoDup(a) && NoDup(b)
    requires forall x :: x in a ==> x !in b
    ensures NoDup(a + b)
  {
    forall i, j | 0 <= i < j < |a + b|
      ensures (a + b)[i] != (a + b)[j]
    {
      if j < |a| {
      } else if i >= |a| {
        assert (a + b)[i] == b[i - |a|] && (a + b)[j] == b[j - |a|];
      } else {
        assert (a + b)[i] in a && (a + b)[j] in b;
      }
    }
  }
}
