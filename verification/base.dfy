/**
 * Small generic building blocks shared by the rest of the model: an optional
 * value, a success-or-error result, and the few Ruby Array operations the
 * container relies on (`uniq`, `|` and `-`), stated over Dafny sequences.
 */
module Base {

  /** Ruby's `nil`-or-something, made explicit. */
  datatype Option<+T> = None | Some(value: T)

  /** The outcome of an operation that may raise. */
  datatype Result<+T, +E> = Ok(value: T) | Err(error: E)

  /** The element at `i`; names the terms on which `NoDuplicates` is instantiated. */
  function Elem<T>(s: seq<T>, i: nat): T
    requires i < |s|
  {
    s[i]
  }

  /**
   * No element occurs twice. The quantifier fires only on `Elem` terms, so a
   * proof that uses the fact says at which indices.
   */
  predicate NoDuplicates<T(==,!new)>(s: seq<T>) {
    forall i: nat, j: nat {:trigger Elem(s, i), Elem(s, j)} :: i < j < |s| ==> Elem(s, i) != Elem(s, j)
  }

  /** Two places of a duplicate-free sequence hold different elements. */
  lemma Distinct<T(!new)>(s: seq<T>, i: nat, j: nat)
    requires NoDuplicates(s) && i < j < |s|
    ensures s[i] != s[j]
  {
    assert Elem(s, i) != Elem(s, j);
  }

  /** Appending an element not yet present keeps a sequence free of duplicates. */
  lemma NoDuplicatesAppend<T(!new)>(s: seq<T>, x: T)
    requires NoDuplicates(s) && x !in s
    ensures NoDuplicates(s + [x])
  {
    var t := s + [x];
    forall i: nat, j: nat | i < j < |t|
      ensures Elem(t, i) != Elem(t, j)
    {
      if j < |s| {
        Distinct(s, i, j);
      }
    }
  }

  /** Putting an element not present in front keeps a sequence free of duplicates. */
  lemma NoDuplicatesCons<T(!new)>(x: T, s: seq<T>)
    requires NoDuplicates(s) && x !in s
    ensures NoDuplicates([x] + s)
  {
    var t := [x] + s;
    forall i: nat, j: nat | i < j < |t|
      ensures Elem(t, i) != Elem(t, j)
    {
      if 0 < i {
        Distinct(s, i - 1, j - 1);
      }
    }
  }

  /** Dropping the first element keeps a sequence free of duplicates, and the first element does not recur. */
  lemma NoDuplicatesTail<T(!new)>(s: seq<T>)
    requires NoDuplicates(s) && |s| > 0
    ensures NoDuplicates(s[1..]) && s[0] !in s[1..]
  {
    var t := s[1..];
    forall i: nat, j: nat | i < j < |t|
      ensures Elem(t, i) != Elem(t, j)
    {
      Distinct(s, i + 1, j + 1);
    }
    if s[0] in t {
      var j :| 0 <= j < |t| && t[j] == s[0];
      Distinct(s, 0, j + 1);
    }
  }

  /** Dropping the last element keeps a sequence free of duplicates, and the last element does not occur before. */
  lemma NoDuplicatesInit<T(!new)>(s: seq<T>)
    requires NoDuplicates(s) && |s| > 0
    ensures NoDuplicates(s[..|s| - 1]) && s[|s| - 1] !in s[..|s| - 1]
  {
    var t := s[..|s| - 1];
    forall i: nat, j: nat | i < j < |t|
      ensures Elem(t, i) != Elem(t, j)
    {
      Distinct(s, i, j);
    }
    if s[|s| - 1] in t {
      var i :| 0 <= i < |t| && t[i] == s[|s| - 1];
      Distinct(s, i, |s| - 1);
    }
  }

  /** `p` is a prefix of `s`. */
  predicate IsPrefix<T(==,!new)>(p: seq<T>, s: seq<T>) {
    |p| <= |s| && s[..|p|] == p
  }

  /** A prefix of a prefix is a prefix. */
  lemma PrefixTrans<T(!new)>(p: seq<T>, q: seq<T>, s: seq<T>)
    requires IsPrefix(p, q) && IsPrefix(q, s)
    ensures IsPrefix(p, s)
  {
    assert s[..|p|] == s[..|q|][..|p|];
  }

  /**
   * Ruby `Array#uniq`: the first occurrence of every element, in order.
   * Defined from the back so that appending one element has an obvious effect.
   */
  function Dedup<T(==,!new)>(s: seq<T>): (r: seq<T>)
    ensures forall x :: x in r <==> x in s
    ensures NoDuplicates(r)
    ensures |r| <= |s|
  {
    if |s| == 0 then []
    else
      var p := Dedup(s[..|s| - 1]);
      assert forall x :: x in s <==> x in s[..|s| - 1] || x == s[|s| - 1] by {
        assert s == s[..|s| - 1] + [s[|s| - 1]];
      }
      if s[|s| - 1] in p then p else NoDuplicatesAppend(p, s[|s| - 1]); p + [s[|s| - 1]]
  }

  /** A sequence without duplicates is its own `uniq`. */
  lemma {:induction false} DedupOfDistinct<T(!new)>(s: seq<T>)
    requires NoDuplicates(s)
    ensures Dedup(s) == s
  {
    if |s| > 0 {
      var init := s[..|s| - 1];
      NoDuplicatesInit(s);
      DedupOfDistinct(init);
      assert init + [s[|s| - 1]] == s;
    }
  }

  /** `uniq` of a longer sequence starts with `uniq` of its prefix: earlier elements keep their places. */
  lemma {:induction false} DedupPrefix<T(!new)>(a: seq<T>, b: seq<T>)
    ensures IsPrefix(Dedup(a), Dedup(a + b))
  {
    if |b| > 0 {
      var b' := b[..|b| - 1];
      DedupPrefix(a, b');
      assert (a + b)[..|a + b| - 1] == a + b';
    } else {
      assert a + b == a;
    }
  }

  /** Ruby `a | b`: union keeping first occurrences, `a`'s elements first. */
  function Union<T(==,!new)>(a: seq<T>, b: seq<T>): (r: seq<T>)
    ensures forall x :: x in r <==> x in a || x in b
    ensures NoDuplicates(r)
    ensures IsPrefix(Dedup(a), r)
  {
    DedupPrefix(a, b);
    Dedup(a + b)
  }

  /** Ruby `s - [x]`: every occurrence of `x` removed, the rest in order. */
  function Without<T(==,!new)>(s: seq<T>, x: T): (r: seq<T>)
    ensures forall y :: y in r <==> y in s && y != x
    ensures |r| <= |s|
    ensures NoDuplicates(s) ==> NoDuplicates(r)
  {
    if |s| == 0 then []
    else
      var rest := Without(s[1..], x);
      assert forall y :: y in s <==> y == s[0] || y in s[1..] by {
        assert s == [s[0]] + s[1..];
      }
      assert NoDuplicates(s) ==> NoDuplicates(s[1..]) && s[0] !in s[1..] by {
        if NoDuplicates(s) { NoDuplicatesTail(s); }
      }
      if s[0] == x then rest
      else
        assert NoDuplicates(s) ==> NoDuplicates([s[0]] + rest) by {
          if NoDuplicates(s) { NoDuplicatesCons(s[0], rest); }
        }
        [s[0]] + rest
  }

  /** `a` is `b` with some elements left out, the rest in their original order. */
  predicate IsSubsequence<T(==)>(a: seq<T>, b: seq<T>)
    decreases |b|
  {
    |a| == 0 || (|b| > 0 && ((a[0] == b[0] && IsSubsequence(a[1..], b[1..])) || IsSubsequence(a, b[1..])))
  }

  /** `x` is in `s` exactly where `Index` says, and nowhere before. */
  function Index<T(==,!new)>(s: seq<T>, x: T): (i: nat)
    requires x in s
    ensures i < |s| && s[i] == x
    ensures forall j :: 0 <= j < i ==> s[j] != x
  {
    if s[0] == x then 0 else 1 + Index(s[1..], x)
  }

  /** Looking `x` up in a longer sequence finds the same first occurrence. */
  lemma {:induction false} IndexAppend<T(!new)>(s: seq<T>, t: seq<T>, x: T)
    requires x in s
    ensures Index(s + t, x) == Index(s, x)
  {
    if s[0] != x {
      assert (s + t)[1..] == s[1..] + t;
      IndexAppend(s[1..], t, x);
    }
  }
}
