/** Sequence facts the packer relies on: order-preserving deletion (subsequences)
    and Python's `list.remove`. */
module Seqs {

  /** `a` can be obtained from `b` by deleting elements, keeping the order of the rest. */
  predicate IsSubseq<T(==)>(a: seq<T>, b: seq<T>)
    decreases |b|
  {
    if b == [] then a == []
    else
      IsSubseq(a, b[..|b| - 1]) ||
      (a != [] && a[|a| - 1] == b[|b| - 1] && IsSubseq(a[..|a| - 1], b[..|b| - 1]))
  }

  lemma {:induction false} SubseqEmpty<T>(b: seq<T>)
    ensures IsSubseq([], b)
    decreases |b|
  {
    if b != [] {
      SubseqEmpty(b[..|b| - 1]);
    }
  }

  lemma {:induction false} SubseqRefl<T>(a: seq<T>)
    ensures IsSubseq(a, a)
    decreases |a|
  {
    if a != [] {
      SubseqRefl(a[..|a| - 1]);
    }
  }

  lemma SubseqExtend<T>(a: seq<T>, b: seq<T>, x: T)
    requires IsSubseq(a, b)
    ensures IsSubseq(a, b + [x])
  {
    assert (b + [x])[..|b|] == b;
  }

  lemma SubseqAppendBoth<T>(a: seq<T>, b: seq<T>, x: T)
    requires IsSubseq(a, b)
    ensures IsSubseq(a + [x], b + [x])
  {
    assert (b + [x])[..|b|] == b;
    assert (a + [x])[..|a|] == a;
  }

  /** Every element of a subsequence occurs in the larger sequence. */
  lemma {:induction false} SubseqMembers<T>(a: seq<T>, b: seq<T>)
    requires IsSubseq(a, b)
    ensures forall x :: x in a ==> x in b
    decreases |b|
  {
    if b != [] {
      var b' := b[..|b| - 1];
      if IsSubseq(a, b') {
        SubseqMembers(a, b');
      } else {
        var a' := a[..|a| - 1];
        SubseqMembers(a', b');
        assert a == a' + [a[|a| - 1]];
        assert b == b' + [b[|b| - 1]];
      }
    }
  }

  lemma {:induction false} SubseqTrans<T>(a: seq<T>, b: seq<T>, c: seq<T>)
    requires IsSubseq(a, b) && IsSubseq(b, c)
    ensures IsSubseq(a, c)
    decreases |c|
  {
    if c == [] {
      assert b == [] && a == [];
    } else {
      var c' := c[..|c| - 1];
      if IsSubseq(b, c') {
        SubseqTrans(a, b, c');
      } else {
        var b' := b[..|b| - 1];
        if IsSubseq(a, b') {
          SubseqTrans(a, b', c');
        } else {
          SubseqTrans(a[..|a| - 1], b', c');
        }
      }
    }
  }

  /** Deleting one position keeps the rest in order. */
  lemma {:induction false} SubseqDelete<T>(p: seq<T>, x: T, q: seq<T>)
    ensures IsSubseq(p + q, p + [x] + q)
    decreases |q|
  {
    if q == [] {
      SubseqRefl(p);
      SubseqExtend(p, p, x);
      assert p + q == p;
      assert p + [x] + q == p + [x];
    } else {
      var q' := q[..|q| - 1];
      var t := q[|q| - 1];
      SubseqDelete(p, x, q');
      SubseqAppendBoth(p + q', p + [x] + q', t);
      assert p + q == (p + q') + [t];
      assert p + [x] + q == (p + [x] + q') + [t];
    }
  }

  /** Position of the first occurrence of `x` in `s`. */
  function IndexOf<T(==)>(s: seq<T>, x: T): (i: nat)
    requires x in s
    ensures i < |s| && s[i] == x && x !in s[..i]
  {
    if s[0] == x then 0
    else
      var j := IndexOf(s[1..], x);
      assert s[1..][..j] == s[1..j + 1];
      assert s[..j + 1] == [s[0]] + s[1..j + 1];
      j + 1
  }

  /** Python's `list.remove(x)`: deletes the first occurrence of `x`. Python raises
      `ValueError` when `x` is absent; every caller here removes an element it knows
      is present. */
  function Remove<T(==)>(s: seq<T>, x: T): (r: seq<T>)
    requires x in s
    ensures |r| == |s| - 1
    ensures multiset(r) == multiset(s) - multiset{x}
    ensures IsSubseq(r, s)
    ensures var i := IndexOf(s, x); r == s[..i] + s[i + 1..]
  {
    var i := IndexOf(s, x);
    assert s == s[..i] + [x] + s[i + 1..];
    SubseqDelete(s[..i], x, s[i + 1..]);
    s[..i] + s[i + 1..]
  }

  lemma RemoveHead<T>(s: seq<T>)
    requires s != []
    ensures Remove(s, s[0]) == s[1..]
  {
    assert IndexOf(s, s[0]) == 0;
  }

  /** Taking the head off a pending list keeps it within the list it is drawn from,
      whether or not that head is also removed there. */
  lemma PendingAfterStep<T>(todo: seq<T>, rem: seq<T>)
    requires todo != [] && multiset(todo) <= multiset(rem)
    ensures todo[0] in rem
    ensures multiset(todo[1..]) <= multiset(rem)
    ensures multiset(todo[1..]) <= multiset(Remove(rem, todo[0]))
  {
    assert todo == [todo[0]] + todo[1..];
    assert todo[0] in multiset(todo);
  }

  /** Moving the head of `todo` to the end of `done` leaves their concatenation as it was. */
  lemma ShiftHead<T>(done: seq<T>, todo: seq<T>)
    requires todo != []
    ensures (done + [todo[0]]) + todo[1..] == done + todo
  {
    assert todo == [todo[0]] + todo[1..];
  }
}
