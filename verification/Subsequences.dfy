/** Order-preserving selection: what remains of a sequence after some elements are lost. */
module Subsequences {

  /** `a` can be obtained from `b` by deleting elements. */
  ghost predicate IsSubseq<T(!new)>(a: seq<T>, b: seq<T>) {
    a == [] || (b != [] && ((a[0] == b[0] && IsSubseq(a[1..], b[1..])) || IsSubseq(a, b[1..])))
  }

  lemma {:induction false} AppendBoth<T(!new)>(a: seq<T>, b: seq<T>, x: T)
    requires IsSubseq(a, b)
    ensures IsSubseq(a + [x], b + [x])
    decreases |b|
  {
    if b == [] {
      assert a + [x] == [x] && b + [x] == [x];
      assert IsSubseq([x][1..], [x][1..]);
    } else {
      assert (b + [x])[1..] == b[1..] + [x];
      if a == [] {
        AppendBoth(a, b[1..], x);
      } else if a[0] == b[0] && IsSubseq(a[1..], b[1..]) {
        AppendBoth(a[1..], b[1..], x);
        assert (a + [x])[1..] == a[1..] + [x];
      } else {
        AppendBoth(a, b[1..], x);
      }
    }
  }

  lemma {:induction false} AppendRight<T(!new)>(a: seq<T>, b: seq<T>, x: T)
    requires IsSubseq(a, b)
    ensures IsSubseq(a, b + [x])
    decreases |b|
  {
    if a != [] {
      assert (b + [x])[1..] == b[1..] + [x];
      if a[0] == b[0] && IsSubseq(a[1..], b[1..]) {
        AppendRight(a[1..], b[1..], x);
      } else {
        AppendRight(a, b[1..], x);
      }
    }
  }

  /** Deleting one more element keeps the relation. */
  lemma {:induction false} DropOne<T(!new)>(u: seq<T>, x: T, v: seq<T>, b: seq<T>)
    requires IsSubseq(u + [x] + v, b)
    ensures IsSubseq(u + v, b)
    decreases |b|
  {
    var a := u + [x] + v;
    if a[0] == b[0] && IsSubseq(a[1..], b[1..]) {
      if u == [] {
        assert a[1..] == v && u + v == v;
        if v != [] { assert IsSubseq(v, b[1..]); }
      } else {
        assert a[1..] == u[1..] + [x] + v;
        DropOne(u[1..], x, v, b[1..]);
        assert (u + v)[1..] == u[1..] + v;
      }
    } else {
      DropOne(u, x, v, b[1..]);
    }
  }

  lemma {:induction false} Reflexive<T(!new)>(a: seq<T>)
    ensures IsSubseq(a, a)
  {
    if a != [] { Reflexive(a[1..]); }
  }

  lemma {:induction false} LengthBound<T(!new)>(a: seq<T>, b: seq<T>)
    requires IsSubseq(a, b)
    ensures |a| <= |b|
    decreases |b|
  {
    if a != [] {
      if a[0] == b[0] && IsSubseq(a[1..], b[1..]) { LengthBound(a[1..], b[1..]); }
      else { LengthBound(a, b[1..]); }
    }
  }

  /** Nothing was lost exactly when the lengths agree. */
  lemma {:induction false} FullLength<T(!new)>(a: seq<T>, b: seq<T>)
    requires IsSubseq(a, b)
    ensures a == b <==> |a| == |b|
    decreases |b|
  {
    if |a| == |b| && a != [] {
      if a[0] == b[0] && IsSubseq(a[1..], b[1..]) { FullLength(a[1..], b[1..]); }
      else { LengthBound(a, b[1..]); }
    }
  }

  lemma {:induction false} Transitive<T(!new)>(a: seq<T>, b: seq<T>, c: seq<T>)
    requires IsSubseq(a, b) && IsSubseq(b, c)
    ensures IsSubseq(a, c)
    decreases |c|
  {
    if a != [] {
      if b[0] == c[0] && IsSubseq(b[1..], c[1..]) {
        if a[0] == b[0] && IsSubseq(a[1..], b[1..]) {
          Transitive(a[1..], b[1..], c[1..]);
        } else {
          Transitive(a, b[1..], c[1..]);
        }
      } else {
        Transitive(a, b, c[1..]);
      }
    }
  }

  /** A prefix of a subsequence is a subsequence. */
  lemma {:induction false} Prefix<T(!new)>(a: seq<T>, b: seq<T>, c: seq<T>)
    requires a <= b && IsSubseq(b, c)
    ensures IsSubseq(a, c)
    decreases |c|
  {
    if a != [] {
      if b[0] == c[0] && IsSubseq(b[1..], c[1..]) { Prefix(a[1..], b[1..], c[1..]); }
      else { Prefix(a, b, c[1..]); }
    }
  }

  /** Where each element of a subsequence comes from. */
  lemma {:induction false} Positions<T(!new)>(a: seq<T>, b: seq<T>) returns (at: seq<nat>)
    requires IsSubseq(a, b)
    ensures |at| == |a| && (forall i :: 0 <= i < |a| ==> at[i] < |b| && b[at[i]] == a[i])
    ensures forall i, j :: 0 <= i < j < |at| ==> at[i] < at[j]
    decreases |b|
  {
    if a == [] { return []; }
    var rest: seq<nat>;
    if a[0] == b[0] && IsSubseq(a[1..], b[1..]) {
      rest := Positions(a[1..], b[1..]);
      at := [0] + seq(|rest|, i requires 0 <= i < |rest| => rest[i] + 1);
    } else {
      rest := Positions(a, b[1..]);
      at := seq(|rest|, i requires 0 <= i < |rest| => rest[i] + 1);
    }
  }
}
