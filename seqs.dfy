/** Small facts about sequence slicing and concatenation, stated once so that proofs
    elsewhere can use them without re-deriving sequence extensionality. */
module Seqs {

  lemma Cut3<T>(s: seq<T>, i: nat, j: nat)
    requires i <= j <= |s|
    ensures s == s[..i] + s[i..j] + s[j..]
  {
  }

  lemma Assoc<T>(a: seq<T>, b: seq<T>, c: seq<T>)
    ensures a + b + c == a + (b + c)
  {
  }

  lemma AppendParts<T>(a: seq<T>, b: seq<T>)
    ensures (a + b)[..|a|] == a && (a + b)[|a|..] == b
  {
  }

  lemma DropAppend<T>(a: seq<T>, b: seq<T>, k: nat)
    requires k <= |a|
    ensures (a + b)[k..] == a[k..] + b
  {
  }

  lemma SliceOfDrop<T>(s: seq<T>, j: nat, a: nat, b: nat)
    requires a <= b && j + b <= |s|
    ensures s[j..][a..b] == s[j + a..j + b]
  {
    var u, v := s[j..][a..b], s[j + a..j + b];
    assert |u| == |v|;
    forall k | 0 <= k < |u| ensures u[k] == v[k] {
      assert u[k] == s[j..][a + k];
    }
  }

  lemma Slices3<T>(a: seq<T>, b: seq<T>, c: seq<T>)
    ensures (a + b + c)[..|a|] == a
    ensures (a + b + c)[|a|..|a| + |b|] == b
    ensures (a + b + c)[|a| + |b|..] == c
  {
  }

  lemma DropCons<T>(x: T, y: seq<T>)
    ensures ([x] + y)[1..] == y
  {
  }

  lemma ConsInitSnoc<T>(s: seq<T>, z: T)
    requires |s| >= 2
    ensures [s[0]] + (s[1..][..|s| - 2] + [z]) == s[..|s| - 1] + [z]
  {
  }

  lemma ConsDrop<T>(x: T, ys: seq<T>, k: nat)
    requires 1 <= k <= |ys| + 1
    ensures ([x] + ys)[k..] == ys[k - 1..]
  {
  }

  lemma ConsIndex<T>(x: T, ys: seq<T>, k: nat)
    requires 0 < k <= |ys|
    ensures ([x] + ys)[k] == ys[k - 1]
  {
  }

  lemma Single<T>(s: seq<T>, i: nat)
    requires i < |s|
    ensures s[i..i + 1] == [s[i]]
  {
  }

  lemma AppendEmpty<T>(a: seq<T>)
    ensures a + [] == a && [] + a == a
  {
  }

  lemma TakeAll<T>(s: seq<T>)
    ensures s[..|s|] == s && s[0..] == s
  {
  }

  lemma TakePrefix<T>(s: seq<T>, i: nat, j: nat)
    requires i <= j <= |s|
    ensures s[..j][..i] == s[..i]
  {
  }

  lemma DropLast<T>(s: seq<T>, x: T)
    ensures (s + [x])[..|s|] == s && (s + [x])[|s|] == x
  {
  }

  lemma HeadTail<T>(s: seq<T>)
    requires s != []
    ensures s == [s[0]] + s[1..]
  {
  }

  lemma InitLast<T>(s: seq<T>)
    requires s != []
    ensures s == s[..|s| - 1] + [s[|s| - 1]]
  {
  }

  lemma NonEmptyAppend<T>(a: seq<T>, b: seq<T>)
    requires a != []
    ensures a + b != [] && b + a != []
  {
    assert |a + b| == |a| + |b|;
    assert |b + a| == |b| + |a|;
  }

  lemma ConsSnoc<T>(x: T, a: seq<T>, y: T)
    ensures [x] + (a + [y]) == ([x] + a) + [y]
  {
  }

  /** Inserting `x` at `p` leaves the elements before `p` in place, and the tail from
      `k <= p` on has `x` inserted at `p - k`. */
  lemma InsertAt<T>(s: seq<T>, p: nat, x: seq<T>, k: nat)
    requires k <= p <= |s|
    ensures forall i :: 0 <= i < k ==> (s[..p] + x + s[p..])[i] == s[i]
    ensures (s[..p] + x + s[p..])[k..] == s[k..][..p - k] + x + s[k..][p - k..]
  {
  }

  lemma TailOfInit<T>(s: seq<T>)
    requires |s| >= 2
    ensures s[1..] == s[..|s| - 1][1..] + [s[|s| - 1]]
  {
  }
}
