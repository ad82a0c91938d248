/** Bytes, little-endian integers and runs of equal-width integers: the wire vocabulary of the
    squashfs format. A record on disk is a concatenation of such runs. */
module Bytes {

  type Byte = b: int | 0 <= b < 256

  datatype Option<+T> = None | Some(value: T) {
    predicate IsFailure() { None? }
    function PropagateFailure<U>(): Option<U>
      requires None?
    { None }
    function Extract(): T
      requires Some?
    { value }
  }

  const WRAP32: nat := 0x1_0000_0000

  function Pow2(k: nat): (r: nat)
    ensures r > 0
  {
    if k == 0 then 1 else 2 * Pow2(k - 1)
  }

  /** 256 to the power `k`: the first value that `k` bytes cannot hold. */
  function Span(k: nat): (r: nat)
    ensures r > 0
  {
    if k == 0 then 1 else 256 * Span(k - 1)
  }

  /** The low `k` bytes of `n`, least significant first. Higher bits are dropped, as a fixed-width store does. */
  function LE(n: nat, k: nat): (s: seq<Byte>)
    ensures |s| == k
  {
    if k == 0 then [] else [n % 256] + LE(n / 256, k - 1)
  }

  function FromLE(s: seq<Byte>): nat {
    if s == [] then 0 else s[0] + 256 * FromLE(s[1..])
  }

  lemma {:induction false} LERoundTrip(n: nat, k: nat)
    requires n < Span(k)
    ensures FromLE(LE(n, k)) == n
  {
    if k > 0 {
      LERoundTrip(n / 256, k - 1);
      assert LE(n, k)[1..] == LE(n / 256, k - 1);
    }
  }

  lemma Spans()
    ensures Span(1) == 0x100
    ensures Span(2) == 0x1_0000
    ensures Span(4) == 0x1_0000_0000
    ensures Span(8) == 0x1_0000_0000_0000_0000
  {
    assert Span(1) == 256 * Span(0);
    assert Span(2) == 256 * Span(1);
    assert Span(3) == 256 * Span(2);
    assert Span(4) == 256 * Span(3);
    assert Span(5) == 256 * Span(4);
    assert Span(6) == 256 * Span(5);
    assert Span(7) == 256 * Span(6);
    assert Span(8) == 256 * Span(7);
  }

  /** The values `vs`, each on `w` little-endian bytes. */
  function Ints(vs: seq<nat>, w: nat): (s: seq<Byte>)
    ensures |s| == |vs| * w
  {
    if vs == [] then [] else LE(vs[0], w) + Ints(vs[1..], w)
  }

  /** The first `n` values of `w` bytes in `s`. */
  function UnInts(s: seq<Byte>, w: nat, n: nat): (vs: seq<nat>)
    requires |s| >= n * w
    ensures |vs| == n
  {
    if n == 0 then [] else
      assert n * w == w + (n - 1) * w;
      [FromLE(s[..w])] + UnInts(s[w..], w, n - 1)
  }

  lemma {:induction false} IntsRoundTrip(vs: seq<nat>, w: nat, rest: seq<Byte>)
    requires forall i :: 0 <= i < |vs| ==> vs[i] < Span(w)
    ensures UnInts(Ints(vs, w) + rest, w, |vs|) == vs
  {
    if vs != [] {
      var s := Ints(vs, w) + rest;
      assert s[..w] == LE(vs[0], w);
      assert s[w..] == Ints(vs[1..], w) + rest;
      LERoundTrip(vs[0], w);
      IntsRoundTrip(vs[1..], w, rest);
    }
  }

  lemma {:induction false} IntsAppend(xs: seq<nat>, ys: seq<nat>, w: nat)
    ensures Ints(xs + ys, w) == Ints(xs, w) + Ints(ys, w)
  {
    if xs == [] {
      assert xs + ys == ys;
    } else {
      assert (xs + ys)[1..] == xs[1..] + ys;
      IntsAppend(xs[1..], ys, w);
    }
  }

  lemma Assoc<T>(a: seq<T>, b: seq<T>, c: seq<T>)
    ensures (a + b) + c == a + (b + c)
  {
  }

  /** `m` is where it was put: the middle of `pre + m + post`. */
  lemma Middle<T>(pre: seq<T>, m: seq<T>, post: seq<T>)
    ensures (pre + m + post)[|pre|..|pre| + |m|] == m
  {
  }

  lemma SubsetSize<T>(a: set<T>, b: set<T>)
    requires a <= b
    ensures |a| <= |b|
  {
    assert b == a + (b - a);
  }
}
