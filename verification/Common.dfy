/** Small shared vocabulary: bytes, optional values, and subsequences. */
module Common {

  datatype Option<+T> = None | Some(value: T)

  type byte = b: int | 0 <= b < 256

  /** A KISS frame in its raw form, without its FENDs and with its escapes. */
  type Frame = seq<byte>

  function Min(a: int, b: int): int {
    if a <= b then a else b
  }

  /** `a` can be obtained from `b` by deleting elements: same order, nothing
      changed, and no element of `b` used twice. */
  ghost predicate Subseq<T>(a: seq<T>, b: seq<T>)
    decreases |b|
  {
    if |a| == 0 then true
    else if |b| == 0 then false
    else
      || (a[|a| - 1] == b[|b| - 1] && Subseq(a[..|a| - 1], b[..|b| - 1]))
      || Subseq(a, b[..|b| - 1])
  }

  lemma SubseqGrow<T>(a: seq<T>, b: seq<T>, x: T)
    requires Subseq(a, b)
    ensures Subseq(a, b + [x])
    ensures Subseq(a + [x], b + [x])
  {
    assert (b + [x])[..|b|] == b;
    assert (a + [x])[..|a|] == a;
  }

  lemma {:induction false} SubseqRefl<T>(a: seq<T>)
    ensures Subseq(a, a)
    decreases |a|
  {
    if |a| > 0 { SubseqRefl(a[..|a| - 1]); }
  }

  /** Deleting one more element keeps it a subsequence. */
  lemma {:induction false} SubseqDelete<T>(x: seq<T>, y: T, z: seq<T>, b: seq<T>)
    requires Subseq(x + [y] + z, b)
    ensures Subseq(x + z, b)
    decreases |b|
  {
    var a := x + [y] + z;
    var b' := b[..|b| - 1];
    if a[|a| - 1] == b[|b| - 1] && Subseq(a[..|a| - 1], b') {
      if |z| == 0 {
        assert a[..|a| - 1] == x == x + z;
        SubseqGrow(x, b', b[|b| - 1]);
        assert b' + [b[|b| - 1]] == b;
      } else {
        var z' := z[..|z| - 1];
        assert a[..|a| - 1] == x + [y] + z';
        SubseqDelete(x, y, z', b');
        assert (x + z)[..|x + z| - 1] == x + z';
      }
    } else {
      SubseqDelete(x, y, z, b');
    }
  }

  /** Deleting a whole tail keeps it a subsequence. */
  lemma {:induction false} SubseqCut<T>(x: seq<T>, z: seq<T>, b: seq<T>)
    requires Subseq(x + z, b)
    ensures Subseq(x, b)
    decreases |z|
  {
    if |z| == 0 {
      assert x + z == x;
    } else {
      assert x + z == x + [z[0]] + z[1..];
      SubseqDelete(x, z[0], z[1..], b);
      SubseqCut(x, z[1..], b);
    }
  }

  /** A subsequence drawn position by position. */
  ghost predicate Embeds<T>(a: seq<T>, b: seq<T>, at: seq<nat>) {
    && |at| == |a|
    && (forall i :: 0 <= i < |a| ==> at[i] < |b| && a[i] == b[at[i]])
    && (forall i, j :: 0 <= i < j < |a| ==> at[i] < at[j])
  }

  /** The recursive definition means what it should: there is a strictly
      increasing choice of positions of `b` that spells `a`. */
  lemma {:induction false} SubseqEmbeds<T>(a: seq<T>, b: seq<T>) returns (at: seq<nat>)
    requires Subseq(a, b)
    ensures Embeds(a, b, at)
    decreases |b|
  {
    if |a| == 0 {
      at := [];
    } else if a[|a| - 1] == b[|b| - 1] && Subseq(a[..|a| - 1], b[..|b| - 1]) {
      var at' := SubseqEmbeds(a[..|a| - 1], b[..|b| - 1]);
      at := at' + [|b| - 1];
    } else {
      at := SubseqEmbeds(a, b[..|b| - 1]);
    }
  }
}
