/**
 Notions that several of the models share.
 */
module Common {

  predicate Distinct(s: seq<nat>) {
    forall i, j :: 0 <= i < j < |s| ==> s[i] != s[j]
  }

  /** The bytes of `s` stored at offset `o` of a buffer. */
  function Splice(b: seq<bv8>, o: nat, s: seq<bv8>): (r: seq<bv8>)
    requires o + |s| <= |b|
    ensures |r| == |b| && forall i :: 0 <= i < |b| ==> r[i] == if o <= i < o + |s| then s[i - o] else b[i]
  {
    b[..o] + s + b[o + |s|..]
  }

  lemma SubsetSize<T>(a: set<T>, b: set<T>)
    requires a <= b
    ensures |a| <= |b|
  {
    assert b == a + (b - a);
  }

  /** The remainder of a division is unique. */
  lemma Residue(x: nat, m: nat, q: nat, r: nat)
    requires r < m && x == m * q + r
    ensures x % m == r
  {
    var d := q - x / m;
    assert m * d == x % m - r by {
      assert m * d == m * q - m * (x / m);
    }
    Multiple(m, d);
  }

  lemma Multiple(m: nat, d: int)
    requires 0 - m < m * d < m
    ensures d == 0
  {
  }
}
