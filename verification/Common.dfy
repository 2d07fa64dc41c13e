module Common {
  datatype Option<+T> = None | Some(value: T)

  lemma SubsetSize<T>(a: set<T>, b: set<T>)
    requires a <= b
    ensures |a| <= |b|
  {
    assert b == a + (b - a);
  }

  /** memmove() of bytes to offset off of a block or page. */
  function Splice<T>(block: seq<T>, off: nat, bytes: seq<T>): (r: seq<T>)
    requires off + |bytes| <= |block|
    ensures |r| == |block|
  {
    seq(|block|, k requires 0 <= k < |block| => if off <= k < off + |bytes| then bytes[k - off] else block[k])
  }
}
