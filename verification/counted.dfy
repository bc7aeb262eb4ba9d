/** Decoding a known number of consecutive items from one cursor, as
    `(0..n).map(|_| Item::deserialize(cursor)).try_collect()` does: the items
    are decoded in order, each starting where the previous one ended, and the
    first failing item ends the whole sequence with its failure. */
module Counted {
  import opened Bytes
  import opened Cursor

  /** The first `n` items starting at `p`. */
  function Repeat<T>(item: (seq<u8>, nat) -> Decoded<T>, d: seq<u8>, p: nat, n: nat): (r: Decoded<seq<T>>)
    ensures r.Done? ==> |r.value| == n
    decreases n
  {
    if n == 0 then Done([], p)
    else
      var prev :- Repeat(item, d, p, n - 1);
      var x :- item(d, prev.next);
      Done(prev.value + [x.value], x.next)
  }

  /** A section: a compact count at `p`, then that many items. */
  function CountedAt<T>(item: (seq<u8>, nat) -> Decoded<T>, d: seq<u8>, p: nat): (r: Decoded<seq<T>>)
    ensures r.Done? ==> CompactLengthAt(d, p).Done? && |r.value| == CompactLengthAt(d, p).value
  {
    var n :- CompactLengthAt(d, p);
    Repeat(item, d, n.next, n.value)
  }

  /** One more item of `n`: it extends a decoded prefix, or its failure
      becomes the failure of the whole sequence. */
  lemma RepeatStep<T>(item: (seq<u8>, nat) -> Decoded<T>, d: seq<u8>, p: nat, i: nat, n: nat, acc: seq<T>, q: nat)
    requires i < n && Repeat(item, d, p, i) == Done(acc, q)
    ensures item(d, q).Done? ==> Repeat(item, d, p, i + 1) == Done(acc + [item(d, q).value], item(d, q).next)
    ensures item(d, q).Failed? ==> Repeat(item, d, p, n) == Failed(item(d, q).error, item(d, q).next)
  {
    if item(d, q).Failed? {
      FailurePersists(item, d, p, i + 1, n);
    }
  }

  /** Once an item has failed, decoding more items changes nothing: the
      failure of the first failing item is the failure of the sequence. */
  lemma {:induction false} FailurePersists<T>(item: (seq<u8>, nat) -> Decoded<T>, d: seq<u8>, p: nat, i: nat, n: nat)
    requires i <= n && Repeat(item, d, p, i).Failed?
    ensures Repeat(item, d, p, n) == Repeat(item, d, p, i)
    decreases n
  {
    if n > i {
      FailurePersists(item, d, p, i, n - 1);
    }
  }

  /** A decoded sequence of `n` items begins with the decoded sequence of its
      first `i` items. */
  lemma {:induction false} PrefixDecoded<T>(item: (seq<u8>, nat) -> Decoded<T>, d: seq<u8>, p: nat, i: nat, n: nat)
    requires i <= n && Repeat(item, d, p, n).Done?
    ensures Repeat(item, d, p, i).Done?
    ensures Repeat(item, d, p, i).value == Repeat(item, d, p, n).value[..i]
    decreases n
  {
    if n > i {
      var prev := Repeat(item, d, p, n - 1);
      PrefixDecoded(item, d, p, i, n - 1);
      assert Repeat(item, d, p, n).value[..n - 1] == prev.value;
      assert Repeat(item, d, p, n).value[..i] == prev.value[..i];
    } else {
      assert Repeat(item, d, p, n).value[..n] == Repeat(item, d, p, n).value;
    }
  }

  /** The `i`-th item of a decoded sequence is the item decoded where the
      first `i` items end, and the next item starts where it ends. */
  lemma ItemAt<T>(item: (seq<u8>, nat) -> Decoded<T>, d: seq<u8>, p: nat, i: nat, n: nat)
    requires i < n && Repeat(item, d, p, n).Done?
    ensures Repeat(item, d, p, i).Done? && item(d, Repeat(item, d, p, i).next).Done?
    ensures Repeat(item, d, p, n).value[i] == item(d, Repeat(item, d, p, i).next).value
    ensures Repeat(item, d, p, i + 1).next == item(d, Repeat(item, d, p, i).next).next
  {
    PrefixDecoded(item, d, p, i + 1, n);
    PrefixDecoded(item, d, p, i, n);
    var r := Repeat(item, d, p, n).value;
    assert Repeat(item, d, p, i + 1).value[i] == r[..i + 1][i] == r[i];
  }

  /** The sequence fails exactly when some item fails after all items before
      it were decoded, and then it fails as that item does. */
  lemma FailsAtFirstFailingItem<T>(item: (seq<u8>, nat) -> Decoded<T>, d: seq<u8>, p: nat, n: nat)
    ensures Repeat(item, d, p, n).Failed? <==>
      exists i :: 0 <= i < n && Repeat(item, d, p, i).Done? && item(d, Repeat(item, d, p, i).next).Failed?
    ensures Repeat(item, d, p, n).Failed? ==>
      exists i :: 0 <= i < n && Repeat(item, d, p, i).Done? && item(d, Repeat(item, d, p, i).next).Failed?
        && Repeat(item, d, p, n) == item(d, Repeat(item, d, p, i).next).PropagateFailure()
  {
    if Repeat(item, d, p, n).Failed? {
      var i := FirstFailure(item, d, p, n);
      FailurePersists(item, d, p, i + 1, n);
    } else {
      forall i | 0 <= i < n && Repeat(item, d, p, i).Done?
        ensures item(d, Repeat(item, d, p, i).next).Done?
      {
        ItemAt(item, d, p, i, n);
      }
    }
  }

  /** The index of the item whose failure ends a failed sequence. */
  lemma {:induction false} FirstFailure<T>(item: (seq<u8>, nat) -> Decoded<T>, d: seq<u8>, p: nat, n: nat)
    returns (i: nat)
    requires Repeat(item, d, p, n).Failed?
    ensures i < n && Repeat(item, d, p, i).Done? && item(d, Repeat(item, d, p, i).next).Failed?
    ensures Repeat(item, d, p, i + 1) == item(d, Repeat(item, d, p, i).next).PropagateFailure()
    decreases n
  {
    if Repeat(item, d, p, n - 1).Failed? {
      i := FirstFailure(item, d, p, n - 1);
    } else {
      i := n - 1;
    }
  }

  /** When every item takes exactly `w` bytes whenever that many remain, `n`
      items take exactly `n * w` bytes, and fail only for want of them. */
  lemma {:induction false} FixedWidthItems<T>(item: (seq<u8>, nat) -> Decoded<T>, w: nat, d: seq<u8>, p: nat, n: nat)
    requires forall q: nat :: item(d, q).Done? <==> q + w <= |d|
    requires forall q: nat :: item(d, q).Done? ==> item(d, q).next == q + w
    requires forall q: nat :: item(d, q).Failed? ==> item(d, q).error == UnexpectedEof
    ensures Repeat(item, d, p, n).Done? <==> n == 0 || p + n * w <= |d|
    ensures Repeat(item, d, p, n).Done? ==> Repeat(item, d, p, n).next == p + n * w
    ensures Repeat(item, d, p, n).Failed? ==> Repeat(item, d, p, n).error == UnexpectedEof
    decreases n
  {
    if n > 0 {
      FixedWidthItems(item, w, d, p, n - 1);
      assert (n - 1) * w + w == n * w;
    }
  }
}
