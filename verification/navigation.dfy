/**
 * Index arithmetic behind `Lightbox.prototype.next` and `Lightbox.prototype.prev`:
 * both move through the gallery with wraparound and never fail at the ends.
 */
module Navigation {

  /** The index `next` moves to from `i` in a gallery of `len` items. */
  function NextIndex(i: nat, len: nat): (r: nat)
    requires len >= 1
    ensures r < len
    ensures i < len ==> r == (i + 1) % len
  {
    if i < len - 1 then i + 1 else 0
  }

  /** The index `prev` moves to from `i` in a gallery of `len` items. */
  function PrevIndex(i: nat, len: nat): (r: nat)
    requires len >= 1
    ensures i <= len ==> r < len
    ensures i < len ==> r == (i + len - 1) % len
  {
    if i > 0 then i - 1 else len - 1
  }

  /** `prev` undoes `next`. */
  lemma PrevAfterNext(i: nat, len: nat)
    requires i < len
    ensures PrevIndex(NextIndex(i, len), len) == i
  {
  }

  /** `next` undoes `prev`. */
  lemma NextAfterPrev(i: nat, len: nat)
    requires i < len
    ensures NextIndex(PrevIndex(i, len), len) == i
  {
  }

  /** With a single item both moves stay put. */
  lemma SingleItemIsFixed(i: nat)
    requires i < 1
    ensures NextIndex(i, 1) == i && PrevIndex(i, 1) == i
  {
  }

  /** The index reached from `i` after pressing `next` `k` times. */
  function NextIndexN(i: nat, len: nat, k: nat): (r: nat)
    requires len >= 1
    decreases k
  {
    if k == 0 then i else NextIndex(NextIndexN(i, len, k - 1), len)
  }

  /** While the end is not reached, `k` presses of `next` advance the index by exactly `k`. */
  lemma {:induction false} NextIndexNAdvances(i: nat, len: nat, k: nat)
    requires i + k < len
    ensures NextIndexN(i, len, k) == i + k
    decreases k
  {
    if k > 0 {
      NextIndexNAdvances(i, len, k - 1);
    }
  }

  /** Pressing `next` `a` times and then `b` times is pressing it `a + b` times. */
  lemma {:induction false} NextIndexNCompose(i: nat, len: nat, a: nat, b: nat)
    requires len >= 1
    ensures NextIndexN(NextIndexN(i, len, a), len, b) == NextIndexN(i, len, a + b)
    decreases b
  {
    if b > 0 {
      NextIndexNCompose(i, len, a, b - 1);
    }
  }

  /** Pressing `next` once per item returns to the starting index. */
  lemma {:induction false} NextIndexCycle(i: nat, len: nat)
    requires i < len
    ensures NextIndexN(i, len, len) == i
  {
    var toLast := len - 1 - i;
    NextIndexNAdvances(i, len, toLast);
    assert NextIndexN(i, len, toLast + 1) == 0;
    NextIndexNAdvances(0, len, i);
    NextIndexNCompose(i, len, toLast + 1, i);
  }
}
