/** The loop shape shared by the three handlers of backend/main.py: walk the
    `items` of a list document in order, append what each item contributes
    (possibly nothing) to an accumulator list, and answer the 500 error as soon
    as one item raises. */
module Accumulation {
  import opened Kube

  /** The accumulator after the loop has visited all of `items`. */
  function Accumulate<A, B>(items: seq<A>, step: A -> Result<seq<B>>): Result<seq<B>>
    decreases |items|
  {
    if items == [] then Ok([])
    else
      var front := Accumulate(items[..|items| - 1], step);
      var last := step(items[|items| - 1]);
      if front.ServerError? || last.ServerError? then ServerError
      else Ok(front.value + last.value)
  }

  /** One more loop iteration: what a loop invariant `Accumulate(items[..i], step)`
      needs to advance. */
  lemma AccumulateStep<A, B>(items: seq<A>, step: A -> Result<seq<B>>, i: nat)
    requires i < |items|
    ensures Accumulate(items[..i + 1], step)
         == if Accumulate(items[..i], step).ServerError? || step(items[i]).ServerError? then ServerError
            else Ok(Accumulate(items[..i], step).value + step(items[i]).value)
  {
    assert items[..i + 1][..i] == items[..i];
  }

  /** The loop fails exactly when some item's step fails. */
  lemma {:induction false} AccumulateFails<A, B>(items: seq<A>, step: A -> Result<seq<B>>)
    ensures Accumulate(items, step).ServerError? <==> exists i :: 0 <= i < |items| && step(items[i]).ServerError?
  {
    if items != [] {
      var front := items[..|items| - 1];
      AccumulateFails(front, step);
      assert forall i :: 0 <= i < |front| ==> front[i] == items[i];
    }
  }

  /** One failing item is enough. */
  lemma AccumulateFailsAt<A, B>(items: seq<A>, step: A -> Result<seq<B>>, i: nat)
    requires i < |items| && step(items[i]).ServerError?
    ensures Accumulate(items, step).ServerError?
  {
    AccumulateFails(items, step);
  }

  /** Running the loop over two lists one after the other is running it over
      their concatenation: the items' contributions keep their order. */
  lemma {:induction false} AccumulateConcat<A, B>(a: seq<A>, b: seq<A>, step: A -> Result<seq<B>>)
    ensures Accumulate(a + b, step)
         == if Accumulate(a, step).ServerError? || Accumulate(b, step).ServerError? then ServerError
            else Ok(Accumulate(a, step).value + Accumulate(b, step).value)
  {
    if b == [] {
      assert a + b == a;
      if Accumulate(a, step).Ok? {
        assert Accumulate(a, step).value + [] == Accumulate(a, step).value;
      }
    } else {
      var n := |b| - 1;
      AccumulateConcat(a, b[..n], step);
      assert (a + b)[..|a + b| - 1] == a + b[..n];
      assert (a + b)[|a + b| - 1] == b[n];
      if Accumulate(a, step).Ok? && Accumulate(b, step).Ok? {
        var x, y, z := Accumulate(a, step).value, Accumulate(b[..n], step).value, step(b[n]).value;
        assert x + (y + z) == (x + y) + z;
      }
    }
  }

  /** Item `i`'s contribution is one contiguous block, right after the
      contributions of the items before it. */
  lemma AccumulateBlock<A, B>(items: seq<A>, step: A -> Result<seq<B>>, i: nat)
    requires Accumulate(items, step).Ok? && i < |items|
    ensures Accumulate(items[..i], step).Ok? && step(items[i]).Ok?
    ensures |Accumulate(items[..i], step).value| + |step(items[i]).value| <= |Accumulate(items, step).value|
    ensures Accumulate(items, step).value[|Accumulate(items[..i], step).value|..|Accumulate(items[..i], step).value| + |step(items[i]).value|]
         == step(items[i]).value
  {
    assert items == items[..i + 1] + items[i + 1..];
    AccumulateConcat(items[..i + 1], items[i + 1..], step);
    AccumulateStep(items, step, i);
    var pre, block, rest := Accumulate(items[..i], step).value, step(items[i]).value, Accumulate(items[i + 1..], step).value;
    assert Accumulate(items, step).value == pre + block + rest;
    assert (pre + block + rest)[|pre|..|pre| + |block|] == block;
  }

  /** When the loop succeeds, every item's step succeeded, and so did the loop
      over every prefix; element `k` of item `i`'s contribution sits at offset
      `k` after the contributions of the items before it. */
  lemma AccumulateAt<A, B>(items: seq<A>, step: A -> Result<seq<B>>, i: nat, k: nat)
    requires Accumulate(items, step).Ok? && i < |items|
    ensures step(items[i]).Ok? && Accumulate(items[..i], step).Ok?
    ensures k < |step(items[i]).value| ==>
      && |Accumulate(items[..i], step).value| + k < |Accumulate(items, step).value|
      && Accumulate(items, step).value[|Accumulate(items[..i], step).value| + k] == step(items[i]).value[k]
  {
    AccumulateBlock(items, step, i);
    if k < |step(items[i]).value| {
      var off := |Accumulate(items[..i], step).value|;
      var block := step(items[i]).value;
      assert Accumulate(items, step).value[off..off + |block|][k] == block[k];
    }
  }

  /** A value is in the accumulator exactly when some item contributed it. */
  lemma {:induction false} AccumulateMembers<A, B>(items: seq<A>, step: A -> Result<seq<B>>, x: B)
    requires Accumulate(items, step).Ok?
    ensures x in Accumulate(items, step).value <==> exists i :: 0 <= i < |items| && step(items[i]).Ok? && x in step(items[i]).value
  {
    if items != [] {
      var front := items[..|items| - 1];
      AccumulateMembers(front, step, x);
      assert forall i :: 0 <= i < |front| ==> front[i] == items[i];
    }
  }
}
