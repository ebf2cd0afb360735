/** The pull direction: a Site reads a committed object block by block from any offset. */
module MediaPull {
  import opened Wrappers
  import opened Digests

  datatype Block = Block(bytes: seq<Byte>, next: nat)

  /** One answer of the content endpoint; None is the refusal of an offset past the end. */
  function Answer(media: seq<Byte>, offset: nat, blockSize: nat): Option<Block> {
    if offset > |media| then None
    else
      var count := if blockSize < |media| - offset then blockSize else |media| - offset;
      Some(Block(media[offset..offset + count], offset + count))
  }

  /** An answer starts where it was asked to, is as long as the block size and the object's end allow, and names where it stopped. */
  lemma AnswerExactly(media: seq<Byte>, offset: nat, blockSize: nat)
    ensures Answer(media, offset, blockSize).None? <==> offset > |media|
    ensures offset <= |media| ==>
      var block := Answer(media, offset, blockSize).value;
      && block.next == offset + |block.bytes| <= |media| && block.bytes == media[offset..block.next]
      && |block.bytes| <= blockSize && (|block.bytes| == blockSize || block.next == |media|)
  {}

  /** k is n divided by d, rounded up. */
  predicate IsCeiling(k: nat, n: nat, d: nat) {
    n <= k * d && (k > 0 ==> (k - 1) * d < n)
  }

  lemma OneMoreBlock(k: nat, d: nat)
    ensures (k + 1) * d == k * d + d
  {}

  /** Following the returned offsets reassembles exactly the rest of the object, in ceil(rest / block) pulls. */
  method PullRest(media: seq<Byte>, offset: nat, blockSize: nat) returns (received: seq<Byte>, pulls: nat)
    requires offset <= |media| && blockSize > 0
    ensures received == media[offset..]
    ensures IsCeiling(pulls, |media| - offset, blockSize)
  {
    received, pulls := [], 0;
    var at := offset;
    while at < |media|
      invariant offset <= at <= |media| && received == media[offset..at]
      invariant at < |media| ==> at - offset == pulls * blockSize
      invariant IsCeiling(pulls, at - offset, blockSize)
    {
      var answer := Answer(media, at, blockSize);
      OneMoreBlock(pulls, blockSize);
      received := received + answer.value.bytes;
      at := answer.value.next;
      pulls := pulls + 1;
    }
  }
}
