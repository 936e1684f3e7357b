/** The chained block loops of CryptoConfig.h, for any way of mixing a byte with a key byte and the cipher byte one
    block earlier. */
module BlockChain {

  const BLOCK := 16

  /** The key stream comes in blocks of sixteen bytes; `key` is the same stream byte by byte. */
  ghost predicate StreamOf<B(!new)>(key: nat -> B, keyBlock: nat -> seq<B>) {
    forall n: nat :: KeyBlockAt(key, n, keyBlock(n))
  }

  ghost predicate KeyBlockAt<B(!new)>(key: nat -> B, n: nat, stream: seq<B>) {
    |stream| == BLOCK && forall i: nat :: i < BLOCK ==> stream[i] == key(n * 16 + i)
  }

  ghost predicate ByteStreamOf<B(!new)>(key: nat -> B, keyBlock: nat -> seq<B>) {
    && (forall n: nat :: |keyBlock(n)| == BLOCK)
    && (forall k: nat :: key(k) == keyBlock(k / BLOCK)[k % BLOCK])
  }

  lemma StreamIndex(n: nat, i: nat)
    requires i < BLOCK
    ensures (n * 16 + i) / BLOCK == n && (n * 16 + i) % BLOCK == i
  {
  }

  lemma StreamBlock<B(!new)>(key: nat -> B, keyBlock: nat -> seq<B>, n: nat, i: nat)
    requires ByteStreamOf(key, keyBlock) && i < BLOCK
    ensures keyBlock(n)[i] == key(n * 16 + i)
  {
    StreamIndex(n, i);
    var k := n * 16 + i;
    assert key(k) == keyBlock(k / BLOCK)[k % BLOCK];
  }

  lemma StreamBlocks<B(!new)>(key: nat -> B, keyBlock: nat -> seq<B>)
    requires ByteStreamOf(key, keyBlock)
    ensures StreamOf(key, keyBlock)
  {
    forall n: nat ensures KeyBlockAt(key, n, keyBlock(n)) {
      forall i: nat | i < BLOCK ensures keyBlock(n)[i] == key(n * 16 + i) {
        StreamBlock(key, keyBlock, n, i);
      }
    }
  }

  /** The byte one block earlier in the cipher text, or the IV's in the first block. */
  function Previous<B>(cipher: seq<B>, iv: seq<B>, i: nat): B
    requires if i < BLOCK then i < |iv| else i - BLOCK < |cipher|
  {
    if i < BLOCK then iv[i] else cipher[i - BLOCK]
  }

  function Encipher<B>(mix: (B, B, B) -> B, plain: seq<B>, iv: seq<B>, key: nat -> B): (cipher: seq<B>)
    requires |iv| == BLOCK
    ensures |cipher| == |plain|
  {
    if plain == [] then [] else
    var n := |plain| - 1;
    var before := Encipher(mix, plain[..n], iv, key);
    before + [mix(plain[n], key(n), Previous(before, iv, n))]
  }

  function Decipher<B>(mix: (B, B, B) -> B, cipher: seq<B>, iv: seq<B>, key: nat -> B): (plain: seq<B>)
    requires |cipher| <= |iv| || |iv| >= BLOCK
    ensures |plain| == |cipher|
  {
    seq(|cipher|, i requires 0 <= i < |cipher| => mix(cipher[i], key(i), Previous(cipher, iv, i)))
  }

  /** The equations of the chain, for the first bytes of a cipher text. */
  ghost predicate Chained<B>(mix: (B, B, B) -> B, plain: seq<B>, cipher: seq<B>, iv: seq<B>, key: nat -> B)
    requires |iv| == BLOCK
  {
    && |cipher| <= |plain|
    && (forall k: nat :: k < |cipher| ==> cipher[k] == mix(plain[k], key(k), Previous(cipher, iv, k)))
  }

  lemma {:induction false} EncipherChains<B>(mix: (B, B, B) -> B, plain: seq<B>, iv: seq<B>, key: nat -> B)
    requires |iv| == BLOCK
    ensures Chained(mix, plain, Encipher(mix, plain, iv, key), iv, key)
  {
    if plain != [] {
      var n := |plain| - 1;
      var before, cipher := Encipher(mix, plain[..n], iv, key), Encipher(mix, plain, iv, key);
      EncipherChains(mix, plain[..n], iv, key);
      forall k: nat | k <= n ensures cipher[k] == mix(plain[k], key(k), Previous(cipher, iv, k)) {
        assert Previous(cipher, iv, k) == Previous(before, iv, k);
        assert k < n ==> cipher[k] == before[k];
      }
    }
  }

  lemma {:induction false} ChainAgrees<B>(mix: (B, B, B) -> B, plain: seq<B>, c: seq<B>, d: seq<B>, iv: seq<B>,
                                          key: nat -> B, k: nat)
    requires |iv| == BLOCK && k < |c| && k < |d|
    requires Chained(mix, plain, c, iv, key) && Chained(mix, plain, d, iv, key)
    ensures c[k] == d[k]
  {
    if k >= BLOCK {
      ChainAgrees(mix, plain, c, d, iv, key, k - BLOCK);
    }
  }

  /** The equations of the chain determine the cipher text. */
  lemma ChainDetermines<B>(mix: (B, B, B) -> B, plain: seq<B>, cipher: seq<B>, iv: seq<B>, key: nat -> B)
    requires |iv| == BLOCK && |cipher| == |plain|
    ensures Chained(mix, plain, cipher, iv, key) <==> cipher == Encipher(mix, plain, iv, key)
  {
    var whole := Encipher(mix, plain, iv, key);
    EncipherChains(mix, plain, iv, key);
    if Chained(mix, plain, cipher, iv, key) {
      forall k: nat | k < |plain| ensures cipher[k] == whole[k] {
        ChainAgrees(mix, plain, cipher, whole, iv, key, k);
      }
    }
  }

  lemma {:induction false} SameKeysSameCipher<B>(mix: (B, B, B) -> B, plain: seq<B>, c: seq<B>, d: seq<B>, iv: seq<B>,
                                                 key: nat -> B, key': nat -> B, k: nat)
    requires |iv| == BLOCK && k < |c| && k < |d|
    requires Chained(mix, plain, c, iv, key) && Chained(mix, plain, d, iv, key')
    requires forall i: nat :: i <= k ==> key(i) == key'(i)
    ensures c[k] == d[k]
  {
    var b := Previous(c, iv, k);
    if k >= BLOCK {
      SameKeysSameCipher(mix, plain, c, d, iv, key, key', k - BLOCK);
    }
    assert Previous(d, iv, k) == b && key(k) == key'(k);
    assert c[k] == mix(plain[k], key(k), b);
    assert d[k] == mix(plain[k], key'(k), b);
  }

  /** Up to the first byte where two key streams differ the cipher texts agree; there, both mix the same two bytes with
      their own key byte. */
  lemma FirstDifference<B>(mix: (B, B, B) -> B, plain: seq<B>, iv: seq<B>, key: nat -> B, key': nat -> B, k: nat)
      returns (before: B)
    requires |iv| == BLOCK && k < |plain|
    requires forall i: nat :: i < k ==> key(i) == key'(i)
    ensures var c, d := Encipher(mix, plain, iv, key), Encipher(mix, plain, iv, key');
            c[..k] == d[..k] && c[k] == mix(plain[k], key(k), before) && d[k] == mix(plain[k], key'(k), before)
  {
    var c, d := Encipher(mix, plain, iv, key), Encipher(mix, plain, iv, key');
    EncipherChains(mix, plain, iv, key);
    EncipherChains(mix, plain, iv, key');
    forall i: nat | i < k ensures c[i] == d[i] {
      SameKeysSameCipher(mix, plain, c, d, iv, key, key', i);
    }
    before := Previous(c, iv, k);
    assert before == Previous(d, iv, k);
  }

  /** Mixing twice with the same bytes restores the first. */
  ghost predicate Cancels<B(!new)>(mix: (B, B, B) -> B) {
    forall a, k, p :: mix(mix(a, k, p), k, p) == a
  }

  /** Decrypting inverts the chain, whatever the key stream. */
  lemma DecipherInverts<B(!new)>(mix: (B, B, B) -> B, plain: seq<B>, iv: seq<B>, key: nat -> B)
    requires |iv| == BLOCK && Cancels(mix)
    ensures Decipher(mix, Encipher(mix, plain, iv, key), iv, key) == plain
  {
    var cipher := Encipher(mix, plain, iv, key);
    EncipherChains(mix, plain, iv, key);
    forall k: nat | k < |plain| ensures Decipher(mix, cipher, iv, key)[k] == plain[k] {
      assert cipher[k] == mix(plain[k], key(k), Previous(cipher, iv, k));
    }
  }

  // ---- The loops ----

  /** One block of text from position `block` on, mixed with a block of the key stream and the block before. */
  function MixedBlock<B>(mix: (B, B, B) -> B, from: seq<B>, block: nat, stream: seq<B>, prev: seq<B>): (mixed: seq<B>)
    requires block < |from| && |stream| == BLOCK && (|prev| >= BLOCK || |prev| >= |from| - block)
    ensures |mixed| == if |from| - block < BLOCK then |from| - block else BLOCK
  {
    seq(if |from| - block < BLOCK then |from| - block else BLOCK,
        i requires 0 <= i < BLOCK && block + i < |from| => mix(from[block + i], stream[i], prev[i]))
  }

  /** The inner loop, the same in both directions. */
  method MixBlock<B>(mix: (B, B, B) -> B, from: seq<B>, buffer: array<B>, block: nat, stream: seq<B>, prev: seq<B>)
    requires block < |from| == buffer.Length && |stream| == BLOCK && (|prev| >= BLOCK || |prev| >= |from| - block)
    modifies buffer
    ensures var mixed := MixedBlock(mix, from, block, stream, prev);
            buffer[..block + |mixed|] == old(buffer[..block]) + mixed
  {
    var i := 0;
    while i < BLOCK && block + i < |from|
      invariant 0 <= i <= BLOCK && block + i <= |from|
      invariant buffer[..block] == old(buffer[..block])
      invariant forall k :: 0 <= k < i ==> buffer[block + k] == mix(from[block + k], stream[k], prev[k])
    {
      buffer[block + i] := mix(from[block + i], stream[i], prev[i]);
      i := i + 1;
    }
  }

  lemma KeyByteAt<B(!new)>(key: nat -> B, keyBlock: nat -> seq<B>, n: nat, i: nat)
    requires StreamOf(key, keyBlock) && i < BLOCK
    ensures |keyBlock(n)| == BLOCK && keyBlock(n)[i] == key(n * 16 + i)
  {
    assert KeyBlockAt(key, n, keyBlock(n));
  }

  /** One more block that is mixed with the block before it, or with the IV, continues the chain. */
  lemma ChainedBlock<B(!new)>(mix: (B, B, B) -> B, plain: seq<B>, done: seq<B>, iv: seq<B>,
                              key: nat -> B, keyBlock: nat -> seq<B>, n: nat, prev: seq<B>)
    requires |iv| == BLOCK && StreamOf(key, keyBlock) && |done| == n * 16 && |done| + BLOCK <= |plain|
    requires Chained(mix, plain, done, iv, key)
    requires prev == if n == 0 then iv else done[|done| - BLOCK..]
    ensures Chained(mix, plain, done + MixedBlock(mix, plain, |done|, keyBlock(n), prev), iv, key)
  {
    var more := done + MixedBlock(mix, plain, |done|, keyBlock(n), prev);
    forall k: nat | k < |more| ensures more[k] == mix(plain[k], key(k), Previous(more, iv, k)) {
      if k < |done| {
        assert Previous(more, iv, k) == Previous(done, iv, k);
      } else {
        var i := k - |done|;
        KeyByteAt(key, keyBlock, n, i);
        assert prev[i] == Previous(more, iv, k);
      }
    }
  }

  /** The plain text begins with these bytes. */
  ghost predicate Deciphered<B>(mix: (B, B, B) -> B, cipher: seq<B>, iv: seq<B>, key: nat -> B, done: seq<B>)
    requires |cipher| <= |iv| || |iv| >= BLOCK
  {
    done <= Decipher(mix, cipher, iv, key)
  }

  lemma DecipheredAt<B(!new)>(mix: (B, B, B) -> B, cipher: seq<B>, iv: seq<B>, key: nat -> B, stream: seq<B>,
                               block: nat, prev: seq<B>, i: nat)
    requires (|cipher| <= |iv| || |iv| >= BLOCK) && block + i < |cipher| && i < BLOCK && (block == 0 || block >= BLOCK)
    requires |stream| == BLOCK && stream[i] == key(block + i)
    requires prev == if block == 0 then iv else cipher[block - BLOCK..block]
    ensures MixedBlock(mix, cipher, block, stream, prev)[i] == Decipher(mix, cipher, iv, key)[block + i]
  {
    assert prev[i] == Previous(cipher, iv, block + i);
  }

  /** A block mixed with the cipher block before it, or with the IV, is the next block of plain text. */
  lemma DecipheredBlock<B(!new)>(mix: (B, B, B) -> B, cipher: seq<B>, iv: seq<B>,
                                 key: nat -> B, keyBlock: nat -> seq<B>, n: nat, done: seq<B>, prev: seq<B>)
    requires (|cipher| <= |iv| || |iv| >= BLOCK) && StreamOf(key, keyBlock) && |done| == n * 16 < |cipher|
    requires prev == if done == [] then iv else cipher[|done| - BLOCK..|done|]
    requires Deciphered(mix, cipher, iv, key, done)
    ensures Deciphered(mix, cipher, iv, key, done + MixedBlock(mix, cipher, |done|, keyBlock(n), prev))
  {
    var mixed, whole := MixedBlock(mix, cipher, |done|, keyBlock(n), prev), Decipher(mix, cipher, iv, key);
    forall i: nat | i < |mixed| ensures mixed[i] == whole[|done| + i] {
      KeyByteAt(key, keyBlock, n, i);
      DecipheredAt(mix, cipher, iv, key, keyBlock(n), |done|, prev, i);
    }
  }

  lemma BlockNumber(block: nat, n: nat)
    requires block == n * 16
    ensures block / BLOCK == n
  {
  }

  lemma RoomForBlock(block: nat, n: nat, length: nat)
    requires block == n * 16 < length && length % BLOCK == 0
    ensures block + BLOCK <= length
  {
  }

  /** The loop of encryptPassword: sixteen bytes at a time, each block chained to the one before through `prev`. */
  method EncipherBlocks<B(!new, 0)>(mix: (B, B, B) -> B, plain: seq<B>, iv: seq<B>, keyBlock: nat -> seq<B>,
                                    ghost key: nat -> B)
    returns (cipher: seq<B>)
    requires |iv| == BLOCK && StreamOf(key, keyBlock) && |plain| % BLOCK == 0
    ensures cipher == Encipher(mix, plain, iv, key)
  {
    var buffer := new B[|plain|];
    var prev := iv;
    var block := 0;
    ghost var n, done: seq<B> := 0, [];
    while block < |plain|
      invariant block == n * 16 == |done| <= |plain|
      invariant buffer[..block] == done && Chained(mix, plain, done, iv, key)
      invariant prev == if n == 0 then iv else done[block - BLOCK..]
    {
      BlockNumber(block, n);
      RoomForBlock(block, n, |plain|);
      ChainedBlock(mix, plain, done, iv, key, keyBlock, n, prev);
      done := done + MixedBlock(mix, plain, block, keyBlock(n), prev);
      MixBlock(mix, plain, buffer, block, keyBlock(block / BLOCK), prev);
      prev := buffer[block..block + BLOCK];
      assert buffer[..block + BLOCK] == done;
      assert prev == done[block..];
      block, n := block + BLOCK, n + 1;
    }
    cipher := buffer[..];
    assert cipher == done;
    ChainDetermines(mix, plain, done, iv, key);
  }

  /** The loop of decryptPassword; its last block may be short. */
  method DecipherBlocks<B(!new, 0)>(mix: (B, B, B) -> B, cipher: seq<B>, iv: seq<B>, keyBlock: nat -> seq<B>,
                                    ghost key: nat -> B)
    returns (plain: seq<B>)
    requires StreamOf(key, keyBlock) && (|cipher| <= |iv| || |iv| >= BLOCK)
    ensures plain == Decipher(mix, cipher, iv, key)
  {
    var buffer := new B[|cipher|];
    var prev := iv;
    var block := 0;
    ghost var n, done: seq<B> := 0, [];
    while block < |cipher|
      invariant block == n * 16
      invariant |done| == (if block < |cipher| then block else |cipher|) && buffer[..|done|] == done
      invariant Deciphered(mix, cipher, iv, key, done)
      invariant block < |cipher| ==> prev == if block == 0 then iv else cipher[block - BLOCK..block]
    {
      BlockNumber(block, n);
      DecipheredBlock(mix, cipher, iv, key, keyBlock, n, done, prev);
      done := done + MixedBlock(mix, cipher, block, keyBlock(n), prev);
      MixBlock(mix, cipher, buffer, block, keyBlock(block / BLOCK), prev);
      prev := cipher[block..if block + BLOCK <= |cipher| then block + BLOCK else |cipher|];
      block, n := block + BLOCK, n + 1;
    }
    plain := buffer[..];
    assert plain == done;
  }
}
