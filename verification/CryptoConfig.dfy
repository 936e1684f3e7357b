/** Password encryption of CryptoConfig.h: a chained XOR with a key stream, padding in the style of
    section 6.3 of RFC 5652, and base64 as in section 4 of RFC 4648. The key-block function, the
    initialisation vector and the UTF-8 codec are inputs. */
module CryptoConfig {
  import opened Bits
  import opened BlockChain

  type Byte = x: int | 0 <= x < 256

  const BYTE_WIDTH := 8

  lemma ByteWidth()
    ensures Power(BYTE_WIDTH) == 256
  {
    assert Power(4) == 16;
  }

  function XorByte(a: Byte, b: Byte): Byte {
    ByteWidth();
    Xor(a, b, BYTE_WIDTH)
  }

  // ---- Mixing and the key stream ----

  function Mixed(a: Byte, key: Byte, prev: Byte): Byte {
    XorByte(XorByte(a, key), prev)
  }

  lemma XorCancels(a: Byte, k: Byte, p: Byte)
    ensures Mixed(Mixed(a, k, p), k, p) == a
  {
    ByteWidth();
    XorSwap(XorByte(a, k), p, k, BYTE_WIDTH);
    XorTwice(a, k, BYTE_WIDTH);
    XorTwice(a, p, BYTE_WIDTH);
  }

  /** Bit by bit, mixing is the parity of the three bytes. */
  lemma MixedBits(a: Byte, k: Byte, p: Byte, i: nat)
    requires i < BYTE_WIDTH
    ensures Bit(Mixed(a, k, p), i) == (Bit(a, i) + Bit(k, i) + Bit(p, i)) % 2
  {
    ByteWidth();
    XorBit(a, k, BYTE_WIDTH, i);
    XorBit(XorByte(a, k), p, BYTE_WIDTH, i);
  }

  lemma SameByte(a: Byte, b: Byte)
    requires forall i: nat :: i < BYTE_WIDTH ==> Bit(a, i) == Bit(b, i)
    ensures a == b
  {
    ByteWidth();
    SameBits(a, b, BYTE_WIDTH);
  }

  /** Mixing a byte's cipher with the byte itself and the previous cipher byte gives the key byte. */
  lemma MixedGivesKey(a: Byte, k: Byte, p: Byte)
    ensures Mixed(Mixed(a, k, p), a, p) == k
  {
    forall i: nat | i < BYTE_WIDTH ensures Bit(Mixed(Mixed(a, k, p), a, p), i) == Bit(k, i) {
      MixedBits(a, k, p, i);
      MixedBits(Mixed(a, k, p), a, p, i);
    }
    SameByte(Mixed(Mixed(a, k, p), a, p), k);
  }

  /** Against zeros the key byte comes out as it is, and different key bytes give different cipher bytes. */
  lemma KeyDecides(a: Byte, k: Byte, k': Byte, p: Byte)
    ensures Mixed(0, k, 0) == k
    ensures Mixed(a, k, p) == Mixed(a, k', p) <==> k == k'
  {
    MixedGivesKey(a, k, p);
    MixedGivesKey(a, k', p);
    ZeroBits(8);
    forall i: nat | i < BYTE_WIDTH ensures Bit(Mixed(0, k, 0), i) == Bit(k, i) {
      MixedBits(0, k, 0, i);
      ZeroBits(i);
    }
    SameByte(Mixed(0, k, 0), k);
  }

  lemma {:induction false} ZeroBits(i: nat)
    ensures Bit(0, i) == 0
  {
    if i > 0 {
      ZeroBits(i - 1);
    }
  }

  lemma MixedCancels()
    ensures Cancels(Mixed)
  {
    forall a: Byte, k: Byte, p: Byte ensures Mixed(Mixed(a, k, p), k, p) == a {
      XorCancels(a, k, p);
    }
  }

  ghost predicate KeyBlocks(keyBlock: nat -> seq<Byte>) {
    forall n: nat :: |keyBlock(n)| == BLOCK
  }

  /** The key stream byte by byte. */
  function Stream(keyBlock: nat -> seq<Byte>): nat -> Byte
    requires KeyBlocks(keyBlock)
  {
    (i: nat) => keyBlock(i / BLOCK)[i % BLOCK]
  }

  lemma StreamIs(keyBlock: nat -> seq<Byte>)
    requires KeyBlocks(keyBlock)
    ensures StreamOf(Stream(keyBlock), keyBlock)
  {
    StreamBlocks(Stream(keyBlock), keyBlock);
  }

  // ---- Padding ----

  function Pad(plain: seq<Byte>): seq<Byte> {
    var p := BLOCK - |plain| % BLOCK;
    plain + seq(p, i => p)
  }

  function Unpad(padded: seq<Byte>): seq<Byte> {
    if padded == [] then [] else
    var p := padded[|padded| - 1];
    if 0 < p <= BLOCK then padded[..if p <= |padded| then |padded| - p else 0] else padded
  }

  lemma PadLength(n: nat)
    ensures 0 < BLOCK - n % BLOCK <= BLOCK && (n + (BLOCK - n % BLOCK)) % BLOCK == 0
  {
  }

  lemma UnpadDrops(plain: seq<Byte>, p: nat)
    requires 0 < p <= BLOCK
    ensures Unpad(plain + seq(p, i => p)) == plain
  {
    var padded: seq<Byte> := plain + seq(p, i => p);
    assert padded[|padded| - 1] == p;
    assert padded[..|plain|] == plain;
  }

  /** Whatever the bytes are, at most the number that the last one names is taken off, if it is from 1 to 16, and the
      rest is left as it is. */
  lemma UnpadTakes(padded: seq<Byte>)
    ensures Unpad(padded) == padded[..|Unpad(padded)|]
    ensures padded != [] ==>
              var p := padded[|padded| - 1];
              |padded| - |Unpad(padded)| == if p == 0 || p > 16 then 0 else if p > |padded| then |padded| else p
  {
  }

  /** Padding fills up to whole blocks, always by at least one byte and with the number of bytes added, and is taken off
      again. */
  lemma UnpadInverts(plain: seq<Byte>)
    ensures |Pad(plain)| % BLOCK == 0 && |plain| < |Pad(plain)| <= |plain| + BLOCK
    ensures forall i :: |plain| <= i < |Pad(plain)| ==> Pad(plain)[i] == |Pad(plain)| - |plain|
    ensures Unpad(Pad(plain)) == plain
  {
    PadLength(|plain|);
    UnpadDrops(plain, BLOCK - |plain| % BLOCK);
  }

  // ---- Base64 ----

  function Symbol(d: nat): char
    requires d < 64
  {
    if d < 26 then 'A' + d as char
    else if d < 52 then 'a' + (d - 26) as char
    else if d < 62 then '0' + (d - 52) as char
    else if d == 62 then '+' else '/'
  }

  /** The six-bit value of a symbol; 64 for every other character. */
  function Value(c: char): (d: nat)
    ensures d <= 64
  {
    if 'A' <= c <= 'Z' then (c - 'A') as int
    else if 'a' <= c <= 'z' then (c - 'a') as int + 26
    else if '0' <= c <= '9' then (c - '0') as int + 52
    else if c == '+' then 62 else if c == '/' then 63 else 64
  }

  lemma ValueOfSymbol(d: nat)
    requires d < 64
    ensures Value(Symbol(d)) == d && Symbol(d) != ':' && Symbol(d) != '='
  {
  }

  function Sextet0(a: nat): (d: nat)
    requires a < 256
    ensures d < 64
  {
    a / 4
  }

  function Sextet1(a: nat, b: nat): (d: nat)
    requires a < 256 && b < 256
    ensures d < 64
  {
    a % 4 * 16 + b / 16
  }

  function Sextet2(b: nat, c: nat): (d: nat)
    requires b < 256 && c < 256
    ensures d < 64
  {
    b % 16 * 4 + c / 64
  }

  function Sextet3(c: nat): (d: nat)
    requires c < 256
    ensures d < 64
  {
    c % 64
  }

  /** Three bytes as four symbols; two and one as a group filled up with '='. */
  function Three(a: nat, b: nat, c: nat): string
    requires a < 256 && b < 256 && c < 256
  {
    [Symbol(Sextet0(a)), Symbol(Sextet1(a, b)), Symbol(Sextet2(b, c)), Symbol(Sextet3(c))]
  }

  function Two(a: nat, b: nat): string
    requires a < 256 && b < 256
  {
    [Symbol(Sextet0(a)), Symbol(Sextet1(a, b)), Symbol(Sextet2(b, 0)), '=']
  }

  function One(a: nat): string
    requires a < 256
  {
    [Symbol(Sextet0(a)), Symbol(Sextet1(a, 0)), '=', '=']
  }

  function ToBase64(bytes: seq<Byte>): string {
    if bytes == [] then ""
    else if |bytes| == 1 then One(bytes[0])
    else if |bytes| == 2 then Two(bytes[0], bytes[1])
    else Three(bytes[0], bytes[1], bytes[2]) + ToBase64(bytes[3..])
  }

  /** Decoding as a bit accumulator holding `bits` < 8 bits of value `acc`: characters outside the alphabet are
      skipped, and a byte comes out whenever eight bits are there. */
  function FromBase64(text: string, acc: nat, bits: nat): seq<Byte>
    requires bits in {0, 2, 4, 6}
    requires acc < (if bits == 0 then 1 else if bits == 2 then 4 else if bits == 4 then 16 else 64)
  {
    if text == "" then []
    else if Value(text[0]) == 64 then FromBase64(text[1..], acc, bits)
    else
      var d := Value(text[0]);
      if bits == 0 then FromBase64(text[1..], d, 6)
      else if bits == 6 then [acc * 4 + d / 16] + FromBase64(text[1..], d % 16, 4)
      else if bits == 4 then [acc * 16 + d / 4] + FromBase64(text[1..], d % 4, 2)
      else [acc * 64 + d] + FromBase64(text[1..], 0, 0)
  }

  lemma ReadSymbol(d: nat, rest: string, acc: nat, bits: nat)
    requires d < 64
    requires bits in {0, 2, 4, 6}
    requires acc < (if bits == 0 then 1 else if bits == 2 then 4 else if bits == 4 then 16 else 64)
    ensures FromBase64([Symbol(d)] + rest, acc, bits) ==
              if bits == 0 then FromBase64(rest, d, 6)
              else if bits == 6 then [acc * 4 + d / 16] + FromBase64(rest, d % 16, 4)
              else if bits == 4 then [acc * 16 + d / 4] + FromBase64(rest, d % 4, 2)
              else [acc * 64 + d] + FromBase64(rest, 0, 0)
  {
    ValueOfSymbol(d);
    assert ([Symbol(d)] + rest)[1..] == rest;
  }

  lemma SkipPadding(acc: nat)
    requires acc < 16
    ensures FromBase64("==", acc, 4) == [] && (acc < 4 ==> FromBase64("=", acc, 2) == [])
  {
    assert "=="[1..] == "=" && "="[1..] == "";
    assert FromBase64("=", acc, 4) == FromBase64("", acc, 4);
  }

  /** Four sextets carry three bytes. */
  lemma Recompose(a: nat, b: nat, c: nat)
    requires a < 256 && b < 256 && c < 256
    ensures Sextet0(a) * 4 + Sextet1(a, b) / 16 == a
    ensures Sextet1(a, b) % 16 * 16 + Sextet2(b, c) / 4 == b
    ensures Sextet2(b, c) % 4 * 64 + Sextet3(c) == c
    ensures Sextet1(a, 0) % 16 < 16 && Sextet2(b, 0) % 4 == 0
  {
  }

  lemma ReadFirstTwo(d0: nat, d1: nat, rest: string)
    requires d0 < 64 && d1 < 64
    ensures FromBase64([Symbol(d0), Symbol(d1)] + rest, 0, 0) == [d0 * 4 + d1 / 16] + FromBase64(rest, d1 % 16, 4)
  {
    assert [Symbol(d0), Symbol(d1)] + rest == [Symbol(d0)] + ([Symbol(d1)] + rest);
    ReadSymbol(d0, [Symbol(d1)] + rest, 0, 0);
    ReadSymbol(d1, rest, d0, 6);
  }

  lemma ReadLastTwo(d2: nat, d3: nat, rest: string, acc: nat)
    requires d2 < 64 && d3 < 64 && acc < 16
    ensures FromBase64([Symbol(d2), Symbol(d3)] + rest, acc, 4) ==
              [acc * 16 + d2 / 4] + ([d2 % 4 * 64 + d3] + FromBase64(rest, 0, 0))
  {
    assert [Symbol(d2), Symbol(d3)] + rest == [Symbol(d2)] + ([Symbol(d3)] + rest);
    ReadSymbol(d2, [Symbol(d3)] + rest, acc, 4);
    ReadSymbol(d3, rest, d2 % 4, 2);
  }

  lemma ReadQuad(d0: nat, d1: nat, d2: nat, d3: nat, a: nat, b: nat, c: nat, rest: string)
    requires d0 < 64 && d1 < 64 && d2 < 64 && d3 < 64 && a < 256 && b < 256 && c < 256
    requires d0 * 4 + d1 / 16 == a && d1 % 16 * 16 + d2 / 4 == b && d2 % 4 * 64 + d3 == c
    ensures FromBase64([Symbol(d0), Symbol(d1), Symbol(d2), Symbol(d3)] + rest, 0, 0) ==
              [a, b, c] + FromBase64(rest, 0, 0)
  {
    var tail := [Symbol(d2), Symbol(d3)] + rest;
    assert [Symbol(d0), Symbol(d1), Symbol(d2), Symbol(d3)] + rest == [Symbol(d0), Symbol(d1)] + tail;
    ReadFirstTwo(d0, d1, tail);
    ReadLastTwo(d2, d3, rest, d1 % 16);
  }

  lemma ReadThree(a: nat, b: nat, c: nat, rest: string)
    requires a < 256 && b < 256 && c < 256
    ensures FromBase64(Three(a, b, c) + rest, 0, 0) == [a, b, c] + FromBase64(rest, 0, 0)
  {
    Recompose(a, b, c);
    ReadQuad(Sextet0(a), Sextet1(a, b), Sextet2(b, c), Sextet3(c), a, b, c, rest);
  }

  lemma ReadTriple(d0: nat, d1: nat, d2: nat, a: nat, b: nat)
    requires d0 < 64 && d1 < 64 && d2 < 64 && a < 256 && b < 256
    requires d0 * 4 + d1 / 16 == a && d1 % 16 * 16 + d2 / 4 == b
    ensures FromBase64([Symbol(d0), Symbol(d1), Symbol(d2), '='], 0, 0) == [a, b]
  {
    assert [Symbol(d0), Symbol(d1), Symbol(d2), '='] == [Symbol(d0), Symbol(d1)] + ([Symbol(d2)] + "=");
    ReadFirstTwo(d0, d1, [Symbol(d2)] + "=");
    ReadSymbol(d2, "=", d1 % 16, 4);
    SkipPadding(d2 % 4);
  }

  lemma ReadPair(d0: nat, d1: nat, a: nat)
    requires d0 < 64 && d1 < 64 && a < 256 && d0 * 4 + d1 / 16 == a
    ensures FromBase64([Symbol(d0), Symbol(d1), '=', '='], 0, 0) == [a]
  {
    assert [Symbol(d0), Symbol(d1), '=', '='] == [Symbol(d0), Symbol(d1)] + "==";
    ReadFirstTwo(d0, d1, "==");
    SkipPadding(d1 % 16);
  }

  /** Decoding gives back every byte sequence, of any length. */
  lemma {:induction false} Base64Inverts(bytes: seq<Byte>)
    ensures FromBase64(ToBase64(bytes), 0, 0) == bytes
  {
    if |bytes| == 1 {
      var a := bytes[0];
      Recompose(a, 0, 0);
      ReadPair(Sextet0(a), Sextet1(a, 0), a);
    } else if |bytes| == 2 {
      var a, b := bytes[0], bytes[1];
      Recompose(a, b, 0);
      ReadTriple(Sextet0(a), Sextet1(a, b), Sextet2(b, 0), a, b);
    } else if |bytes| >= 3 {
      ReadThree(bytes[0], bytes[1], bytes[2], ToBase64(bytes[3..]));
      Base64Inverts(bytes[3..]);
      assert bytes == [bytes[0], bytes[1], bytes[2]] + bytes[3..];
    }
  }

  /** Examples of section 10 of RFC 4648: "f", "fo", "foo" and "foobar". */
  lemma KnownEncodings()
    ensures ToBase64([102]) == "Zg==" && ToBase64([102, 111]) == "Zm8=" && ToBase64([102, 111, 111]) == "Zm9v"
    ensures ToBase64([102, 111, 111, 98, 97, 114]) == "Zm9vYmFy"
  {
    assert [102, 111, 111][3..] == [];
    assert [102, 111, 111, 98, 97, 114][3..] == [98, 97, 114] && [98, 97, 114][3..] == [];
    assert ToBase64([98, 97, 114]) == "YmFy";
  }

  lemma {:induction false} NoColon(bytes: seq<Byte>)
    ensures ':' !in ToBase64(bytes)
  {
    if bytes != [] {
      var a := bytes[0];
      var b := if |bytes| > 1 then bytes[1] else 0;
      var c := if |bytes| > 2 then bytes[2] else 0;
      ValueOfSymbol(Sextet0(a));
      ValueOfSymbol(Sextet1(a, b));
      ValueOfSymbol(Sextet2(b, c));
      ValueOfSymbol(Sextet3(c));
      if |bytes| > 2 {
        NoColon(bytes[3..]);
      }
    }
  }

  // ---- The text format ----

  const PREFIX := "ENC:"

  /** QString::split: the parts between the separators. */
  function Split(text: string, separator: char): (parts: seq<string>)
    ensures |parts| > 0
  {
    if text == "" then [""]
    else
      var rest := Split(text[1..], separator);
      if text[0] == separator then [""] + rest else [[text[0]] + rest[0]] + rest[1..]
  }

  lemma {:induction false} SplitOne(a: string, separator: char)
    requires separator !in a
    ensures Split(a, separator) == [a]
  {
    if a != "" {
      SplitOne(a[1..], separator);
      assert [a[0]] + a[1..] == a;
    }
  }

  lemma {:induction false} SplitTwo(a: string, b: string, separator: char)
    requires separator !in a && separator !in b
    ensures Split(a + [separator] + b, separator) == [a, b]
  {
    var text := a + [separator] + b;
    if a == "" {
      assert text[1..] == b;
      SplitOne(b, separator);
    } else {
      assert text[1..] == a[1..] + [separator] + b;
      SplitTwo(a[1..], b, separator);
      assert [a[0]] + a[1..] == a;
    }
  }

  datatype Decrypted =
    | Plain(text: string)              // not marked as encrypted: handed back as it is
    | Malformed                        // not two parts: the source returns an empty string
    | IvTooShort                       // the source would index past the end of the IV
    | Bytes(utf8: seq<Byte>)           // to be decoded as UTF-8

  function EncryptPassword(utf8: seq<Byte>, iv: seq<Byte>, keyBlock: nat -> seq<Byte>): string
    requires |iv| == BLOCK && KeyBlocks(keyBlock)
  {
    PREFIX + ToBase64(iv) + ":" + ToBase64(Encipher(Mixed, Pad(utf8), iv, Stream(keyBlock)))
  }

  function DecryptPassword(text: string, keyBlock: nat -> seq<Byte>): Decrypted
    requires KeyBlocks(keyBlock)
  {
    if !(PREFIX <= text) then Plain(text)
    else
      var parts := Split(text[|PREFIX|..], ':');
      if |parts| != 2 then Malformed
      else
        var iv, cipher := FromBase64(parts[0], 0, 0), FromBase64(parts[1], 0, 0);
        if |iv| < BLOCK && |iv| < |cipher| then IvTooShort
        else Bytes(Unpad(Decipher(Mixed, cipher, iv, Stream(keyBlock))))
  }

  /** The byte one block earlier in a cipher text, or the IV's. */
  function Before(cipher: seq<Byte>, iv: seq<Byte>, i: nat): Byte
    requires i < |cipher| && |iv| == BLOCK
  {
    if i < BLOCK then iv[i] else cipher[i - BLOCK]
  }

  /** Byte k of a cipher text: each of its bits is the parity of the plain text's, the key stream's and the bit one
      block earlier; and mixed with the plain byte and the byte one block earlier it gives the key byte. */
  ghost predicate CipherByte(plain: seq<Byte>, iv: seq<Byte>, keyBlock: nat -> seq<Byte>, cipher: seq<Byte>, k: nat)
    requires |iv| == BLOCK && KeyBlocks(keyBlock) && k < |cipher| == |plain|
  {
    var key, before := keyBlock(k / BLOCK)[k % BLOCK], Before(cipher, iv, k);
    && (forall i: nat :: i < BYTE_WIDTH ==> Bit(cipher[k], i) == (Bit(plain[k], i) + Bit(key, i) + Bit(before, i)) % 2)
    && Mixed(cipher[k], plain[k], before) == key
  }

  lemma EncipheredByte(plain: seq<Byte>, iv: seq<Byte>, keyBlock: nat -> seq<Byte>, cipher: seq<Byte>, k: nat)
    requires |iv| == BLOCK && KeyBlocks(keyBlock) && k < |cipher| == |plain|
    requires Chained(Mixed, plain, cipher, iv, Stream(keyBlock))
    ensures cipher[k] == Mixed(plain[k], keyBlock(k / BLOCK)[k % BLOCK], Before(cipher, iv, k))
  {
    assert Previous(cipher, iv, k) == Before(cipher, iv, k);
    assert Stream(keyBlock)(k) == keyBlock(k / BLOCK)[k % BLOCK];
  }

  lemma CipherByteHolds(plain: seq<Byte>, iv: seq<Byte>, keyBlock: nat -> seq<Byte>, cipher: seq<Byte>, k: nat)
    requires |iv| == BLOCK && KeyBlocks(keyBlock) && k < |cipher| == |plain|
    requires cipher[k] == Mixed(plain[k], keyBlock(k / BLOCK)[k % BLOCK], Before(cipher, iv, k))
    ensures CipherByte(plain, iv, keyBlock, cipher, k)
  {
    var key, before := keyBlock(k / BLOCK)[k % BLOCK], Before(cipher, iv, k);
    forall i: nat | i < BYTE_WIDTH
      ensures Bit(cipher[k], i) == (Bit(plain[k], i) + Bit(key, i) + Bit(before, i)) % 2
    {
      MixedBits(plain[k], key, before, i);
    }
    MixedGivesKey(plain[k], key, before);
  }

  ghost predicate IsCipher(text: string, plain: seq<Byte>, iv: seq<Byte>, keyBlock: nat -> seq<Byte>, cipher: seq<Byte>)
    requires |iv| == BLOCK && KeyBlocks(keyBlock)
  {
    && text == "ENC:" + ToBase64(iv) + ":" + ToBase64(cipher) && |cipher| == |plain|
    && forall k: nat :: k < |cipher| ==> CipherByte(plain, iv, keyBlock, cipher, k)
  }

  ghost predicate HoldsCipher(text: string, plain: seq<Byte>, iv: seq<Byte>, keyBlock: nat -> seq<Byte>)
    requires |iv| == BLOCK && KeyBlocks(keyBlock)
  {
    exists cipher: seq<Byte> :: IsCipher(text, plain, iv, keyBlock, cipher)
  }

  /** What the text holds after the IV: a cipher text as long as the padded password, byte by byte its mixture with the
      key stream and the cipher text one block earlier. */
  lemma EncryptedBytes(utf8: seq<Byte>, iv: seq<Byte>, keyBlock: nat -> seq<Byte>)
    requires |iv| == BLOCK && KeyBlocks(keyBlock)
    ensures HoldsCipher(EncryptPassword(utf8, iv, keyBlock), Pad(utf8), iv, keyBlock)
  {
    var plain := Pad(utf8);
    var cipher := Encipher(Mixed, plain, iv, Stream(keyBlock));
    EncipherChains(Mixed, plain, iv, Stream(keyBlock));
    forall k: nat | k < |cipher| ensures CipherByte(plain, iv, keyBlock, cipher, k) {
      EncipheredByte(plain, iv, keyBlock, cipher, k);
      CipherByteHolds(plain, iv, keyBlock, cipher, k);
    }
    assert IsCipher(EncryptPassword(utf8, iv, keyBlock), plain, iv, keyBlock, cipher);
  }

  /** Key streams that first differ at byte k of the padded password give cipher texts that first differ there. */
  lemma KeysShow(plain: seq<Byte>, iv: seq<Byte>, key: nat -> Byte, key': nat -> Byte, k: nat)
    requires |iv| == BLOCK && k < |plain| && forall i: nat :: i < k ==> key(i) == key'(i)
    ensures var c, c' := Encipher(Mixed, plain, iv, key), Encipher(Mixed, plain, iv, key');
            c[..k] == c'[..k] && (c[k] == c'[k] <==> key(k) == key'(k))
  {
    var before := FirstDifference(Mixed, plain, iv, key, key', k);
    KeyDecides(plain[k], key(k), key'(k), before);
  }

  /** Decrypting an encrypted password gives back the bytes that were encrypted, for every password, IV and key. */
  lemma DecryptInvertsEncrypt(utf8: seq<Byte>, iv: seq<Byte>, keyBlock: nat -> seq<Byte>)
    requires |iv| == BLOCK && KeyBlocks(keyBlock)
    ensures DecryptPassword(EncryptPassword(utf8, iv, keyBlock), keyBlock) == Bytes(utf8)
  {
    var cipher := Encipher(Mixed, Pad(utf8), iv, Stream(keyBlock));
    var text := EncryptPassword(utf8, iv, keyBlock);
    var a, b := ToBase64(iv), ToBase64(cipher);
    assert text == PREFIX + (a + ":" + b);
    assert text[|PREFIX|..] == a + [':'] + b;
    NoColon(iv);
    NoColon(cipher);
    SplitTwo(a, b, ':');
    Base64Inverts(iv);
    Base64Inverts(cipher);
    MixedCancels();
    DecipherInverts(Mixed, Pad(utf8), iv, Stream(keyBlock));
    UnpadInverts(utf8);
  }

  /** With the codec around it: the password itself comes back exactly when the codec returns it. The empty
      password is stored as the empty string. */
  lemma PasswordRoundTrip(password: string, toUtf8: string -> seq<Byte>, fromUtf8: seq<Byte> -> string,
                          iv: seq<Byte>, keyBlock: nat -> seq<Byte>)
    requires |iv| == BLOCK && KeyBlocks(keyBlock)
    ensures Retrieved(Stored(password, toUtf8, iv, keyBlock), fromUtf8, keyBlock) == password <==>
              password == "" || fromUtf8(toUtf8(password)) == password
  {
    if password != "" {
      DecryptInvertsEncrypt(toUtf8(password), iv, keyBlock);
    }
  }

  function Stored(password: string, toUtf8: string -> seq<Byte>, iv: seq<Byte>, keyBlock: nat -> seq<Byte>): string
    requires |iv| == BLOCK && KeyBlocks(keyBlock)
  {
    if password == "" then "" else EncryptPassword(toUtf8(password), iv, keyBlock)
  }

  function Retrieved(text: string, fromUtf8: seq<Byte> -> string, keyBlock: nat -> seq<Byte>): string
    requires KeyBlocks(keyBlock)
  {
    match DecryptPassword(text, keyBlock)
    case Plain(t) => t
    case Bytes(utf8) => fromUtf8(utf8)
    case _ => ""
  }

  // ---- The two operations as they run ----

  method Encrypt(utf8: seq<Byte>, iv: seq<Byte>, keyBlock: nat -> seq<Byte>) returns (text: string)
    requires |iv| == BLOCK && KeyBlocks(keyBlock)
    ensures text == EncryptPassword(utf8, iv, keyBlock) && HoldsCipher(text, Pad(utf8), iv, keyBlock)
  {
    EncryptedBytes(utf8, iv, keyBlock);
    StreamIs(keyBlock);
    UnpadInverts(utf8);
    var cipher := EncipherBlocks(Mixed, Pad(utf8), iv, keyBlock, Stream(keyBlock));
    text := PREFIX + ToBase64(iv) + ":" + ToBase64(cipher);
  }

  method Decrypt(text: string, keyBlock: nat -> seq<Byte>) returns (result: Decrypted)
    requires KeyBlocks(keyBlock)
    ensures result == DecryptPassword(text, keyBlock)
  {
    if !(PREFIX <= text) {
      return Plain(text);
    }
    var parts := Split(text[|PREFIX|..], ':');
    if |parts| != 2 {
      return Malformed;
    }
    var iv, cipher := FromBase64(parts[0], 0, 0), FromBase64(parts[1], 0, 0);
    if |iv| < BLOCK && |iv| < |cipher| {
      return IvTooShort;
    }
    StreamIs(keyBlock);
    var plain := DecipherBlocks(Mixed, cipher, iv, keyBlock, Stream(keyBlock));
    return Bytes(Unpad(plain));
  }
}
