/**
 * AES-CBC framing: padding, the IV prefix and block chaining, over an abstract block permutation
 * (padding of section 6.3 of RFC 5652, chaining of section 6.2 of NIST SP 800-38A).
 */
module Aes {
  import opened Common

  type Byte = bv8
  type Bytes = seq<Byte>

  const BLOCK := 16

  /** A keyed block cipher, used only on blocks of 16 bytes. */
  datatype BlockCipher = BlockCipher(enc: Bytes -> Bytes, dec: Bytes -> Bytes)

  /** enc maps blocks to blocks and dec undoes it. */
  ghost predicate Permutes(c: BlockCipher) {
    forall b: Bytes {:trigger c.enc(b)} :: |b| == BLOCK ==> |c.enc(b)| == BLOCK && c.dec(c.enc(b)) == b
  }

  /** aes.NewCipher: None when the key has a bad length. */
  type NewCipher = Bytes -> Option<BlockCipher>

  datatype Error = CreateCipher | CiphertextTooShort | InvalidBlockSize | InvalidPaddingSize | InvalidPadding

  function Padding(n: nat): (p: nat)
    ensures 1 <= p <= BLOCK && (n + p) % BLOCK == 0
  {
    BLOCK - n % BLOCK
  }

  function Pad(data: Bytes): (padded: Bytes)
    ensures |padded| % BLOCK == 0
  {
    var p := Padding(|data|);
    data + seq(p, _ => p as Byte)
  }

  function Unpad(data: Bytes): Result<Bytes, Error> {
    if |data| == 0 then Failure(InvalidPaddingSize)
    else
      var padding := data[|data| - 1] as int;
      if padding > |data| || padding == 0 then Failure(InvalidPadding)
      else Success(data[..|data| - padding])
  }

  function Xor(a: Bytes, b: Bytes): (r: Bytes)
    requires |a| == |b|
    ensures |r| == |a|
  {
    seq(|a|, i requires 0 <= i < |a| => a[i] ^ b[i])
  }

  function CBCEncrypt(enc: Bytes -> Bytes, iv: Bytes, plain: Bytes): Bytes
    requires |iv| == BLOCK
    decreases |plain|
  {
    if |plain| < BLOCK then []
    else
      var block := enc(Xor(plain[..BLOCK], iv));
      if |block| != BLOCK then [] else block + CBCEncrypt(enc, block, plain[BLOCK..])
  }

  function CBCDecrypt(dec: Bytes -> Bytes, iv: Bytes, cipher: Bytes): Bytes
    requires |iv| == BLOCK
    decreases |cipher|
  {
    if |cipher| < BLOCK then []
    else
      var block := dec(cipher[..BLOCK]);
      if |block| != BLOCK then [] else Xor(block, iv) + CBCDecrypt(dec, cipher[..BLOCK], cipher[BLOCK..])
  }

  function EncryptAES(plain: Bytes, key: Bytes, iv: Bytes, newCipher: NewCipher): Result<Bytes, Error>
    requires |iv| == BLOCK
  {
    match newCipher(key)
    case None => Failure(CreateCipher)
    case Some(c) => Success(iv + CBCEncrypt(c.enc, iv, Pad(plain)))
  }

  function DecryptAES(cipherText: Bytes, key: Bytes, newCipher: NewCipher): Result<Bytes, Error> {
    match newCipher(key)
    case None => Failure(CreateCipher)
    case Some(c) =>
      if |cipherText| < BLOCK then Failure(CiphertextTooShort)
      else if (|cipherText| - BLOCK) % BLOCK != 0 then Failure(InvalidBlockSize)
      else Unpad(CBCDecrypt(c.dec, cipherText[..BLOCK], cipherText[BLOCK..]))
  }

  // ---- padding

  lemma UnpadPad(data: Bytes)
    ensures Unpad(Pad(data)) == Success(data)
  {
    var padded, p := Pad(data), Padding(|data|);
    assert padded[|padded| - 1] == p as Byte;
    assert padded[..|data|] == data;
  }

  /** The last bytes are a whole padding: between 1 and 16 of them, each holding the count. */
  predicate WellPadded(x: Bytes) {
    && x != []
    && var p := x[|x| - 1] as int;
       && 1 <= p <= BLOCK && p <= |x|
       && forall i :: |x| - p <= i < |x| ==> x[i] == x[|x| - 1]
  }

  /**
   * unpad accepts every text whose last byte counts no more than its length; only well padded texts are
   * the padding of their result. The padding check of the source is weaker than RFC 5652 by exactly this.
   */
  lemma UnpadAccepts(x: Bytes)
    requires |x| % BLOCK == 0
    ensures Unpad(x).Success? <==> x != [] && 1 <= x[|x| - 1] as int <= |x|
    ensures WellPadded(x) <==> Unpad(x).Success? && Pad(Unpad(x).value) == x
  {
    if Unpad(x).Success? {
      var d, p := Unpad(x).value, x[|x| - 1] as int;
      if WellPadded(x) {
        assert Padding(|d|) == p;
        assert Pad(d) == x;
      }
      if Pad(d) == x {
        assert x[|x| - 1] == Padding(|d|) as Byte;
        assert WellPadded(x);
      }
    }
  }

  // ---- chaining

  lemma XorTwice(a: Bytes, b: Bytes)
    requires |a| == |b|
    ensures Xor(Xor(a, b), b) == a
  {
    forall i | 0 <= i < |a|
      ensures (a[i] ^ b[i]) ^ b[i] == a[i]
    {
    }
  }

  lemma DecryptHead(dec: Bytes -> Bytes, iv: Bytes, block: Bytes, rest: Bytes)
    requires |iv| == BLOCK && |block| == BLOCK && |dec(block)| == BLOCK
    ensures CBCDecrypt(dec, iv, block + rest) == Xor(dec(block), iv) + CBCDecrypt(dec, block, rest)
  {
    hide Xor;
    assert (block + rest)[..BLOCK] == block && (block + rest)[BLOCK..] == rest;
  }

  lemma {:induction false} CBCRoundTrip(c: BlockCipher, iv: Bytes, plain: Bytes)
    requires Permutes(c) && |iv| == BLOCK && |plain| % BLOCK == 0
    ensures |CBCEncrypt(c.enc, iv, plain)| == |plain|
    ensures CBCDecrypt(c.dec, iv, CBCEncrypt(c.enc, iv, plain)) == plain
    decreases |plain|
  {
    if |plain| >= BLOCK {
      var head, tail := plain[..BLOCK], plain[BLOCK..];
      XorTwice(head, iv);
      hide Xor;
      var block := c.enc(Xor(head, iv));
      var rest := CBCEncrypt(c.enc, block, tail);
      assert c.dec(block) == Xor(head, iv);
      CBCRoundTrip(c, block, tail);
      DecryptHead(c.dec, iv, block, rest);
      assert plain == head + tail;
    }
  }

  /** For every message, key and IV, DecryptAES recovers what EncryptAES was given. */
  lemma EncryptDecrypt(plain: Bytes, key: Bytes, iv: Bytes, newCipher: NewCipher)
    requires |iv| == BLOCK && newCipher(key).Some? && Permutes(newCipher(key).value)
    ensures var e := EncryptAES(plain, key, iv, newCipher);
            && e.Success? && e.value[..16] == iv
            && |e.value| == 16 + 16 * (|plain| / 16 + 1)
            && DecryptAES(e.value, key, newCipher) == Success(plain)
  {
    var c := newCipher(key).value;
    var body := CBCEncrypt(c.enc, iv, Pad(plain));
    CBCRoundTrip(c, iv, Pad(plain));
    UnpadPad(plain);
    assert (iv + body)[..BLOCK] == iv && (iv + body)[BLOCK..] == body;
  }

  lemma CBCUnfold(enc: Bytes -> Bytes, iv: Bytes, plain: Bytes)
    requires |iv| == BLOCK && |plain| >= BLOCK
    requires forall b: Bytes {:trigger enc(b)} :: |b| == BLOCK ==> |enc(b)| == BLOCK
    ensures var first := enc(Xor(plain[..BLOCK], iv));
            |first| == BLOCK && CBCEncrypt(enc, iv, plain) == first + CBCEncrypt(enc, first, plain[BLOCK..])
  {
    hide Xor;
  }

  /** The k-th block of 16 bytes. */
  function BlockAt(s: Bytes, k: nat): (b: Bytes)
    requires 16 * (k + 1) <= |s|
    ensures |b| == 16 && forall i :: 0 <= i < 16 ==> b[i] == s[16 * k + i]
  {
    s[16 * k..16 * (k + 1)]
  }

  lemma BlockShift(first: Bytes, rest: Bytes, k: nat)
    requires |first| == 16 && 16 * k <= |rest|
    ensures BlockAt(first + rest, k) == if k == 0 then first else BlockAt(rest, k - 1)
  {
    if k == 0 {
      assert (first + rest)[16 * k..16 * (k + 1)] == first;
    } else {
      assert (first + rest)[16 * k..16 * (k + 1)] == rest[16 * (k - 1)..16 * k];
    }
  }

  /** Each cipher block is the encryption of the plain block combined bytewise with the block before it, or the IV. */
  lemma {:induction false} CBCBlock(enc: Bytes -> Bytes, iv: Bytes, plain: Bytes, k: nat)
    requires |iv| == 16 && |plain| % 16 == 0 && 16 * (k + 1) <= |plain|
    requires forall b: Bytes {:trigger enc(b)} :: |b| == BLOCK ==> |enc(b)| == BLOCK
    ensures |CBCEncrypt(enc, iv, plain)| == |plain|
    ensures var cipher, block := CBCEncrypt(enc, iv, plain), BlockAt(plain, k);
            var before := if k == 0 then iv else BlockAt(cipher, k - 1);
            BlockAt(cipher, k) == enc(seq(16, i requires 0 <= i < 16 => block[i] ^ before[i]))
    decreases k
  {
    hide BlockAt, CBCEncrypt, Xor;
    var head, tail := plain[..16], plain[16..];
    var first := enc(Xor(head, iv));
    CBCUnfold(enc, iv, plain);
    CBCLength(enc, first, tail);
    var rest := CBCEncrypt(enc, first, tail);
    assert plain == head + tail;
    BlockShift(head, tail, k);
    BlockShift(first, rest, k);
    if k == 0 {
      XorIs(head, iv);
    } else {
      CBCBlock(enc, first, tail, k - 1);
      BlockShift(first, rest, k - 1);
    }
  }

  lemma XorIs(a: Bytes, b: Bytes)
    requires |a| == 16 && |b| == 16
    ensures Xor(a, b) == seq(16, i requires 0 <= i < 16 => a[i] ^ b[i])
  {
  }

  lemma {:induction false} CBCLength(enc: Bytes -> Bytes, iv: Bytes, plain: Bytes)
    requires |iv| == BLOCK && |plain| % BLOCK == 0
    requires forall b: Bytes {:trigger enc(b)} :: |b| == BLOCK ==> |enc(b)| == BLOCK
    ensures |CBCEncrypt(enc, iv, plain)| == |plain|
    decreases |plain|
  {
    hide Xor;
    if |plain| >= BLOCK {
      CBCLength(enc, enc(Xor(plain[..BLOCK], iv)), plain[BLOCK..]);
    }
  }

  lemma {:induction false} DecryptLength(dec: Bytes -> Bytes, iv: Bytes, cipher: Bytes)
    requires |iv| == BLOCK && |cipher| % BLOCK == 0
    requires forall b: Bytes {:trigger dec(b)} :: |b| == BLOCK ==> |dec(b)| == BLOCK
    ensures |CBCDecrypt(dec, iv, cipher)| == |cipher|
    decreases |cipher|
  {
    hide Xor;
    if |cipher| >= BLOCK {
      DecryptLength(dec, cipher[..BLOCK], cipher[BLOCK..]);
    }
  }

  /** Exactly which texts are not decrypted, and why: a bad key, too short, ragged, nothing behind the IV, a bad count. */
  lemma DecryptRefusedExactly(cipherText: Bytes, key: Bytes, newCipher: NewCipher)
    requires newCipher(key).Some? ==> forall b: Bytes {:trigger newCipher(key).value.dec(b)} ::
               |b| == BLOCK ==> |newCipher(key).value.dec(b)| == BLOCK
    ensures var r := DecryptAES(cipherText, key, newCipher);
            && (r == Failure(CreateCipher) <==> newCipher(key).None?)
            && (newCipher(key).Some? ==>
                  && (r == Failure(CiphertextTooShort) <==> |cipherText| < 16)
                  && (r == Failure(InvalidBlockSize) <==> |cipherText| > 16 && |cipherText| % 16 != 0)
                  && (r == Failure(InvalidPaddingSize) <==> |cipherText| == 16)
                  && (|cipherText| > 16 && |cipherText| % 16 == 0 ==>
                        var plain := CBCDecrypt(newCipher(key).value.dec, cipherText[..16], cipherText[16..]);
                        && |plain| == |cipherText| - 16
                        && var count := plain[|plain| - 1] as int;
                           r == if 1 <= count <= |plain| then Success(plain[..|plain| - count]) else Failure(InvalidPadding)))
  {
    if newCipher(key).Some? && |cipherText| >= 16 && |cipherText| % 16 == 0 {
      DecryptLength(newCipher(key).value.dec, cipherText[..16], cipherText[16..]);
    }
    hide CBCDecrypt;
  }

  // ---- the buffers

  lemma LastBlock(first: Bytes, rest: Bytes)
    requires |first| == BLOCK && (rest == [] || |rest| >= BLOCK)
    ensures (first + rest)[|rest|..] == if rest == [] then first else rest[|rest| - BLOCK..]
  {
    if rest != [] {
      assert (first + rest)[|rest|..] == rest[|rest| - BLOCK..];
    } else {
      assert first + rest == first;
    }
  }

  lemma AppendAfter(enc: Bytes -> Bytes, first: Bytes, rest: Bytes, block: Bytes)
    requires |first| == BLOCK && |block| == BLOCK && (rest == [] || |rest| >= BLOCK)
    ensures var prev := if rest == [] then first else rest[|rest| - BLOCK..];
            first + (rest + enc(Xor(block, prev))) == (first + rest) + enc(Xor(block, (first + rest)[|rest|..]))
  {
    hide Xor;
    LastBlock(first, rest);
  }

  lemma CBCAppend(enc: Bytes -> Bytes, iv: Bytes, a: Bytes, block: Bytes)
    requires |iv| == BLOCK && |a| % BLOCK == 0 && |block| == BLOCK
    requires forall b: Bytes {:trigger enc(b)} :: |b| == BLOCK ==> |enc(b)| == BLOCK
    ensures |CBCEncrypt(enc, iv, a)| == |a|
    ensures var prev := if a == [] then iv else CBCEncrypt(enc, iv, a)[|a| - BLOCK..];
            CBCEncrypt(enc, iv, a + block) == CBCEncrypt(enc, iv, a) + enc(Xor(block, prev))
    decreases |a|
  {
    hide Xor;
    if a == [] {
      assert a + block == block && block[..BLOCK] == block && block[BLOCK..] == [];
    } else {
      var first, tail := enc(Xor(a[..BLOCK], iv)), a[BLOCK..];
      assert (a + block)[..BLOCK] == a[..BLOCK] && (a + block)[BLOCK..] == tail + block;
      CBCUnfold(enc, iv, a);
      CBCUnfold(enc, iv, a + block);
      hide CBCEncrypt;
      CBCAppend(enc, first, tail, block);
      AppendAfter(enc, first, CBCEncrypt(enc, first, tail), block);
    }
  }

  method CopyBlock(buffer: array<Byte>, at: nat, block: Bytes)
    requires |block| == BLOCK && at + BLOCK <= buffer.Length
    modifies buffer
    ensures buffer[..at + BLOCK] == old(buffer[..at]) + block
  {
    for k := 0 to BLOCK
      invariant buffer[..at + k] == old(buffer[..at]) + block[..k]
    {
      buffer[at + k] := block[k];
    }
  }

  lemma ChainStart(enc: Bytes -> Bytes, iv: Bytes, plain: Bytes)
    requires |iv| == BLOCK
    ensures CBCEncrypt(enc, iv, plain[..0]) == [] && CBCEncrypt(enc, iv, []) == []
  {
  }

  /** One more block behind what the buffer holds: the IV and the ciphertext of the first n bytes. */
  lemma ChainStep(c: BlockCipher, iv: Bytes, plain: Bytes, n: nat, filled: Bytes)
    requires Permutes(c) && |iv| == BLOCK && n % BLOCK == 0 && n + BLOCK <= |plain|
    requires filled == iv + CBCEncrypt(c.enc, iv, plain[..n]) && |CBCEncrypt(c.enc, iv, plain[..n])| == n
    ensures var out := c.enc(Xor(plain[n..n + BLOCK], filled[n..]));
            && |out| == BLOCK
            && filled + out == iv + CBCEncrypt(c.enc, iv, plain[..n + BLOCK])
            && |CBCEncrypt(c.enc, iv, plain[..n + BLOCK])| == n + BLOCK
  {
    var done := CBCEncrypt(c.enc, iv, plain[..n]);
    CBCAppend(c.enc, iv, plain[..n], plain[n..n + BLOCK]);
    hide CBCEncrypt, Xor;
    assert filled[n..] == if plain[..n] == [] then iv else done[n - BLOCK..];
    assert plain[..n] + plain[n..n + BLOCK] == plain[..n + BLOCK];
  }

  /** One step of CryptBlocks: encrypts the n-th byte's block into the buffer, chained to the block before it. */
  method CryptBlock(buffer: array<Byte>, c: BlockCipher, iv: Bytes, plain: Bytes, n: nat)
    requires Permutes(c) && |iv| == BLOCK && n % BLOCK == 0 && n + BLOCK <= |plain| && buffer.Length == BLOCK + |plain|
    requires buffer[..BLOCK + n] == iv + CBCEncrypt(c.enc, iv, plain[..n]) && |CBCEncrypt(c.enc, iv, plain[..n])| == n
    modifies buffer
    ensures buffer[..BLOCK + n + BLOCK] == iv + CBCEncrypt(c.enc, iv, plain[..n + BLOCK])
    ensures |CBCEncrypt(c.enc, iv, plain[..n + BLOCK])| == n + BLOCK
  {
    hide CBCEncrypt, Xor;
    var prev := buffer[n..n + BLOCK];
    assert prev == buffer[..BLOCK + n][n..];
    ChainStep(c, iv, plain, n, buffer[..BLOCK + n]);
    hide Permutes;
    var out := c.enc(Xor(plain[n..n + BLOCK], prev));
    CopyBlock(buffer, BLOCK + n, out);
  }

  /** CryptBlocks of the CBC mode: block after block behind the IV. */
  method CryptBlocks(buffer: array<Byte>, c: BlockCipher, iv: Bytes, plain: Bytes)
    requires Permutes(c) && |iv| == BLOCK && |plain| % BLOCK == 0 && buffer.Length == BLOCK + |plain|
    requires buffer[..BLOCK] == iv
    modifies buffer
    ensures buffer[..] == iv + CBCEncrypt(c.enc, iv, plain)
  {
    ChainStart(c.enc, iv, plain);
    hide Permutes, CBCEncrypt, Xor;
    var n := 0;
    while n < |plain|
      invariant 0 <= n <= |plain| && n % BLOCK == 0
      invariant |CBCEncrypt(c.enc, iv, plain[..n])| == n
      invariant buffer[..BLOCK + n] == iv + CBCEncrypt(c.enc, iv, plain[..n])
    {
      CryptBlock(buffer, c, iv, plain, n);
      n := n + BLOCK;
    }
    assert plain[..|plain|] == plain;
    assert buffer[..] == buffer[..BLOCK + n];
  }

  /** EncryptAES as the source runs it: one buffer, the IV at its head, the ciphertext behind it. */
  method Encrypt(plainText: Bytes, key: Bytes, iv: Bytes, newCipher: NewCipher) returns (r: Result<Bytes, Error>)
    requires |iv| == BLOCK
    requires newCipher(key).Some? ==> Permutes(newCipher(key).value)
    ensures r == EncryptAES(plainText, key, iv, newCipher)
  {
    hide Permutes, CBCEncrypt, Xor, Pad, Padding;
    var block := newCipher(key);
    if block.None? {
      return Failure(CreateCipher);
    }
    var plain := Pad(plainText);
    var buffer := new Byte[BLOCK + |plain|](_ => 0);
    CopyBlock(buffer, 0, iv);
    assert buffer[..BLOCK] == buffer[..0 + BLOCK] == iv;
    CryptBlocks(buffer, block.value, iv, plain);
    r := Success(buffer[..]);
  }
}
