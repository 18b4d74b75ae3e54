/** The two key hashes of `json_parser.c`. Both read the key's bytes as
    `char`, which is signed on the toolchain the program targets: a byte of
    0x80 or more enters the 64-bit arithmetic sign-extended. The hashes are
    stated over 8-bit characters (`bv8`) and 64-bit words (`bv64`), so the
    wrap-around of `uint64_t` is the bit-vector arithmetic itself. */
module JsonHash {
  import opened Common

  /** The bytes of a key as C `char`s. */
  function Chars(s: seq<byte>): (r: seq<bv8>)
    ensures |r| == |s|
  {
    seq(|s|, i requires 0 <= i < |s| => s[i] as bv8)
  }

  /** A `char` widened to `uint64_t`: below 0x80 unchanged, otherwise
      sign-extended (0xFFFFFFFFFFFFFF00 | c). */
  function Widen(c: bv8): bv64
  {
    if c < 0x80 then c as bv64 else (c as bv64) | 0xFFFF_FFFF_FFFF_FF00
  }

  /** One step of djb2, written as the source writes it: shift left by five,
      add the old value, exclusive-or the widened character. */
  function Djb2Step(h: bv64, c: bv8): bv64
  {
    ((h << 5) + h) ^ Widen(c)
  }

  /** djb2 over `s`: start at 5381, then one `Djb2Step` per character. */
  function HashOf(s: seq<bv8>): (r: bv64)
    ensures s == [] ==> r == 5381
    ensures |s| == 1 ==> r == 177573 ^ Widen(s[0])
  {
    if s == [] then 5381 else Djb2Step(HashOf(s[..|s| - 1]), s[|s| - 1])
  }

  /** The shift-and-add of the step is a multiplication by 33 modulo 2^64. */
  lemma Djb2StepIsTimes33(h: bv64, c: bv8)
    ensures Djb2Step(h, c) == (h * 33) ^ Widen(c)
  {
  }

  /** One more character: the djb2 step. */
  lemma HashOfSnoc(s: seq<bv8>, c: bv8)
    ensures HashOf(s + [c]) == Djb2Step(HashOf(s), c)
  {
    assert (s + [c])[..|s|] == s;
  }

  /** `Hash(str)`. */
  method Hash(str: seq<bv8>) returns (hash: bv64)
    ensures hash == HashOf(str)
    ensures str == [] ==> hash == 5381
  {
    hash := 5381;
    var i := 0;
    while i < |str|
      invariant 0 <= i <= |str|
      invariant hash == HashOf(str[..i])
    {
      HashOfSnoc(str[..i], str[i]);
      assert str[..i + 1] == str[..i] + [str[i]];
      hash := Djb2Step(hash, str[i]);
      i := i + 1;
    }
    assert str[..i] == str;
  }

  /** `SimpleHash` works on integers: a byte as a `char` widened to
      `uint64_t`, that is 2^64 - 256 + b for a byte of 0x80 or more. */
  function WidenU64(b: byte): u64
  {
    if b < 0x80 then b else U64_MODULUS - 256 + b
  }

  /** `uint64_t` addition: the sum, less 2^64 when it overflows. */
  function WrappingAdd(x: u64, y: u64): (r: u64)
    ensures r == (x + y) % U64_MODULUS
  {
    if x + y < U64_MODULUS then x + y else x + y - U64_MODULUS
  }

  /** The plain sum of the widened bytes, modulo 2^64. */
  function SumOf(s: seq<byte>): u64
  {
    if s == [] then 0 else WrappingAdd(SumOf(s[..|s| - 1]), WidenU64(s[|s| - 1]))
  }

  /** One more byte: the sum step. */
  lemma SumOfSnoc(s: seq<byte>, c: byte)
    ensures SumOf(s + [c]) == WrappingAdd(SumOf(s), WidenU64(c))
  {
    assert (s + [c])[..|s|] == s;
  }

  /** `SimpleHash(str)`: the wrapping `hash += str.text[i]` loop. */
  method SimpleHash(str: seq<byte>) returns (hash: u64)
    ensures hash == SumOf(str)
    ensures str == [] ==> hash == 0
  {
    hash := 0;
    var i := 0;
    while i < |str|
      invariant 0 <= i <= |str|
      invariant hash == SumOf(str[..i])
    {
      SumOfSnoc(str[..i], str[i]);
      assert str[..i + 1] == str[..i] + [str[i]];
      hash := WrappingAdd(hash, WidenU64(str[i]));
      i := i + 1;
    }
    assert str[..i] == str;
  }

  /** `uint64_t` addition associates. */
  lemma WrappingAddAssociates(x: u64, y: u64, z: u64)
    ensures WrappingAdd(WrappingAdd(x, y), z) == WrappingAdd(x, WrappingAdd(y, z))
  {
  }

  /** `uint64_t` addition commutes. */
  lemma WrappingAddCommutes(x: u64, y: u64)
    ensures WrappingAdd(x, y) == WrappingAdd(y, x)
  {
  }

  /** The byte sum splits over concatenation. */
  lemma {:induction false} SumOfAppend(a: seq<byte>, b: seq<byte>)
    ensures SumOf(a + b) == WrappingAdd(SumOf(a), SumOf(b))
    decreases |b|
  {
    if b == [] {
      assert a + b == a;
    } else {
      var init, last := b[..|b| - 1], b[|b| - 1];
      assert a + b == (a + init) + [last];
      assert b == init + [last];
      SumOfSnoc(a + init, last);
      SumOfSnoc(init, last);
      SumOfAppend(a, init);
      WrappingAddAssociates(SumOf(a), SumOf(init), WidenU64(last));
    }
  }

  /** `SimpleHash` ignores order: swapping two halves of a key gives the same
      hash (so it cannot tell "ab" from "ba"), unlike djb2. */
  lemma SimpleHashIgnoresOrder(a: seq<byte>, b: seq<byte>)
    ensures SumOf(a + b) == SumOf(b + a)
  {
    SumOfAppend(a, b);
    SumOfAppend(b, a);
    WrappingAddCommutes(SumOf(a), SumOf(b));
  }

  /** djb2 does tell "ab" from "ba". */
  lemma HashSeesOrder()
    ensures HashOf([0x61, 0x62]) != HashOf([0x62, 0x61])
  {
    var ab: seq<bv8> := [0x61, 0x62];
    var ba: seq<bv8> := [0x62, 0x61];
    assert ab[..1] == [] + [0x61] && ba[..1] == [] + [0x62];
    HashOfSnoc([], 0x61);
    HashOfSnoc([], 0x62);
  }

  /** `size` of every object table. */
  const TABLE_SIZE: nat := 256

  /** `Hash(curKey) % val->size`: the slot a key is stored in. */
  function KeySlot(key: seq<byte>): (r: nat)
    ensures r < TABLE_SIZE
  {
    (HashOf(Chars(key)) % 256) as int
  }

  /** The key "a" goes to slot 196: 5381 * 33 = 0x2B5A5, and
      0xA5 ^ 0x61 = 0xC4. */
  lemma KeySlotOfA()
    ensures KeySlot([0x61]) == 196
  {
    var a: seq<bv8> := [0x61];
    assert Chars([0x61]) == a;
    assert a == [] + [0x61];
    HashOfSnoc([], 0x61);
  }
}
