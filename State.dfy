/** The pool account: its three stored fields and the size reserved for it
    (`Pool::LEN`), which is the Anchor account layout: an 8-byte discriminator
    followed by the Borsh encoding of the fields in declaration order
    (32 bytes of authority key, then two little-endian u64 amounts). */
module State {
  import opened Primitives

  /** The value held in a pool account. */
  datatype PoolRecord = PoolRecord(authority: Pubkey, tokenAAmount: U64, tokenBAmount: U64)

  const DISCRIMINATOR_LEN: nat := 8
  const U64_LEN: nat := 8

  /** `Pool::LEN`: discriminator, authority, token A amount, token B amount. */
  const LEN: nat := DISCRIMINATOR_LEN + PUBKEY_LEN + U64_LEN + U64_LEN

  /** Offsets of the fields inside the account data. */
  const AUTHORITY_OFFSET: nat := DISCRIMINATOR_LEN
  const TOKEN_A_OFFSET: nat := AUTHORITY_OFFSET + PUBKEY_LEN
  const TOKEN_B_OFFSET: nat := TOKEN_A_OFFSET + U64_LEN

  /** The 8 bytes Anchor writes in front of every account of this type. */
  type Discriminator = d: seq<byte> | |d| == DISCRIMINATOR_LEN witness seq(8, i => 0)

  function Pow256(n: nat): (p: nat)
    ensures p > 0
  {
    if n == 0 then 1 else 256 * Pow256(n - 1)
  }

  /** Little-endian encoding of `x` in exactly `n` bytes. */
  function EncodeLE(x: nat, n: nat): (s: seq<byte>)
    requires x < Pow256(n)
    ensures |s| == n
  {
    if n == 0 then [] else [x % 256] + EncodeLE(x / 256, n - 1)
  }

  /** The number a little-endian byte string stands for; it fits in as many bytes as it has. */
  function DecodeLE(s: seq<byte>): (x: nat)
    ensures x < Pow256(|s|)
  {
    if |s| == 0 then 0 else s[0] + 256 * DecodeLE(s[1..])
  }

  lemma {:induction false} DecodeEncodeLE(x: nat, n: nat)
    requires x < Pow256(n)
    ensures DecodeLE(EncodeLE(x, n)) == x
  {
    if n > 0 {
      var s := EncodeLE(x, n);
      assert s[1..] == EncodeLE(x / 256, n - 1);
      DecodeEncodeLE(x / 256, n - 1);
    }
  }

  lemma {:induction false} EncodeDecodeLE(s: seq<byte>)
    ensures EncodeLE(DecodeLE(s), |s|) == s
  {
    if |s| > 0 {
      var x := DecodeLE(s);
      assert x % 256 == s[0] && x / 256 == DecodeLE(s[1..]);
      EncodeDecodeLE(s[1..]);
    }
  }

  lemma U64FitsEightBytes(x: U64)
    ensures x < Pow256(U64_LEN)
  {
    assert Pow256(U64_LEN) == U64_MAX + 1;
  }

  /** The bytes of a pool account: the discriminator, then the fields at their offsets. */
  function Serialize(disc: Discriminator, p: PoolRecord): (data: seq<byte>)
    ensures |data| == LEN
    ensures data[..AUTHORITY_OFFSET] == disc
    ensures data[AUTHORITY_OFFSET..TOKEN_A_OFFSET] == p.authority
  {
    U64FitsEightBytes(p.tokenAAmount);
    U64FitsEightBytes(p.tokenBAmount);
    disc + p.authority + EncodeLE(p.tokenAAmount, U64_LEN) + EncodeLE(p.tokenBAmount, U64_LEN)
  }

  /** Reads a pool account back: fails when the data is too short or carries another discriminator. */
  function Deserialize(disc: Discriminator, data: seq<byte>): (r: Option<PoolRecord>)
    ensures r.Some? <==> |data| >= LEN && data[..AUTHORITY_OFFSET] == disc
    ensures r.Some? ==> r.value.authority == data[AUTHORITY_OFFSET..TOKEN_A_OFFSET]
  {
    if |data| < LEN || data[..AUTHORITY_OFFSET] != disc then None
    else
      var a := DecodeLE(data[TOKEN_A_OFFSET..TOKEN_B_OFFSET]);
      var b := DecodeLE(data[TOKEN_B_OFFSET..LEN]);
      assert Pow256(U64_LEN) == U64_MAX + 1;
      Some(PoolRecord(data[AUTHORITY_OFFSET..TOKEN_A_OFFSET], a, b))
  }

  /** Reading back what was written gives the same record. */
  lemma SerializeRoundTrip(disc: Discriminator, p: PoolRecord)
    ensures Deserialize(disc, Serialize(disc, p)) == Some(p)
  {
    var data := Serialize(disc, p);
    U64FitsEightBytes(p.tokenAAmount);
    U64FitsEightBytes(p.tokenBAmount);
    assert data[TOKEN_A_OFFSET..TOKEN_B_OFFSET] == EncodeLE(p.tokenAAmount, U64_LEN);
    assert data[TOKEN_B_OFFSET..LEN] == EncodeLE(p.tokenBAmount, U64_LEN);
    DecodeEncodeLE(p.tokenAAmount, U64_LEN);
    DecodeEncodeLE(p.tokenBAmount, U64_LEN);
  }

  /** Every account of exactly `LEN` bytes with the right discriminator is the encoding of the record read from it. */
  lemma DeserializeRoundTrip(disc: Discriminator, data: seq<byte>)
    requires |data| == LEN && data[..AUTHORITY_OFFSET] == disc
    ensures Deserialize(disc, data).Some?
    ensures Serialize(disc, Deserialize(disc, data).value) == data
  {
    var p := Deserialize(disc, data).value;
    EncodeDecodeLE(data[TOKEN_A_OFFSET..TOKEN_B_OFFSET]);
    EncodeDecodeLE(data[TOKEN_B_OFFSET..LEN]);
    assert data == data[..AUTHORITY_OFFSET] + data[AUTHORITY_OFFSET..TOKEN_A_OFFSET]
      + data[TOKEN_A_OFFSET..TOKEN_B_OFFSET] + data[TOKEN_B_OFFSET..LEN];
  }

  /** The layout the size constant describes: 56 bytes, authority right after the discriminator. */
  lemma LayoutOfLen()
    ensures LEN == 56
    ensures AUTHORITY_OFFSET == 8 && TOKEN_A_OFFSET == 40 && TOKEN_B_OFFSET == 48
    ensures TOKEN_B_OFFSET + U64_LEN == LEN
  {
  }
}
