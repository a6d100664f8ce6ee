/** The confirm token: a compact ECDSA signature over the SHA256 of a fixed-layout preimage. */
module Confirm {
  import opened Basics
  import opened Bitcoin
  import opened Encoding

  /** "TESAURUS_CONFIRM_V1" in ASCII. */
  const CONFIRM_DOMAIN: seq<Byte> :=
    [84, 69, 83, 65, 85, 82, 85, 83, 95, 67, 79, 78, 70, 73, 82, 77, 95, 86, 49]
  const CONFIRM_LAYOUT_VERSION: Byte := 1

  datatype ConfirmBinding = ConfirmBinding(
    requestId: Bytes16,
    txidDisplay: Bytes32,
    externalAmountSats: U64,
    genesisInternal: Bytes32)

  function Reversed(s: seq<Byte>): (r: seq<Byte>)
    ensures |r| == |s|
    ensures forall i :: 0 <= i < |s| ==> r[i] == s[|s| - 1 - i]
  {
    if s == [] then [] else Reversed(s[1..]) + [s[0]]
  }

  /** The txid in display order: a local copy, reversed in place. */
  method TxidDisplayBytes(txid: Bytes32) returns (r: Bytes32)
    ensures r == Reversed(txid)
  {
    var bytes := new Byte[32](i requires 0 <= i < 32 => txid[i]);
    for i := 0 to 16
      invariant forall k :: 0 <= k < i ==> bytes[k] == txid[31 - k] && bytes[31 - k] == txid[k]
      invariant forall k :: i <= k < 32 - i ==> bytes[k] == txid[k]
    {
      bytes[i], bytes[31 - i] := bytes[31 - i], bytes[i];
    }
    return bytes[..];
  }

  function ConfirmPreimage(b: ConfirmBinding): seq<Byte> {
    CONFIRM_DOMAIN + [CONFIRM_LAYOUT_VERSION] + b.requestId + b.txidDisplay
    + BigEndian(b.externalAmountSats, 8) + b.genesisInternal
  }

  /** The documented layout: 108 bytes, every field at its place, and no two bindings alike. */
  lemma {:induction false} ConfirmPreimageInjective(a: ConfirmBinding, b: ConfirmBinding)
    ensures |ConfirmPreimage(a)| == 108
    ensures ConfirmPreimage(a) == ConfirmPreimage(b) <==> a == b
  {
    Pow256Values();
    ConfirmPreimageLayout(a);
    ConfirmPreimageLayout(b);
    BigEndianRoundTrip(a.externalAmountSats, 8);
    BigEndianRoundTrip(b.externalAmountSats, 8);
  }

  lemma {:induction false} ConfirmPreimageLayout(b: ConfirmBinding)
    ensures var p, domain := ConfirmPreimage(b), "TESAURUS_CONFIRM_V1";
            && |p| == 108
            && (forall i :: 0 <= i < 19 ==> p[i] == domain[i] as int) && p[19] == 1
            && p[20..36] == b.requestId
            && p[36..68] == b.txidDisplay
            && p[68..76] == BigEndian(b.externalAmountSats, 8)
            && p[76..] == b.genesisInternal
  {
    assert ConfirmPreimage(b)[..19] == CONFIRM_DOMAIN;
  }

  function VerifyConfirmToken(lib: Library, token: seq<Byte>, binding: ConfirmBinding, overrideKey: PubKey)
    : PolicyResult<()>
  {
    if |token| != 64 then Err(ConfirmInvalid)
    else if !lib.isCompactSignature(token) then Err(ConfirmInvalid)
    else if lib.ecdsaVerify(lib.sha256(ConfirmPreimage(binding)), token, overrideKey) then Ok(())
    else Err(ConfirmInvalid)
  }
}
