/**
 * The foreign libraries the core calls, as deterministic functions passed in by
 * the caller. Each one that can throw returns a Result carrying the message.
 */
module Externals {
  import opened Wrappers
  import opened Eip712

  /** `JSON.parse` of a string array attribute, and `JSON.stringify` of a string array. */
  datatype JsonCodec = JsonCodec(
    parse: string -> Result<seq<string>>,
    stringify: seq<string> -> string)

  /**
   * `hash`: the source's `sha256`, in fact Keccak-256 over the Ethereum ABI encoding of one string;
   * `recoverTypedSignature`: EIP-712 (version 3) signer recovery;
   * `toChecksumAddress`: EIP-55 checksum normalisation, which throws on a malformed address.
   */
  datatype Crypto = Crypto(
    hash: string -> string,
    recoverTypedSignature: (TypedMessage, string) -> Result<string>,
    toChecksumAddress: string -> Result<string>)

  /** A decoded content identifier. */
  datatype Cid = Cid(version: nat, codec: nat, multihash: seq<bv8>)

  /**
   * The multiformats decoders: `CID.parse` of a string, `CID.decode` of bytes and
   * `CID.asCID` of any other value (which yields null when the value is no CID).
   */
  datatype CidCodec = CidCodec(
    parse: string -> Result<Cid>,
    decode: seq<bv8> -> Result<Cid>,
    asCid: nat -> Result<Option<Cid>>)
}
