/**
 * The checks made on a parsed contract (src/index.ts:234-381): the parent-URL
 * lineage check and the two signature checks, issuer first.
 */
module Verifier {
  import opened Wrappers
  import opened Envelope
  import opened Eip712
  import opened Externals
  import opened Canonical
  import opened Contracts

  const InvalidIssuer := "Invalid issuer signature"
  const InvalidParticipant := "Invalid participant signature"

  /** matchParent (src/index.ts:241-246). */
  function MatchParent(parent: string, contract: Contract): (r: bool)
    ensures r <==> contract.parenturl == parent
  {
    if contract.parenturl != parent then false else true
  }

  /** Exact match only: no two different parents (say, one with a trailing slash) both match. */
  lemma MatchParentExact(p: string, q: string, contract: Contract)
    ensures p != q ==> !(MatchParent(p, contract) && MatchParent(q, contract))
    ensures MatchParent(p, contract) ==> !MatchParent(p + "/", contract)
  {
  }

  /** compareAddresses (src/index.ts:295-302); the first address is normalised first. */
  function CompareAddresses(crypto: Crypto, compareAddress: string, toAddress: string): (r: Result<bool>)
    ensures r.Ok? <==> crypto.toChecksumAddress(compareAddress).Ok? && crypto.toChecksumAddress(toAddress).Ok?
    ensures r.Ok? ==>
              (r.value <==> crypto.toChecksumAddress(compareAddress).value == crypto.toChecksumAddress(toAddress).value)
    ensures crypto.toChecksumAddress(compareAddress).Err? ==> r == Err(crypto.toChecksumAddress(compareAddress).message)
    ensures crypto.toChecksumAddress(compareAddress).Ok? && crypto.toChecksumAddress(toAddress).Err? ==>
              r == Err(crypto.toChecksumAddress(toAddress).message)
  {
    var a := crypto.toChecksumAddress(compareAddress);
    if a.Err? then Err(a.message)
    else
      var b := crypto.toChecksumAddress(toAddress);
      if b.Err? then Err(b.message)
      else Ok(a.value == b.value)
  }

  /** Any address that normalises matches itself. */
  lemma CompareAddressesReflexive(crypto: Crypto, a: string)
    requires crypto.toChecksumAddress(a).Ok?
    ensures CompareAddresses(crypto, a, a) == Ok(true)
  {
  }

  /**
   * The comparison is symmetric unless both addresses fail to normalise (then the
   * first one's message is reported).
   */
  lemma CompareAddressesSymmetric(crypto: Crypto, a: string, b: string)
    requires crypto.toChecksumAddress(a).Ok? || crypto.toChecksumAddress(b).Ok?
    ensures CompareAddresses(crypto, a, b) == CompareAddresses(crypto, b, a)
  {
  }

  /** The comparison is transitive. */
  lemma CompareAddressesTransitive(crypto: Crypto, a: string, b: string, c: string)
    requires CompareAddresses(crypto, a, b) == Ok(true) && CompareAddresses(crypto, b, c) == Ok(true)
    ensures CompareAddresses(crypto, a, c) == Ok(true)
  {
  }

  /** The hashed fields of a contract, as verifyParticipant gathers them (src/index.ts:257-269). */
  function HashContentOf(contract: Contract): HashContent
  {
    HashContent(
      contract.legalcontract,
      contract.created,
      contract.expires,
      contract.redirectto,
      contract.version,
      contract.issuer,
      contract.blockedCountries,
      contract.blockedAddresses,
      contract.network,
      contract.smartcontract,
      contract.erc20)
  }

  /** getHash (src/index.ts:378-381): the hash of the canonical preimage. */
  function GetHash(crypto: Crypto, json: JsonCodec, data: HashContent): (r: string)
    ensures r == crypto.hash(data.legalContract + data.createdDate + data.expires + data.redirectto
                             + data.version + data.issuer
                             + json.stringify(data.blockedCountries) + json.stringify(data.blockedAddresses)
                             + data.network + data.smartContract + JsText(data.erc20))
  {
    crypto.hash(OrderStringsForHashing(json, data))
  }

  /** The one typed message both signatures are recovered from (src/index.ts:271-272). */
  function Message(crypto: Crypto, json: JsonCodec, contract: Contract): TypedMessage
  {
    GetMsgParams(contract.network, contract.smartcontract, GetHash(crypto, json, HashContentOf(contract)))
  }

  /** The signature recovers to an address that compares equal to the claimed one. */
  predicate SignedBy(crypto: Crypto, m: TypedMessage, signature: string, claimed: string)
  {
    var recovered := crypto.recoverTypedSignature(m, signature);
    recovered.Ok? && CompareAddresses(crypto, recovered.value, claimed) == Ok(true)
  }

  /** The signature recovers and the address comparison completes, but the addresses differ. */
  predicate SignedByOther(crypto: Crypto, m: TypedMessage, signature: string, claimed: string)
  {
    var recovered := crypto.recoverTypedSignature(m, signature);
    recovered.Ok? && CompareAddresses(crypto, recovered.value, claimed) == Ok(false)
  }

  /**
   * The message of the error thrown while checking one signature: by the recovery,
   * or by the address normalisation inside the comparison; None when nothing throws.
   */
  function Thrown(crypto: Crypto, m: TypedMessage, signature: string, claimed: string): Option<string>
  {
    var recovered := crypto.recoverTypedSignature(m, signature);
    if recovered.Err? then Some(recovered.message)
    else
      var matched := CompareAddresses(crypto, recovered.value, claimed);
      if matched.Err? then Some(matched.message) else None
  }

  /** What verifyParticipant returns for a contract. */
  function Verify(crypto: Crypto, json: JsonCodec, contract: Contract): (r: Options<string>)
    ensures
      var m := Message(crypto, json, contract);
      && (r.status == Success <==>
            SignedBy(crypto, m, contract.issuersignature, contract.issuer)
            && SignedBy(crypto, m, contract.participantsignature, contract.participant))
      // on success the data is the address recovered from the participant's signature
      && (r.status == Success ==>
            r.error == "" && r.data == crypto.recoverTypedSignature(m, contract.participantsignature).value)
      && (r.status == Failure ==> r.data == "")
      // the issuer is checked first, and its failure settles the result
      && (SignedByOther(crypto, m, contract.issuersignature, contract.issuer) ==>
            r == Options(Failure, "", InvalidIssuer))
      && (SignedBy(crypto, m, contract.issuersignature, contract.issuer)
          && SignedByOther(crypto, m, contract.participantsignature, contract.participant) ==>
            r == Options(Failure, "", InvalidParticipant))
      // a throw while checking the issuer, or the participant after a matching issuer, reports its message
      && (Thrown(crypto, m, contract.issuersignature, contract.issuer).Some? ==>
            r == Options(Failure, "", Thrown(crypto, m, contract.issuersignature, contract.issuer).value))
      && (SignedBy(crypto, m, contract.issuersignature, contract.issuer)
          && Thrown(crypto, m, contract.participantsignature, contract.participant).Some? ==>
            r == Options(Failure, "", Thrown(crypto, m, contract.participantsignature, contract.participant).value))
  {
    var start := Options(Success, "", "");
    var m := Message(crypto, json, contract);
    var recoveredIssuer := crypto.recoverTypedSignature(m, contract.issuersignature);
    if recoveredIssuer.Err? then Caught(start, recoveredIssuer.message)
    else
      var issuerMatch := CompareAddresses(crypto, recoveredIssuer.value, contract.issuer);
      if issuerMatch.Err? then Caught(start, issuerMatch.message)
      else if !issuerMatch.value then Caught(start, InvalidIssuer)
      else
        var recoveredParticipant := crypto.recoverTypedSignature(m, contract.participantsignature);
        if recoveredParticipant.Err? then Caught(start, recoveredParticipant.message)
        else
          var participantMatch := CompareAddresses(crypto, recoveredParticipant.value, contract.participant);
          if participantMatch.Err? then Caught(start, participantMatch.message)
          else if !participantMatch.value then Caught(start, InvalidParticipant)
          else start.(data := recoveredParticipant.value)
  }

  /** verifyParticipant (src/index.ts:253-287). */
  method VerifyParticipant(crypto: Crypto, json: JsonCodec, contract: Contract) returns (options: Options<string>)
    ensures options == Verify(crypto, json, contract)
  {
    options := Options(Success, "", "");
    var data := HashContentOf(contract);
    var hash := GetHash(crypto, json, data);
    var msgParams := GetMsgParams(contract.network, contract.smartcontract, hash);
    var recoveredIssuer := crypto.recoverTypedSignature(msgParams, contract.issuersignature);
    if recoveredIssuer.Err? {
      options := Caught(options, recoveredIssuer.message);
      return;
    }
    var issuerMatch := CompareAddresses(crypto, recoveredIssuer.value, contract.issuer);
    if issuerMatch.Err? {
      options := Caught(options, issuerMatch.message);
      return;
    }
    if !issuerMatch.value {
      options := Caught(options, InvalidIssuer);
      return;
    }
    var recoveredParticipant := crypto.recoverTypedSignature(msgParams, contract.participantsignature);
    if recoveredParticipant.Err? {
      options := Caught(options, recoveredParticipant.message);
      return;
    }
    var participantMatch := CompareAddresses(crypto, recoveredParticipant.value, contract.participant);
    if participantMatch.Err? {
      options := Caught(options, participantMatch.message);
      return;
    }
    if !participantMatch.value {
      options := Caught(options, InvalidParticipant);
      return;
    }
    options := options.(data := recoveredParticipant.value);
  }

  /**
   * The signed message ignores the contract type, the signing date, the parent URL,
   * the participant's address and both signatures.
   */
  lemma MessageIgnoresUnhashedFields(crypto: Crypto, json: JsonCodec, c: Contract,
                                     contracttype: string, signedon: string, parenturl: string,
                                     issuersignature: string, participant: string, participantsignature: string)
    ensures Message(crypto, json, c.(contracttype := contracttype, signedon := signedon, parenturl := parenturl,
                                     issuersignature := issuersignature, participant := participant,
                                     participantsignature := participantsignature))
            == Message(crypto, json, c)
  {
  }

  /**
   * When the issuer check does not pass, the participant's address and signature
   * play no part in the result: they are never recovered or compared.
   */
  lemma IssuerFailureIgnoresParticipant(crypto: Crypto, json: JsonCodec, c: Contract,
                                        participant: string, participantsignature: string)
    requires !SignedBy(crypto, Message(crypto, json, c), c.issuersignature, c.issuer)
    ensures Verify(crypto, json, c.(participant := participant, participantsignature := participantsignature))
            == Verify(crypto, json, c)
  {
  }

  /**
   * Editing a hashed field in place (same length, different text) always changes the
   * preimage; whether the hash then differs is up to the hash function.
   */
  lemma SameLengthEditChangesPreimage(json: JsonCodec, a: HashContent, b: HashContent)
    requires forall i :: 0 <= i < 11 ==> |Pieces(json, a)[i]| == |Pieces(json, b)[i]|
    requires Pieces(json, a) != Pieces(json, b)
    ensures OrderStringsForHashing(json, a) != OrderStringsForHashing(json, b)
  {
    ConcatInjective(Pieces(json, a), Pieces(json, b));
  }

  /**
   * With no separators, moving text across a field boundary leaves the preimage
   * unchanged: a contract created "ab" expiring "" and one created "a" expiring "b"
   * share their hash, so the same signatures verify both.
   */
  lemma FieldBoundaryAmbiguity(crypto: Crypto, json: JsonCodec, c: Contract)
    ensures var c1 := c.(created := "ab", expires := "");
            var c2 := c.(created := "a", expires := "b");
            c1 != c2 && Message(crypto, json, c1) == Message(crypto, json, c2)
  {
    var c1 := c.(created := "ab", expires := "");
    var c2 := c.(created := "a", expires := "b");
    assert c1.created != c2.created;
    assert "ab" + "" == "a" + "b";
    assert OrderStringsForHashing(json, HashContentOf(c1)) == OrderStringsForHashing(json, HashContentOf(c2));
  }

  /** A null erc20 enters the hash as the text "null", exactly like the attribute value "null". */
  lemma NullErc20HashesAsText(crypto: Crypto, json: JsonCodec, c: Contract)
    ensures Message(crypto, json, c.(erc20 := None)) == Message(crypto, json, c.(erc20 := Some("null")))
  {
  }
}
