/**
 * The typed-data message both signatures are recovered from (getmsgParams,
 * src/index.ts:304-330): domain "Ricardian Fabric" version "1", one primary
 * type `doc` with a single string field `value` that carries the hash.
 */
module Eip712 {

  datatype Field = Field(name: string, typ: string)

  datatype Domain = Domain(chainId: string, name: string, verifyingContract: string, version: string)

  datatype TypedMessage = TypedMessage(
    domain: Domain,
    types: map<string, seq<Field>>,
    primaryType: string,
    message: map<string, string>)

  const DomainName := "Ricardian Fabric"
  const DomainVersion := "1"
  const PrimaryType := "doc"

  /** The fields of the EIP712Domain type, in the order the source declares them. */
  const DomainFields := [
    Field("name", "string"),
    Field("version", "string"),
    Field("chainId", "uint256"),
    Field("verifyingContract", "address")]

  /** The fields of the `doc` type: a single string. */
  const DocFields := [Field("value", "string")]

  /** Every name declared in a list of fields. */
  function Names(fields: seq<Field>): set<string>
  {
    set i | 0 <= i < |fields| :: fields[i].name
  }

  /**
   * A message is well typed when its domain and primary types are declared and
   * the message holds a value for exactly the fields of its primary type.
   */
  predicate WellTyped(m: TypedMessage)
  {
    && "EIP712Domain" in m.types
    && m.primaryType in m.types
    && m.message.Keys == Names(m.types[m.primaryType])
  }

  function GetMsgParams(networkId: string, smartContract: string, hash: string): (m: TypedMessage)
    ensures WellTyped(m)
    ensures m.domain == Domain(networkId, DomainName, smartContract, DomainVersion)
    ensures m.types.Keys == {"EIP712Domain", "doc"} && m.types["EIP712Domain"] == DomainFields
    ensures m.primaryType == PrimaryType && m.types[m.primaryType] == DocFields
    ensures m.message.Keys == {"value"} && m.message["value"] == hash
  {
    assert Names(DocFields) == {"value"} by { assert DocFields[0].name == "value"; }
    var doc := DocFields;
    var message := map["value" := hash];
    TypedMessage(
      Domain(networkId, DomainName, smartContract, DomainVersion),
      map["EIP712Domain" := DomainFields, "doc" := doc],
      PrimaryType,
      message)
  }

  /** The message pins its network, verifying contract and hash: different inputs never share one. */
  lemma GetMsgParamsInjective(n: string, s: string, h: string, n': string, s': string, h': string)
    ensures GetMsgParams(n, s, h) == GetMsgParams(n', s', h') <==> n == n' && s == s' && h == h'
  {
  }
}
