/**
 * The older parser of src/verifyProofs.ts (lines 33-49 and 132-181): it accepts
 * fulfilled contracts only, reads the wallet attribute, and leaves erc20 as written.
 */
module Fulfilled {
  import opened Wrappers
  import opened Envelope
  import opened Dom
  import opened Canonical

  const InvalidContractType := "Invalid contract type"

  /** The contract record of src/verifyProofs.ts:33-49. */
  datatype Contract = Contract(
    contracttype: string,
    version: string,
    created: string,
    expires: string,
    redirectto: string,
    parenturl: string,
    network: string,
    issuer: string,
    issuersignature: string,
    participant: string,
    participantsignature: string,
    smartcontract: string,
    erc20: string,
    selectedWallet: string,
    legalcontract: string)

  /**
   * `c` holds what the page and display elements say: every field is the verbatim
   * attribute (erc20 included, with no "null" mapping), the wallet is the `metamask`
   * attribute and the legal text is the display children in document order.
   */
  predicate ReadFrom(c: Contract, page: Attributes, children: seq<string>)
  {
    && c.contracttype == GetAttribute(page, "data-contracttype")
    && c.version == GetAttribute(page, "data-version")
    && c.created == GetAttribute(page, "data-created")
    && c.expires == GetAttribute(page, "data-expires")
    && c.redirectto == GetAttribute(page, "data-redirectto")
    && c.parenturl == GetAttribute(page, "data-parenturl")
    && c.network == GetAttribute(page, "data-network")
    && c.issuer == GetAttribute(page, "data-issuer")
    && c.issuersignature == GetAttribute(page, "data-issuersignature")
    && c.participant == GetAttribute(page, "data-participant")
    && c.participantsignature == GetAttribute(page, "data-participantsignature")
    && c.smartcontract == GetAttribute(page, "data-smartcontract")
    && c.erc20 == GetAttribute(page, "data-erc20")
    && c.selectedWallet == GetAttribute(page, "metamask")
    && c.legalcontract == Concat(children)
  }

  /** The page and display elements exist and the page says "fulfilled". */
  predicate FulfilledStructure(doc: Document)
  {
    doc.page.Some? && doc.display.Some? && GetAttribute(doc.page.value, "data-contracttype") == "fulfilled"
  }

  /** What the fulfilled-only parseContract returns for a document. */
  function Parse(doc: Document): (r: Options<Option<Contract>>)
    ensures doc.page.None? ==> r == Options(Failure, None, InvalidDocument)
    // a missing display element is a caught null dereference, reported before the type check
    ensures doc.page.Some? && doc.display.None? ==> r == Options(Failure, None, NullDisplay)
    // the type check precedes the script scan: a non-fulfilled document reports its type, scripts or not
    ensures doc.page.Some? && doc.display.Some? && GetAttribute(doc.page.value, "data-contracttype") != "fulfilled" ==>
              r == Options(Failure, None, InvalidContractType)
    ensures r.status == Success <==> FulfilledStructure(doc) && doc.scripts == 0
    ensures r.status == Success ==> r.error == "" && r.data.Some?
    // a fulfilled document with scripts fails, yet its record has already been stored
    ensures FulfilledStructure(doc) && doc.scripts != 0 ==>
              r.status == Failure && r.error == UnknownScripts && r.data.Some?
    ensures r.data.Some? ==>
              FulfilledStructure(doc) && r.data.value.contracttype == "fulfilled"
              && ReadFrom(r.data.value, doc.page.value, doc.display.value)
  {
    var start: Options<Option<Contract>> := Options(Success, None, "");
    if doc.page.None? then Caught(start, InvalidDocument)
    else if doc.display.None? then Caught(start, NullDisplay)
    else
      var page := doc.page.value;
      var contracttype := GetAttribute(page, "data-contracttype");
      if contracttype != "fulfilled" then Caught(start, InvalidContractType)
      else
        var built := start.(data := Some(Contract(
          contracttype,
          GetAttribute(page, "data-version"),
          GetAttribute(page, "data-created"),
          GetAttribute(page, "data-expires"),
          GetAttribute(page, "data-redirectto"),
          GetAttribute(page, "data-parenturl"),
          GetAttribute(page, "data-network"),
          GetAttribute(page, "data-issuer"),
          GetAttribute(page, "data-issuersignature"),
          GetAttribute(page, "data-participant"),
          GetAttribute(page, "data-participantsignature"),
          GetAttribute(page, "data-smartcontract"),
          GetAttribute(page, "data-erc20"),
          GetAttribute(page, "metamask"),
          Concat(doc.display.value))));
        if doc.scripts != 0 then Caught(built, UnknownScripts) else built
  }

  /** parseContract (src/verifyProofs.ts:132-181), with its loop over the display element's children. */
  method ParseContract(doc: Document) returns (options: Options<Option<Contract>>)
    ensures options == Parse(doc)
  {
    options := Options(Success, None, "");
    if doc.page.None? {
      options := Caught(options, InvalidDocument);
      return;
    }
    var page := doc.page.value;
    if doc.display.None? {
      options := Caught(options, NullDisplay);
      return;
    }
    var childNodes := doc.display.value;
    var displayInnerHtml := "";
    var i := 0;
    while i < |childNodes|
      invariant 0 <= i <= |childNodes|
      invariant displayInnerHtml == Concat(childNodes[..i])
    {
      assert childNodes[..i + 1] == childNodes[..i] + [childNodes[i]];
      ConcatSnoc(childNodes[..i], childNodes[i]);
      displayInnerHtml := displayInnerHtml + childNodes[i];
      i := i + 1;
    }
    assert childNodes[..i] == childNodes;
    var contracttype := GetAttribute(page, "data-contracttype");
    if contracttype != "fulfilled" {
      options := Caught(options, InvalidContractType);
      return;
    }
    options := options.(data := Some(Contract(
      contracttype,
      GetAttribute(page, "data-version"),
      GetAttribute(page, "data-created"),
      GetAttribute(page, "data-expires"),
      GetAttribute(page, "data-redirectto"),
      GetAttribute(page, "data-parenturl"),
      GetAttribute(page, "data-network"),
      GetAttribute(page, "data-issuer"),
      GetAttribute(page, "data-issuersignature"),
      GetAttribute(page, "data-participant"),
      GetAttribute(page, "data-participantsignature"),
      GetAttribute(page, "data-smartcontract"),
      GetAttribute(page, "data-erc20"),
      GetAttribute(page, "metamask"),
      displayInnerHtml)));
    if doc.scripts != 0 {
      options := Caught(options, UnknownScripts);
    }
  }
}
