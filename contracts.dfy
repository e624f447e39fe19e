/**
 * The contract record of src/index.ts and its parser, parseContract
 * (src/index.ts:44-83 and 182-231). This parser reads any contract type.
 */
module Contracts {
  import opened Wrappers
  import opened Envelope
  import opened Dom
  import opened Externals
  import opened Canonical

  /** The parsed Ricardian contract (src/index.ts:65-83); `erc20` is null when the attribute says "null". */
  datatype Contract = Contract(
    contracttype: string,
    version: string,
    signedon: string,
    created: string,
    expires: string,
    redirectto: string,
    parenturl: string,
    network: string,
    issuer: string,
    issuersignature: string,
    participant: string,
    participantsignature: string,
    smartcontract: string,
    erc20: Option<string>,
    legalcontract: string,
    blockedAddresses: seq<string>,
    blockedCountries: seq<string>)

  /** The two JSON-encoded list attributes both parse. */
  predicate ListsParse(json: JsonCodec, page: Attributes)
  {
    && json.parse(GetAttribute(page, "data-blockedaddresses")).Ok?
    && json.parse(GetAttribute(page, "data-blockedcountries")).Ok?
  }

  /**
   * `c` holds what the page and display elements say: every string field is the
   * verbatim `data-*` attribute, `erc20` is null exactly when its attribute is "null",
   * the legal text is the display children in document order, and the two lists
   * are the parsed JSON attributes.
   */
  predicate ReadFrom(c: Contract, json: JsonCodec, page: Attributes, children: seq<string>)
  {
    && c.contracttype == GetAttribute(page, "data-contracttype")
    && c.version == GetAttribute(page, "data-version")
    && c.signedon == GetAttribute(page, "data-signedon")
    && c.created == GetAttribute(page, "data-created")
    && c.expires == GetAttribute(page, "data-expires")
    && c.redirectto == GetAttribute(page, "data-redirectto")
    && c.parenturl == GetAttribute(page, "data-parenturl")
    && c.network == GetAttribute(page, "data-network")
    && c.issuer == GetAttribute(page, "data-issuer")
    && c.issuersignature == GetAttribute(page, "data-issuersignature")
    && c.participant == GetAttribute(page, "data-participant")
    && c.participantsignature == GetAttribute(page, "data-participantsignature")
    && c.smartcontract == GetAttribute(page, "data-smartcontract")
    && (c.erc20.None? <==> GetAttribute(page, "data-erc20") == "null")
    && (c.erc20.Some? ==> c.erc20.value == GetAttribute(page, "data-erc20"))
    && c.legalcontract == Concat(children)
    && json.parse(GetAttribute(page, "data-blockedaddresses")) == Ok(c.blockedAddresses)
    && json.parse(GetAttribute(page, "data-blockedcountries")) == Ok(c.blockedCountries)
  }

  /** What parseContract returns for a document. */
  function Parse(json: JsonCodec, doc: Document): (r: Options<Option<Contract>>)
    // no page: fails before anything else is read
    ensures doc.page.None? ==> r == Options(Failure, None, InvalidDocument)
    // no display element: the caught null dereference, before any attribute is read
    ensures doc.page.Some? && doc.display.None? ==> r == Options(Failure, None, NullDisplay)
    // a list attribute that does not parse reports the parser's own message, addresses first
    ensures doc.page.Some? && doc.display.Some?
            && json.parse(GetAttribute(doc.page.value, "data-blockedaddresses")).Err? ==>
              r == Options(Failure, None, json.parse(GetAttribute(doc.page.value, "data-blockedaddresses")).message)
    ensures doc.page.Some? && doc.display.Some?
            && json.parse(GetAttribute(doc.page.value, "data-blockedaddresses")).Ok?
            && json.parse(GetAttribute(doc.page.value, "data-blockedcountries")).Err? ==>
              r == Options(Failure, None, json.parse(GetAttribute(doc.page.value, "data-blockedcountries")).message)
    // the contract type is never consulted: success depends on structure, lists and scripts only
    ensures r.status == Success <==>
              doc.page.Some? && doc.display.Some? && ListsParse(json, doc.page.value) && doc.scripts == 0
    ensures r.status == Success ==> r.error == "" && r.data.Some?
    // a script anywhere fails the parse, even when every attribute is present
    ensures doc.scripts != 0 ==> r.status == Failure
    ensures doc.scripts != 0 && doc.page.Some? && doc.display.Some? && ListsParse(json, doc.page.value) ==>
              r.error == UnknownScripts && r.data.Some?
    // whenever a record is returned (also beside the script error) it is the one the document holds
    ensures r.data.Some? ==>
              doc.page.Some? && doc.display.Some? && ReadFrom(r.data.value, json, doc.page.value, doc.display.value)
    ensures r.status == Failure && r.data.Some? ==> r.error == UnknownScripts
  {
    var start: Options<Option<Contract>> := Options(Success, None, "");
    if doc.page.None? then Caught(start, InvalidDocument)
    else if doc.display.None? then Caught(start, NullDisplay)
    else
      var page := doc.page.value;
      var erc20 := GetAttribute(page, "data-erc20");
      var addresses := json.parse(GetAttribute(page, "data-blockedaddresses"));
      if addresses.Err? then Caught(start, addresses.message)
      else
        var countries := json.parse(GetAttribute(page, "data-blockedcountries"));
        if countries.Err? then Caught(start, countries.message)
        else
          var built := start.(data := Some(Contract(
            GetAttribute(page, "data-contracttype"),
            GetAttribute(page, "data-version"),
            GetAttribute(page, "data-signedon"),
            GetAttribute(page, "data-created"),
            GetAttribute(page, "data-expires"),
            GetAttribute(page, "data-redirectto"),
            GetAttribute(page, "data-parenturl"),
            GetAttribute(page, "data-network"),
            GetAttribute(page, "data-issuer"),
            GetAttribute(page, "data-issuersignature"),
            GetAttribute(page, "data-participant"),
            GetAttribute(page, "data-participantsignature"),
            GetAttribute(page, "data-smartcontract"),
            if erc20 == "null" then None else Some(erc20),
            Concat(doc.display.value),
            addresses.value,
            countries.value)));
          if doc.scripts != 0 then Caught(built, UnknownScripts) else built
  }

  /** parseContract (src/index.ts:182-231), with its loop over the display element's children. */
  method ParseContract(json: JsonCodec, doc: Document) returns (options: Options<Option<Contract>>)
    ensures options == Parse(json, doc)
  {
    options := Options(Success, None, "");
    if doc.page.None? {
      options := Caught(options, InvalidDocument);
      return;
    }
    var page := doc.page.value;
    if doc.display.None? {
      options := Caught(options, NullDisplay);
      return;
    }
    var childNodes := doc.display.value;
    var displayInnerHtml := "";
    var i := 0;
    while i < |childNodes|
      invariant 0 <= i <= |childNodes|
      invariant displayInnerHtml == Concat(childNodes[..i])
    {
      assert childNodes[..i + 1] == childNodes[..i] + [childNodes[i]];
      ConcatSnoc(childNodes[..i], childNodes[i]);
      displayInnerHtml := displayInnerHtml + childNodes[i];
      i := i + 1;
    }
    assert childNodes[..i] == childNodes;
    var contracttype := GetAttribute(page, "data-contracttype");
    var erc20 := GetAttribute(page, "data-erc20");
    var blockedAddresses := json.parse(GetAttribute(page, "data-blockedaddresses"));
    if blockedAddresses.Err? {
      options := Caught(options, blockedAddresses.message);
      return;
    }
    var blockedCountries := json.parse(GetAttribute(page, "data-blockedcountries"));
    if blockedCountries.Err? {
      options := Caught(options, blockedCountries.message);
      return;
    }
    options := options.(data := Some(Contract(
      contracttype,
      GetAttribute(page, "data-version"),
      GetAttribute(page, "data-signedon"),
      GetAttribute(page, "data-created"),
      GetAttribute(page, "data-expires"),
      GetAttribute(page, "data-redirectto"),
      GetAttribute(page, "data-parenturl"),
      GetAttribute(page, "data-network"),
      GetAttribute(page, "data-issuer"),
      GetAttribute(page, "data-issuersignature"),
      GetAttribute(page, "data-participant"),
      GetAttribute(page, "data-participantsignature"),
      GetAttribute(page, "data-smartcontract"),
      if erc20 == "null" then None else Some(erc20),
      displayInnerHtml,
      blockedAddresses.value,
      blockedCountries.value)));
    if doc.scripts != 0 {
      options := Caught(options, UnknownScripts);
    }
  }

  /** The contract type attribute does not change what parseContract decides or reports. */
  lemma ParseIgnoresContractType(json: JsonCodec, doc: Document, t: string)
    requires doc.page.Some?
    ensures var doc' := doc.(page := Some(doc.page.value["data-contracttype" := t]));
            Parse(json, doc').status == Parse(json, doc).status
            && Parse(json, doc').error == Parse(json, doc).error
  {
  }
}
