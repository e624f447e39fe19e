# Ricardian contract verification, modelled in Dafny

Ricardian Fabric publishes legal agreements as HTML documents on IPFS. An issuer and a
participant both sign them with EIP-712 typed-data signatures. This project models the
library that checks such a "fulfilled" contract. It has four parts:

- **parsing** (`parseContract`). The `data-*` attributes of the element with id `page`,
  together with the serialized children of `contract-display`, become a `Contract` record.
  Documents without a page element, without a display element or holding a `script`
  element are rejected. There are two variants. The one in `src/index.ts` accepts any
  contract type, parses the two JSON-encoded block lists and turns an `erc20` of `"null"`
  into null. The older one in `src/verifyProofs.ts` accepts fulfilled contracts only and
  also reads the `metamask` attribute.
- **canonicalising** (`concatStrings`, `orderStringsForHashing`). Eleven fields are
  concatenated, with no separator and in a fixed order, into the preimage of the hash
  both parties sign.
- **verifying** (`verifyParticipant`, `compareAddresses`, `getmsgParams`, `matchParent`).
  The typed message `{domain: "Ricardian Fabric", version "1", chainId, verifyingContract;
  doc.value: hash}` is rebuilt once. Then the issuer's signature is recovered and compared,
  and only after it passes the participant's. The participant address recovered from the
  signature is returned. `matchParent` checks the parent URL by exact string equality.
- **the content identifier in the path** (`getCIDfromPath`, `isCID`). The last `/`-segment
  of the pathname is returned when it decodes as a CID.

`parseContract`, `verifyParticipant` and `getCIDfromPath` (and `ipfsCat`, which is not
modelled) return the `{status, data, error}` envelope (`Envelope.Options`); `matchParent`
and `compareAddresses` return a plain boolean.
A thrown and caught error keeps whatever `data` was already set, and the model keeps that
too. For example, a document with a script still returns its parsed record beside the
error.

The foreign libraries are parameters: records of deterministic functions
(`Externals.JsonCodec`, `Externals.Crypto`, `Externals.CidCodec`). A function that can
throw returns `Result`, so its error message flows into the envelope as in the source.
The browser's `window.location.pathname` is an argument.

Layout: `wrappers.dfy` (Option, Result), `envelope.dfy` (Status, Options, the catch
step), `dom.dfy` (the parsed document), `eip712.dfy` (the typed message),
`externals.dfy` (the foreign functions), `canonical.dfy` (the preimage), `contracts.dfy`
(the `src/index.ts` record and parser), `verifier.dfy` (the checks), `fulfilled.dfy` (the
`src/verifyProofs.ts` parser) and `cidpath.dfy` (the path and CID check). Each
operation that the source writes with loops or by mutating its envelope is a `method`.
The two `ParseContract` methods and `VerifyParticipant` are proved equal to a
specification function, whose contract and lemmas state the properties;
`GetCidFromPath` states its result directly in its own contract.

Behaviour of the source worth noting:

- In `src/verifyProofs.ts` the contract-type check runs before the script scan. A
  non-fulfilled document that holds scripts therefore reports only
  `"Invalid contract type"`.
- A missing `contract-display` fails through a caught null dereference. In
  `src/verifyProofs.ts` this happens before the type is checked.
- An absent attribute is not a failure. It reads as the empty string, as `getAttribute`
  of `@xmldom/xmldom` returns it.
- The block lists are whatever `JSON.parse` returns. No country code is checked against
  the `BlockCountry` enumeration.
- A null `erc20` enters the preimage as the text `"null"`, which is how JavaScript's `+=`
  converts it. It therefore hashes exactly like the attribute value `"null"`
  (`Verifier.NullErc20HashesAsText`).

Two consequences of the separator-free preimage are proved:

- Text moved across a field boundary leaves the preimage unchanged
  (`Verifier.FieldBoundaryAmbiguity`: created `"ab"`/expires `""` signs the same as
  `"a"`/`"b"`).
- An in-place edit that keeps every field's length always changes the preimage
  (`Verifier.SameLengthEditChangesPreimage`).

## Model

| member | source | states |
|---|---|---|
| `Canonical.ConcatStrings` | src/index.ts:351-357 | the loop's result is the in-order concatenation of the list, i.e. the left fold of `+=` from `""` |
| `Canonical.ConcatSnoc` | src/index.ts:353-355 | one `+=` step appends the next string at the end of the concatenation so far |
| `Canonical.ConcatInjective` | src/index.ts:351-357 | concatenation without separators is injective among lists whose pieces have pairwise equal lengths |
| `Canonical.OrderStringsForHashing` | src/index.ts:360-376 | the preimage is legalContract, createdDate, expires, redirectto, version, issuer, JSON(blockedCountries), JSON(blockedAddresses), network, smartContract, ERC20, in this order with no separators; null ERC20 contributes `"null"` |
| `Contracts.Parse` | src/index.ts:182-231 | a missing page yields exactly failure/null/"Invalid document."; a missing display (page present) exactly failure/null/the null-dereference error; a failing JSON parse of the addresses, then of the countries, exactly failure/null/that parse's message; success iff page and display exist, both JSON lists parse and there are no scripts (the contract type plays no part); any script means failure, with "Unknown scripts detected." and the built record kept in data once everything else parsed; any returned record holds the verbatim attributes, the in-order display children and the parsed lists, and has erc20 null exactly when the attribute is "null" |
| `Contracts.ParseContract` | src/index.ts:182-231 | the imperative parser, with its loop over the display children, returns exactly `Parse` |
| `Contracts.ParseIgnoresContractType` | src/index.ts:198-225 | changing `data-contracttype` changes neither the status nor the error of the parse |
| `Eip712.GetMsgParams` | src/index.ts:304-330 | the message is well typed (primary type `doc` declared, its one string field `value` is the only message key and holds the hash); domain is name "Ricardian Fabric", version "1", chainId the network, verifyingContract the smart contract; exactly the two types EIP712Domain and doc are declared, and EIP712Domain lists name, version, chainId, verifyingContract |
| `Eip712.GetMsgParamsInjective` | src/index.ts:304-330 | two messages are equal iff their network, contract and hash are equal |
| `Verifier.MatchParent` | src/index.ts:241-246 | true iff the recorded parent URL equals the argument as a string, with no normalisation; the consequences are in `MatchParentExact` |
| `Verifier.GetHash` | src/index.ts:378-381 | the hash is taken over the flat eleven-field preimage and nothing else; `MessageIgnoresUnhashedFields`, `FieldBoundaryAmbiguity` and `NullErc20HashesAsText` draw the consequences |
| `Verifier.MatchParentExact` | src/index.ts:241-246 | two different parents, e.g. with and without a trailing slash, never both match |
| `Verifier.CompareAddresses` | src/index.ts:295-302 | the comparison completes iff both addresses normalise, and then is true iff the checksum forms are equal; a failure to normalise the first address reports that error, and otherwise a failure to normalise the second reports its error |
| `Verifier.CompareAddressesReflexive` | src/index.ts:295-302 | an address that normalises compares equal to itself |
| `Verifier.CompareAddressesSymmetric` | src/index.ts:295-302 | the comparison is symmetric whenever at least one of the two addresses normalises |
| `Verifier.CompareAddressesTransitive` | src/index.ts:295-302 | the comparison is transitive |
| `Verifier.Verify` | src/index.ts:253-287 | success iff the issuer's and then the participant's signatures over the one shared message recover to addresses that compare equal to the claimed ones; on success error is "" and data the recovered participant address; on failure data is ""; an issuer mismatch yields exactly "Invalid issuer signature", a participant mismatch after a matching issuer exactly "Invalid participant signature"; an error thrown by the issuer's recovery or address normalisation, or by the participant's after a matching issuer, yields failure with "" data and that error's message |
| `Verifier.VerifyParticipant` | src/index.ts:253-287 | the imperative verifier, building the hash and message once and short-circuiting on the issuer, returns exactly `Verify` |
| `Verifier.MessageIgnoresUnhashedFields` | src/index.ts:257-272 | the signed message does not depend on contracttype, signedon, parenturl, issuersignature, participant or participantsignature |
| `Verifier.IssuerFailureIgnoresParticipant` | src/index.ts:273-280 | when the issuer check does not pass, the participant's address and signature do not affect the result |
| `Verifier.SameLengthEditChangesPreimage` | src/index.ts:360-376 | editing hashed fields while keeping every piece's length always changes the preimage |
| `Verifier.FieldBoundaryAmbiguity` | src/index.ts:351-376 | two contracts differing only in how text is split between `created` and `expires` sign the same message |
| `Verifier.NullErc20HashesAsText` | src/index.ts:351-376 | a null erc20 and the string "null" give the same signed message |
| `Fulfilled.Parse` | src/verifyProofs.ts:132-181 | missing page: "Invalid document." with null data; missing display: the null-dereference error with null data; page and display present but type not "fulfilled": "Invalid contract type" with null data, scripts or not; success iff page, display, fulfilled type and no scripts; fulfilled with scripts: failure "Unknown scripts detected." with the record already set; any record is fulfilled and holds the verbatim attributes (erc20 raw, selectedWallet from `metamask`) and the in-order display children |
| `Fulfilled.ParseContract` | src/verifyProofs.ts:132-181 | the imperative fulfilled-only parser, with its loop over the display children, returns exactly `Fulfilled.Parse` |
| `CidPath.Split` | src/index.ts:109 | `split("/")` yields at least one part and no part contains the separator |
| `CidPath.JoinSplit` | src/index.ts:109 | joining the parts of a split with the separator gives back the string |
| `CidPath.SplitJoin` | src/index.ts:109 | splitting the join of separator-free parts gives back the parts |
| `CidPath.LastPartAfterFinalSeparator` | src/index.ts:109-111 | the last part is the suffix after the final separator (the whole string if there is none) and holds no separator |
| `CidPath.IsCid` | src/index.ts:125-139 | true exactly when the decoder for the input's kind (string, bytes, other value) returns a CID without throwing; a thrown decode error yields false, never an exception |
| `CidPath.GetCidFromPath` | src/index.ts:106-120 | success with the last path segment as data and error "" when it decodes, otherwise failure, data "", error "Invalid CID"; on success the data is the slash-free text after the path's last slash |

`getCIDfromPath` and `isCID` in `src/verifyProofs.ts:57-90` are the same code as in
`src/index.ts`. Both files share the one model in `cidpath.dfy`, and both parsers share
`Envelope` and `Dom`.

## Left out

- `ipfsCat` and `all` (fetching and collecting IPFS chunks) are network I/O and are not
  modelled. Neither is the `IPFSCONFIG` default configuration.
- HTML parsing (`DOMParser`) and node serialization (`XMLSerializer`) are not modelled.
  A document is its page attributes, its display children as already-serialized strings,
  and its number of script elements.
- The wording of the TypeError raised on a missing `contract-display` comes from the
  JavaScript engine. It is one fixed string here (`Dom.NullDisplay`).
- `JSON.parse` and `JSON.stringify` are parameters. The block lists are modelled as string
  arrays, their declared TypeScript type. A JSON value of another shape is not modelled.
- `sha256` (Keccak-256 over the ABI encoding of one string), `recoverTypedSignature`
  (EIP-712 version 3) and `toChecksumAddress` (EIP-55) are foreign cryptography. They are
  parameters, assumed only deterministic.
- Verifier.SameLengthEditChangesPreimage: proves only that an edit changes the preimage,
  not that verification then fails. The hash is an uninterpreted parameter and may
  collide.
- The multiformats CID decoders inside `isCID` are parameters.
- `window.location` is replaced by a pathname argument.
- `Promise` and `async` are dropped: every operation is synchronous.
- `rollup.config.js` (build configuration) and `tests/verify.test.ts` (live IPFS fetches)
  are not part of this model.
