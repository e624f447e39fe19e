/**
 * The canonicaliser: the eleven hashed fields of a contract, concatenated with
 * no separator in a fixed order (concatStrings and orderStringsForHashing,
 * src/index.ts:85-97 and 351-376). The order is the wire format both
 * signatures attest to.
 */
module Canonical {
  import opened Wrappers
  import opened Externals

  /** The fields that enter the hash (HashContent, src/index.ts:85-97); `erc20` may be null. */
  datatype HashContent = HashContent(
    legalContract: string,
    createdDate: string,
    expires: string,
    redirectto: string,
    version: string,
    issuer: string,
    blockedCountries: seq<string>,
    blockedAddresses: seq<string>,
    network: string,
    smartContract: string,
    erc20: Option<string>)

  /** What JavaScript's `+=` appends for a nullable string: null becomes the text "null". */
  function JsText(v: Option<string>): string
  {
    match v
    case None => "null"
    case Some(s) => s
  }

  /** The strings of a list, joined in order with nothing between them. */
  function Concat(parts: seq<string>): string
  {
    if parts == [] then "" else parts[0] + Concat(parts[1..])
  }

  /** Appending one string at the end, as each step of a left fold does. */
  lemma {:induction false} ConcatSnoc(parts: seq<string>, s: string)
    ensures Concat(parts + [s]) == Concat(parts) + s
  {
    if parts != [] {
      assert (parts + [s])[1..] == parts[1..] + [s];
      ConcatSnoc(parts[1..], s);
    }
  }

  /** Two strings split at the same length split into equal halves only when the halves are equal. */
  lemma SplitAtSameLength(a: string, b: string, c: string, d: string)
    requires |a| == |c|
    ensures a + b == c + d <==> a == c && b == d
  {
    if a + b == c + d {
      assert a == (a + b)[..|a|] && c == (c + d)[..|c|];
      assert b == (a + b)[|a|..] && d == (c + d)[|c|..];
    }
  }

  /**
   * Without separators the concatenation loses the field boundaries; it is still
   * injective among lists whose pieces have pairwise equal lengths.
   */
  lemma {:induction false} ConcatInjective(xs: seq<string>, ys: seq<string>)
    requires |xs| == |ys|
    requires forall i :: 0 <= i < |xs| ==> |xs[i]| == |ys[i]|
    ensures Concat(xs) == Concat(ys) <==> xs == ys
  {
    if xs != [] {
      SplitAtSameLength(xs[0], Concat(xs[1..]), ys[0], Concat(ys[1..]));
      ConcatInjective(xs[1..], ys[1..]);
      if xs[0] == ys[0] && xs[1..] == ys[1..] {
        assert xs == [xs[0]] + xs[1..] && ys == [ys[0]] + ys[1..];
      }
    }
  }

  /** concatStrings (src/index.ts:351-357): a left fold of `+=` starting from the empty string. */
  method ConcatStrings(data: seq<string>) returns (res: string)
    ensures res == Concat(data)
  {
    res := "";
    var i := 0;
    while i < |data|
      invariant 0 <= i <= |data|
      invariant res == Concat(data[..i])
    {
      assert data[..i + 1] == data[..i] + [data[i]];
      ConcatSnoc(data[..i], data[i]);
      res := res + data[i];
      i := i + 1;
    }
    assert data[..i] == data;
  }

  /** The eleven pieces orderStringsForHashing hands to concatStrings, in wire order. */
  function Pieces(json: JsonCodec, data: HashContent): seq<string>
  {
    [ data.legalContract,
      data.createdDate,
      data.expires,
      data.redirectto,
      data.version,
      data.issuer,
      json.stringify(data.blockedCountries),
      json.stringify(data.blockedAddresses),
      data.network,
      data.smartContract,
      JsText(data.erc20) ]
  }

  /** orderStringsForHashing (src/index.ts:360-376): the hash preimage. */
  function OrderStringsForHashing(json: JsonCodec, data: HashContent): (r: string)
    ensures r == data.legalContract + data.createdDate + data.expires + data.redirectto
               + data.version + data.issuer
               + json.stringify(data.blockedCountries) + json.stringify(data.blockedAddresses)
               + data.network + data.smartContract + JsText(data.erc20)
  {
    var p := Pieces(json, data);
    ConcatOfEleven(p);
    Concat(p)
  }

  /** Concat of a suffix: its first piece, then the rest. */
  lemma ConcatFrom(p: seq<string>, k: nat)
    requires k < |p|
    ensures Concat(p[k..]) == p[k] + Concat(p[k + 1..])
  {
    assert p[k..][1..] == p[k + 1..];
  }

  /** Unfolds Concat over a list of eleven strings. */
  lemma ConcatOfEleven(p: seq<string>)
    requires |p| == 11
    ensures Concat(p) == p[0] + (p[1] + (p[2] + (p[3] + (p[4] + (p[5] + (p[6] + (p[7] + (p[8] + (p[9] + p[10])))))))))
  {
    assert p[0..] == p;
    assert p[11..] == [];
    ConcatFrom(p, 10); ConcatFrom(p, 9); ConcatFrom(p, 8); ConcatFrom(p, 7);
    ConcatFrom(p, 6); ConcatFrom(p, 5); ConcatFrom(p, 4); ConcatFrom(p, 3);
    ConcatFrom(p, 2); ConcatFrom(p, 1); ConcatFrom(p, 0);
  }
}
