/**
 * Extracting the content identifier from the page path (getCIDfromPath and isCID,
 * src/index.ts:101-139, identical in src/verifyProofs.ts:52-90). The browser's
 * `window.location.pathname` is a parameter.
 */
module CidPath {
  import opened Wrappers
  import opened Envelope
  import opened Externals

  const InvalidCid := "Invalid CID"

  /** `String.prototype.split` with a one-character separator, built one character at a time. */
  function Split(s: string, sep: char): (parts: seq<string>)
    ensures |parts| >= 1
    ensures forall i :: 0 <= i < |parts| ==> sep !in parts[i]
    decreases |s|
  {
    if s == [] then [""]
    else
      var init := Split(s[..|s| - 1], sep);
      var c := s[|s| - 1];
      if c == sep then init + [""]
      else init[..|init| - 1] + [init[|init| - 1] + [c]]
  }

  /** The inverse of Split: the parts with the separator between each two. */
  function Join(parts: seq<string>, sep: char): string
    requires |parts| >= 1
  {
    if |parts| == 1 then parts[0] else Join(parts[..|parts| - 1], sep) + [sep] + parts[|parts| - 1]
  }

  /** Joining the parts of a split gives back the string. */
  lemma {:induction false} JoinSplit(s: string, sep: char)
    ensures Join(Split(s, sep), sep) == s
    decreases |s|
  {
    if s != [] {
      var init := Split(s[..|s| - 1], sep);
      JoinSplit(s[..|s| - 1], sep);
      var c := s[|s| - 1];
      assert s == s[..|s| - 1] + [c];
      if c != sep {
        var parts := Split(s, sep);
        assert parts[..|parts| - 1] == init[..|init| - 1];
        if |init| > 1 {
          assert init == init[..|init| - 1] + [init[|init| - 1]];
        }
      }
    }
  }

  /** One step of Split on a string ending in a character other than the separator. */
  lemma SplitAppendChar(x: string, c: char, sep: char)
    requires c != sep
    ensures var px := Split(x, sep);
            Split(x + [c], sep) == px[..|px| - 1] + [px[|px| - 1] + [c]]
  {
    assert (x + [c])[..|x + [c]| - 1] == x;
  }

  /** Splitting a string that ends in a part with no separator extends the last part. */
  lemma {:induction false} SplitAppendPlain(x: string, p: string, sep: char)
    requires sep !in p
    ensures var px := Split(x, sep);
            Split(x + p, sep) == px[..|px| - 1] + [px[|px| - 1] + p]
    decreases |p|
  {
    var px := Split(x, sep);
    var n := |px|;
    if p == [] {
      assert x + p == x;
      assert px[n - 1] + p == px[n - 1];
      assert px == px[..n - 1] + [px[n - 1]];
    } else {
      var q := p[..|p| - 1];
      var c := p[|p| - 1];
      assert p == q + [c];
      assert x + p == (x + q) + [c];
      SplitAppendPlain(x, q, sep);
      var init := Split(x + q, sep);
      assert init == px[..n - 1] + [px[n - 1] + q];
      SplitAppendChar(x + q, c, sep);
      assert init[..|init| - 1] == px[..n - 1];
      assert init[|init| - 1] + [c] == px[n - 1] + p;
    }
  }

  /** A trailing separator opens a new, empty part. */
  lemma SplitAppendSeparator(x: string, sep: char)
    ensures Split(x + [sep], sep) == Split(x, sep) + [""]
  {
    assert (x + [sep])[..|x + [sep]| - 1] == x;
  }

  /** Splitting the join of separator-free parts gives back the parts. */
  lemma {:induction false} SplitJoin(parts: seq<string>, sep: char)
    requires |parts| >= 1
    requires forall i :: 0 <= i < |parts| ==> sep !in parts[i]
    ensures Split(Join(parts, sep), sep) == parts
    decreases |parts|
  {
    var last := parts[|parts| - 1];
    if |parts| == 1 {
      SplitAppendPlain([], last, sep);
      assert [] + last == last;
    } else {
      var init := parts[..|parts| - 1];
      assert parts == init + [last];
      var j := Join(init, sep);
      assert Join(parts, sep) == j + [sep] + last;
      SplitJoin(init, sep);
      SplitAppendSeparator(j, sep);
      SplitAppendPlain(j + [sep], last, sep);
      var pj := init + [""];
      assert pj[..|pj| - 1] == init;
      assert pj[|pj| - 1] + last == last;
    }
  }

  /**
   * The last part of a split is the text after the final separator: a suffix of the
   * string, free of the separator, preceded by the separator unless it is all of it.
   */
  lemma {:induction false} LastPartAfterFinalSeparator(s: string, sep: char)
    ensures var parts := Split(s, sep);
            var last := parts[|parts| - 1];
            && sep !in last
            && |last| <= |s| && last == s[|s| - |last|..]
            && (|last| < |s| ==> s[|s| - |last| - 1] == sep)
    decreases |s|
  {
    if s != [] {
      var init := Split(s[..|s| - 1], sep);
      LastPartAfterFinalSeparator(s[..|s| - 1], sep);
      var c := s[|s| - 1];
      if c != sep {
        var t := s[..|s| - 1];
        var l := init[|init| - 1];
        assert l == t[|t| - |l|..];
        assert l + [c] == s[|s| - |l| - 1..];
      }
    }
  }

  /** The input isCID accepts: a string, bytes, or any other JavaScript value. */
  datatype CidInput = Text(text: string) | Bytes(bytes: seq<bv8>) | Other(handle: nat)

  /** isCID (src/index.ts:125-139): whether the input decodes; a thrown decode error means false. */
  function IsCid(codec: CidCodec, hash: CidInput): (b: bool)
    ensures hash.Text? ==> (b <==> codec.parse(hash.text).Ok?)
    ensures hash.Bytes? ==> (b <==> codec.decode(hash.bytes).Ok?)
    ensures hash.Other? ==> (b <==> codec.asCid(hash.handle).Ok? && codec.asCid(hash.handle).value.Some?)
  {
    match hash
    case Text(s) => codec.parse(s).Ok?
    case Bytes(bytes) => codec.decode(bytes).Ok?
    case Other(handle) =>
      var r := codec.asCid(handle);
      r.Ok? && r.value.Some?
  }

  /** getCIDfromPath (src/index.ts:106-120): the identifier is the last segment of the path. */
  method GetCidFromPath(codec: CidCodec, pathname: string) returns (options: Options<string>)
    ensures var segment := Split(pathname, '/')[|Split(pathname, '/')| - 1];
            && (codec.parse(segment).Ok? ==> options == Options(Success, segment, ""))
            && (codec.parse(segment).Err? ==> options == Options(Failure, "", InvalidCid))
    // what is returned is the text after the last slash
    ensures options.status == Success ==>
              && '/' !in options.data
              && |options.data| <= |pathname| && options.data == pathname[|pathname| - |options.data|..]
              && (|options.data| < |pathname| ==> pathname[|pathname| - |options.data| - 1] == '/')
  {
    options := Options(Success, "", "");
    var pathArrays := Split(pathname, '/');
    var lastIndex := |pathArrays| - 1;
    var cid := pathArrays[lastIndex];
    LastPartAfterFinalSeparator(pathname, '/');
    if IsCid(codec, Text(cid)) {
      options := options.(data := cid);
    } else {
      options := options.(error := InvalidCid, status := Failure);
    }
  }
}
