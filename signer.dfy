/**
 * The presigned WebSocket URL for streaming transcription
 * (`handle_get_transcribe_url`): AWS Signature Version 4 in its query-string
 * form. SHA-256 and HMAC-SHA256 (RFC 2104) are parameters of the model, so
 * what is established here is the structure of the signed material, the order
 * of the parameters and the chaining of the signing key.
 */
module Signer {
  import opened Wrappers
  import opened Text
  import Sorting

  type Byte = b: int | 0 <= b < 256

  /** A SHA-256 digest function and an HMAC-SHA256 function (key, message). */
  type Hash = seq<Byte> -> seq<Byte>
  type Hmac = (seq<Byte>, seq<Byte>) -> seq<Byte>

  datatype Credentials = Credentials(accessKey: string, secretKey: string, token: Option<string>)

  /** A UTC instant broken into the fields `strftime` prints. */
  datatype UtcTime = UtcTime(year: nat, month: nat, day: nat, hour: nat, minute: nat, second: nat)

  const Region := "us-east-1"
  const Service := "transcribe"
  const Endpoint := "transcribestreaming." + Region + ".amazonaws.com:8443"
  const Path := "/stream-transcription-websocket"
  const Algorithm := "AWS4-HMAC-SHA256"
  const ExpiresSeconds: nat := 300

  // ---------------------------------------------------------------- UTF-8

  /** The UTF-8 encoding of one Unicode scalar value. */
  function Utf8Char(c: char): (r: seq<Byte>)
    ensures 1 <= |r| <= 4
    ensures (c as int < 128) <==> (r == [c as int])
  {
    var n := c as int;
    if n < 0x80 then [n]
    else if n < 0x800 then [0xC0 + n / 64, 0x80 + n % 64]
    else if n < 0x10000 then [0xE0 + n / 4096, 0x80 + (n / 64) % 64, 0x80 + n % 64]
    else [0xF0 + n / 262144, 0x80 + (n / 4096) % 64, 0x80 + (n / 64) % 64, 0x80 + n % 64]
  }

  /** `s.encode('utf-8')`. */
  function Utf8(s: string): (r: seq<Byte>)
    ensures |r| >= |s|
  {
    if s == [] then [] else Utf8Char(s[0]) + Utf8(s[1..])
  }

  // ---------------------------------------------------------------- hex

  function HexLower(d: nat): char
    requires d < 16
  {
    "0123456789abcdef"[d]
  }

  function HexUpper(d: nat): char
    requires d < 16
  {
    "0123456789ABCDEF"[d]
  }

  /** The value of an upper-case hexadecimal digit, if `c` is one. */
  function UpperDigitValue(c: char): (r: Option<nat>)
    ensures r.Some? ==> r.value < 16 && HexUpper(r.value) == c
    ensures forall d :: 0 <= d < 16 && HexUpper(d) == c ==> r == Some(d)
  {
    if '0' <= c <= '9' then Some(c as int - '0' as int)
    else if 'A' <= c <= 'F' then Some(c as int - 'A' as int + 10)
    else None
  }

  /** `digest.hex()`: two lower-case digits per byte. */
  function Hex(bs: seq<Byte>): (r: string)
    ensures |r| == 2 * |bs|
    ensures forall i :: 0 <= i < |r| ==> r[i] in "0123456789abcdef"
  {
    if bs == [] then "" else [HexLower(bs[0] / 16), HexLower(bs[0] % 16)] + Hex(bs[1..])
  }

  // ---------------------------------------------------------------- percent-encoding

  /** The characters `quote(…, safe="")` never escapes: RFC 3986 section 2.3 unreserved. */
  predicate Unreserved(b: int) {
    ('A' as int <= b <= 'Z' as int) || ('a' as int <= b <= 'z' as int)
    || ('0' as int <= b <= '9' as int) || b == '_' as int || b == '.' as int
    || b == '-' as int || b == '~' as int
  }

  /** Percent-encoding of octets (RFC 3986 section 2.1), with upper-case hex digits. */
  function QuoteBytes(bs: seq<Byte>): (r: string)
    ensures forall i :: 0 <= i < |r| ==> Unreserved(r[i] as int) || r[i] == '%'
  {
    if bs == [] then ""
    else
      var b := bs[0];
      (if Unreserved(b) then [b as char] else ['%', HexUpper(b / 16), HexUpper(b % 16)])
      + QuoteBytes(bs[1..])
  }

  /** `urllib.parse.quote(s, safe="")`. */
  function Quote(s: string): (r: string)
    ensures '&' !in r && '=' !in r
  {
    var r := QuoteBytes(Utf8(s));
    assert forall i :: 0 <= i < |r| ==> r[i] != '&' && r[i] != '=';
    r
  }

  /** Percent-decoding back to octets; `None` on a character that is neither
      unreserved nor the start of a well-formed escape. */
  function Unquote(s: string): (r: Option<seq<Byte>>)
  {
    if s == [] then Some([])
    else if s[0] == '%' then
      if |s| >= 3 && UpperDigitValue(s[1]).Some? && UpperDigitValue(s[2]).Some? then
        match Unquote(s[3..])
        case Some(rest) => Some([16 * UpperDigitValue(s[1]).value + UpperDigitValue(s[2]).value] + rest)
        case None => None
      else None
    else if Unreserved(s[0] as int) then
      match Unquote(s[1..])
      case Some(rest) => Some([s[0] as int] + rest)
      case None => None
    else None
  }

  /** Decoding an encoded octet string gives the octets back. */
  lemma {:induction false} UnquoteQuoteBytes(bs: seq<Byte>)
    ensures Unquote(QuoteBytes(bs)) == Some(bs)
  {
    if bs != [] {
      var b := bs[0];
      var rest := QuoteBytes(bs[1..]);
      UnquoteQuoteBytes(bs[1..]);
      assert QuoteBytes(bs) == (if Unreserved(b) then [b as char] else ['%', HexUpper(b / 16), HexUpper(b % 16)]) + rest;
      if Unreserved(b) {
        assert (QuoteBytes(bs))[1..] == rest;
      } else {
        var e := QuoteBytes(bs);
        assert e[3..] == rest;
        assert UpperDigitValue(e[1]) == Some(b / 16);
        assert UpperDigitValue(e[2]) == Some(b % 16);
      }
      assert bs == [b] + bs[1..];
    }
  }

  /** Encoding loses nothing: the UTF-8 octets of `s` can be recovered. */
  lemma UnquoteQuote(s: string)
    ensures Unquote(Quote(s)) == Some(Utf8(s))
  {
    UnquoteQuoteBytes(Utf8(s));
  }

  /** A string of unreserved ASCII characters is its own encoding. */
  /** Every character of `s` is unreserved. */
  predicate UnreservedText(s: string) {
    forall i :: 0 <= i < |s| ==> Unreserved(s[i] as int)
  }

  lemma {:induction false} QuoteUnreserved(s: string)
    requires UnreservedText(s)
    ensures Quote(s) == s
  {
    if s != [] {
      QuoteUnreserved(s[1..]);
      assert Utf8(s) == [s[0] as int] + Utf8(s[1..]);
      assert ([s[0] as int] + Utf8(s[1..]))[1..] == Utf8(s[1..]);
    }
  }

  // ---------------------------------------------------------------- request

  /** `strftime('%Y%m%d')`. */
  function DateStamp(t: UtcTime): string {
    NatToString(t.year) + Pad2(t.month) + Pad2(t.day)
  }

  /** `strftime('%Y%m%dT%H%M%SZ')`. */
  function AmzDate(t: UtcTime): (r: string)
    ensures |r| > |DateStamp(t)| && r[..|DateStamp(t)|] == DateStamp(t)
  {
    DateStamp(t) + "T" + Pad2(t.hour) + Pad2(t.minute) + Pad2(t.second) + "Z"
  }

  function CredentialScope(t: UtcTime): string {
    DateStamp(t) + "/" + Region + "/" + Service + "/aws4_request"
  }

  /** The query parameters in the order the handler builds them; the session
      token is added only when it is non-empty. */
  function ParamList(credential: string, amzDate: string, language: string, rate: string, token: string)
    : seq<(string, string)>
  {
    [ ("X-Amz-Algorithm", Algorithm),
      ("X-Amz-Credential", credential),
      ("X-Amz-Date", amzDate),
      ("X-Amz-Expires", "300"),
      ("X-Amz-SignedHeaders", "host"),
      ("language-code", language),
      ("media-encoding", "pcm"),
      ("sample-rate", rate) ]
    + (if token != "" then [("X-Amz-Security-Token", token)] else [])
  }

  function TokenOf(c: Credentials): string {
    if c.token.Some? then c.token.value else ""
  }

  function Params(c: Credentials, t: UtcTime, language: string, sampleRate: int): seq<(string, string)> {
    ParamList(c.accessKey + "/" + CredentialScope(t), AmzDate(t), language, IntToString(sampleRate), TokenOf(c))
  }

  function KeyLe(a: (string, string), b: (string, string)): bool {
    StrLe(a.0, b.0)
  }

  lemma KeyLePreorder()
    ensures Sorting.TotalPreorder(KeyLe)
  {
    forall a: (string, string), b: (string, string) ensures KeyLe(a, b) || KeyLe(b, a) {
      StrLeTotal(a.0, b.0);
    }
    forall a: (string, string), b: (string, string), c: (string, string) | KeyLe(a, b) && KeyLe(b, c)
      ensures KeyLe(a, c)
    {
      StrLeTrans(a.0, b.0, c.0);
    }
  }

  function EncodePairs(ps: seq<(string, string)>): (r: seq<string>)
    ensures |r| == |ps|
    ensures forall i :: 0 <= i < |ps| ==> r[i] == Quote(ps[i].0) + "=" + Quote(ps[i].1)
  {
    if ps == [] then [] else [Quote(ps[0].0) + "=" + Quote(ps[0].1)] + EncodePairs(ps[1..])
  }

  /** `'&'.join(f'{quote(k)}={quote(v)}' for k, v in sorted(params.items()))`. */
  function CanonicalQuery(ps: seq<(string, string)>): string {
    Join(EncodePairs(Sorting.Sort(ps, KeyLe)), "&")
  }

  function CanonicalRequest(cqs: string, h: Hash): string {
    Join(["GET", Path, cqs, "host:" + Endpoint + "\n", "host", Hex(h([]))], "\n")
  }

  function StringToSign(t: UtcTime, canonicalRequest: string, h: Hash): string {
    Join([Algorithm, AmzDate(t), CredentialScope(t), Hex(h(Utf8(canonicalRequest)))], "\n")
  }

  /** The signing key: the secret chained through the date, region, service and terminator. */
  function SigningKey(secret: string, t: UtcTime, mac: Hmac): seq<Byte> {
    var kDate := mac(Utf8("AWS4" + secret), Utf8(DateStamp(t)));
    var kRegion := mac(kDate, Utf8(Region));
    var kService := mac(kRegion, Utf8(Service));
    mac(kService, Utf8("aws4_request"))
  }

  /** The hex signature of the string to sign under the derived key. */
  function Signature(c: Credentials, t: UtcTime, cqs: string, h: Hash, mac: Hmac): (r: string)
    ensures forall i :: 0 <= i < |r| ==> r[i] in "0123456789abcdef"
  {
    Hex(mac(SigningKey(c.secretKey, t, mac), Utf8(StringToSign(t, CanonicalRequest(cqs, h), h))))
  }

  function SignatureParam(sig: string): string {
    "X-Amz-Signature=" + sig
  }

  /** The handler's successful answer. */
  datatype TranscribeUrl = TranscribeUrl(url: string, region: string, language: string, sampleRate: int, expiresIn: nat)

  function UrlPrefix(): string {
    "wss://" + Endpoint + Path + "?"
  }

  /**
   * `handle_get_transcribe_url`: language defaults to `en-US` and the sample
   * rate to 16000 when the request omits them; the URL carries the canonical
   * query followed by the signature.
   */
  function PresignedUrl(c: Credentials, t: UtcTime, language: Option<string>, sampleRate: Option<int>,
                        h: Hash, mac: Hmac): (r: TranscribeUrl)
    ensures r.region == Region && r.expiresIn == ExpiresSeconds
    ensures r.language == language.GetOr("en-US") && r.sampleRate == sampleRate.GetOr(16000)
  {
    var lang := language.GetOr("en-US");
    var rate := sampleRate.GetOr(16000);
    var cqs := CanonicalQuery(Params(c, t, lang, rate));
    TranscribeUrl(UrlPrefix() + cqs + "&" + SignatureParam(Signature(c, t, cqs, h, mac)),
                  Region, lang, rate, ExpiresSeconds)
  }

  // ---------------------------------------------------------------- properties

  const TokenKey := "X-Amz-Security-Token"

  function Keys(ps: seq<(string, string)>): (r: seq<string>)
    ensures |r| == |ps| && forall i :: 0 <= i < |ps| ==> r[i] == ps[i].0
  {
    if ps == [] then [] else [ps[0].0] + Keys(ps[1..])
  }

  /** The session token is signed exactly when the credentials carry a non-empty one. */
  lemma TokenSignedIffPresent(credential: string, amzDate: string, language: string, rate: string, token: string)
    ensures TokenKey in Keys(ParamList(credential, amzDate, language, rate, token)) <==> token != ""
    ensures |ParamList(credential, amzDate, language, rate, token)| == if token != "" then 9 else 8
  {
    var ks := Keys(ParamList(credential, amzDate, language, rate, token));
    assert ks[..8] == ["X-Amz-Algorithm", "X-Amz-Credential", "X-Amz-Date", "X-Amz-Expires",
                       "X-Amz-SignedHeaders", "language-code", "media-encoding", "sample-rate"];
    assert TokenKey !in ks[..8];
    if |ks| == 9 { assert ks[8] == TokenKey; assert ks == ks[..8] + [ks[8]]; }
    else { assert ks == ks[..8]; }
  }

  lemma ParamKeysAscending()
    ensures StrLe("X-Amz-Algorithm", "X-Amz-Credential")
    ensures StrLe("X-Amz-Credential", "X-Amz-Date")
    ensures StrLe("X-Amz-Date", "X-Amz-Expires")
    ensures StrLe("X-Amz-Expires", "X-Amz-Security-Token")
    ensures StrLe("X-Amz-Security-Token", "X-Amz-SignedHeaders")
    ensures StrLe("X-Amz-Expires", "X-Amz-SignedHeaders")
    ensures StrLe("X-Amz-SignedHeaders", "language-code")
    ensures StrLe("language-code", "media-encoding")
    ensures StrLe("media-encoding", "sample-rate")
  {
  }

  /** The parameters rearranged in canonical order. */
  function Arranged(credential: string, amzDate: string, language: string, rate: string, token: string)
    : seq<(string, string)>
  {
    [ ("X-Amz-Algorithm", Algorithm),
      ("X-Amz-Credential", credential),
      ("X-Amz-Date", amzDate),
      ("X-Amz-Expires", "300") ]
    + (if token != "" then [("X-Amz-Security-Token", token)] else [])
    + [ ("X-Amz-SignedHeaders", "host"),
        ("language-code", language),
        ("media-encoding", "pcm"),
        ("sample-rate", rate) ]
  }

  lemma ArrangedSorted(credential: string, amzDate: string, language: string, rate: string, token: string)
    ensures Sorting.Sorted(Arranged(credential, amzDate, language, rate, token), KeyLe)
  {
    var e := Arranged(credential, amzDate, language, rate, token);
    ParamKeysAscending();
    KeyLePreorder();
    Sorting.SortedFromAdjacent(e, KeyLe);
  }

  /** In the arranged list, an entry is determined by its key. */
  lemma ArrangedKeysDistinct(credential: string, amzDate: string, language: string, rate: string, token: string,
                             x: (string, string), y: (string, string))
    requires x in Arranged(credential, amzDate, language, rate, token)
    requires y in Arranged(credential, amzDate, language, rate, token)
    requires x.0 == y.0
    ensures x == y
  {
    assert |x.0| == |y.0|;
  }

  lemma ArrangedDistinct(credential: string, amzDate: string, language: string, rate: string, token: string)
    ensures var e := Arranged(credential, amzDate, language, rate, token);
      forall x, y :: x in e && y in e && KeyLe(x, y) && KeyLe(y, x) ==> x == y
  {
    var e := Arranged(credential, amzDate, language, rate, token);
    forall x, y | x in e && y in e && KeyLe(x, y) && KeyLe(y, x) ensures x == y {
      StrLeAntisym(x.0, y.0);
      ArrangedKeysDistinct(credential, amzDate, language, rate, token, x, y);
    }
  }

  lemma ArrangedPermutes(credential: string, amzDate: string, language: string, rate: string, token: string)
    ensures multiset(Arranged(credential, amzDate, language, rate, token))
         == multiset(ParamList(credential, amzDate, language, rate, token))
  {
    var p := ParamList(credential, amzDate, language, rate, token);
    var e := Arranged(credential, amzDate, language, rate, token);
    if token != "" {
      assert p == p[..4] + p[4..8] + [p[8]];
      assert e == p[..4] + [p[8]] + p[4..8];
    } else {
      assert e == p;
    }
  }

  /** The signed parameters in canonical order: keys ascending, the session
      token (when present) between `X-Amz-Expires` and `X-Amz-SignedHeaders`. */
  lemma CanonicalOrder(credential: string, amzDate: string, language: string, rate: string, token: string)
    ensures Sorting.Sort(ParamList(credential, amzDate, language, rate, token), KeyLe)
         == Arranged(credential, amzDate, language, rate, token)
  {
    KeyLePreorder();
    ArrangedSorted(credential, amzDate, language, rate, token);
    ArrangedDistinct(credential, amzDate, language, rate, token);
    ArrangedPermutes(credential, amzDate, language, rate, token);
    Sorting.SortIsUnique(ParamList(credential, amzDate, language, rate, token),
                         Arranged(credential, amzDate, language, rate, token), KeyLe);
  }

  lemma KeysUnreserved(credential: string, amzDate: string, language: string, rate: string, token: string)
    ensures var ks := Keys(ParamList(credential, amzDate, language, rate, token));
      forall i :: 0 <= i < |ks| ==> UnreservedText(ks[i])
  {
  }

  /** The parameter names are unreserved ASCII, so ordering by raw name is ordering by encoded name. */
  lemma KeysEncodeAsThemselves(credential: string, amzDate: string, language: string, rate: string, token: string)
    ensures var p := ParamList(credential, amzDate, language, rate, token);
      forall i :: 0 <= i < |p| ==> Quote(p[i].0) == p[i].0
  {
    var p := ParamList(credential, amzDate, language, rate, token);
    var ks := Keys(p);
    KeysUnreserved(credential, amzDate, language, rate, token);
    forall i | 0 <= i < |p| ensures Quote(p[i].0) == p[i].0 {
      assert UnreservedText(ks[i]);
      QuoteUnreserved(ks[i]);
    }
  }

  lemma {:induction false} JoinSnoc(xs: seq<string>, y: string, sep: string)
    requires xs != []
    ensures Join(xs, sep) + sep + y == Join(xs + [y], sep)
  {
    if |xs| > 1 {
      JoinSnoc(xs[1..], y, sep);
      assert (xs + [y])[1..] == xs[1..] + [y];
    } else {
      assert (xs + [y])[1..] == [y];
    }
  }

  lemma NoAmpInPair(k: string, v: string)
    ensures '&' !in Quote(k) + "=" + Quote(v)
  {
    var q1, q2 := Quote(k), Quote(v);
    var e := q1 + "=" + q2;
    forall m | 0 <= m < |e| ensures e[m] != '&' {
      if m < |q1| { assert e[m] == q1[m]; }
      else if m > |q1| { assert e[m] == q2[m - |q1| - 1]; }
    }
  }

  lemma NoAmpInSignature(sig: string)
    requires forall i :: 0 <= i < |sig| ==> sig[i] in "0123456789abcdef"
    ensures '&' !in "X-Amz-Signature=" + sig
  {
    var e := "X-Amz-Signature=" + sig;
    forall m | 0 <= m < |e| ensures e[m] != '&' {
      if m >= 16 { assert e[m] == sig[m - 16]; }
    }
  }

  /** Each encoded parameter reads back as its key and value. */
  lemma PairReadsBack(k: string, v: string)
    ensures Split(Quote(k) + "=" + Quote(v), '=') == [Quote(k), Quote(v)]
    ensures Unquote(Quote(k)) == Some(Utf8(k)) && Unquote(Quote(v)) == Some(Utf8(v))
  {
    SplitJoin([Quote(k), Quote(v)], '=');
    assert Join([Quote(k), Quote(v)], "=") == Quote(k) + "=" + Quote(v);
    UnquoteQuote(k);
    UnquoteQuote(v);
  }

  /** A query made of encoded parameters and one more `&`-free piece splits back into them. */
  lemma QuerySplits(ps: seq<(string, string)>, last: string)
    requires ps != [] && '&' !in last
    ensures Split(Join(EncodePairs(ps), "&") + "&" + last, '&') == EncodePairs(ps) + [last]
  {
    var pieces := EncodePairs(ps);
    var all := pieces + [last];
    JoinSnoc(pieces, last, "&");
    forall k | 0 <= k < |all| ensures '&' !in all[k] {
      if k < |pieces| { NoAmpInPair(ps[k].0, ps[k].1); }
    }
    SplitJoin(all, '&');
  }

  lemma UrlSplits(url: string, p: seq<(string, string)>, last: string)
    requires p != [] && '&' !in last
    requires url == UrlPrefix() + CanonicalQuery(p) + "&" + last
    ensures |UrlPrefix()| <= |url| && url[..|UrlPrefix()|] == UrlPrefix()
    ensures Split(url[|UrlPrefix()|..], '&') == EncodePairs(Sorting.Sort(p, KeyLe)) + [last]
  {
    assert url == UrlPrefix() + (CanonicalQuery(p) + "&" + last);
    assert url[|UrlPrefix()|..] == CanonicalQuery(p) + "&" + last;
    QuerySplits(Sorting.Sort(p, KeyLe), last);
  }

  /**
   * Reading the URL back: after the fixed prefix, its query splits on `&` into
   * exactly the encoded parameters in canonical order followed by the
   * signature.
   */
  lemma UrlQueryPieces(c: Credentials, t: UtcTime, language: Option<string>, sampleRate: Option<int>,
                       h: Hash, mac: Hmac)
    ensures var p := Params(c, t, language.GetOr("en-US"), sampleRate.GetOr(16000));
      var url := PresignedUrl(c, t, language, sampleRate, h, mac).url;
      |UrlPrefix()| <= |url| && url[..|UrlPrefix()|] == UrlPrefix()
      && Split(url[|UrlPrefix()|..], '&')
         == EncodePairs(Sorting.Sort(p, KeyLe)) + [SignatureParam(Signature(c, t, CanonicalQuery(p), h, mac))]
  {
    var p := Params(c, t, language.GetOr("en-US"), sampleRate.GetOr(16000));
    var sig := Signature(c, t, CanonicalQuery(p), h, mac);
    NoAmpInSignature(sig);
    UrlSplits(PresignedUrl(c, t, language, sampleRate, h, mac).url, p, SignatureParam(sig));
  }

  /** The key used to sign is the secret chained through date, region, service and terminator. */
  lemma SigningKeyChain(c: Credentials, t: UtcTime, cqs: string, h: Hash, mac: Hmac)
    ensures Signature(c, t, cqs, h, mac)
      == Hex(mac(mac(mac(mac(mac(Utf8("AWS4" + c.secretKey), Utf8(DateStamp(t))),
                                 Utf8("us-east-1")), Utf8("transcribe")), Utf8("aws4_request")),
                 Utf8(Join([Algorithm, AmzDate(t), CredentialScope(t),
                            Hex(h(Utf8(Join(["GET", Path, cqs, "host:" + Endpoint + "\n", "host", Hex(h([]))], "\n"))))],
                           "\n"))))
  {
  }
}
