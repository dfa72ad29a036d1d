/** The device-read path of `HttpService`: the SOAP request envelope, the
    error result, the `WWW-Authenticate` extractor, the client nonce, the
    RFC 2617 digest and the Basic and Digest reads.

    The HTTP calls are not made here: a read is a function of the responses
    it receives (`Wire`), and it reports the requests it would have sent.
    MD5, base64 and the XML parser are parameters (`Library`). */
module Http {
  import opened Types

  /** SOAPdata: the outcome of one read. Its `timestamp` (the clock at the
      time of the read) is not modelled. */
  datatype SoapData = SoapData(value: Number, unit: string, valid: bool, errorMessage: string)

  /** An error result: no value, no unit, and a diagnostic. */
  predicate IsErrorResult(r: SoapData) {
    !r.valid && r.value == Zero && r.unit == "" && |r.errorMessage| > 0
  }

  /** Every result is complete: either valid without a message, or an error result. */
  predicate WellFormed(r: SoapData) {
    if r.valid then r.errorMessage == "" else IsErrorResult(r)
  }

  /** What one `getElementsByTagName(tag)[0]['textContent']` gives on the
      parsed document: the TypeError it throws when there is no such element
      (as `"" + error` renders it), or the element's text content, where
      `None` is `null`. */
  datatype Lookup = Throws(error: string) | Found(textContent: Option<string>)

  /** The parsed response document, reduced to its first `value` and `unit` elements. */
  datatype XmlDocument = XmlDocument(firstValue: Lookup, firstUnit: Lookup)

  /** The foreign libraries: `Md5.hashStr`, `btoa` and `DOMParser`. */
  datatype Library = Library(
    md5: string -> string,
    base64: string -> string,
    parseXml: string -> XmlDocument)

  /** One HTTP request as handed to the transport. */
  datatype Request = Request(
    httpMethod: string,
    url: string,
    contentType: Option<string>,
    authorization: Option<string>,
    body: Option<string>)

  /** What an awaited request produced: the text of the exception it threw,
      or a response with its status, `WWW-Authenticate` header and body. */
  datatype HttpOutcome =
    | Threw(error: string)
    | Responded(status: int, wwwAuthenticate: Option<string>, data: string)

  /** The responses one read receives, in order: the Basic request's or the
      Digest probe's, then the Digest authenticated request's. */
  datatype Wire = Wire(first: HttpOutcome, second: HttpOutcome)

  /** The result of one read together with the requests it sent. */
  datatype Exchange = Exchange(result: SoapData, sent: seq<Request>)

  const Method: string := "POST"
  const Uri: string := "/ws"

  function Url(hostname: string): string {
    "http://" + hostname + Uri
  }

  // ---------------------------------------------------------------------
  // SOAP envelope
  // ---------------------------------------------------------------------

  /** The fixed SOAP 1.1 text up to and including the opening `<oid>` tag. */
  const EnvelopeHead: string :=
    "<?xml version=\"1.0\" encoding=\"UTF-8\"?>"
    + "<SOAP-ENV:Envelope"
    + " xmlns:SOAP-ENV=\"http://schemas.xmlsoap.org/soap/envelope/\""
    + " xmlns:SOAP-ENC=\"http://schemas.xmlsoap.org/soap/encoding/\""
    + " xmlns:xsi=\"http://www.w3.org/2001/XMLSchema-instance\""
    + " xmlns:xsd=\"http://www.w3.org/2001/XMLSchema\""
    + " xmlns:ns=\"http://ws01.lom.ch/soap/\">"
    + "<SOAP-ENV:Body>"
    + "<ns:getDpRequest>"
    + "<ref>"
    + "<oid>"

  /** The fixed text from the closing `</oid>` tag to the end of the envelope. */
  const EnvelopeTail: string :=
    "</oid>"
    + "<prop/>"
    + "</ref>"
    + "<startIndex>0</startIndex>"
    + "<count>-1</count>"
    + "</ns:getDpRequest>"
    + "</SOAP-ENV:Body>"
    + "</SOAP-ENV:Envelope>"

  /** The `getDpRequest` envelope for one object id, inserted without
      escaping: the object id can be read back out of it. */
  function SoapRequestGetData(oid: string): (e: string)
    ensures OidOf(e) == Some(oid)
  {
    var e := EnvelopeHead + oid + EnvelopeTail;
    var h, t := |EnvelopeHead|, |EnvelopeTail|;
    assert e[..h] == EnvelopeHead;
    assert e[|e| - t..] == EnvelopeTail;
    assert e[h..|e| - t] == oid;
    e
  }

  /** Reads the object id back out of a request envelope. */
  function OidOf(envelope: string): Option<string> {
    var h, t := |EnvelopeHead|, |EnvelopeTail|;
    if |envelope| >= h + t && envelope[..h] == EnvelopeHead && envelope[|envelope| - t..] == EnvelopeTail
    then Some(envelope[h..|envelope| - t])
    else None
  }

  /** The object id stands verbatim between `<oid>` and `</oid>`, and
      different ids give different envelopes. */
  lemma OidBetweenTags(oid: string, other: string)
    ensures var e, k := SoapRequestGetData(oid), |EnvelopeHead|;
      k >= 5 && |e| == k + |oid| + |EnvelopeTail| &&
      e[k - 5..k] == "<oid>" && e[k..k + |oid|] == oid && e[k + |oid|..k + |oid| + 6] == "</oid>"
    ensures SoapRequestGetData(oid) == SoapRequestGetData(other) ==> oid == other
  {
    var e, k := SoapRequestGetData(oid), |EnvelopeHead|;
    assert EnvelopeHead[k - 5..] == "<oid>";
    assert e[k - 5..k] == EnvelopeHead[k - 5..];
    assert e[k..k + |oid|] == oid;
    assert EnvelopeTail[..6] == "</oid>";
    assert e[k + |oid|..k + |oid| + 6] == EnvelopeTail[..6];
    assert OidOf(SoapRequestGetData(oid)) == Some(oid);
    assert OidOf(SoapRequestGetData(other)) == Some(other);
  }

  // ---------------------------------------------------------------------
  // Results
  // ---------------------------------------------------------------------

  function ErrorDataResult(message: string): (r: SoapData)
    ensures IsErrorResult(r)
    ensures r.errorMessage == "Error: " + message
  {
    SoapData(Zero, "", false, "Error: " + message)
  }

  function NumberOf(text: Option<string>): Number {
    match text
    case None => Zero  // Number(null) is 0
    case Some(t) => FromText(t)
  }

  /** getValueFromSoapResponse: the value is looked up before the unit; a
      missing element throws and the exception becomes an error result, and
      a `null` unit gives "No unit found". */
  function GetValueFromSoapResponse(lib: Library, data: string): (r: SoapData)
    ensures WellFormed(r)
    ensures var doc := lib.parseXml(data);
      r.valid <==> doc.firstValue.Found? && doc.firstUnit.Found? && doc.firstUnit.textContent.Some?
    ensures var doc := lib.parseXml(data);
      r.valid ==> r.value == NumberOf(doc.firstValue.textContent) && r.unit == doc.firstUnit.textContent.value
  {
    var doc := lib.parseXml(data);
    match doc.firstValue
    case Throws(e) => ErrorDataResult(e)
    case Found(v) =>
      match doc.firstUnit
      case Throws(e) => ErrorDataResult(e)
      case Found(None) => ErrorDataResult("No unit found")
      case Found(Some(u)) => SoapData(NumberOf(v), u, true, "")
  }

  // ---------------------------------------------------------------------
  // `key="value"` extraction from a WWW-Authenticate header
  // ---------------------------------------------------------------------

  /** The longest prefix of `s` without a double quote. */
  function QuoteFreeRun(s: string): (r: string)
    ensures |r| <= |s| && r == s[..|r|]
    ensures forall i :: 0 <= i < |r| ==> r[i] != '"'
    ensures |r| < |s| ==> s[|r|] == '"'
  {
    if s == [] || s[0] == '"' then [] else [s[0]] + QuoteFreeRun(s[1..])
  }

  /** The run ends at the first double quote. */
  lemma {:induction false} QuoteFreeRunStops(s: string, k: nat)
    requires k < |s| && s[k] == '"'
    requires forall i :: 0 <= i < k ==> s[i] != '"'
    ensures QuoteFreeRun(s) == s[..k]
  {
    if k > 0 {
      QuoteFreeRunStops(s[1..], k - 1);
      assert [s[0]] + s[1..][..k - 1] == s[..k];
    }
  }

  /** Whether the pattern `key="[^"]+"` matches at position `p` of `h`, and
      the captured value if so. The greedy `[^"]+` takes the whole quote-free
      run, so the match succeeds exactly when that run is non-empty and a
      closing quote follows it. */
  function MatchAt(h: string, key: string, p: nat): (r: Option<string>)
    requires p <= |h|
    ensures r.Some? ==> |r.value| > 0 && forall i :: 0 <= i < |r.value| ==> r.value[i] != '"'
  {
    var open := key + "=\"";
    if p + |open| <= |h| && h[p..p + |open|] == open then
      var v := QuoteFreeRun(h[p + |open|..]);
      if |v| > 0 && p + |open| + |v| < |h| then Some(v) else None
    else None
  }

  /** What a match at `p` shows in the text: `key="`, then the captured
      value, then a closing quote. */
  lemma MatchAtShape(h: string, key: string, p: nat)
    requires p <= |h| && MatchAt(h, key, p).Some?
    ensures var v, k := MatchAt(h, key, p).value, p + |key| + 2;
      k + |v| < |h| && h[p..k] == key + "=\"" && h[k..k + |v|] == v && h[k + |v|] == '"'
  {
    var open, v := key + "=\"", MatchAt(h, key, p).value;
    assert v == QuoteFreeRun(h[p + |open|..]);
  }

  /** The regular expression's scan from position `p` on: the value at the
      leftmost position that matches. */
  function FindFrom(h: string, key: string, p: nat): (r: Option<string>)
    requires p <= |h|
    ensures r.Some? ==> |r.value| > 0 && forall i :: 0 <= i < |r.value| ==> r.value[i] != '"'
    decreases |h| - p
  {
    match MatchAt(h, key, p)
    case Some(v) => Some(v)
    case None => if p == |h| then None else FindFrom(h, key, p + 1)
  }

  /** What the scan finds is the value at the leftmost matching position. */
  lemma {:induction false} FindFromIsLeftmost(h: string, key: string, p: nat)
    requires p <= |h| && FindFrom(h, key, p).Some?
    ensures exists q :: p <= q <= |h| && MatchAt(h, key, q) == FindFrom(h, key, p) &&
                        forall q' :: p <= q' < q ==> MatchAt(h, key, q').None?
    decreases |h| - p
  {
    var here := MatchAt(h, key, p);
    if here.Some? {
      assert here == FindFrom(h, key, p);
    } else {
      assert p < |h| && FindFrom(h, key, p) == FindFrom(h, key, p + 1);
      FindFromIsLeftmost(h, key, p + 1);
      var q :| p + 1 <= q <= |h| && MatchAt(h, key, q) == FindFrom(h, key, p + 1) &&
               forall q' :: p + 1 <= q' < q ==> MatchAt(h, key, q').None?;
      assert MatchAt(h, key, p).None?;
    }
  }

  /** The scan finds nothing exactly when no position from `p` on matches. */
  lemma {:induction false} FindFromNone(h: string, key: string, p: nat)
    requires p <= |h|
    ensures FindFrom(h, key, p).None? <==> forall q :: p <= q <= |h| ==> MatchAt(h, key, q).None?
    decreases |h| - p
  {
    if MatchAt(h, key, p).None? && p < |h| {
      FindFromNone(h, key, p + 1);
      assert FindFrom(h, key, p) == FindFrom(h, key, p + 1);
    }
  }

  /** getPartOfHeader: the value of the leftmost `key="value"` in the header,
      with a non-empty value free of quotes, or `None` when there is none. */
  function GetPartOfHeader(header: string, key: string): (r: Option<string>)
    ensures r.Some? ==> |r.value| > 0 && forall i :: 0 <= i < |r.value| ==> r.value[i] != '"'
    ensures r.Some? ==> exists p :: 0 <= p <= |header| && MatchAt(header, key, p) == r &&
                                    forall q :: 0 <= q < p ==> MatchAt(header, key, q).None?
    ensures r.None? <==> forall p :: 0 <= p <= |header| ==> MatchAt(header, key, p).None?
  {
    var r := FindFrom(header, key, 0);
    FindFromNone(header, key, 0);
    if r.Some? then FindFromIsLeftmost(header, key, 0); r else r
  }

  /** A value that appears as `key="value"` at a position before which
      nothing matches is the one extracted. */
  lemma FirstMatchExtracted(header: string, key: string, p: nat, v: string)
    requires p <= |header| && MatchAt(header, key, p) == Some(v)
    requires forall q :: 0 <= q < p ==> MatchAt(header, key, q).None?
    ensures GetPartOfHeader(header, key) == Some(v)
  {
    var r := GetPartOfHeader(header, key);
    assert r.Some?;
    var q :| 0 <= q <= |header| && MatchAt(header, key, q) == r &&
             forall q' :: 0 <= q' < q ==> MatchAt(header, key, q').None?;
    assert !(q < p) && !(p < q);
  }

  /** No match can start before the first occurrence of the key's first character. */
  lemma NoMatchBefore(header: string, key: string, p: nat)
    requires 0 < |key| && p <= |header| && key[0] !in header[..p]
    ensures forall q :: 0 <= q < p ==> MatchAt(header, key, q).None?
  {
    forall q | 0 <= q < p ensures MatchAt(header, key, q).None? {
      var open := key + "=\"";
      assert header[..p][q] == header[q] && open[0] == key[0];
      assert q + |open| <= |header| ==> header[q..q + |open|][0] == header[q];
    }
  }

  const ExampleChallenge: string :=
    "Digest " + "realm=\"" + "ws01" + "\", " + "nonce=\"" + "abc123" + "\", qop=\"auth\""

  /** In the challenge `Digest realm="ws01", nonce="abc123", qop="auth"`
      the realm comes out as sent ... */
  lemma ChallengeRealm()
    ensures GetPartOfHeader(ExampleChallenge, "realm") == Some("ws01")
  {
    var h := ExampleChallenge;
    assert h[..7] == "Digest ";
    assert h[7..14] == "realm=\"";
    assert h[14..] == "ws01" + "\", " + "nonce=\"" + "abc123" + "\", qop=\"auth\"";
    QuoteFreeRunStops(h[14..], 4);
    assert h[14..][..4] == "ws01";
    assert "realm" + "=\"" == "realm=\"";
    NoMatchBefore(h, "realm", 7);
    FirstMatchExtracted(h, "realm", 7, "ws01");
  }

  /** ... and so does the nonce. */
  lemma ChallengeNonce()
    ensures GetPartOfHeader(ExampleChallenge, "nonce") == Some("abc123")
  {
    var h := ExampleChallenge;
    assert h[..21] == "Digest " + "realm=\"" + "ws01" + "\", ";
    assert h[21..28] == "nonce=\"";
    assert h[28..] == "abc123" + "\", qop=\"auth\"";
    QuoteFreeRunStops(h[28..], 6);
    assert h[28..][..6] == "abc123";
    assert "nonce" + "=\"" == "nonce=\"";
    NoMatchBefore(h, "nonce", 21);
    FirstMatchExtracted(h, "nonce", 21, "abc123");
  }

  /** A challenge without a nonce: `Digest realm="ws01", qop="auth"`. */
  lemma ChallengeWithoutNonce()
    ensures GetPartOfHeader("Digest realm=\"ws01\", qop=\"auth\"", "nonce").None?
  {
    var h := "Digest realm=\"ws01\", qop=\"auth\"";
    assert h[..|h|] == h;
    NoMatchBefore(h, "nonce", |h|);
  }

  /** The header field as the code sees it: a missing header is `undefined`,
      which the regular expression reads as the text "undefined". */
  function HeaderText(h: Option<string>): (t: string)
    ensures h.Some? ==> t == h.value
    ensures h.None? ==> GetPartOfHeader(t, "realm").None? && GetPartOfHeader(t, "nonce").None?
  {
    match h
    case Some(t) => t
    case None =>
      NoQuoteNoMatch("undefined", "realm");
      NoQuoteNoMatch("undefined", "nonce");
      "undefined"
  }

  /** A text without a double quote holds no `key="value"` at all. */
  lemma NoQuoteNoMatch(h: string, key: string)
    requires forall i :: 0 <= i < |h| ==> h[i] != '"'
    ensures GetPartOfHeader(h, key).None?
  {
    forall q | 0 <= q <= |h|
      ensures MatchAt(h, key, q).None?
    {
      var open := key + "=\"";
      if q + |open| <= |h| {
        assert h[q..q + |open|][|open| - 1] == h[q + |open| - 1] != open[|open| - 1];
      }
    }
  }

  // ---------------------------------------------------------------------
  // Client nonce
  // ---------------------------------------------------------------------

  // The 62 characters of `getRandomString`, in the order of its literal.
  const Uppercase: string := "ABCDEFGHIJKLMNOPQRSTUVWXYZ"
  const Lowercase: string := "abcdefghijklmnopqrstuvwxyz"
  const DigitChars: string := "0123456789"
  const Alphabet: string := Uppercase + Lowercase + DigitChars

  predicate IsAlphanumeric(c: char) {
    'A' <= c <= 'Z' || 'a' <= c <= 'z' || '0' <= c <= '9'
  }

  lemma AlphabetIsAlphanumeric()
    ensures |Alphabet| == 62
    ensures forall i :: 0 <= i < |Alphabet| ==> IsAlphanumeric(Alphabet[i])
  {
    assert forall i :: 0 <= i < 26 ==> 'A' <= Uppercase[i] <= 'Z';
    assert forall i :: 0 <= i < 26 ==> 'a' <= Lowercase[i] <= 'z';
    assert forall i :: 0 <= i < 10 ==> '0' <= DigitChars[i] <= '9';
    forall i | 0 <= i < |Alphabet| ensures IsAlphanumeric(Alphabet[i]) {
      if i < 26 {
        assert Alphabet[i] == Uppercase[i];
      } else if i < 52 {
        assert Alphabet[i] == Lowercase[i - 26];
      } else {
        assert Alphabet[i] == DigitChars[i - 52];
      }
    }
  }

  /** The string `getRandomString(length)` builds: the i-th character is the
      alphabet character of the i-th draw. */
  function RandomString(length: nat, draws: seq<nat>): (r: string)
    requires |draws| >= length
    requires forall i :: 0 <= i < |draws| ==> draws[i] < |Alphabet|
    ensures |r| == length
    ensures forall i :: 0 <= i < length ==> r[i] == Alphabet[draws[i]]
    ensures forall i :: 0 <= i < length ==> IsAlphanumeric(r[i])
  {
    AlphabetIsAlphanumeric();
    seq(length, i requires 0 <= i < length => Alphabet[draws[i]])
  }

  /** getRandomString: `draws[i]` is the index `Math.floor(Math.random() * 62)`
      drawn in round `i`. */
  method GetRandomString(length: nat, draws: seq<nat>) returns (result: string)
    requires |draws| >= length
    requires forall i :: 0 <= i < |draws| ==> draws[i] < |Alphabet|
    ensures result == RandomString(length, draws)
  {
    result := "";
    for i := 0 to length
      invariant |result| == i
      invariant forall k :: 0 <= k < i ==> result[k] == Alphabet[draws[k]]
    {
      result := result + [Alphabet[draws[i]]];
    }
  }

  // ---------------------------------------------------------------------
  // RFC 2617 digest
  // ---------------------------------------------------------------------

  const Nc: string := "00000001"
  const Qop: string := "auth"
  const Algorithm: string := "MD5"
  const CnonceLength: nat := 15

  function HA1(md5: string -> string, username: string, realm: string, password: string): string {
    md5(username + ":" + realm + ":" + password)
  }

  function HA2(md5: string -> string, httpMethod: string, uri: string): string {
    md5(httpMethod + ":" + uri)
  }

  /** The `response` field as `digestRequest` computes it: the RFC 2617
      request-digest for qop "auth" and nonce count 1. */
  function DigestResponse(md5: string -> string, username: string, realm: string, password: string,
                          httpMethod: string, uri: string, nonce: string, cnonce: string): (r: string)
    ensures r == RequestDigest(md5, username, realm, password, httpMethod, uri, nonce, Nc, cnonce, Qop)
  {
    var ha1, ha2 := HA1(md5, username, realm, password), HA2(md5, httpMethod, uri);
    assert ha1 + ":" + nonce + ":" + Nc + ":" + cnonce + ":" + Qop + ":" + ha2
        == ha1 + ":" + (nonce + ":" + Nc + ":" + cnonce + ":" + Qop + ":" + ha2);
    md5(ha1 + ":" + nonce + ":" + Nc + ":" + cnonce + ":" + Qop + ":" + ha2)
  }

  /** The `Authorization` header as `digestRequest` concatenates it, one
      group per field. */
  function DigestHeader(md5: string -> string, username: string, realm: string, password: string,
                        httpMethod: string, uri: string, nonce: string, cnonce: string): (h: string)
    ensures h == "Digest " + RenderParams(DigestParams(md5, username, realm, password, httpMethod, uri, nonce, cnonce))
  {
    var ps := DigestParams(md5, username, realm, password, httpMethod, uri, nonce, cnonce);
    var response := DigestResponse(md5, username, realm, password, httpMethod, uri, nonce, cnonce);
    GroupsAreParams(username, realm, nonce, uri, cnonce, response);
    RenderNine(ps);
    Regroup("Digest ", RenderParam(ps[0]) + ", ", RenderParam(ps[1]) + ", ", RenderParam(ps[2]) + ", ",
            RenderParam(ps[3]) + ", ", RenderParam(ps[4]) + ", ", RenderParam(ps[5]) + ", ",
            RenderParam(ps[6]) + ", ", RenderParam(ps[7]) + ", ", RenderParam(ps[8]));
    "Digest "
    + ("username=\"" + username + "\", ")
    + ("realm=\"" + realm + "\", ")
    + ("nonce=\"" + nonce + "\", ")
    + ("uri=\"" + uri + "\", ")
    + ("algorithm=" + Algorithm + ", ")
    + ("qop=\"" + Qop + "\", ")
    + ("nc=" + Nc + ", ")
    + ("cnonce=\"" + cnonce + "\", ")
    + ("response=\"" + DigestResponse(md5, username, realm, password, httpMethod, uri, nonce, cnonce) + "\"")
  }

  // Reference definitions from section 3.2.2.1 of RFC 2617:
  // request-digest = KD(H(A1), nonce-value ":" nc-value ":" cnonce-value ":" qop-value ":" H(A2)),
  // with KD(secret, data) = H(secret ":" data), A1 = user ":" realm ":" password
  // (section 3.2.2.2) and A2 = Method ":" digest-uri-value (section 3.2.2.3).

  function KD(md5: string -> string, secret: string, data: string): string {
    md5(secret + ":" + data)
  }

  function RequestDigest(md5: string -> string, username: string, realm: string, password: string,
                         httpMethod: string, uri: string, nonce: string, nc: string, cnonce: string,
                         qop: string): string
  {
    var a1 := username + ":" + realm + ":" + password;
    var a2 := httpMethod + ":" + uri;
    KD(md5, md5(a1), nonce + ":" + nc + ":" + cnonce + ":" + qop + ":" + md5(a2))
  }

  /** One auth-param of the credentials, quoted or a bare token. */
  datatype Param = Quoted(name: string, value: string) | Token(name: string, value: string)

  function RenderParam(p: Param): string {
    match p
    case Quoted(n, v) => n + "=\"" + v + "\""
    case Token(n, v) => n + "=" + v
  }

  /** A comma-separated list of auth-params, as in section 2 of RFC 2617. */
  function RenderParams(ps: seq<Param>): string {
    if |ps| == 0 then ""
    else if |ps| == 1 then RenderParam(ps[0])
    else RenderParam(ps[0]) + ", " + RenderParams(ps[1..])
  }

  /** The digest-response fields the app sends, in its fixed order. */
  function DigestParams(md5: string -> string, username: string, realm: string, password: string,
                        httpMethod: string, uri: string, nonce: string, cnonce: string): (ps: seq<Param>)
    ensures |ps| == 9
  {
    [ Quoted("username", username), Quoted("realm", realm), Quoted("nonce", nonce),
      Quoted("uri", uri), Token("algorithm", Algorithm), Quoted("qop", Qop), Token("nc", Nc),
      Quoted("cnonce", cnonce),
      Quoted("response", DigestResponse(md5, username, realm, password, httpMethod, uri, nonce, cnonce)) ]
  }

  /** Each group of the header's concatenation is one rendered auth-param. */
  lemma GroupsAreParams(username: string, realm: string, nonce: string, uri: string, cnonce: string,
                        response: string)
    ensures "username=\"" + username + "\", " == RenderParam(Quoted("username", username)) + ", "
    ensures "realm=\"" + realm + "\", " == RenderParam(Quoted("realm", realm)) + ", "
    ensures "nonce=\"" + nonce + "\", " == RenderParam(Quoted("nonce", nonce)) + ", "
    ensures "uri=\"" + uri + "\", " == RenderParam(Quoted("uri", uri)) + ", "
    ensures "algorithm=" + Algorithm + ", " == RenderParam(Token("algorithm", Algorithm)) + ", "
    ensures "qop=\"" + Qop + "\", " == RenderParam(Quoted("qop", Qop)) + ", "
    ensures "nc=" + Nc + ", " == RenderParam(Token("nc", Nc)) + ", "
    ensures "cnonce=\"" + cnonce + "\", " == RenderParam(Quoted("cnonce", cnonce)) + ", "
    ensures "response=\"" + response + "\"" == RenderParam(Quoted("response", response))
  {
    assert "username=\"" == "username" + "=\"";
    QuotedGroup("username", username);
    assert "realm=\"" == "realm" + "=\"";
    QuotedGroup("realm", realm);
    assert "nonce=\"" == "nonce" + "=\"";
    QuotedGroup("nonce", nonce);
    assert "uri=\"" == "uri" + "=\"";
    QuotedGroup("uri", uri);
    assert "algorithm=" == "algorithm" + "=";
    TokenGroup("algorithm", Algorithm);
    assert "qop=\"" == "qop" + "=\"";
    QuotedGroup("qop", Qop);
    assert "nc=" == "nc" + "=";
    TokenGroup("nc", Nc);
    assert "cnonce=\"" == "cnonce" + "=\"";
    QuotedGroup("cnonce", cnonce);
    assert "response=\"" == "response" + "=\"";
  }

  lemma QuotedGroup(name: string, value: string)
    ensures name + "=\"" + value + "\", " == RenderParam(Quoted(name, value)) + ", "
  {
  }

  lemma TokenGroup(name: string, value: string)
    ensures name + "=" + value + ", " == RenderParam(Token(name, value)) + ", "
  {
  }

  /** Nine rendered auth-params, nested from the right. */
  lemma RenderNine(ps: seq<Param>)
    requires |ps| == 9
    ensures RenderParams(ps)
         == (RenderParam(ps[0]) + ", ") + ((RenderParam(ps[1]) + ", ") + ((RenderParam(ps[2]) + ", ")
          + ((RenderParam(ps[3]) + ", ") + ((RenderParam(ps[4]) + ", ") + ((RenderParam(ps[5]) + ", ")
          + ((RenderParam(ps[6]) + ", ") + ((RenderParam(ps[7]) + ", ") + RenderParam(ps[8]))))))))
  {
    assert ps[8..] == [ps[8]];
    assert RenderParams(ps[8..]) == RenderParam(ps[8]);
    assert ps[7..][0] == ps[7] && ps[7..][1..] == ps[8..];
    assert RenderParams(ps[7..]) == RenderParam(ps[7]) + ", " + RenderParams(ps[8..]);
    assert ps[6..][0] == ps[6] && ps[6..][1..] == ps[7..];
    assert RenderParams(ps[6..]) == RenderParam(ps[6]) + ", " + RenderParams(ps[7..]);
    assert ps[5..][0] == ps[5] && ps[5..][1..] == ps[6..];
    assert RenderParams(ps[5..]) == RenderParam(ps[5]) + ", " + RenderParams(ps[6..]);
    assert ps[4..][0] == ps[4] && ps[4..][1..] == ps[5..];
    assert RenderParams(ps[4..]) == RenderParam(ps[4]) + ", " + RenderParams(ps[5..]);
    assert ps[3..][0] == ps[3] && ps[3..][1..] == ps[4..];
    assert RenderParams(ps[3..]) == RenderParam(ps[3]) + ", " + RenderParams(ps[4..]);
    assert ps[2..][0] == ps[2] && ps[2..][1..] == ps[3..];
    assert RenderParams(ps[2..]) == RenderParam(ps[2]) + ", " + RenderParams(ps[3..]);
    assert ps[1..][0] == ps[1] && ps[1..][1..] == ps[2..];
    assert RenderParams(ps[1..]) == RenderParam(ps[1]) + ", " + RenderParams(ps[2..]);
    assert RenderParams(ps) == RenderParam(ps[0]) + ", " + RenderParams(ps[1..]);
  }

  lemma Regroup(d: string, g0: string, g1: string, g2: string, g3: string, g4: string, g5: string,
                g6: string, g7: string, g8: string)
    ensures d + (g0 + (g1 + (g2 + (g3 + (g4 + (g5 + (g6 + (g7 + g8))))))))
         == d + g0 + g1 + g2 + g3 + g4 + g5 + g6 + g7 + g8
  {
  }

  // ---------------------------------------------------------------------
  // Reads
  // ---------------------------------------------------------------------

  /** Every request of `sent` goes to `url`. */
  predicate SentTo(sent: seq<Request>, url: string) {
    forall i :: 0 <= i < |sent| ==> sent[i].url == url
  }

  /** The unauthenticated request that triggers the Digest challenge. */
  function ProbeRequest(url: string): (r: Request)
    ensures r.httpMethod == Method && r.url == url
    ensures r.authorization.None? && r.body.None? && r.contentType.None?
  {
    Request(Method, url, None, None, None)
  }

  /** A SOAP POST with an `Authorization` header. */
  function SoapPost(url: string, authorization: string, payload: string): Request {
    Request(Method, url, Some("text/xml"), Some(authorization), Some(payload))
  }

  /** getDataWithBasicAuth: one POST; a thrown request is an error result,
      and any response, whatever its status, goes to the decoder. */
  function BasicRead(lib: Library, wire: Wire, hostname: string, oid: string,
                     username: string, password: string): (x: Exchange)
    ensures WellFormed(x.result)
    ensures x.sent == [SoapPost(Url(hostname), "Basic " + lib.base64(username + ":" + password), SoapRequestGetData(oid))]
    ensures wire.first.Threw? ==> x.result == ErrorDataResult(wire.first.error)
  {
    var url := Url(hostname);
    var sent := [SoapPost(url, "Basic " + lib.base64(username + ":" + password), SoapRequestGetData(oid))];
    match wire.first
    case Threw(e) => Exchange(ErrorDataResult(e), sent)
    case Responded(_, _, data) => Exchange(GetValueFromSoapResponse(lib, data), sent)
  }

  /** The status of a Basic response is never looked at. */
  lemma BasicIgnoresStatus(lib: Library, hostname: string, oid: string, username: string,
                           password: string, status1: int, status2: int,
                           challenge1: Option<string>, challenge2: Option<string>, data: string,
                           second: HttpOutcome)
    ensures var x := BasicRead(lib, Wire(Responded(status1, challenge1, data), second), hostname, oid, username, password);
      x == BasicRead(lib, Wire(Responded(status2, challenge2, data), second), hostname, oid, username, password) &&
      x.result == GetValueFromSoapResponse(lib, data)
  {
  }

  /** Where a Digest read stands once its authenticated POST was answered,
      or the exchange it stopped with before that. */
  datatype DigestStage =
    | Stopped(exchange: Exchange)
    | Posted(probeStatus: int, status: int, data: string, sent: seq<Request>)

  /** getDataWithDigestAuth up to the answer of the authenticated POST:
      probe, expect 401, extract realm then nonce, POST with the digest. */
  function DigestHandshake(lib: Library, wire: Wire, cnonce: string, hostname: string, oid: string,
                           username: string, password: string): (stage: DigestStage)
    ensures stage.Stopped? ==> IsErrorResult(stage.exchange.result)
    ensures stage.Stopped? ==> SentTo(stage.exchange.sent, Url(hostname))
    ensures stage.Posted? ==>
      wire.first.Responded? && wire.first.status == 401 && stage.probeStatus == 401 &&
      wire.second.Responded? && stage.status == wire.second.status && stage.data == wire.second.data &&
      |stage.sent| == 2 && SentTo(stage.sent, Url(hostname))
  {
    var url := Url(hostname);
    var probe := [ProbeRequest(url)];
    assert SentTo(probe, url);
    match wire.first
    case Threw(e) => Stopped(Exchange(ErrorDataResult(e), probe))
    case Responded(status, challenge, _) =>
      if status != 401 then
        Stopped(Exchange(ErrorDataResult("Http status 401 expected but got " + IntToString(status)), probe))
      else
        var realm := GetPartOfHeader(HeaderText(challenge), "realm");
        if realm.None? then Stopped(Exchange(ErrorDataResult("realm not found"), probe))
        else
          var nonce := GetPartOfHeader(HeaderText(challenge), "nonce");
          if nonce.None? then Stopped(Exchange(ErrorDataResult("nonce not found"), probe))
          else
            var authorization := DigestHeader(lib.md5, username, realm.value, password, Method, Uri,
                                              nonce.value, cnonce);
            var sent := [ProbeRequest(url), SoapPost(url, authorization, SoapRequestGetData(oid))];
            assert SentTo(sent, url);
            match wire.second
            case Threw(e) => Stopped(Exchange(ErrorDataResult(e), sent))
            case Responded(answerStatus, _, data) => Posted(status, answerStatus, data, sent)
  }

  /** The message prefix for a rejected authenticated POST. */
  const StatusMismatch: string := "Http status 200 expected but got "

  /** getDataWithDigestAuth as written: a non-200 answer is reported with
      the probe's status in the message. */
  function DigestReadAsWritten(lib: Library, wire: Wire, cnonce: string, hostname: string, oid: string,
                               username: string, password: string): (x: Exchange)
    ensures WellFormed(x.result)
    ensures SentTo(x.sent, Url(hostname))
    ensures x.result.valid ==>
      wire.first.Responded? && wire.first.status == 401 && |x.sent| == 2 &&
      wire.second.Responded? && wire.second.status == 200
  {
    var stage := DigestHandshake(lib, wire, cnonce, hostname, oid, username, password);
    if stage.Stopped? then stage.exchange
    else if stage.status != 200 then
      Exchange(ErrorDataResult(StatusMismatch + IntToString(stage.probeStatus)), stage.sent)
    else Exchange(GetValueFromSoapResponse(lib, stage.data), stage.sent)
  }

  /** getDataWithDigestAuth with the message naming the answer's own status. */
  function DigestRead(lib: Library, wire: Wire, cnonce: string, hostname: string, oid: string,
                      username: string, password: string): (x: Exchange)
    ensures WellFormed(x.result)
    ensures SentTo(x.sent, Url(hostname))
    ensures x.result.valid ==>
      wire.first.Responded? && wire.first.status == 401 && |x.sent| == 2 &&
      wire.second.Responded? && wire.second.status == 200
  {
    var stage := DigestHandshake(lib, wire, cnonce, hostname, oid, username, password);
    if stage.Stopped? then stage.exchange
    else if stage.status != 200 then
      Exchange(ErrorDataResult(StatusMismatch + IntToString(stage.status)), stage.sent)
    else Exchange(GetValueFromSoapResponse(lib, stage.data), stage.sent)
  }

  /** The early returns of a Digest read, in the order the code checks them. */
  lemma DigestReadErrors(lib: Library, wire: Wire, cnonce: string, hostname: string, oid: string,
                         username: string, password: string)
    ensures var x := DigestRead(lib, wire, cnonce, hostname, oid, username, password);
      |x.sent| >= 1 && x.sent[0] == ProbeRequest(Url(hostname)) && |x.sent| <= 2
    ensures var x := DigestRead(lib, wire, cnonce, hostname, oid, username, password);
      wire.first.Threw? ==> x.result == ErrorDataResult(wire.first.error) && |x.sent| == 1
    ensures var x := DigestRead(lib, wire, cnonce, hostname, oid, username, password);
      wire.first.Responded? && wire.first.status != 401 ==>
        x.result == ErrorDataResult("Http status 401 expected but got " + IntToString(wire.first.status)) &&
        |x.sent| == 1
    ensures var x := DigestRead(lib, wire, cnonce, hostname, oid, username, password);
      wire.first.Responded? && wire.first.status == 401 ==>
        var h := HeaderText(wire.first.wwwAuthenticate);
        (GetPartOfHeader(h, "realm").None? ==> x.result == ErrorDataResult("realm not found") && |x.sent| == 1) &&
        (GetPartOfHeader(h, "realm").Some? && GetPartOfHeader(h, "nonce").None? ==>
           x.result == ErrorDataResult("nonce not found") && |x.sent| == 1)
    ensures var x := DigestRead(lib, wire, cnonce, hostname, oid, username, password);
      |x.sent| == 2 && wire.second.Threw? ==> x.result == ErrorDataResult(wire.second.error)
    ensures var x := DigestRead(lib, wire, cnonce, hostname, oid, username, password);
      |x.sent| == 2 && wire.second.Responded? && wire.second.status != 200 ==>
        x.result == ErrorDataResult(StatusMismatch + IntToString(wire.second.status))
  {
  }

  /** When the probe is challenged with a realm and a nonce, the second
      request is the SOAP POST carrying the digest over exactly those
      values, and a 200 answer is decoded. */
  lemma DigestReadAuthenticates(lib: Library, wire: Wire, cnonce: string, hostname: string, oid: string,
                                username: string, password: string, realm: string, nonce: string)
    requires wire.first.Responded? && wire.first.status == 401
    requires GetPartOfHeader(HeaderText(wire.first.wwwAuthenticate), "realm") == Some(realm)
    requires GetPartOfHeader(HeaderText(wire.first.wwwAuthenticate), "nonce") == Some(nonce)
    ensures var x := DigestRead(lib, wire, cnonce, hostname, oid, username, password);
      x.sent == [ProbeRequest(Url(hostname)),
                 SoapPost(Url(hostname), DigestHeader(lib.md5, username, realm, password, Method, Uri, nonce, cnonce),
                          SoapRequestGetData(oid))] &&
      (wire.second.Responded? && wire.second.status == 200 ==>
         x.result == GetValueFromSoapResponse(lib, wire.second.data))
  {
  }

  /** As written, a rejected authenticated POST is always reported as "got
      401": the probe's status, which is 401 whenever that line is reached.
      Any other rejected status is thus misreported. */
  lemma AsWrittenReportsProbeStatus(lib: Library, wire: Wire, cnonce: string, hostname: string, oid: string,
                                    username: string, password: string)
    requires DigestHandshake(lib, wire, cnonce, hostname, oid, username, password).Posted?
    requires wire.second.status != 200
    ensures DigestReadAsWritten(lib, wire, cnonce, hostname, oid, username, password).result
         == ErrorDataResult(StatusMismatch + "401")
    ensures DigestRead(lib, wire, cnonce, hostname, oid, username, password).result
         == ErrorDataResult(StatusMismatch + IntToString(wire.second.status))
    ensures wire.second.status != 401 ==>
      DigestReadAsWritten(lib, wire, cnonce, hostname, oid, username, password).result
      != DigestRead(lib, wire, cnonce, hostname, oid, username, password).result
  {
    var stage := DigestHandshake(lib, wire, cnonce, hostname, oid, username, password);
    assert stage.probeStatus == 401 && stage.status == wire.second.status;
    IntToString401();
    if wire.second.status != 401 {
      ErrorMessagesDiffer(401, wire.second.status);
    }
  }

  lemma IntToString401()
    ensures IntToString(401) == "401"
  {
    assert NatToString(4) == "4";
    assert NatToString(40) == "40";
  }

  lemma ErrorMessagesDiffer(a: int, b: int)
    requires a != b
    ensures ErrorDataResult(StatusMismatch + IntToString(a)) != ErrorDataResult(StatusMismatch + IntToString(b))
  {
    if ErrorDataResult(StatusMismatch + IntToString(a)) == ErrorDataResult(StatusMismatch + IntToString(b)) {
      PrefixCancels("Error: ", StatusMismatch + IntToString(a), StatusMismatch + IntToString(b));
      PrefixCancels(StatusMismatch, IntToString(a), IntToString(b));
      IntToStringInjective(a, b);
    }
  }

  lemma PrefixCancels(p: string, x: string, y: string)
    requires p + x == p + y
    ensures x == y
  {
    assert x == (p + x)[|p|..];
    assert y == (p + y)[|p|..];
  }

  lemma {:induction false} NatToStringInjective(a: nat, b: nat)
    requires NatToString(a) == NatToString(b)
    ensures a == b
    decreases a
  {
    var sa, sb := NatToString(a), NatToString(b);
    if a >= 10 && b >= 10 {
      assert sa[..|sa| - 1] == NatToString(a / 10);
      assert sb[..|sb| - 1] == NatToString(b / 10);
      NatToStringInjective(a / 10, b / 10);
      assert sa[|sa| - 1] == DigitChar(a % 10);
      assert sb[|sb| - 1] == DigitChar(b % 10);
    }
  }

  lemma IntToStringInjective(a: int, b: int)
    requires IntToString(a) == IntToString(b)
    ensures a == b
  {
    var sa, sb := IntToString(a), IntToString(b);
    if a < 0 && b < 0 {
      assert sa[1..] == NatToString(-a);
      assert sb[1..] == NatToString(-b);
      NatToStringInjective(-a, -b);
    } else if a >= 0 && b >= 0 {
      NatToStringInjective(a, b);
    }
  }

  /** getData: dispatch on the configured authentication method. Any other
      method is an error result with no request sent. */
  function GetData(lib: Library, wire: Wire, cnonce: string, hostname: string, oid: string,
                   username: string, password: string, authentication: string): (x: Exchange)
    ensures WellFormed(x.result)
    ensures SentTo(x.sent, Url(hostname))
    ensures authentication == "Basic" ==> x == BasicRead(lib, wire, hostname, oid, username, password)
    ensures authentication == "Digest" ==> x == DigestRead(lib, wire, cnonce, hostname, oid, username, password)
    ensures authentication != "Basic" && authentication != "Digest" ==>
      x.sent == [] &&
      x.result == ErrorDataResult("authentication method '" + authentication + "' not implemented.")
  {
    if authentication == "Basic" then BasicRead(lib, wire, hostname, oid, username, password)
    else if authentication == "Digest" then DigestRead(lib, wire, cnonce, hostname, oid, username, password)
    else Exchange(ErrorDataResult("authentication method '" + authentication + "' not implemented."), [])
  }
}
