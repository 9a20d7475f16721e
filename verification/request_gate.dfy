/** The request-signature middleware (src/middleware/security.ts): the
    header gate, the URL relative to the API mount point, the signed-data
    string and the call to `verifySignature`. */
module RequestGate {
  import opened Text
  import opened Json
  import Signature

  /** The three security headers; `None` is a header that is absent. */
  datatype Headers = Headers(signature: Option<string>, timestamp: Option<string>, nonce: Option<string>)

  /** What the middleware reads of a request. `body` is the JSON text of
      `req.body`, `None` when it is `undefined`. */
  datatype Request = Request(verb: string, originalUrl: string, body: Option<string>, headers: Headers)

  /** Either `next()` is called, or a response with a status and an error
      message is sent. */
  datatype Outcome = Next | Respond(status: int, error: string)

  const BaseUrl: string := "/api"
  const MissingHeaders: string := "Missing security headers"
  const InvalidSignature: string := "Invalid request signature"
  /** What the application's error handler sends for an exception. */
  const InternalError: string := "Internal Server Error"

  /** `parseInt` of the timestamp header; `parseInt(undefined)` is NaN. */
  function TimestampOf(h: Headers): Option<int>
  {
    if h.timestamp.None? then None else ParseInt(h.timestamp.value)
  }

  /** The gate: a non-empty signature and nonce, and a timestamp that is
      neither NaN nor 0. */
  predicate HeadersPresent(h: Headers)
  {
    && h.signature.Some? && h.signature.value != ""
    && TimestampOf(h).Some? && TimestampOf(h).value != 0
    && h.nonce.Some? && h.nonce.value != ""
  }

  /** `originalUrl.replace('/api', '')`: the first occurrence of `/api` is
      removed, wherever it is; putting it back gives the original URL. */
  function RelativeUrl(url: string): (r: string)
    ensures IndexOf(url, BaseUrl).None? ==> r == url
    ensures IndexOf(url, BaseUrl).Some? ==>
      var i := IndexOf(url, BaseUrl).value;
      |r| == |url| - |BaseUrl| && url == r[..i] + BaseUrl + r[i..]
  {
    match IndexOf(url, BaseUrl)
    case None => url
    case Some(i) =>
      var r := url[..i] + url[i + |BaseUrl|..];
      assert r[..i] == url[..i] && r[i..] == url[i + |BaseUrl|..];
      assert url == url[..i] + url[i..i + |BaseUrl|] + url[i + |BaseUrl|..];
      r
  }

  function SignedFields(verb: string, url: string, body: Option<string>, nonce: string): seq<(string, Value)>
  {
    [("method", Str(verb)), ("url", Str(url))] + TailFields(body, nonce)
  }

  /** `body` is left out when it is `undefined`, as `JSON.stringify` does. */
  function TailFields(body: Option<string>, nonce: string): seq<(string, Value)>
  {
    (if body.Some? then [("body", Raw(body.value))] else []) + [("nonce", Str(nonce))]
  }

  /** `JSON.stringify({method, url, body, nonce})`. */
  function SignedData(verb: string, url: string, body: Option<string>, nonce: string): string
  {
    Object(SignedFields(verb, url, body, nonce))
  }

  /** The data the middleware verifies for a request. */
  function RequestData(req: Request): string
    requires req.headers.nonce.Some?
  {
    SignedData(req.verb, RelativeUrl(req.originalUrl), req.body, req.headers.nonce.value)
  }

  /** `verifyRequestSignature(req, res, next)` with `now` for `Date.now()`. */
  function VerifyRequestSignature(hmac: Signature.Hmac, secret: string, req: Request, now: int): (r: Outcome)
    ensures r == Respond(401, MissingHeaders) <==> !HeadersPresent(req.headers)
    ensures r == Next <==>
      HeadersPresent(req.headers)
      && Signature.VerifySignature(hmac, secret, req.headers.signature.value, RequestData(req), TimestampOf(req.headers).value, now)
         == Signature.Accepted
    ensures r == Respond(401, InvalidSignature) <==>
      HeadersPresent(req.headers)
      && Signature.VerifySignature(hmac, secret, req.headers.signature.value, RequestData(req), TimestampOf(req.headers).value, now)
         == Signature.Rejected
    ensures r == Respond(500, InternalError) <==>
      HeadersPresent(req.headers)
      && Signature.VerifySignature(hmac, secret, req.headers.signature.value, RequestData(req), TimestampOf(req.headers).value, now)
         == Signature.LengthMismatch
  {
    if !HeadersPresent(req.headers) then Respond(401, MissingHeaders)
    else
      match Signature.VerifySignature(hmac, secret, req.headers.signature.value, RequestData(req), TimestampOf(req.headers).value, now)
      case Accepted => Next
      case Rejected => Respond(401, InvalidSignature)
      case LengthMismatch => Respond(500, InternalError)
  }

  /** `replace` removes the first occurrence of the base path wherever it
      stands, not only a leading one: `/v1/api/claim` is signed as
      `/v1/claim`. */
  lemma RelativeUrlCuts(p: string, q: string)
    requires forall j :: 0 <= j < |p| ==> !OccursAt(p + BaseUrl + q, BaseUrl, j)
    ensures RelativeUrl(p + BaseUrl + q) == p + q
  {
    var url := p + BaseUrl + q;
    assert OccursAt(url, BaseUrl, |p|) by { assert url[|p|..|p| + |BaseUrl|] == BaseUrl; }
    assert IndexOf(url, BaseUrl) == Some(|p|);
    assert url[..|p|] == p && url[|p| + |BaseUrl|..] == q;
  }

  lemma PrefixCancel(p: string, x: string, y: string)
    requires p + x == p + y
    ensures x == y
  {
    assert x == (p + x)[|p|..];
    assert y == (p + y)[|p|..];
  }

  lemma ObjectCancel(f1: seq<(string, Value)>, f2: seq<(string, Value)>)
    requires Object(f1) == Object(f2)
    ensures Members(f1) == Members(f2)
  {
    var x := Members(f1);
    var y := Members(f2);
    assert x == ("{" + x + "}")[1..|x| + 1];
    assert y == ("{" + y + "}")[1..|y| + 1];
  }

  /** Equal member lists that start with the same key and a string value
      have the same value and the same remaining text. */
  lemma StringMemberCancel(k: string, v1: string, r1: seq<(string, Value)>, v2: string, r2: seq<(string, Value)>)
    requires r1 != [] && r2 != []
    requires Members([(k, Str(v1))] + r1) == Members([(k, Str(v2))] + r2)
    ensures v1 == v2 && Members(r1) == Members(r2)
  {
    var f1 := [(k, Str(v1))] + r1;
    var f2 := [(k, Str(v2))] + r2;
    assert f1[0] == (k, Str(v1)) && f1[1..] == r1;
    assert f2[0] == (k, Str(v2)) && f2[1..] == r2;
    var p := Quote(k) + ":";
    var m1 := Members(r1);
    var m2 := Members(r2);
    assert Members(f1) == p + Quote(v1) + "," + m1;
    assert Members(f2) == p + Quote(v2) + "," + m2;
    Json.Regroup(p, Quote(v1), ",", m1);
    Json.Regroup(p, Quote(v2), ",", m2);
    PrefixCancel(p, Quote(v1) + ("," + m1), Quote(v2) + ("," + m2));
    Json.QuoteUnambiguous(v1, v2, "," + m1, "," + m2);
    PrefixCancel(",", m1, m2);
  }

  /** The same for the last member. */
  lemma LastMemberCancel(k: string, v1: string, v2: string)
    requires Members([(k, Str(v1))]) == Members([(k, Str(v2))])
    ensures v1 == v2
  {
    PrefixCancel(Quote(k) + ":", Quote(v1), Quote(v2));
    assert Quote(v1) + "" == Quote(v1) && Quote(v2) + "" == Quote(v2);
    Json.QuoteUnambiguous(v1, v2, "", "");
  }

  /** Equal member lists that start with the same raw member agree on the rest. */
  lemma RawMemberCancel(k: string, b: string, r1: seq<(string, Value)>, r2: seq<(string, Value)>)
    requires r1 != [] && r2 != []
    requires Members([(k, Raw(b))] + r1) == Members([(k, Raw(b))] + r2)
    ensures Members(r1) == Members(r2)
  {
    var f1 := [(k, Raw(b))] + r1;
    var f2 := [(k, Raw(b))] + r2;
    assert f1[0] == (k, Raw(b)) && f1[1..] == r1;
    assert f2[0] == (k, Raw(b)) && f2[1..] == r2;
    var p := Quote(k) + ":" + b + ",";
    assert Members(f1) == p + Members(r1);
    assert Members(f2) == p + Members(r2);
    PrefixCancel(p, Members(r1), Members(r2));
  }

  lemma SignedFieldsCons(verb: string, url: string, body: Option<string>, nonce: string)
    ensures SignedFields(verb, url, body, nonce) == [("method", Str(verb))] + ([("url", Str(url))] + TailFields(body, nonce))
  {
  }

  lemma HeadFieldsUnambiguous(m1: string, u1: string, b1: Option<string>, n1: string,
                              m2: string, u2: string, b2: Option<string>, n2: string)
    requires SignedData(m1, u1, b1, n1) == SignedData(m2, u2, b2, n2)
    ensures m1 == m2 && u1 == u2
    ensures Members(TailFields(b1, n1)) == Members(TailFields(b2, n2))
  {
    var f1 := SignedFields(m1, u1, b1, n1);
    var f2 := SignedFields(m2, u2, b2, n2);
    ObjectCancel(f1, f2);
    var g1 := [("url", Str(u1))] + TailFields(b1, n1);
    var g2 := [("url", Str(u2))] + TailFields(b2, n2);
    SignedFieldsCons(m1, u1, b1, n1);
    SignedFieldsCons(m2, u2, b2, n2);
    StringMemberCancel("method", m1, g1, m2, g2);
    StringMemberCancel("url", u1, TailFields(b1, n1), u2, TailFields(b2, n2));
  }

  lemma TailFieldsUnambiguous(b: Option<string>, n1: string, n2: string)
    requires Members(TailFields(b, n1)) == Members(TailFields(b, n2))
    ensures n1 == n2
  {
    if b.Some? {
      assert TailFields(b, n1) == [("body", Raw(b.value))] + [("nonce", Str(n1))];
      assert TailFields(b, n2) == [("body", Raw(b.value))] + [("nonce", Str(n2))];
      RawMemberCancel("body", b.value, [("nonce", Str(n1))], [("nonce", Str(n2))]);
    } else {
      assert TailFields(b, n1) == [("nonce", Str(n1))] && TailFields(b, n2) == [("nonce", Str(n2))];
    }
    LastMemberCancel("nonce", n1, n2);
  }

  /** The signed data pins down the method and the URL, and, for a given
      body, the nonce: two requests that differ there never share it. */
  lemma SignedDataUnambiguous(m1: string, u1: string, b1: Option<string>, n1: string,
                              m2: string, u2: string, b2: Option<string>, n2: string)
    requires SignedData(m1, u1, b1, n1) == SignedData(m2, u2, b2, n2)
    ensures m1 == m2 && u1 == u2
    ensures b1 == b2 ==> n1 == n2
  {
    HeadFieldsUnambiguous(m1, u1, b1, n1, m2, u2, b2, n2);
    if b1 == b2 {
      TailFieldsUnambiguous(b1, n1, n2);
    }
  }

  /** Without a body the signed data reads back as exactly the members
      method, url and nonce, in that order. */
  lemma SignedDataWithoutBody(verb: string, url: string, nonce: string)
    ensures Json.ReadObject(SignedData(verb, url, None, nonce))
         == Some([("method", Str(verb)), ("url", Str(url)), ("nonce", Str(nonce))])
  {
    var f := SignedFields(verb, url, None, nonce);
    assert f == [("method", Str(verb)), ("url", Str(url)), ("nonce", Str(nonce))];
    Json.ReadObjectRoundTrip(f);
  }

  /** A request signed the way the client does it (the signature of its own
      data at a non-zero timestamp sent as decimal, with a nonce) passes the
      middleware while the clocks are within the window. */
  lemma ClientSignedRequestPasses(hmac: Signature.Hmac, secret: string, verb: string, url: string,
                                  body: Option<string>, nonce: string, t: int, now: int)
    requires nonce != "" && t != 0 && Signature.Abs(now - t) <= Signature.FreshnessWindow
    requires Signature.GenerateSignature(hmac, secret, SignedData(verb, RelativeUrl(url), body, nonce), t) != ""
    ensures
      var sig := Signature.GenerateSignature(hmac, secret, SignedData(verb, RelativeUrl(url), body, nonce), t);
      VerifyRequestSignature(hmac, secret, Request(verb, url, body, Headers(Some(sig), Some(IntToDecimal(t)), Some(nonce))), now) == Next
  {
    ParseIntOfDecimal(t);
  }
}
