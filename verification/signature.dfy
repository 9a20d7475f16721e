/** Request signing (src/utils/security.ts): the HMAC message format and the
    freshness-then-equality check. HMAC-SHA256 itself is a parameter. */
module Signature {
  import opened Text

  /** HMAC-SHA256 under a secret, as a hex digest: `(secret, message) -> digest`. */
  type Hmac = (string, string) -> string

  const DefaultSecret: string := "your-default-secret-key"

  /** Five minutes in milliseconds. */
  const FreshnessWindow: int := 5 * 60 * 1000

  /** `API_SECRET`, falling back to the built-in default. */
  function Secret(apiSecret: Option<string>): string
  {
    EnvOr(apiSecret, DefaultSecret)
  }

  /** The text that is signed: the data, a colon, the decimal timestamp. */
  function SignedMessage(data: string, timestamp: int): (m: string)
    ensures |m| > |data| + 1 && m[..|data|] == data && m[|data|] == ':'
    ensures forall i :: |data| < i < |m| ==> m[i] != ':'
  {
    data + ":" + IntToDecimal(timestamp)
  }

  /** `generateSignature(data, timestamp)`. */
  function GenerateSignature(hmac: Hmac, secret: string, data: string, timestamp: int): string
  {
    hmac(secret, SignedMessage(data, timestamp))
  }

  /** Different (data, timestamp) pairs never give the same signed message,
      even when the data holds colons: the last colon separates them. */
  lemma SignedMessageInjective(d1: string, t1: int, d2: string, t2: int)
    requires SignedMessage(d1, t1) == SignedMessage(d2, t2)
    ensures d1 == d2 && t1 == t2
  {
    var m := SignedMessage(d1, t1);
    assert d1 == m[..|d1|] == d2;
    assert IntToDecimal(t1) == m[|d1| + 1..] == IntToDecimal(t2);
    ParseIntOfDecimal(t1);
    ParseIntOfDecimal(t2);
  }

  /** What `verifySignature` does: returns false, returns true, or throws
      the RangeError `timingSafeEqual` raises on buffers of unequal length. */
  datatype Verdict = Accepted | Rejected | LengthMismatch

  function Abs(x: int): nat
  {
    if x < 0 then -x else x
  }

  /** Bytes of the UTF-8 encoding `Buffer.from` produces. */
  function Utf8Length(s: string): nat
  {
    if s == [] then 0
    else
      var c := s[0] as int;
      (if c < 0x80 then 1 else if c < 0x800 then 2 else if c < 0x10000 then 3 else 4)
      + Utf8Length(s[1..])
  }

  /** `verifySignature(signature, data, timestamp)` at clock reading `now`. */
  function VerifySignature(hmac: Hmac, secret: string, signature: string, data: string, timestamp: int, now: int): (r: Verdict)
    ensures Abs(now - timestamp) > FreshnessWindow ==> r == Rejected
    ensures r == Accepted <==>
      Abs(now - timestamp) <= FreshnessWindow && signature == GenerateSignature(hmac, secret, data, timestamp)
    ensures r == LengthMismatch <==>
      Abs(now - timestamp) <= FreshnessWindow
      && Utf8Length(signature) != Utf8Length(GenerateSignature(hmac, secret, data, timestamp))
  {
    if Abs(now - timestamp) > FreshnessWindow then Rejected
    else
      var expected := GenerateSignature(hmac, secret, data, timestamp);
      if Utf8Length(signature) != Utf8Length(expected) then LengthMismatch
      else if signature == expected then Accepted
      else Rejected
  }

  /** A signature made by `generateSignature` is accepted by
      `verifySignature` whenever the clocks are within the window, the
      boundary of exactly five minutes included. */
  lemma GeneratedSignatureAccepted(hmac: Hmac, secret: string, data: string, timestamp: int, now: int)
    requires Abs(now - timestamp) <= FreshnessWindow
    ensures VerifySignature(hmac, secret, GenerateSignature(hmac, secret, data, timestamp), data, timestamp, now) == Accepted
  {
  }
}
