/** The wallet-address rule of both claim routes (src/routes/api.ts): the
    field must be a string matching `^kaspa:[a-z0-9]{61,63}$`, with the
    error messages express-validator reports. */
module WalletAddress {
  import opened Text

  const Prefix: string := "kaspa:"
  const MinSuffix: nat := 61
  const MaxSuffix: nat := 63

  /** The message attached with `withMessage`, which belongs to `matches`. */
  const InvalidFormat: string := "Invalid Kaspa wallet address format"
  /** express-validator's message for a validator without its own, here `isString`. */
  const InvalidValue: string := "Invalid value"

  predicate IsAddressChar(c: char) {
    ('a' <= c <= 'z') || IsDigit(c)
  }

  /** The pattern, stated position by position. */
  predicate Matches(s: string) {
    && StartsWith(s, Prefix)
    && |Prefix| + MinSuffix <= |s| <= |Prefix| + MaxSuffix
    && forall i :: |Prefix| <= i < |s| ==> IsAddressChar(s[i])
  }

  /** Runs the pattern over the string, one character at a time. */
  method MatchAddress(s: string) returns (ok: bool)
    ensures ok <==> Matches(s)
  {
    if |s| < |Prefix| + MinSuffix || |s| > |Prefix| + MaxSuffix || s[..|Prefix|] != Prefix {
      return false;
    }
    var i := |Prefix|;
    while i < |s|
      invariant |Prefix| <= i <= |s|
      invariant forall j :: |Prefix| <= j < i ==> IsAddressChar(s[j])
    {
      if !IsAddressChar(s[i]) {
        return false;
      }
      i := i + 1;
    }
    return true;
  }

  /** The validated field: a string, or any other value (a number, an
      object, a missing field), whose text form never starts with `kaspa:`. */
  datatype Field = Text(s: string) | NotText

  /** The errors the chain `isString().matches(...).withMessage(...)`
      records, in order: both validators run, and only `matches` carries
      the address message. */
  function Validate(f: Field): (errors: seq<string>)
    ensures errors == [] <==> f.Text? && Matches(f.s)
    ensures f.Text? && !Matches(f.s) ==> errors == [InvalidFormat]
    ensures f.NotText? ==> errors[0] == InvalidValue && InvalidFormat in errors
  {
    match f
    case Text(s) => if Matches(s) then [] else [InvalidFormat]
    case NotText => [InvalidValue, InvalidFormat]
  }

  /** Every accepted address starts with `kaspa:`, is 67 to 69 characters
      long, and has only lower-case letters and digits after the prefix. */
  lemma AcceptedShape(s: string)
    requires Validate(Text(s)) == []
    ensures s[..6] == "kaspa:"
    ensures 67 <= |s| <= 69
    ensures forall i :: 6 <= i < |s| ==> !('A' <= s[i] <= 'Z') && s[i] != ':' && !IsJsSpace(s[i])
  {
    assert s[..6] == Prefix;
  }
}
