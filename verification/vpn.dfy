/** The VPN screening endpoint (src/controllers/vpnController.ts): IP
    validation and sanitising, the choice of client IP among the proxy
    headers, the order of the checks, the shape check of the lookup
    service's answer and the detection summary. The HTTP lookup itself is a
    parameter. */
module VpnCheck {
  import opened Text
  import opened Json

  /** Four parts, each one to three ASCII digits: with dots between them,
      the pattern `^(\d{1,3}\.){3}\d{1,3}$`. */
  predicate QuadShape(parts: seq<string>) {
    |parts| == 4 && forall k :: 0 <= k < 4 ==> 1 <= |parts[k]| <= 3 && AllDigits(parts[k])
  }

  predicate QuadInRange(parts: seq<string>)
    requires QuadShape(parts)
  {
    forall k :: 0 <= k < 4 ==> DigitsValue(parts[k]) <= 255
  }

  /** One to four hexadecimal digits of either case. */
  predicate IsGroup(t: string) {
    1 <= |t| <= 4 && forall i :: 0 <= i < |t| ==> IsHexDigit(t[i])
  }

  /** Between `lo` and `hi` groups separated by single colons. */
  predicate GroupList(t: string, lo: nat, hi: nat) {
    var parts := Split(t, ':');
    lo <= |parts| <= hi && forall k :: 0 <= k < |parts| ==> IsGroup(parts[k])
  }

  /** The compressed alternative: an optional list of one to seven groups,
      `::`, then one to seven groups. A list of groups holds no `::`, so the
      `::` is the first one in the string. */
  predicate Compressed(ip: string) {
    match IndexOf(ip, "::")
    case None => false
    case Some(i) => (i == 0 || GroupList(ip[..i], 1, 7)) && GroupList(ip[i + 2..], 1, 7)
  }

  /** The IPv6 pattern: eight full groups, or the compressed form. */
  predicate IsIPv6(ip: string) {
    GroupList(ip, 8, 8) || Compressed(ip)
  }

  /** `isValidIP`: a string of dotted-quad shape is accepted exactly when
      every part is at most 255 (it is never tried as IPv6); any other
      string is accepted when it matches the IPv6 pattern. */
  predicate IsValidIP(ip: string) {
    var parts := Split(ip, '.');
    if QuadShape(parts) then QuadInRange(parts) else IsIPv6(ip)
  }

  lemma NoDotInDigits(p: string)
    requires AllDigits(p)
    ensures '.' !in p
  {
    assert forall j :: 0 <= j < |p| ==> p[j] != '.';
  }

  lemma JoinCons(p: string, rest: seq<string>, sep: char)
    requires |rest| >= 1
    ensures Join([p] + rest, sep) == p + [sep] + Join(rest, sep)
  {
    assert ([p] + rest)[1..] == rest;
  }

  lemma DottedQuadOfParts(a: string, b: string, c: string, d: string)
    requires AllDigits(a) && AllDigits(b) && AllDigits(c) && AllDigits(d)
    ensures Split(a + "." + b + "." + c + "." + d, '.') == [a, b, c, d]
  {
    NoDotInDigits(a);
    NoDotInDigits(b);
    NoDotInDigits(c);
    NoDotInDigits(d);
    JoinCons(c, [d], '.');
    assert [c] + [d] == [c, d];
    JoinCons(b, [c, d], '.');
    assert [b] + [c, d] == [b, c, d];
    JoinCons(a, [b, c, d], '.');
    assert [a] + [b, c, d] == [a, b, c, d];
    assert a + "." + (b + "." + (c + "." + d)) == a + "." + b + "." + c + "." + d;
    SplitOfJoin([a, b, c, d], '.');
  }

  lemma QuadValid(ip: string, parts: seq<string>)
    requires Split(ip, '.') == parts && QuadShape(parts)
    ensures IsValidIP(ip) <==> QuadInRange(parts)
  {
  }

  /** Four runs of one to three digits joined with dots are accepted
      exactly when each is at most 255; leading zeros are allowed, so
      `010.0.0.1` passes. */
  lemma DottedQuadAccepted(a: string, b: string, c: string, d: string)
    requires 1 <= |a| <= 3 && 1 <= |b| <= 3 && 1 <= |c| <= 3 && 1 <= |d| <= 3
    requires AllDigits(a) && AllDigits(b) && AllDigits(c) && AllDigits(d)
    ensures IsValidIP(a + "." + b + "." + c + "." + d) <==>
      DigitsValue(a) <= 255 && DigitsValue(b) <= 255 && DigitsValue(c) <= 255 && DigitsValue(d) <= 255
  {
    DottedQuadOfParts(a, b, c, d);
    QuadOfParts(a + "." + b + "." + c + "." + d, a, b, c, d);
  }

  /** The same, for any text that splits at its dots into the four runs. */
  lemma QuadOfParts(ip: string, a: string, b: string, c: string, d: string)
    requires Split(ip, '.') == [a, b, c, d]
    requires 1 <= |a| <= 3 && 1 <= |b| <= 3 && 1 <= |c| <= 3 && 1 <= |d| <= 3
    requires AllDigits(a) && AllDigits(b) && AllDigits(c) && AllDigits(d)
    ensures IsValidIP(ip) <==>
      DigitsValue(a) <= 255 && DigitsValue(b) <= 255 && DigitsValue(c) <= 255 && DigitsValue(d) <= 255
  {
    QuadShapeOf(a, b, c, d);
    QuadValid(ip, [a, b, c, d]);
    QuadInRangeOf(a, b, c, d);
  }

  lemma QuadShapeOf(a: string, b: string, c: string, d: string)
    requires 1 <= |a| <= 3 && 1 <= |b| <= 3 && 1 <= |c| <= 3 && 1 <= |d| <= 3
    requires AllDigits(a) && AllDigits(b) && AllDigits(c) && AllDigits(d)
    ensures QuadShape([a, b, c, d])
  {
    var parts := [a, b, c, d];
    assert parts[0] == a && parts[1] == b && parts[2] == c && parts[3] == d;
  }

  lemma QuadInRangeOf(a: string, b: string, c: string, d: string)
    requires AllDigits(a) && AllDigits(b) && AllDigits(c) && AllDigits(d)
    requires QuadShape([a, b, c, d])
    ensures QuadInRange([a, b, c, d]) <==>
      DigitsValue(a) <= 255 && DigitsValue(b) <= 255 && DigitsValue(c) <= 255 && DigitsValue(d) <= 255
  {
    var parts := [a, b, c, d];
    assert parts[0] == a && parts[1] == b && parts[2] == c && parts[3] == d;
  }

  /** In particular, for numbers written without leading zeros. */
  lemma DecimalQuadAccepted(a: nat, b: nat, c: nat, d: nat)
    requires a < 1000 && b < 1000 && c < 1000 && d < 1000
    ensures IsValidIP(NatToDecimal(a) + "." + NatToDecimal(b) + "." + NatToDecimal(c) + "." + NatToDecimal(d))
        <==> a <= 255 && b <= 255 && c <= 255 && d <= 255
  {
    DecimalBelowThousand(a);
    DecimalBelowThousand(b);
    DecimalBelowThousand(c);
    DecimalBelowThousand(d);
    DottedQuadAccepted(NatToDecimal(a), NatToDecimal(b), NatToDecimal(c), NatToDecimal(d));
  }

  lemma DecimalBelowThousand(n: nat)
    requires n < 1000
    ensures |NatToDecimal(n)| <= 3
  {
    if n >= 10 {
      DecimalBelowThousand(n / 10);
    }
  }

  /** An empty string, or one ending in a colon, is no list of groups:
      its last part is empty. */
  lemma NoGroupListEndingInColon(t: string, lo: nat, hi: nat)
    requires t == [] || t[|t| - 1] == ':'
    ensures !GroupList(t, lo, hi)
  {
    LastPartEmpty(t);
    EmptyPartNoGroupList(t, lo, hi);
  }

  lemma EmptyPartNoGroupList(t: string, lo: nat, hi: nat)
    requires Split(t, ':')[|Split(t, ':')| - 1] == []
    ensures !GroupList(t, lo, hi)
  {
    NotAllGroups(t, lo, hi, |Split(t, ':')| - 1);
  }

  lemma LastPartEmpty(t: string)
    requires t == [] || t[|t| - 1] == ':'
    ensures Split(t, ':')[|Split(t, ':')| - 1] == []
  {
    if |t| > 0 {
      SplitEndingWithSep(t, ':');
    } else {
      SplitOfEmpty(t, ':');
    }
  }

  lemma SplitOfEmpty(t: string, sep: char)
    requires t == []
    ensures Split(t, sep) == [t]
  {
  }

  /** One part that is not a group rules the list out. */
  lemma NotAllGroups(t: string, lo: nat, hi: nat, k: nat)
    requires k < |Split(t, ':')| && !IsGroup(Split(t, ':')[k])
    ensures !GroupList(t, lo, hi)
  {
  }

  /** A string ending in a colon has no dotted-quad shape. */
  lemma NoQuadEndingInColon(ip: string)
    requires |ip| > 0 && ip[|ip| - 1] == ':'
    ensures !QuadShape(Split(ip, '.'))
  {
    var parts := Split(ip, '.');
    if QuadShape(parts) {
      var last := parts[|parts| - 1];
      JoinEndsWithLast(parts, '.');
    }
  }

  /** A string ending in `::` is never accepted: the compressed form needs
      a group after the `::`. So `::` and `fe80::` are rejected. */
  lemma TrailingDoubleColonRejected(ip: string)
    requires |ip| >= 2 && ip[|ip| - 2..] == "::"
    ensures !IsValidIP(ip)
  {
    assert ip[|ip| - 1] == ':';
    NoQuadEndingInColon(ip);
    NoGroupListEndingInColon(ip, 8, 8);
    assert OccursAt(ip, "::", |ip| - 2);
    var i := IndexOf(ip, "::").value;
    var right := ip[i + 2..];
    assert right == [] || right[|right| - 1] == ':';
    NoGroupListEndingInColon(right, 1, 7);
  }

  lemma {:induction false} JoinEndsWithLast(parts: seq<string>, sep: char)
    requires |parts| >= 1
    ensures var s := Join(parts, sep); var last := parts[|parts| - 1];
      |last| <= |s| && s[|s| - |last|..] == last
    decreases |parts|
  {
    if |parts| > 1 {
      JoinEndsWithLast(parts[1..], sep);
      assert parts[1..][|parts[1..]| - 1] == parts[|parts| - 1];
    }
  }

  const MappedPrefix: string := "::ffff:"

  /** `sanitizeIP`: `::ffff:` is removed only at position 0, then the
      white space at both ends of what is left is cut away, and nothing
      else (`TrimUnique` shows these two clauses fix `r`). */
  function SanitizeIP(ip: string): (r: string)
    ensures Trimmed(r)
    ensures StripsTo(if StartsWith(ip, MappedPrefix) then ip[|MappedPrefix|..] else ip, r)
    ensures |r| <= |ip|
    ensures !StartsWith(ip, MappedPrefix) && Trimmed(ip) ==> r == ip
    ensures StartsWith(ip, MappedPrefix) && Trimmed(ip[|MappedPrefix|..]) ==> r == ip[|MappedPrefix|..]
  {
    Trim(if StartsWith(ip, MappedPrefix) then ip[|MappedPrefix|..] else ip)
  }

  /** Leading space hides the prefix from the strip: the address is
      trimmed but keeps its `::ffff:`. */
  lemma SanitizeKeepsPrefixAfterSpace(c: char, x: string)
    requires IsJsSpace(c)
    ensures SanitizeIP([c] + x) == Trim(x)
    ensures StartsWith(x, MappedPrefix) && Trimmed(x) ==> StartsWith(SanitizeIP([c] + x), MappedPrefix)
  {
    var s := [c] + x;
    assert !StartsWith(s, MappedPrefix) by {
      assert s[0] != MappedPrefix[0];
    }
    assert s[1..] == x;
    TrimSkipsLeadingSpace(s);
  }

  /** Without leading space the prefix is stripped. */
  lemma SanitizeStripsMappedPrefix()
    ensures SanitizeIP("::ffff:1.2.3.4") == "1.2.3.4"
  {
    var t := "::ffff:1.2.3.4";
    assert t[..|MappedPrefix|] == MappedPrefix;
    assert t[|MappedPrefix|..] == "1.2.3.4";
    assert Trimmed("1.2.3.4");
  }

  /** A request header: absent, one value, or several (Node gives arrays
      for repeated headers). */
  datatype Header = Absent | Single(value: string) | Multiple(values: seq<string>)

  /** The header as the controller reads it: an array contributes its
      first element; `None` is anything that is not a string. */
  function HeaderText(h: Header): Option<string>
  {
    match h
    case Absent => None
    case Single(v) => Some(v)
    case Multiple(vs) => if |vs| > 0 then Some(vs[0]) else None
  }

  /** The text before the first comma, or all of it. */
  function BeforeComma(s: string): (r: string)
    ensures ',' !in r
    ensures |r| <= |s| && r == s[..|r|]
    ensures |r| == |s| || s[|r|] == ','
  {
    if ',' in s then
      var i := FirstIndexOf(s, ',');
      assert forall j :: 0 <= j < i ==> s[..i][j] == s[j];
      s[..i]
    else s
  }

  /** The client IP, by priority: cf-connecting-ip, x-real-ip, the trimmed
      first comma-separated element of x-forwarded-for, then a non-empty
      `req.ip`. */
  function ClientIP(cf: Header, realIp: Header, forwarded: Header, requestIp: Option<string>): (r: Option<string>)
    ensures HeaderText(cf).Some? ==> r == HeaderText(cf)
    ensures HeaderText(cf).None? && HeaderText(realIp).Some? ==> r == HeaderText(realIp)
    ensures HeaderText(cf).None? && HeaderText(realIp).None? && HeaderText(forwarded).Some? ==>
      r == Some(Trim(BeforeComma(HeaderText(forwarded).value)))
    ensures HeaderText(cf).None? && HeaderText(realIp).None? && HeaderText(forwarded).None? ==>
      r == (if requestIp.Some? && requestIp.value != "" then requestIp else None)
  {
    if HeaderText(cf).Some? then HeaderText(cf)
    else if HeaderText(realIp).Some? then HeaderText(realIp)
    else if HeaderText(forwarded).Some? then Some(Trim(Split(HeaderText(forwarded).value, ',')[0]))
    else if requestIp.Some? && requestIp.value != "" then requestIp
    else None
  }

  /** What the lookup of an IP gives: a non-OK status (with the `message`
      of its JSON body when that is a non-empty string), an exception from
      `fetch` or from reading the body, or the parsed JSON body. */
  datatype Lookup =
    | NotOk(status: int, statusText: string, message: Option<string>)
    | LookupThrew(thrown: Thrown)
    | Parsed(body: JsonValue)

  datatype Details = Details(country: string, detectionType: seq<string>)

  datatype Body =
    | Failure(error: string)
    | Detection(isUsingVPN: bool, details: Option<Details>)

  /** A response: status, JSON body, and the Cache-Control header if set. */
  datatype Response = Response(status: int, body: Body, cacheControl: Option<string>)

  /** The response, with the IP handed to the lookup service, if any. */
  datatype Reply = Reply(response: Response, queried: Option<string>)

  const NotConfigured: string := "VPN detection service not configured"
  const NoClientIP: string := "Could not determine client IP address"
  const InvalidIPFormat: string := "Invalid IP address format"
  const InvalidLookupResponse: string := "Invalid response from VPN detection service"
  const LookupFailed: string := "Failed to check VPN status. Please try again."
  const CachePolicy: string := "private, max-age=300"

  /** The outcome of `isValidVPNResponse`, including the TypeError it
      throws when `security` or `location` is `null` (which passes the
      `typeof === 'object'` test and is then read from). */
  datatype Shape =
    | WellFormed(vpn: bool, proxy: bool, tor: bool, relay: bool, country: string)
    | Malformed
    | NullRead(property: string)

  predicate BoolProperty(v: JsonValue, key: string) {
    Property(v, key).Some? && Property(v, key).value.JBool?
  }

  predicate StringProperty(v: JsonValue, key: string) {
    Property(v, key).Some? && Property(v, key).value.JString?
  }

  /** The four detection flags are booleans. */
  predicate HasFlags(security: JsonValue) {
    && BoolProperty(security, "vpn") && BoolProperty(security, "proxy")
    && BoolProperty(security, "tor") && BoolProperty(security, "relay")
  }

  /** The check throws, rather than answering false, exactly when
      `security` is present and `null`, or when the flags are in order and
      `location` is present and `null`; the property named is the first
      one read from the `null`. Every other failing input is `Malformed`. */
  function ShapeOf(data: JsonValue): (r: Shape)
    ensures r.NullRead? <==>
      || (HasProperty(data, "security") && Property(data, "security").value.JNull?)
      || (&& HasProperty(data, "security") && HasFlags(Property(data, "security").value)
          && HasProperty(data, "location") && Property(data, "location").value.JNull?)
    ensures r.NullRead? ==> r.property == (if Property(data, "security").value.JNull? then "vpn" else "country")
    ensures r.WellFormed? <==>
      && data.JObject? && HasProperty(data, "security") && HasProperty(data, "location")
      && BoolProperty(Property(data, "security").value, "vpn")
      && BoolProperty(Property(data, "security").value, "proxy")
      && BoolProperty(Property(data, "security").value, "tor")
      && BoolProperty(Property(data, "security").value, "relay")
      && StringProperty(Property(data, "location").value, "country")
      && StringProperty(Property(data, "location").value, "country_code")
    ensures r.WellFormed? ==>
      && r.vpn == Property(Property(data, "security").value, "vpn").value.b
      && r.proxy == Property(Property(data, "security").value, "proxy").value.b
      && r.tor == Property(Property(data, "security").value, "tor").value.b
      && r.relay == Property(Property(data, "security").value, "relay").value.b
      && r.country == Property(Property(data, "location").value, "country").value.s
  {
    if !Truthy(data) || !TypeofObject(data) || !HasProperty(data, "security") then Malformed
    else
      var security := Property(data, "security").value;
      if !TypeofObject(security) then Malformed
      else if security.JNull? then NullRead("vpn")
      else if !HasFlags(security) then Malformed
      else if !HasProperty(data, "location") then Malformed
      else
        var location := Property(data, "location").value;
        if !TypeofObject(location) then Malformed
        else if location.JNull? then NullRead("country")
        else if !(StringProperty(location, "country") && StringProperty(location, "country_code")) then Malformed
        else WellFormed(Property(security, "vpn").value.b, Property(security, "proxy").value.b,
                        Property(security, "tor").value.b, Property(security, "relay").value.b,
                        Property(location, "country").value.s)
  }

  /** Position of a detection name in the fixed order VPN, Proxy, Tor, Relay. */
  function Rank(name: string): int
  {
    if name == "VPN" then 0 else if name == "Proxy" then 1 else if name == "Tor" then 2
    else if name == "Relay" then 3 else 4
  }

  /** The names of the flags that are set, in the fixed order. */
  function DetectionTypes(vpn: bool, proxy: bool, tor: bool, relay: bool): (r: seq<string>)
    ensures forall x :: x in r <==> (x == "VPN" && vpn) || (x == "Proxy" && proxy) || (x == "Tor" && tor) || (x == "Relay" && relay)
    ensures forall i, j :: 0 <= i < j < |r| ==> Rank(r[i]) < Rank(r[j])
    ensures r == [] <==> !vpn && !proxy && !tor && !relay
  {
    (if vpn then ["VPN"] else []) + (if proxy then ["Proxy"] else [])
    + (if tor then ["Tor"] else []) + (if relay then ["Relay"] else [])
  }

  /** The message thrown for a non-OK lookup status. */
  function NotOkMessage(status: int, statusText: string, message: Option<string>): string
  {
    if message.Some? && message.value != "" then message.value
    else "VPN check failed: " + IntToDecimal(status) + " " + statusText
  }

  /** The response built from what the lookup gave, once the IP has
      passed validation. */
  function Answer(l: Lookup): (r: Response)
    ensures r.status == 200 <==> l.Parsed? && ShapeOf(l.body).WellFormed?
    ensures r.cacheControl.Some? <==> r.status == 200
    ensures r.cacheControl.Some? ==> r.cacheControl.value == CachePolicy
    ensures l.Parsed? && ShapeOf(l.body).Malformed? ==> r == Response(502, Failure(InvalidLookupResponse), None)
    ensures l.NotOk? ==> r.status == 500 && r.body == Failure(NotOkMessage(l.status, l.statusText, l.message))
    ensures l.LookupThrew? ==> r.status == 500 && r.body == Failure(MessageOr(l.thrown, LookupFailed))
    ensures l.Parsed? && ShapeOf(l.body).NullRead? ==>
      r == Response(500, Failure("Cannot read properties of null (reading '" + ShapeOf(l.body).property + "')"), None)
    ensures r.status == 502 <==> l.Parsed? && ShapeOf(l.body).Malformed?
    ensures r.body.Detection? <==> r.status == 200
    ensures r.body.Detection? ==>
      var s := ShapeOf(l.body);
      && r.body.isUsingVPN == (s.vpn || s.proxy || s.tor || s.relay)
      && (r.body.details.Some? <==> r.body.isUsingVPN)
      && (r.body.details.Some? ==> r.body.details.value == Details(s.country, DetectionTypes(s.vpn, s.proxy, s.tor, s.relay)))
  {
    match l
    case NotOk(status, statusText, message) => Response(500, Failure(NotOkMessage(status, statusText, message)), None)
    case LookupThrew(t) => Response(500, Failure(MessageOr(t, LookupFailed)), None)
    case Parsed(body) =>
      match ShapeOf(body)
      case Malformed => Response(502, Failure(InvalidLookupResponse), None)
      case NullRead(p) => Response(500, Failure("Cannot read properties of null (reading '" + p + "')"), None)
      case WellFormed(vpn, proxy, tor, relay, country) =>
        var types := DetectionTypes(vpn, proxy, tor, relay);
        var using := |types| > 0;
        Response(200, Detection(using, if using then Some(Details(country, types)) else None), Some(CachePolicy))
  }

  /** Whether the request gets as far as the lookup: the service is
      configured, a client IP was found, and its sanitised form is valid. */
  predicate ReachesLookup(apiKey: Option<string>, client: Option<string>) {
    apiKey.Some? && apiKey.value != "" && client.Some? && client.value != ""
    && IsValidIP(SanitizeIP(client.value))
  }

  /** `checkVPN`, with the `VPNAPI_KEY` setting, the three headers,
      `req.ip`, and the lookup service as a function of the IP. */
  function CheckVPN(apiKey: Option<string>, cf: Header, realIp: Header, forwarded: Header,
                    requestIp: Option<string>, lookup: string -> Lookup): (r: Reply)
    ensures var client := ClientIP(cf, realIp, forwarded, requestIp);
      && (apiKey.None? || apiKey.value == "" ==> r == Reply(Response(500, Failure(NotConfigured), None), None))
      && (apiKey.Some? && apiKey.value != "" && (client.None? || client.value == "") ==>
            r == Reply(Response(400, Failure(NoClientIP), None), None))
      && (apiKey.Some? && apiKey.value != "" && client.Some? && client.value != ""
          && !IsValidIP(SanitizeIP(client.value)) ==>
            r == Reply(Response(400, Failure(InvalidIPFormat), None), None))
      && (r.queried.Some? <==> ReachesLookup(apiKey, client))
      && (r.queried.Some? ==> r.queried.value == SanitizeIP(client.value) && r.response == Answer(lookup(r.queried.value)))
  {
    var client := ClientIP(cf, realIp, forwarded, requestIp);
    if apiKey.None? || apiKey.value == "" then Reply(Response(500, Failure(NotConfigured), None), None)
    else if client.None? || client.value == "" then Reply(Response(400, Failure(NoClientIP), None), None)
    else
      var ip := SanitizeIP(client.value);
      if !IsValidIP(ip) then Reply(Response(400, Failure(InvalidIPFormat), None), None)
      else Reply(Answer(lookup(ip)), Some(ip))
  }
}
