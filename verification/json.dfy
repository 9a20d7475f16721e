/** The part of JSON the service relies on: `JSON.stringify` of strings and
    of flat objects (the inscription payload and the signed request data),
    a reader for the strings and flat objects it writes, and parsed JSON
    values with JavaScript's property lookup and truthiness (the VPN
    lookup's response). */
module Json {
  import opened Text

  function LowerHexChar(d: nat): (c: char)
    requires d < 16
    ensures IsLowerHex(c) && HexDigitValue(c) == d
  {
    if d < 10 then DigitChar(d) else (d - 10 + 'a' as int) as char
  }

  /** What `JSON.stringify` writes for one character inside a string
      literal: the quote and the backslash are escaped, the five control
      characters with a short form use it, the other control characters are
      written as a lower-case `\u00XX`, and everything else is itself. */
  function EscapeChar(c: char): string
  {
    if c == '"' then "\\\""
    else if c == '\\' then "\\\\"
    else if c == '\U{8}' then "\\b"
    else if c == '\U{C}' then "\\f"
    else if c == '\n' then "\\n"
    else if c == '\r' then "\\r"
    else if c == '\t' then "\\t"
    else if c < ' ' then "\\u00" + [LowerHexChar(c as int / 16), LowerHexChar(c as int % 16)]
    else [c]
  }

  function Escape(s: string): string
  {
    if s == [] then "" else EscapeChar(s[0]) + Escape(s[1..])
  }

  /** `JSON.stringify(s)` for a string `s`. */
  function Quote(s: string): string
  {
    "\"" + Escape(s) + "\""
  }

  /** Reads the character named by the escape sequence after a backslash,
      with the number of characters it used. */
  function ReadEscape(u: string): Option<(char, nat)>
  {
    if u == [] then None
    else if u[0] == '"' then Some(('"', 1))
    else if u[0] == '\\' then Some(('\\', 1))
    else if u[0] == '/' then Some(('/', 1))
    else if u[0] == 'b' then Some(('\U{8}', 1))
    else if u[0] == 'f' then Some(('\U{C}', 1))
    else if u[0] == 'n' then Some(('\n', 1))
    else if u[0] == 'r' then Some(('\r', 1))
    else if u[0] == 't' then Some(('\t', 1))
    else if u[0] == 'u' && |u| >= 5 && forall i :: 1 <= i < 5 ==> IsHexDigit(u[i]) then
      var code := ((HexDigitValue(u[1]) * 16 + HexDigitValue(u[2])) * 16 + HexDigitValue(u[3])) * 16 + HexDigitValue(u[4]);
      if code < 0xD800 || 0xE000 <= code then Some((code as char, 5)) else None
    else None
  }

  /** Reads the body of a JSON string literal up to its closing quote:
      the decoded text and what follows the quote. */
  function ReadString(t: string): (r: Option<(string, string)>)
    ensures r.Some? ==> |r.value.1| < |t|
    decreases |t|
  {
    if t == [] then None
    else if t[0] == '"' then Some(("", t[1..]))
    else if t[0] == '\\' then
      match ReadEscape(t[1..])
      case None => None
      case Some((c, k)) =>
        if 1 + k > |t| then None
        else match ReadString(t[1 + k..])
          case None => None
          case Some((s, rest)) => Some(([c] + s, rest))
    else if t[0] < ' ' then None
    else match ReadString(t[1..])
      case None => None
      case Some((s, rest)) => Some(([t[0]] + s, rest))
  }

  /** A control character without a short form comes back from its
      six-character `\u00XX` escape. */
  lemma ReadUnicodeEscape(c: char, tail: string)
    requires c < ' ' && c != '\U{8}' && c != '\U{C}' && c != '\n' && c != '\r' && c != '\t'
    ensures ReadString(EscapeChar(c) + tail) ==
      match ReadString(tail)
      case None => None
      case Some((s, rest)) => Some(([c] + s, rest))
  {
    var h := [LowerHexChar(c as int / 16), LowerHexChar(c as int % 16)];
    var t := "\\u00" + h + tail;
    assert EscapeChar(c) + tail == t;
    var u := t[1..];
    assert u[0] == 'u' && u[1] == '0' && u[2] == '0' && u[3] == h[0] && u[4] == h[1];
    assert ReadEscape(u) == Some((c, 5));
    assert t[6..] == tail;
  }

  lemma ReadEscapedChar(c: char, tail: string)
    ensures ReadString(EscapeChar(c) + tail) ==
      match ReadString(tail)
      case None => None
      case Some((s, rest)) => Some(([c] + s, rest))
  {
    var t := EscapeChar(c) + tail;
    if c < ' ' && c != '\U{8}' && c != '\U{C}' && c != '\n' && c != '\r' && c != '\t' {
      ReadUnicodeEscape(c, tail);
    } else if c == '"' || c == '\\' || c == '\U{8}' || c == '\U{C}' || c == '\n' || c == '\r' || c == '\t' {
      assert t[2..] == tail;
    } else {
      assert t[1..] == tail;
    }
  }

  /** Reading what `JSON.stringify` wrote gives the string back, and stops
      exactly at the closing quote. */
  lemma {:induction false} ReadQuoted(s: string, rest: string)
    ensures ReadString(Escape(s) + "\"" + rest) == Some((s, rest))
    decreases |s|
  {
    if s == [] {
      assert Escape(s) + "\"" + rest == "\"" + rest;
    } else {
      assert Escape(s) == EscapeChar(s[0]) + Escape(s[1..]);
      Regroup(EscapeChar(s[0]), Escape(s[1..]), "\"", rest);
      ReadEscapedChar(s[0], Escape(s[1..]) + "\"" + rest);
      ReadQuoted(s[1..], rest);
      assert [s[0]] + s[1..] == s;
    }
  }

  /** A quoted string followed by more text is its opening quote, then
      what the reader scans. */
  lemma QuoteThen(s: string, rest: string)
    ensures Quote(s) + rest == "\"" + (Escape(s) + "\"" + rest)
    ensures (Quote(s) + rest)[0] == '"' && (Quote(s) + rest)[1..] == Escape(s) + "\"" + rest
  {
    assert Quote(s) + rest == "\"" + (Escape(s) + "\"" + rest);
  }

  /** Two quoted strings followed by anything are equal only when the
      strings and what follows are equal. */
  lemma QuoteUnambiguous(a: string, b: string, ra: string, rb: string)
    requires Quote(a) + ra == Quote(b) + rb
    ensures a == b && ra == rb
  {
    QuoteThen(a, ra);
    QuoteThen(b, rb);
    ReadQuoted(a, ra);
    ReadQuoted(b, rb);
  }

  /** A member value of an object that `JSON.stringify` writes: a string it
      quotes, or the already-serialised text of any other value. */
  datatype Value = Str(s: string) | Raw(text: string)

  function ValueText(v: Value): string
  {
    match v
    case Str(s) => Quote(s)
    case Raw(text) => text
  }

  /** `"key":value,"key":value,...` in the order given. */
  function Members(fields: seq<(string, Value)>): string
  {
    if fields == [] then ""
    else
      var head := Quote(fields[0].0) + ":" + ValueText(fields[0].1);
      if |fields| == 1 then head else head + "," + Members(fields[1..])
  }

  /** `JSON.stringify` of an object whose keys were inserted in the order of
      `fields`: no whitespace anywhere outside the strings. */
  function Object(fields: seq<(string, Value)>): string
  {
    "{" + Members(fields) + "}"
  }

  predicate AllStrings(fields: seq<(string, Value)>) {
    forall i :: 0 <= i < |fields| ==> fields[i].1.Str?
  }

  /** Reads one `"k":"v"` member: the member and what follows it. */
  function ReadMember(t: string): (r: Option<((string, Value), string)>)
    ensures r.Some? ==> |r.value.1| < |t|
  {
    if t == [] || t[0] != '"' then None
    else match ReadString(t[1..])
      case None => None
      case Some((k, r1)) =>
        if |r1| < 2 || r1[0] != ':' || r1[1] != '"' then None
        else match ReadString(r1[2..])
          case None => None
          case Some((v, r2)) => Some(((k, Str(v)), r2))
  }

  /** Reads `"k":"v",...}` to the end of the input. */
  function ReadMembers(t: string): Option<seq<(string, Value)>>
    decreases |t|
  {
    match ReadMember(t)
    case None => None
    case Some((m, rest)) =>
      if rest == "}" then Some([m])
      else if rest != [] && rest[0] == ',' then
        match ReadMembers(rest[1..])
        case None => None
        case Some(more) => Some([m] + more)
      else None
  }

  /** Reads a flat object whose values are all strings, and nothing after it. */
  function ReadObject(t: string): Option<seq<(string, Value)>>
  {
    if t == "{}" then Some([])
    else if t != [] && t[0] == '{' then ReadMembers(t[1..])
    else None
  }

  /** The reader's steps for one member, given what each scan finds. */
  lemma ReadMemberOf(t: string, k: string, r1: string, v: string, r2: string)
    requires t != [] && t[0] == '"' && ReadString(t[1..]) == Some((k, r1))
    requires |r1| >= 2 && r1[0] == ':' && r1[1] == '"' && ReadString(r1[2..]) == Some((v, r2))
    ensures ReadMember(t) == Some(((k, Str(v)), r2))
  {
  }

  /** The reader scans a quoted string to its closing quote. */
  lemma ScanQuoted(s: string, rest: string)
    ensures var t := Quote(s) + rest;
      t != [] && t[0] == '"' && ReadString(t[1..]) == Some((s, rest))
  {
    QuoteThen(s, rest);
    ReadQuoted(s, rest);
  }

  /** After a key, the reader expects `:` and a quoted value. */
  lemma ScanValue(v: string, tail: string)
    ensures var r1 := ":" + (Quote(v) + tail);
      |r1| >= 2 && r1[0] == ':' && r1[1] == '"' && ReadString(r1[2..]) == Some((v, tail))
  {
    var r1 := ":" + (Quote(v) + tail);
    ScanQuoted(v, tail);
    assert r1[1..] == Quote(v) + tail;
    assert r1[2..] == (Quote(v) + tail)[1..];
  }

  lemma ReadOneMember(k: string, v: string, tail: string)
    ensures ReadMember(Quote(k) + ":" + Quote(v) + tail) == Some(((k, Str(v)), tail))
  {
    var r1 := ":" + (Quote(v) + tail);
    ScanQuoted(k, r1);
    ScanValue(v, tail);
    ReadMemberOf(Quote(k) + r1, k, r1, v, tail);
    Regroup(Quote(k), ":", Quote(v), tail);
  }

  lemma Regroup(a: string, b: string, c: string, d: string)
    ensures a + b + c + d == a + (b + (c + d))
    ensures a + b + c + d == a + (b + c + d)
  {
  }

  lemma MembersHead(fields: seq<(string, Value)>)
    requires fields != [] && fields[0].1.Str?
    ensures |fields| == 1 ==> Members(fields) == Quote(fields[0].0) + ":" + Quote(fields[0].1.s)
    ensures |fields| > 1 ==> Members(fields) == Quote(fields[0].0) + ":" + Quote(fields[0].1.s) + "," + Members(fields[1..])
    ensures Members(fields)[0] == '"'
  {
  }

  lemma ReadMembersLast(t: string, m: (string, Value))
    requires ReadMember(t) == Some((m, "}"))
    ensures ReadMembers(t) == Some([m])
  {
  }

  lemma ReadMembersNext(t: string, m: (string, Value), rest: string, more: seq<(string, Value)>)
    requires rest != [] && rest[0] == ',' && rest != "}"
    requires ReadMember(t) == Some((m, rest)) && ReadMembers(rest[1..]) == Some(more)
    ensures ReadMembers(t) == Some([m] + more)
  {
  }

  lemma AppendClose(a: string, m: string)
    ensures a + "," + m + "}" == a + ("," + m + "}")
    ensures ("," + m + "}")[1..] == m + "}"
  {
  }

  /** One more member in front of a readable list is read first. */
  lemma ReadMembersCons(k: string, v: string, m: string, more: seq<(string, Value)>)
    requires ReadMembers(m + "}") == Some(more)
    ensures ReadMembers(Quote(k) + ":" + Quote(v) + "," + m + "}") == Some([(k, Str(v))] + more)
  {
    var head := Quote(k) + ":" + Quote(v);
    var tail := "," + m + "}";
    AppendClose(head, m);
    ReadOneMember(k, v, tail);
    assert tail != "}" by {
      assert |tail| >= 2 && tail[0] == ',';
    }
    ReadMembersNext(head + tail, (k, Str(v)), tail, more);
  }

  lemma {:induction false} ReadMembersRoundTrip(fields: seq<(string, Value)>)
    requires fields != [] && AllStrings(fields)
    ensures ReadMembers(Members(fields) + "}") == Some(fields)
    decreases |fields|
  {
    var k := fields[0].0;
    var v := fields[0].1.s;
    MembersHead(fields);
    if |fields| == 1 {
      ReadOneMember(k, v, "}");
      ReadMembersLast(Quote(k) + ":" + Quote(v) + "}", (k, Str(v)));
      assert [(k, Str(v))] == fields;
    } else {
      var rest := fields[1..];
      ReadMembersRoundTrip(rest);
      ReadMembersCons(k, v, Members(rest), rest);
      assert [(k, Str(v))] + rest == fields;
    }
  }

  lemma Enclose(m: string)
    ensures ("{" + m + "}")[1..] == m + "}"
    ensures |"{" + m + "}"| == |m| + 2
  {
  }

  /** Reading back a flat object of strings written by `Object` gives
      exactly its members, keys and values, in their order. */
  lemma ReadObjectRoundTrip(fields: seq<(string, Value)>)
    requires AllStrings(fields)
    ensures ReadObject(Object(fields)) == Some(fields)
  {
    if fields != [] {
      var m := Members(fields);
      MembersHead(fields);
      ReadMembersRoundTrip(fields);
      Enclose(m);
    }
  }

  /** A value as `JSON.parse` returns it. Numbers are kept to integers:
      only their truthiness matters to the service. */
  datatype JsonValue =
    | JNull
    | JBool(b: bool)
    | JNumber(n: int)
    | JString(s: string)
    | JArray(items: seq<JsonValue>)
    | JObject(fields: seq<(string, JsonValue)>)

  /** JavaScript truthiness of a parsed value. */
  predicate Truthy(v: JsonValue)
  {
    match v
    case JNull => false
    case JBool(b) => b
    case JNumber(n) => n != 0
    case JString(s) => s != ""
    case _ => true
  }

  /** `typeof v === 'object'`, which holds for `null` and arrays too. */
  predicate TypeofObject(v: JsonValue)
  {
    v.JNull? || v.JArray? || v.JObject?
  }

  /** The value of `key` in an object's member list; `JSON.parse` keeps the
      last of repeated keys. */
  function Lookup(fields: seq<(string, JsonValue)>, key: string): (r: Option<JsonValue>)
    ensures r.Some? <==> exists i :: 0 <= i < |fields| && fields[i].0 == key
    ensures r.Some? ==> exists i :: 0 <= i < |fields| && fields[i] == (key, r.value)
                          && forall j :: i < j < |fields| ==> fields[j].0 != key
  {
    if fields == [] then None
    else if fields[|fields| - 1].0 == key then Some(fields[|fields| - 1].1)
    else Lookup(fields[..|fields| - 1], key)
  }

  /** `key in v` for a parsed value: only objects own named properties. */
  predicate HasProperty(v: JsonValue, key: string)
  {
    v.JObject? && Lookup(v.fields, key).Some?
  }

  /** `v[key]` where `v` is neither null nor undefined: `None` is
      JavaScript's `undefined`. */
  function Property(v: JsonValue, key: string): Option<JsonValue>
  {
    if v.JObject? then Lookup(v.fields, key) else None
  }
}
