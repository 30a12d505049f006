/**
 * The part of Python's `json.dumps(..., ensure_ascii=False)` the exports use:
 * strings, `null` and flat objects, with the default `", "` and `": "`
 * separators. Non-ASCII text is written as it is; only the quote, the
 * backslash and the control characters are escaped.
 */
module Json {
  import opened Wrappers

  /** One of the 32 control characters JSON does not allow inside a string. */
  predicate IsControl(c: char) {
    c as int < 0x20
  }

  /** No control character anywhere, and so no line break. */
  predicate NoControl(s: string) {
    forall i :: 0 <= i < |s| ==> !IsControl(s[i])
  }

  /** Joining text without control characters gives text without them. */
  lemma NoControlJoin(a: string, b: string)
    requires NoControl(a) && NoControl(b)
    ensures NoControl(a + b)
  {
    forall i | 0 <= i < |a + b| ensures !IsControl((a + b)[i]) {
      if i < |a| { assert (a + b)[i] == a[i]; } else { assert (a + b)[i] == b[i - |a|]; }
    }
  }

  function HexDigit(d: int): (c: char)
    requires 0 <= d < 16
    ensures !IsControl(c)
  {
    if d < 10 then ('0' as int + d) as char else ('a' as int + d - 10) as char
  }

  function HexValue(c: char): (r: Option<int>)
    ensures r.Some? ==> 0 <= r.value < 16
  {
    if '0' <= c <= '9' then Some(c as int - '0' as int)
    else if 'a' <= c <= 'f' then Some(c as int - 'a' as int + 10)
    else if 'A' <= c <= 'F' then Some(c as int - 'A' as int + 10)
    else None
  }

  lemma HexRoundTrip(d: int)
    requires 0 <= d < 16
    ensures HexValue(HexDigit(d)) == Some(d)
  {
  }

  /** How `json.dumps` writes one character of a string. */
  function EscapeChar(c: char): (r: string)
    ensures |r| >= 1 && NoControl(r)
  {
    if c == '"' then "\\\""
    else if c == '\\' then "\\\\"
    else if c == '\n' then "\\n"
    else if c == '\r' then "\\r"
    else if c == '\t' then "\\t"
    else if c as int == 8 then "\\b"
    else if c as int == 12 then "\\f"
    else if IsControl(c) then "\\u00" + [HexDigit(c as int / 16), HexDigit(c as int % 16)]
    else [c]
  }

  /** The body of a JSON string literal for `s`. It never holds a raw control character. */
  function Escape(s: string): (r: string)
    ensures NoControl(r)
    decreases |s|
  {
    if s == [] then "" else EscapeChar(s[0]) + Escape(s[1..])
  }

  // ------------------------------------------------------------ decoding

  /** The character a two-character escape `\e` stands for. */
  function SimpleEscape(e: char): Option<char> {
    if e == '"' then Some('"')
    else if e == '\\' then Some('\\')
    else if e == '/' then Some('/')
    else if e == 'b' then Some(8 as char)
    else if e == 'f' then Some(12 as char)
    else if e == 'n' then Some('\n')
    else if e == 'r' then Some('\r')
    else if e == 't' then Some('\t')
    else None
  }

  /** Four hexadecimal digits. */
  function Hex4(h: string): (r: Option<int>)
    requires |h| == 4
    ensures r.Some? ==> 0 <= r.value < 0x10000
  {
    match (HexValue(h[0]), HexValue(h[1]), HexValue(h[2]), HexValue(h[3]))
    case (Some(a), Some(b), Some(c), Some(d)) => Some(4096 * a + 256 * b + 16 * c + d)
    case _ => None
  }

  function Prepend(c: char, rest: Option<string>): Option<string> {
    match rest
    case None => None
    case Some(r) => Some([c] + r)
  }

  /**
   * Reads the body of a JSON string literal back (every `\u` escape of a
   * surrogate is refused); `None` for text that is not a well-formed body.
   */
  function Unescape(t: string): Option<string>
    decreases |t|
  {
    if t == "" then Some("")
    else if t[0] == '\\' then
      if |t| < 2 then None
      else if t[1] == 'u' then
        if |t| < 6 then None
        else
          match Hex4(t[2..6])
          case None => None
          case Some(n) =>
            if 0xD800 <= n < 0xE000 then None else Prepend(n as char, Unescape(t[6..]))
      else
        match SimpleEscape(t[1])
        case None => None
        case Some(c) => Prepend(c, Unescape(t[2..]))
    else if t[0] == '"' || IsControl(t[0]) then None
    else Prepend(t[0], Unescape(t[1..]))
  }

  /** Reading back one written character. */
  lemma UnescapeChar(c: char, rest: string)
    ensures Unescape(EscapeChar(c) + rest) == Prepend(c, Unescape(rest))
  {
    var t := EscapeChar(c) + rest;
    if c == '"' || c == '\\' || c == '\n' || c == '\r' || c == '\t' || c as int == 8 || c as int == 12 {
      assert t[2..] == rest;
    } else if IsControl(c) {
      var n := c as int;
      HexRoundTrip(n / 16);
      HexRoundTrip(n % 16);
      assert t[2..6] == ['0', '0', HexDigit(n / 16), HexDigit(n % 16)];
      assert Hex4(t[2..6]) == Some(n);
      assert t[6..] == rest;
    } else {
      assert t[0] == c && t[1..] == rest;
    }
  }

  /** What `json.dumps` writes for a string, `json.loads` reads back unchanged. */
  lemma {:induction false} UnescapeEscape(s: string)
    ensures Unescape(Escape(s)) == Some(s)
    decreases |s|
  {
    if s != [] {
      UnescapeEscape(s[1..]);
      UnescapeChar(s[0], Escape(s[1..]));
      assert [s[0]] + s[1..] == s;
    }
  }

  // ------------------------------------------------------------ values and objects

  datatype JValue = JStr(s: string) | JNull

  function Encode(v: JValue): (r: string)
    ensures NoControl(r)
  {
    match v
    case JStr(s) => "\"" + Escape(s) + "\""
    case JNull => "null"
  }

  /** `"key": value` pairs separated by `", "`. */
  function Members(fields: seq<(string, JValue)>): (r: string)
    ensures NoControl(r)
    decreases |fields|
  {
    if fields == [] then ""
    else
      var key := Encode(JStr(fields[0].0));
      var value := Encode(fields[0].1);
      NoControlJoin(key, ": ");
      NoControlJoin(key + ": ", value);
      var member := key + ": " + value;
      if |fields| == 1 then member
      else
        var rest := Members(fields[1..]);
        NoControlJoin(member, ", ");
        NoControlJoin(member + ", ", rest);
        member + ", " + rest
  }

  /** A flat JSON object, keys in the order given. It fits on one line. */
  function Object(fields: seq<(string, JValue)>): (r: string)
    ensures NoControl(r) && '\n' !in r
  {
    "{" + Members(fields) + "}"
  }
}
