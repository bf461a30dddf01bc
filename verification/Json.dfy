/** A strict reader of JSON texts: the grammar of RFC 8259, sections 2 to 7, the whole of it. */
module Json {
  import opened Prelude

  /** Numbers keep their spelling; object members keep their order. */
  datatype Value =
    | Null
    | Bool(b: bool)
    | Number(text: string)
    | String(s: string)
    | Array(items: seq<Value>)
    | Object(members: seq<(string, Value)>)

  /** What was read and what is left. */
  datatype Parsed<+T> = Parsed(value: T, rest: string)

  type Reading<+T> = Option<Parsed<T>>

  predicate Starts(s: string, c: char) { s != "" && s[0] == c }

  // -------------------------------------------------------- section 2, white space

  function SkipWs(s: string): (r: string)
    ensures |r| <= |s|
  {
    if s != "" && s[0] in " \t\n\r" then SkipWs(s[1..]) else s
  }

  // ------------------------------------------------------------- section 6, numbers

  /** The longest run of digits at the front. */
  function TakeDigits(s: string): (r: Parsed<string>)
    ensures |r.value| + |r.rest| == |s|
  {
    if s != "" && IsDigit(s[0]) then
      var r := TakeDigits(s[1..]);
      Parsed([s[0]] + r.value, r.rest)
    else Parsed("", s)
  }

  /** No leading zeros: a zero stands alone. */
  function ReadInt(s: string): (r: Reading<string>)
    ensures r.Some? ==> |r.value.rest| < |s|
  {
    if Starts(s, '0') then Some(Parsed("0", s[1..]))
    else
      var d := TakeDigits(s);
      if d.value == "" then None else Some(d)
  }

  function ReadFraction(s: string): (r: Reading<string>)
    ensures r.Some? ==> |r.value.rest| <= |s|
  {
    if Starts(s, '.') then
      var d := TakeDigits(s[1..]);
      if d.value == "" then None else Some(Parsed("." + d.value, d.rest))
    else Some(Parsed("", s))
  }

  function ReadExponent(s: string): (r: Reading<string>)
    ensures r.Some? ==> |r.value.rest| <= |s|
  {
    if Starts(s, 'e') || Starts(s, 'E') then
      var signed := |s| > 1 && s[1] in "+-";
      var n := if signed then 2 else 1;
      var d := TakeDigits(s[n..]);
      if d.value == "" then None else Some(Parsed(s[..n] + d.value, d.rest))
    else Some(Parsed("", s))
  }

  function ReadNumber(s: string): (r: Reading<Value>)
    ensures r.Some? ==> |r.value.rest| < |s|
  {
    var sign := if Starts(s, '-') then "-" else "";
    var i := ReadInt(s[|sign|..]);
    if i.None? then None
    else
      var f := ReadFraction(i.value.rest);
      if f.None? then None
      else
        var e := ReadExponent(f.value.rest);
        if e.None? then None
        else Some(Parsed(Number(sign + i.value.value + f.value.value + e.value.value), e.value.rest))
  }

  // ------------------------------------------------------------- section 7, strings

  function HexDigit(c: char): Option<nat> {
    if '0' <= c <= '9' then Some(c as int - '0' as int)
    else if 'a' <= c <= 'f' then Some(c as int - 'a' as int + 10)
    else if 'A' <= c <= 'F' then Some(c as int - 'A' as int + 10)
    else None
  }

  function HexValue(s: string): (r: Option<nat>) {
    if s == "" then Some(0)
    else
      var front, last := HexValue(s[..|s| - 1]), HexDigit(s[|s| - 1]);
      if front.None? || last.None? then None else Some(front.value * 16 + last.value)
  }

  function Simple(c: char): Option<char> {
    match c
    case '"' => Some('"')
    case '\\' => Some('\\')
    case '/' => Some('/')
    case 'b' => Some('\U{08}')
    case 'f' => Some('\U{0C}')
    case 'n' => Some('\n')
    case 'r' => Some('\r')
    case 't' => Some('\t')
    case _ => None
  }

  predicate IsScalar(n: int) { 0 <= n < 0xD800 || 0xE000 <= n < 0x11_0000 }

  /** What follows a backslash: one character, a code unit, or a surrogate pair. */
  function ReadEscape(s: string): (r: Reading<char>)
    ensures r.Some? ==> |r.value.rest| < |s|
  {
    if s == "" then None
    else if s[0] != 'u' then
      var c := Simple(s[0]);
      if c.None? then None else Some(Parsed(c.value, s[1..]))
    else if |s| < 5 then None
    else
      var unit := HexValue(s[1..5]);
      if unit.None? then None
      else if IsScalar(unit.value) then Some(Parsed(unit.value as char, s[5..]))
      else if |s| < 11 || s[5] != '\\' || s[6] != 'u' then None
      else
        var low := HexValue(s[7..11]);
        if low.None? || !(0xD800 <= unit.value < 0xDC00) || !(0xDC00 <= low.value < 0xE000) then None
        else
          var n := 0x1_0000 + (unit.value - 0xD800) * 0x400 + (low.value - 0xDC00);
          if IsScalar(n) then Some(Parsed(n as char, s[11..])) else None
  }

  /** The rest of a string after its opening quote. Characters below U+0020 must be escaped. */
  function ReadString(s: string): (r: Reading<string>)
    ensures r.Some? ==> |r.value.rest| < |s|
    decreases |s|
  {
    if s == "" || s[0] < ' ' then None
    else if s[0] == '"' then Some(Parsed("", s[1..]))
    else
      var c := if s[0] == '\\' then ReadEscape(s[1..]) else Some(Parsed(s[0], s[1..]));
      if c.None? then None
      else
        var r := ReadString(c.value.rest);
        if r.None? then None else Some(Parsed([c.value.value] + r.value.value, r.value.rest))
  }

  // --------------------------------------------------- sections 3 to 5, values

  function ReadValue(s: string): (r: Reading<Value>)
    ensures r.Some? ==> |r.value.rest| < |s|
    decreases |s|, 1
  {
    if s == "" then None
    else if s[0] == '"' then
      var r := ReadString(s[1..]);
      if r.None? then None else Some(Parsed(String(r.value.value), r.value.rest))
    else if s[0] == '{' then
      var t := SkipWs(s[1..]);
      if Starts(t, '}') then Some(Parsed(Object([]), t[1..]))
      else
        var r := ReadMembers(t);
        if r.None? then None else Some(Parsed(Object(r.value.value), r.value.rest))
    else if s[0] == '[' then
      var t := SkipWs(s[1..]);
      if Starts(t, ']') then Some(Parsed(Array([]), t[1..]))
      else
        var r := ReadItems(t);
        if r.None? then None else Some(Parsed(Array(r.value.value), r.value.rest))
    else if "true" <= s then Some(Parsed(Bool(true), s[4..]))
    else if "false" <= s then Some(Parsed(Bool(false), s[5..]))
    else if "null" <= s then Some(Parsed(Null, s[4..]))
    else ReadNumber(s)
  }

  /** One member: a string, a colon and a value. */
  function ReadMember(s: string): (r: Reading<(string, Value)>)
    ensures r.Some? ==> |r.value.rest| < |s|
    decreases |s|, 0
  {
    if !Starts(s, '"') then None
    else
      var key := ReadString(s[1..]);
      if key.None? then None
      else
        var t := SkipWs(key.value.rest);
        if !Starts(t, ':') then None
        else
          var v := ReadValue(SkipWs(t[1..]));
          if v.None? then None
          else Some(Parsed((key.value.value, v.value.value), v.value.rest))
  }

  /** One or more members up to the closing brace. */
  function ReadMembers(s: string): (r: Reading<seq<(string, Value)>>)
    ensures r.Some? ==> |r.value.rest| < |s|
    decreases |s|, 1
  {
    var m := ReadMember(s);
    if m.None? then None
    else
      var t := SkipWs(m.value.rest);
      if Starts(t, '}') then Some(Parsed([m.value.value], t[1..]))
      else if Starts(t, ',') then
        var r := ReadMembers(SkipWs(t[1..]));
        if r.None? then None else Some(Parsed([m.value.value] + r.value.value, r.value.rest))
      else None
  }

  /** One or more array elements up to the closing bracket. */
  function ReadItems(s: string): (r: Reading<seq<Value>>)
    ensures r.Some? ==> |r.value.rest| < |s|
    decreases |s|, 2
  {
    var v := ReadValue(s);
    if v.None? then None
    else
      var t := SkipWs(v.value.rest);
      if Starts(t, ']') then Some(Parsed([v.value.value], t[1..]))
      else if Starts(t, ',') then
        var r := ReadItems(SkipWs(t[1..]));
        if r.None? then None else Some(Parsed([v.value.value] + r.value.value, r.value.rest))
      else None
  }

  /** A whole JSON text. */
  function ReadText(s: string): Option<Value> {
    var v := ReadValue(SkipWs(s));
    if v.Some? && SkipWs(v.value.rest) == "" then Some(v.value.value) else None
  }
}
