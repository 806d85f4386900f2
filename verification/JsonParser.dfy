/** The JSON reader (`json.loads`) that log lines, journals and untrusted records
    go through.  Every function works on the unread suffix of the text. */
module JsonParser {
  import opened Json

  datatype Text = NoText | GotText(text: string, rest: string)
  datatype Parsed = NoValue | Got(value: Json, rest: string)
  datatype Items = NoItems | GotItems(items: seq<Json>, rest: string)
  datatype Fields = NoFields | GotFields(fields: seq<Field>, rest: string)

  predicate Space(c: char) {
    c == ' ' || c == '\t' || c == '\n' || c == '\r'
  }

  function SkipSpace(s: string): (r: string)
    ensures |r| <= |s|
    ensures r != [] ==> !Space(r[0])
  {
    if s != [] && Space(s[0]) then SkipSpace(s[1..]) else s
  }

  // ---- numbers ------------------------------------------------------------

  predicate Digit(c: char) {
    '0' <= c <= '9'
  }

  function TakeDigits(s: string): (r: (string, string))
    ensures r.0 + r.1 == s
    ensures forall i :: 0 <= i < |r.0| ==> Digit(r.0[i])
    ensures r.1 != [] ==> !Digit(r.1[0])
  {
    if s != [] && Digit(s[0]) then
      var (d, rest) := TakeDigits(s[1..]);
      ([s[0]] + d, rest)
    else ("", s)
  }

  function NatOf(digits: string): nat
    requires forall i :: 0 <= i < |digits| ==> Digit(digits[i])
  {
    if digits == [] then 0
    else
      var last := digits[|digits| - 1];
      assert Digit(last);
      NatOf(digits[..|digits| - 1]) * 10 + (last as int - '0' as int)
  }

  // The fraction and exponent a number may continue with: what is left after them.
  function SkipFraction(s: string): (r: string)
    ensures |r| <= |s|
    ensures |r| == |s| ==> r == s
  {
    if |s| >= 2 && s[0] == '.' && Digit(s[1]) then TakeDigits(s[1..]).1 else s
  }

  function SkipExponent(s: string): (r: string)
    ensures |r| <= |s|
    ensures |r| == |s| ==> r == s
  {
    if s == [] || (s[0] != 'e' && s[0] != 'E') then s
    else if |s| >= 2 && Digit(s[1]) then TakeDigits(s[1..]).1
    else if |s| >= 3 && (s[1] == '+' || s[1] == '-') && Digit(s[2]) then TakeDigits(s[2..]).1
    else s
  }

  function ParseMagnitude(t: string): (p: Parsed)
    ensures p.Got? ==> |p.rest| < |t|
    ensures p.Got? ==> p.value.Int? || p.value.Float?
  {
    if t == [] || !Digit(t[0]) then NoValue
    else
      var (digits, rest) := if t[0] == '0' then ("0", t[1..]) else TakeDigits(t);
      var end := SkipExponent(SkipFraction(rest));
      if |end| < |rest| then Got(Float(false), end) else Got(Int(NatOf(digits)), rest)
  }

  function ParseNumber(s: string): (p: Parsed)
    ensures p.Got? ==> |p.rest| < |s|
    ensures p.Got? ==> p.value.Int? || p.value.Float?
  {
    if s == [] || s[0] != '-' then ParseMagnitude(s)
    else match ParseMagnitude(s[1..])
         case Got(Int(n), rest) => Got(Int(-n), rest)
         case p => p
  }

  // ---- strings ------------------------------------------------------------

  function HexValue(c: char): int {
    if '0' <= c <= '9' then c as int - '0' as int
    else if 'a' <= c <= 'f' then c as int - 'a' as int + 10
    else if 'A' <= c <= 'F' then c as int - 'A' as int + 10
    else -1
  }

  // The code unit a \uXXXX escape at the head of `s` spells, or -1.
  function UnicodeUnit(s: string): (n: int)
    ensures -1 <= n < 0x1_0000
    ensures n >= 0 ==> |s| >= 6
  {
    if |s| < 6 || s[0] != '\\' || s[1] != 'u' then -1
    else
      var (a, b, c, d) := (HexValue(s[2]), HexValue(s[3]), HexValue(s[4]), HexValue(s[5]));
      if a < 0 || b < 0 || c < 0 || d < 0 then -1 else a * 4096 + b * 256 + c * 16 + d
  }

  // One character of a string body and how much text spells it.  A lone
  // surrogate escape spells no character and is refused.
  function ParseChar(s: string): (r: Option<(char, nat)>)
    requires s != [] && s[0] != '"'
    ensures r.Some? ==> 1 <= r.value.1 <= |s|
  {
    if s[0] != '\\' then
      if s[0] as int < 0x20 then None else Some((s[0], 1))
    else if |s| < 2 then None
    else if s[1] == '"' then Some(('"', 2))
    else if s[1] == '\\' then Some(('\\', 2))
    else if s[1] == '/' then Some(('/', 2))
    else if s[1] == 'b' then Some((8 as char, 2))
    else if s[1] == 'f' then Some((12 as char, 2))
    else if s[1] == 'n' then Some(('\n', 2))
    else if s[1] == 'r' then Some(('\r', 2))
    else if s[1] == 't' then Some(('\t', 2))
    else
      var u := UnicodeUnit(s);
      if u < 0 then None
      else if !(0xD800 <= u < 0xE000) then Some((u as char, 6))
      else
        var l := UnicodeUnit(s[6..]);
        if u < 0xDC00 && 0xDC00 <= l < 0xE000 then
          Some((((u - 0xD800) * 1024 + (l - 0xDC00) + 0x1_0000) as char, 12))
        else None
  }

  // A string body up to and including its closing quote.
  function ParseText(s: string): (t: Text)
    ensures t.GotText? ==> |t.rest| < |s|
    decreases |s|
  {
    if s == [] then NoText
    else if s[0] == '"' then GotText("", s[1..])
    else match ParseChar(s)
         case None => NoText
         case Some((c, n)) =>
           match ParseText(s[n..])
           case NoText => NoText
           case GotText(text, rest) => GotText([c] + text, rest)
  }

  // ---- values -------------------------------------------------------------

  predicate Starts(s: string, word: string) {
    |word| <= |s| && s[..|word|] == word
  }

  function ParseWord(s: string): (p: Parsed)
    ensures p.Got? ==> |p.rest| < |s|
  {
    if Starts(s, "null") then Got(Null, s[4..])
    else if Starts(s, "true") then Got(Bool(true), s[4..])
    else if Starts(s, "false") then Got(Bool(false), s[5..])
    else if Starts(s, "NaN") then Got(Float(true), s[3..])
    else if Starts(s, "Infinity") then Got(Float(true), s[8..])
    else if Starts(s, "-Infinity") then Got(Float(true), s[9..])
    else NoValue
  }

  // Everything but a list or a dict.
  function ParseScalar(s: string): (p: Parsed)
    requires s != []
    ensures p.Got? ==> |p.rest| < |s|
  {
    if s[0] == '"' then
      match ParseText(s[1..])
      case NoText => NoValue
      case GotText(text, rest) => Got(Str(text), rest)
    else if Digit(s[0]) || s[0] == '-' then
      match ParseNumber(s)
      case NoValue => ParseWord(s)
      case Got(v, rest) => Got(v, rest)
    else ParseWord(s)
  }

  function ParseValue(s: string): (p: Parsed)
    ensures p.Got? ==> |p.rest| < |s|
    decreases |s|, 1
  {
    if s == [] then NoValue
    else if s[0] == '[' then ParseArray(SkipSpace(s[1..]))
    else if s[0] == '{' then ParseObject(SkipSpace(s[1..]))
    else ParseScalar(s)
  }

  // A list after its opening bracket.
  function ParseArray(t: string): (p: Parsed)
    ensures p.Got? ==> |p.rest| < |t|
    decreases |t|, 3
  {
    if t != [] && t[0] == ']' then Got(Arr([]), t[1..])
    else match ParseItems(t)
         case NoItems => NoValue
         case GotItems(items, rest) => Got(Arr(items), rest)
  }

  // A dict after its opening brace.
  function ParseObject(t: string): (p: Parsed)
    ensures p.Got? ==> |p.rest| < |t|
    decreases |t|, 3
  {
    if t != [] && t[0] == '}' then Got(Obj([]), t[1..])
    else match ParseFields(t)
         case NoFields => NoValue
         case GotFields(fields, rest) => Got(Obj(fields), rest)
  }

  function ParseItems(s: string): (r: Items)
    ensures r.GotItems? ==> |r.rest| < |s|
    decreases |s|, 2
  {
    match ParseValue(s)
    case NoValue => NoItems
    case Got(v, rest) =>
      var t := SkipSpace(rest);
      if t == [] then NoItems
      else if t[0] == ']' then GotItems([v], t[1..])
      else if t[0] != ',' then NoItems
      else match ParseItems(SkipSpace(t[1..]))
           case NoItems => NoItems
           case GotItems(items, end) => GotItems([v] + items, end)
  }

  // A key and its colon: what follows is the value's text.
  function ParseKey(s: string): (t: Text)
    ensures t.GotText? ==> |t.rest| < |s|
  {
    if s == [] || s[0] != '"' then NoText
    else match ParseText(s[1..])
         case NoText => NoText
         case GotText(key, rest) =>
           var t := SkipSpace(rest);
           if t == [] || t[0] != ':' then NoText else GotText(key, SkipSpace(t[1..]))
  }

  function ParseFields(s: string): (r: Fields)
    ensures r.GotFields? ==> |r.rest| < |s|
    decreases |s|, 2
  {
    match ParseKey(s)
    case NoText => NoFields
    case GotText(key, body) =>
      match ParseValue(body)
      case NoValue => NoFields
      case Got(v, rest) =>
        var t := SkipSpace(rest);
        if t == [] then NoFields
        else if t[0] == '}' then GotFields([Field(key, v)], t[1..])
        else if t[0] != ',' then NoFields
        else match ParseFields(SkipSpace(t[1..]))
             case NoFields => NoFields
             case GotFields(fields, end) => GotFields([Field(key, v)] + fields, end)
  }

  // A whole document: one value and nothing but white space around it.
  function ParseDocument(s: string): Option<Json> {
    match ParseValue(SkipSpace(s))
    case NoValue => None
    case Got(v, rest) => if SkipSpace(rest) == [] then Some(v) else None
  }
}
