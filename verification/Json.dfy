/** JSON values, the two ways this package prints them, and the canonical form
    that is hashed and signed. */
module Json {

  // A dict is the sequence of its items in insertion order.
  datatype Json =
    | Null
    | Bool(b: bool)
    | Int(i: int)
    | Float(constant: bool)   // a non-integer number, or NaN or an infinity: its digits never matter
    | Str(s: string)
    | Arr(items: seq<Json>)
    | Obj(fields: seq<Field>)

  datatype Field = Field(key: string, value: Json)

  datatype Option<+T> = None | Some(value: T)

  const MAX_DEPTH := 32
  const MAX_STRING_LENGTH := 1_000_000

  // ---- printing ----------------------------------------------------------

  datatype Style = Style(ascii: bool, comma: string, colon: string)

  const CANONICAL := Style(false, ",", ":")
  const DUMP := Style(true, ", ", ": ")   // the defaults of json.dump

  const DIGITS := "0123456789"
  const HEX := "0123456789abcdef"

  function PrintNat(n: nat): (s: string)
    ensures s != []
  {
    if n < 10 then [DIGITS[n]] else PrintNat(n / 10) + [DIGITS[n % 10]]
  }

  function PrintInt(i: int): string {
    if i < 0 then "-" + PrintNat(-i) else PrintNat(i)
  }

  function UnicodeEscape(n: nat): (s: string)
    requires n < 0x1_0000
    ensures |s| == 6 && s[0] == '\\' && s[1] == 'u'
  {
    ['\\', 'u', HEX[n / 4096], HEX[n / 256 % 16], HEX[n / 16 % 16], HEX[n % 16]]
  }

  function EscapeChar(ascii: bool, c: char): (s: string)
    ensures 1 <= |s| <= 12
  {
    var n := c as int;
    if c == '"' then "\\\""
    else if c == '\\' then "\\\\"
    else if c == '\n' then "\\n"
    else if c == '\r' then "\\r"
    else if c == '\t' then "\\t"
    else if n == 8 then "\\b"
    else if n == 12 then "\\f"
    else if n < 0x20 then UnicodeEscape(n)
    else if !ascii || n <= 0x7E then [c]
    else if n < 0x1_0000 then UnicodeEscape(n)
    else UnicodeEscape(0xD800 + (n - 0x1_0000) / 1024) + UnicodeEscape(0xDC00 + n % 1024)
  }

  function Escape(ascii: bool, s: string): string {
    if s == [] then [] else EscapeChar(ascii, s[0]) + Escape(ascii, s[1..])
  }

  function PrintString(ascii: bool, s: string): (t: string)
    ensures |t| >= 2 && t[0] == '"'
  {
    "\"" + Escape(ascii, s) + "\""
  }

  function Print(st: Style, v: Json): string
    decreases v, 1
  {
    match v
    case Null => "null"
    case Bool(b) => if b then "true" else "false"
    case Int(i) => PrintInt(i)
    case Float(_) => ""   // never printed: Check refuses it
    case Str(s) => PrintString(st.ascii, s)
    case Arr(items) => if items == [] then "[]" else "[" + PrintItems(st, items)
    case Obj(fields) => if fields == [] then "{}" else "{" + PrintFields(st, fields)
  }

  function PrintItems(st: Style, items: seq<Json>): string
    requires items != []
    decreases items, 0
  {
    Print(st, items[0]) + (if |items| == 1 then "]" else st.comma + PrintItems(st, items[1..]))
  }

  function PrintFields(st: Style, fields: seq<Field>): string
    requires fields != []
    decreases fields, 0
  {
    PrintString(st.ascii, fields[0].key) + st.colon + Print(st, fields[0].value)
    + (if |fields| == 1 then "}" else st.comma + PrintFields(st, fields[1..]))
  }

  // ---- what may be canonicalized ------------------------------------------

  predicate Check(v: Json, depth: nat)
    decreases v
  {
    depth <= MAX_DEPTH
    && match v
       case Float(_) => false
       case Str(s) => |s| <= MAX_STRING_LENGTH
       case Arr(items) => forall x | x in items :: Check(x, depth + 1)
       case Obj(fields) => forall f | f in fields :: |f.key| <= MAX_STRING_LENGTH && Check(f.value, depth + 1)
       case _ => true
  }

  predicate DistinctKeys(fields: seq<Field>) {
    forall i, j :: 0 <= i < j < |fields| ==> fields[i].key != fields[j].key
  }

  // No object anywhere repeats a key: true of every Python value.
  predicate NoDuplicates(v: Json)
    decreases v
  {
    match v
    case Arr(items) => forall x | x in items :: NoDuplicates(x)
    case Obj(fields) => DistinctKeys(fields) && forall f | f in fields :: NoDuplicates(f.value)
    case _ => true
  }

  predicate NoFloats(v: Json)
    decreases v
  {
    match v
    case Float(_) => false
    case Arr(items) => forall x | x in items :: NoFloats(x)
    case Obj(fields) => forall f | f in fields :: NoFloats(f.value)
    case _ => true
  }

  // Neither NaN nor an infinity anywhere.
  predicate NoConstants(v: Json)
    decreases v
  {
    match v
    case Float(constant) => !constant
    case Arr(items) => forall x | x in items :: NoConstants(x)
    case Obj(fields) => forall f | f in fields :: NoConstants(f.value)
    case _ => true
  }

  lemma {:induction false} NoFloatsNoConstants(v: Json)
    requires NoFloats(v)
    ensures NoConstants(v)
    decreases v
  {
    if v.Arr? {
      forall x | x in v.items ensures NoConstants(x) {
        NoFloatsNoConstants(x);
      }
    } else if v.Obj? {
      forall f | f in v.fields ensures NoConstants(f.value) {
        NoFloatsNoConstants(f.value);
      }
    }
  }

  // ---- canonical form ------------------------------------------------------

  // Code point order.
  predicate Less(a: string, b: string) {
    b != [] && (a == [] || a[0] < b[0] || (a[0] == b[0] && Less(a[1..], b[1..])))
  }

  function Insert(f: Field, fields: seq<Field>): seq<Field> {
    if fields == [] || !Less(fields[0].key, f.key) then [f] + fields
    else [fields[0]] + Insert(f, fields[1..])
  }

  function Sorted(v: Json): Json
    decreases v, 1
  {
    match v
    case Arr(items) => Arr(SortedItems(items))
    case Obj(fields) => Obj(SortedFields(fields))
    case _ => v
  }

  function SortedItems(items: seq<Json>): (r: seq<Json>)
    ensures |r| == |items|
    decreases items, 0
  {
    if items == [] then [] else [Sorted(items[0])] + SortedItems(items[1..])
  }

  function SortedFields(fields: seq<Field>): seq<Field>
    decreases fields, 0
  {
    if fields == [] then []
    else Insert(Field(fields[0].key, Sorted(fields[0].value)), SortedFields(fields[1..]))
  }

  function CanonicalString(v: Json): Option<string> {
    if Check(v, 0) then Some(Print(CANONICAL, Sorted(v))) else None
  }

  // `dict(pairs)` keeps the last value given for a key.
  function Lookup(fields: seq<Field>, key: string): Option<Json> {
    if fields == [] then None
    else match Lookup(fields[1..], key)
         case Some(v) => Some(v)
         case None => if fields[0].key == key then Some(fields[0].value) else None
  }

  // Python equality of two JSON-like values, with no coercion between bool and
  // int: lists agree item by item, dicts hold the same keys and agree at each.
  ghost predicate SameValue(v: Json, w: Json)
    decreases v
  {
    match v
    case Arr(items) =>
      w.Arr? && |items| == |w.items|
      && forall i :: 0 <= i < |items| ==> SameValue(items[i], w.items[i])
    case Obj(fields) =>
      w.Obj?
      && (forall f | f in fields ::
            Lookup(w.fields, f.key).Some? && SameValue(f.value, Lookup(w.fields, f.key).value))
      && (forall g | g in w.fields :: Lookup(fields, g.key).Some?)
    case _ => v == w
  }
}
