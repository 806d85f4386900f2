/** What printing and reading JSON guarantee together: reading back what was
    printed, in either style, gives the value. */
module JsonLaws {
  import opened Json
  import opened JsonParser
  import opened Utf8

  // What may follow a value without changing how its last token reads.
  predicate Follow(rest: string) {
    rest == [] || !(Digit(rest[0]) || rest[0] == '.' || rest[0] == 'e' || rest[0] == 'E')
  }

  predicate Usual(st: Style) {
    (st.comma == "," || st.comma == ", ") && (st.colon == ":" || st.colon == ": ")
  }

  lemma Associate(a: string, b: string, c: string)
    ensures a + b + c == a + (b + c)
  {
  }

  // ---- numbers ------------------------------------------------------------

  lemma {:induction false} PrintNatReads(n: nat)
    ensures forall i :: 0 <= i < |PrintNat(n)| ==> Digit(PrintNat(n)[i])
    ensures NatOf(PrintNat(n)) == n
    ensures PrintNat(n)[0] == '0' ==> n == 0 && PrintNat(n) == "0"
  {
    if n >= 10 {
      PrintNatReads(n / 10);
      assert PrintNat(n)[..|PrintNat(n)| - 1] == PrintNat(n / 10);
    }
  }

  lemma {:induction false} TakeDigitsOf(d: string, rest: string)
    requires forall i :: 0 <= i < |d| ==> Digit(d[i])
    requires rest == [] || !Digit(rest[0])
    ensures TakeDigits(d + rest) == (d, rest)
  {
    if d == [] {
      assert d + rest == rest;
    } else {
      assert (d + rest)[1..] == d[1..] + rest;
      TakeDigitsOf(d[1..], rest);
      assert [d[0]] + d[1..] == d;
    }
  }

  lemma DigitsRoundTrip(n: nat, rest: string)
    requires Follow(rest)
    ensures var t := PrintNat(n) + rest;
      && Digit(t[0])
      && (if t[0] == '0' then n == 0 && t[1..] == rest
          else TakeDigits(t) == (PrintNat(n), rest) && NatOf(PrintNat(n)) == n)
  {
    hide PrintNat, TakeDigits, NatOf;
    var t := PrintNat(n) + rest;
    PrintNatReads(n);
    assert t[0] == PrintNat(n)[0];
    if t[0] == '0' {
      assert t[1..] == rest;
    } else {
      TakeDigitsOf(PrintNat(n), rest);
    }
  }

  lemma ZeroReads()
    ensures NatOf("0") == 0
  {
    assert "0"[..0] == "";
  }

  lemma NothingSkipped(rest: string)
    requires Follow(rest)
    ensures SkipExponent(SkipFraction(rest)) == rest
  {
  }

  lemma MagnitudeRoundTrip(n: nat, rest: string)
    requires Follow(rest)
    ensures ParseMagnitude(PrintNat(n) + rest) == Got(Int(n), rest)
  {
    hide PrintNat, TakeDigits, SkipFraction, SkipExponent;
    DigitsRoundTrip(n, rest);
    ZeroReads();
    NothingSkipped(rest);
  }

  lemma NumberRoundTrip(i: int, rest: string)
    requires Follow(rest)
    ensures ParseNumber(PrintInt(i) + rest) == Got(Int(i), rest)
    ensures var c := PrintInt(i)[0]; c == '-' || Digit(c)
  {
    hide ParseMagnitude, PrintNat, NatOf, TakeDigits;
    var n: nat := if i < 0 then -i else i;
    MagnitudeRoundTrip(n, rest);
    PrintNatReads(n);
    assert Digit(PrintNat(n)[0]);
    var s := PrintInt(i) + rest;
    if i < 0 {
      assert s[1..] == PrintNat(n) + rest;
    } else {
      assert s[0] == PrintNat(n)[0];
    }
  }

  // ---- strings ------------------------------------------------------------

  lemma HexReads(n: nat)
    requires n < 16
    ensures HexValue(HEX[n]) == n
  {
  }

  lemma HexDigits(n: nat)
    requires n < 0x1_0000
    ensures n == n / 4096 * 4096 + n / 256 % 16 * 256 + n / 16 % 16 * 16 + n % 16
  {
    assert n == n / 16 * 16 + n % 16;
    assert n / 16 == n / 256 * 16 + n / 16 % 16;
    assert n / 256 == n / 4096 * 16 + n / 256 % 16;
  }

  lemma UnicodeEscapeReads(n: nat, rest: string)
    requires n < 0x1_0000
    ensures UnicodeUnit(UnicodeEscape(n) + rest) == n
  {
    hide HexValue;
    var a, b, c, d := n / 4096, n / 256 % 16, n / 16 % 16, n % 16;
    HexReads(a);
    HexReads(b);
    HexReads(c);
    HexReads(d);
    HexDigits(n);
    var s := UnicodeEscape(n) + rest;
    assert s[2] == HEX[a] && s[3] == HEX[b] && s[4] == HEX[c] && s[5] == HEX[d];
  }

  lemma UnicodeCharReads(n: nat, rest: string)
    requires n < 0x1_0000 && !(0xD800 <= n < 0xE000)
    ensures ParseChar(UnicodeEscape(n) + rest) == Some((n as char, 6))
  {
    hide UnicodeEscape, UnicodeUnit;
    UnicodeEscapeReads(n, rest);
  }

  lemma SurrogatesReads(hi: nat, lo: nat, rest: string)
    requires 0xD800 <= hi < 0xDC00 <= lo < 0xE000
    ensures ParseChar(UnicodeEscape(hi) + (UnicodeEscape(lo) + rest))
         == Some((((hi - 0xD800) * 1024 + (lo - 0xDC00) + 0x1_0000) as char, 12))
  {
    hide UnicodeEscape, UnicodeUnit;
    var more := UnicodeEscape(lo) + rest;
    var s := UnicodeEscape(hi) + more;
    UnicodeEscapeReads(hi, more);
    UnicodeEscapeReads(lo, rest);
    assert s[6..] == more;
  }

  lemma PairArithmetic(n: nat) returns (hi: nat, lo: nat)
    requires 0x1_0000 <= n < 0x11_0000
    ensures hi == 0xD800 + (n - 0x1_0000) / 1024 && lo == 0xDC00 + n % 1024
    ensures 0xD800 <= hi < 0xDC00 <= lo < 0xE000
    ensures (hi - 0xD800) * 1024 + (lo - 0xDC00) + 0x1_0000 == n
  {
    hi, lo := 0xD800 + (n - 0x1_0000) / 1024, 0xDC00 + n % 1024;
  }

  lemma PairReads(c: char, rest: string)
    requires c as int >= 0x1_0000
    ensures EscapeChar(true, c)[0] == '\\' && |EscapeChar(true, c)| == 12
    ensures ParseChar(EscapeChar(true, c) + rest) == Some((c, 12))
  {
    hide UnicodeEscape, ParseChar;
    var hi, lo := PairArithmetic(c as int);
    assert EscapeChar(true, c) == UnicodeEscape(hi) + UnicodeEscape(lo);
    Associate(UnicodeEscape(hi), UnicodeEscape(lo), rest);
    SurrogatesReads(hi, lo, rest);
  }

  predicate Plain(ascii: bool, c: char) {
    c as int >= 0x20 && c != '"' && c != '\\' && (!ascii || c as int <= 0x7E)
  }

  lemma PlainReads(c: char, rest: string)
    requires Plain(false, c)
    ensures ParseChar([c] + rest) == Some((c, 1))
  {
  }

  lemma ShortEscapeReads(ascii: bool, c: char, rest: string)
    requires |EscapeChar(ascii, c)| == 2
    ensures ParseChar(EscapeChar(ascii, c) + rest) == Some((c, 2))
  {
    var e := EscapeChar(ascii, c);
    assert (e + rest)[0] == e[0] && (e + rest)[1] == e[1];
  }

  lemma CharRoundTrip(ascii: bool, c: char, rest: string)
    ensures EscapeChar(ascii, c)[0] != '"'
    ensures ParseChar(EscapeChar(ascii, c) + rest) == Some((c, |EscapeChar(ascii, c)|))
  {
    hide UnicodeEscape, ParseChar;
    if Plain(ascii, c) {
      PlainReads(c, rest);
    } else if |EscapeChar(ascii, c)| == 2 {
      ShortEscapeReads(ascii, c, rest);
    } else if c as int < 0x1_0000 {
      UnicodeCharReads(c as int, rest);
    } else {
      PairReads(c, rest);
    }
  }

  lemma {:induction false} TextRoundTrip(ascii: bool, s: string, rest: string)
    ensures ParseText(Escape(ascii, s) + "\"" + rest) == GotText(s, rest)
  {
    hide EscapeChar, ParseChar;
    var t := Escape(ascii, s) + "\"" + rest;
    if s == [] {
      assert t == "\"" + rest;
    } else {
      var e := EscapeChar(ascii, s[0]);
      var more := Escape(ascii, s[1..]) + "\"" + rest;
      assert t == e + more;
      CharRoundTrip(ascii, s[0], more);
      assert t[|e|..] == more;
      TextRoundTrip(ascii, s[1..], rest);
      assert [s[0]] + s[1..] == s;
    }
  }

  // ---- values -------------------------------------------------------------

  // A printed value starts with a character that opens no white space and
  // closes no container.
  lemma PrintHead(st: Style, v: Json)
    requires NoFloats(v)
    ensures Print(st, v) != []
    ensures var c := Print(st, v)[0]; !Space(c) && c != ']' && c != '}' && c != ','
  {
    if v.Int? {
      NumberRoundTrip(v.i, []);
    }
  }

  lemma SkipSeparator(sep: string, c: char, rest: string)
    requires sep == [c] || sep == [c, ' ']
    requires !Space(c)
    requires rest != [] && !Space(rest[0])
    ensures SkipSpace(sep + rest) == sep + rest && (sep + rest)[0] == c
    ensures SkipSpace((sep + rest)[1..]) == rest
  {
    if sep == [c] {
      assert (sep + rest)[1..] == rest;
    } else {
      assert (sep + rest)[1..] == [' '] + rest;
      assert ([' '] + rest)[1..] == rest;
    }
  }

  lemma WordRoundTrip(st: Style, v: Json, rest: string)
    requires v.Null? || v.Bool?
    ensures ParseScalar(Print(st, v) + rest) == Got(v, rest)
  {
    var w := Print(st, v);
    var s := w + rest;
    assert s[..|w|] == w && s[|w|..] == rest;
    assert s[0] == w[0];
    assert ParseScalar(s) == ParseWord(s);
  }

  lemma IntRoundTrip(st: Style, v: Json, rest: string)
    requires Follow(rest) && v.Int?
    ensures ParseScalar(Print(st, v) + rest) == Got(v, rest)
  {
    hide ParseNumber, PrintInt, ParseText;
    NumberRoundTrip(v.i, rest);
    assert (PrintInt(v.i) + rest)[0] == PrintInt(v.i)[0];
  }

  lemma StrRoundTrip(st: Style, v: Json, rest: string)
    requires v.Str?
    ensures ParseScalar(Print(st, v) + rest) == Got(v, rest)
  {
    hide ParseNumber, Escape, ParseText;
    assert (Print(st, v) + rest)[1..] == Escape(st.ascii, v.s) + "\"" + rest;
    TextRoundTrip(st.ascii, v.s, rest);
  }

  lemma ScalarRoundTrip(st: Style, v: Json, rest: string)
    requires Follow(rest) && (v.Null? || v.Bool? || v.Int? || v.Str?)
    ensures ParseValue(Print(st, v) + rest) == Got(v, rest)
  {
    hide ParseScalar, ParseNumber, PrintInt, ParseText, Escape;
    var s := Print(st, v) + rest;
    if v.Int? {
      IntRoundTrip(st, v, rest);
      NumberRoundTrip(v.i, rest);
      assert s[0] == PrintInt(v.i)[0];
    } else if v.Str? {
      StrRoundTrip(st, v, rest);
      assert s[0] == '"';
    } else {
      WordRoundTrip(st, v, rest);
      assert s[0] == Print(st, v)[0];
    }
    assert ParseValue(s) == ParseScalar(s);
  }

  lemma {:induction false} RoundTrip(st: Style, v: Json, rest: string)
    requires Usual(st) && NoFloats(v) && Follow(rest)
    ensures ParseValue(Print(st, v) + rest) == Got(v, rest)
    decreases v, 2
  {
    if v.Arr? {
      ArrayRoundTrip(st, v.items, rest);
    } else if v.Obj? {
      ObjectRoundTrip(st, v.fields, rest);
    } else {
      ScalarRoundTrip(st, v, rest);
    }
  }

  lemma {:induction false} ArrayRoundTrip(st: Style, items: seq<Json>, rest: string)
    requires Usual(st) && NoFloats(Arr(items)) && Follow(rest)
    ensures ParseValue(Print(st, Arr(items)) + rest) == Got(Arr(items), rest)
    decreases Arr(items), 1
  {
    hide PrintItems, ParseItems, ParseFields;
    var s := Print(st, Arr(items)) + rest;
    var t := (if items == [] then "]" else PrintItems(st, items)) + rest;
    assert s[1..] == t && s[0] == '[';
    if items == [] {
      assert t[1..] == rest;
    } else {
      ItemsRoundTrip(st, items, rest);
      assert t[0] == PrintItems(st, items)[0];
    }
    assert SkipSpace(t) == t;
  }

  lemma {:induction false} ObjectRoundTrip(st: Style, fields: seq<Field>, rest: string)
    requires Usual(st) && NoFloats(Obj(fields)) && Follow(rest)
    ensures ParseValue(Print(st, Obj(fields)) + rest) == Got(Obj(fields), rest)
    decreases Obj(fields), 1
  {
    hide PrintFields, ParseFields, ParseItems;
    var s := Print(st, Obj(fields)) + rest;
    var t := (if fields == [] then "}" else PrintFields(st, fields)) + rest;
    assert s[1..] == t && s[0] == '{';
    if fields == [] {
      assert t[1..] == rest;
    } else {
      FieldsRoundTrip(st, fields, rest);
      assert t[0] == '"';
    }
    assert SkipSpace(t) == t;
  }

  lemma LastItem(s: string, v: Json, rest: string)
    requires ParseValue(s) == Got(v, "]" + rest)
    ensures ParseItems(s) == GotItems([v], rest)
  {
    hide ParseValue;
    assert ("]" + rest)[1..] == rest;
  }

  lemma MoreItems(s: string, v: Json, more: string, tail: string)
    requires ParseValue(s) == Got(v, more)
    requires SkipSpace(more) == more && more != [] && more[0] == ',' && SkipSpace(more[1..]) == tail
    requires ParseItems(tail).GotItems?
    ensures ParseItems(s) == GotItems([v] + ParseItems(tail).items, ParseItems(tail).rest)
  {
    hide ParseValue;
  }

  lemma {:induction false} ItemsRoundTrip(st: Style, items: seq<Json>, rest: string)
    requires Usual(st) && items != [] && forall x | x in items :: NoFloats(x)
    ensures ParseItems(PrintItems(st, items) + rest) == GotItems(items, rest)
    ensures PrintItems(st, items) != []
    ensures var c := PrintItems(st, items)[0]; !Space(c) && c != ']'
    decreases items, 0
  {
    hide Print, ParseItems, ParseValue, SkipSpace, NoFloats;
    var s := PrintItems(st, items) + rest;
    PrintHead(st, items[0]);
    if |items| == 1 {
      Associate(Print(st, items[0]), "]", rest);
      RoundTrip(st, items[0], "]" + rest);
      LastItem(s, items[0], rest);
      assert [items[0]] == items;
    } else {
      var tail := PrintItems(st, items[1..]) + rest;
      Associate(st.comma, PrintItems(st, items[1..]), rest);
      Associate(Print(st, items[0]), st.comma + PrintItems(st, items[1..]), rest);
      RoundTrip(st, items[0], st.comma + tail);
      ItemsRoundTrip(st, items[1..], rest);
      assert tail[0] == PrintItems(st, items[1..])[0];
      SkipSeparator(st.comma, ',', tail);
      MoreItems(s, items[0], st.comma + tail, tail);
      assert [items[0]] + items[1..] == items;
    }
  }

  lemma KeyRoundTrip(st: Style, key: string, body: string)
    requires Usual(st)
    requires body != [] && !Space(body[0])
    ensures ParseKey(PrintString(st.ascii, key) + st.colon + body) == GotText(key, body)
  {
    hide ParseText, Escape;
    var s := PrintString(st.ascii, key) + st.colon + body;
    assert s[1..] == Escape(st.ascii, key) + "\"" + (st.colon + body);
    TextRoundTrip(st.ascii, key, st.colon + body);
    SkipSeparator(st.colon, ':', body);
  }

  // One field, up to whatever follows its value.
  lemma FieldReads(st: Style, f: Field, more: string) returns (body: string)
    requires Usual(st) && NoFloats(f.value)
    requires ParseValue(Print(st, f.value) + more) == Got(f.value, more)
    ensures body == Print(st, f.value) + more
    ensures ParseKey(PrintString(st.ascii, f.key) + st.colon + Print(st, f.value) + more) == GotText(f.key, body)
    ensures ParseValue(body) == Got(f.value, more)
  {
    hide ParseValue, ParseKey, Print, PrintString;
    body := Print(st, f.value) + more;
    PrintHead(st, f.value);
    assert body[0] == Print(st, f.value)[0];
    KeyRoundTrip(st, f.key, body);
    Associate(PrintString(st.ascii, f.key) + st.colon, Print(st, f.value), more);
  }

  lemma LastField(s: string, key: string, body: string, v: Json, rest: string)
    requires ParseKey(s) == GotText(key, body) && ParseValue(body) == Got(v, "}" + rest)
    ensures ParseFields(s) == GotFields([Field(key, v)], rest)
  {
    hide ParseValue, ParseKey;
    assert ("}" + rest)[1..] == rest;
  }

  lemma MoreFields(s: string, key: string, body: string, v: Json, more: string, tail: string)
    requires ParseKey(s) == GotText(key, body) && ParseValue(body) == Got(v, more)
    requires SkipSpace(more) == more && more != [] && more[0] == ',' && SkipSpace(more[1..]) == tail
    requires ParseFields(tail).GotFields?
    ensures ParseFields(s) == GotFields([Field(key, v)] + ParseFields(tail).fields, ParseFields(tail).rest)
  {
    hide ParseValue, ParseKey;
  }

  lemma {:induction false} FieldsRoundTrip(st: Style, fields: seq<Field>, rest: string)
    requires Usual(st) && fields != [] && forall f | f in fields :: NoFloats(f.value)
    ensures ParseFields(PrintFields(st, fields) + rest) == GotFields(fields, rest)
    ensures PrintFields(st, fields)[0] == '"'
    decreases fields, 0
  {
    hide Print, PrintString, ParseFields, ParseKey, ParseValue, SkipSpace, NoFloats;
    var f := fields[0];
    var s := PrintFields(st, fields) + rest;
    if |fields| == 1 {
      var more := "}" + rest;
      RoundTrip(st, f.value, more);
      var body := FieldReads(st, f, more);
      Associate(PrintString(st.ascii, f.key) + st.colon + Print(st, f.value), "}", rest);
      LastField(s, f.key, body, f.value, rest);
      assert [f] == fields;
    } else {
      var tail := PrintFields(st, fields[1..]) + rest;
      var more := st.comma + tail;
      RoundTrip(st, f.value, more);
      var body := FieldReads(st, f, more);
      Associate(st.comma, PrintFields(st, fields[1..]), rest);
      Associate(PrintString(st.ascii, f.key) + st.colon + Print(st, f.value), st.comma + PrintFields(st, fields[1..]), rest);
      FieldsRoundTrip(st, fields[1..], rest);
      assert tail[0] == '"';
      SkipSeparator(st.comma, ',', tail);
      MoreFields(s, f.key, body, f.value, more, tail);
      assert [f] + fields[1..] == fields;
    }
  }

  lemma DocumentRoundTrip(st: Style, v: Json)
    requires Usual(st) && NoFloats(v)
    ensures ParseDocument(Print(st, v)) == Some(v)
  {
    hide Print, ParseValue, NoFloats;
    PrintHead(st, v);
    assert Print(st, v) + [] == Print(st, v);
    RoundTrip(st, v, []);
  }
}
