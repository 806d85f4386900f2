/** The canonical text of a value is the shortest JSON text of it: no blank, no escape
    and no digit that some other spelling could do without. */
module JsonShortest {
  import opened Json
  import opened JsonParser
  import opened JsonLaws
  import opened JsonCanonical

  function Size(v: Json): nat {
    |Print(CANONICAL, v)|
  }

  // ---- scalars ----------------------------------------------------------------------

  lemma {:induction false} NatShort(d: string)
    requires d != [] && forall i :: 0 <= i < |d| ==> Digit(d[i])
    ensures |PrintNat(NatOf(d))| <= |d|
  {
    var front, last := d[..|d| - 1], d[|d| - 1];
    assert Digit(last);
    if front == [] {
      assert NatOf(front) == 0;
    } else {
      NatShort(front);
      assert NatOf(d) / 10 == NatOf(front);
    }
  }

  lemma MagnitudeShort(t: string)
    requires ParseMagnitude(t).Got? && ParseMagnitude(t).value.Int?
    ensures ParseMagnitude(t).value.i >= 0
    ensures |PrintNat(ParseMagnitude(t).value.i)| <= |t| - |ParseMagnitude(t).rest|
  {
    hide PrintNat, SkipFraction, SkipExponent;
    var (digits, rest) := if t[0] == '0' then ("0", t[1..]) else TakeDigits(t);
    assert digits + rest == t;
    assert digits != [];
    NatShort(digits);
  }

  lemma NumberShort(s: string)
    requires ParseNumber(s).Got? && ParseNumber(s).value.Int?
    ensures |PrintInt(ParseNumber(s).value.i)| <= |s| - |ParseNumber(s).rest|
  {
    hide ParseMagnitude;
    if s != [] && s[0] == '-' {
      MagnitudeShort(s[1..]);
    } else {
      MagnitudeShort(s);
    }
  }

  lemma CharShort(s: string)
    requires s != [] && s[0] != '"' && ParseChar(s).Some?
    ensures |EscapeChar(false, ParseChar(s).value.0)| <= ParseChar(s).value.1
  {
    hide UnicodeUnit;
    var n := ParseChar(s).value.1;
    if n < 6 {
      ShortSpelling(s);
    }
  }

  lemma ShortSpelling(s: string)
    requires s != [] && s[0] != '"' && ParseChar(s).Some? && ParseChar(s).value.1 < 6
    ensures |EscapeChar(false, ParseChar(s).value.0)| <= ParseChar(s).value.1
  {
    hide UnicodeUnit, UnicodeEscape;
  }

  lemma {:induction false} TextShort(s: string)
    requires ParseText(s).GotText?
    ensures |Escape(false, ParseText(s).text)| + 1 <= |s| - |ParseText(s).rest|
    decreases |s|
  {
    hide ParseChar, EscapeChar;
    if s[0] != '"' {
      var (c, n) := ParseChar(s).value;
      CharShort(s);
      TextShort(s[n..]);
      assert ParseText(s).text[1..] == ParseText(s[n..]).text;
    }
  }

  lemma WordShort(s: string)
    requires ParseWord(s).Got? && !ParseWord(s).value.Float?
    ensures Size(ParseWord(s).value) <= |s| - |ParseWord(s).rest|
  {
  }

  lemma NumberKind(s: string)
    requires ParseNumber(s).Got? && !ParseNumber(s).value.Float?
    ensures ParseNumber(s).value.Int?
  {
  }

  lemma ScalarShort(s: string)
    requires s != [] && ParseScalar(s).Got? && !ParseScalar(s).value.Float?
    ensures Size(ParseScalar(s).value) <= |s| - |ParseScalar(s).rest|
  {
    hide ParseNumber, ParseText, ParseWord, PrintInt, Escape;
    if s[0] == '"' {
      TextShort(s[1..]);
    } else if (Digit(s[0]) || s[0] == '-') && ParseNumber(s).Got? {
      NumberKind(s);
      NumberShort(s);
    } else {
      WordShort(s);
    }
  }

  // ---- values ----------------------------------------------------------------------------

  lemma {:induction false} ValueShort(s: string)
    requires ParseValue(s).Got? && NoFloats(ParseValue(s).value)
    ensures Size(ParseValue(s).value) <= |s| - |ParseValue(s).rest|
    decreases |s|, 1
  {
    hide ParseScalar, ParseItems, ParseFields, PrintItems, PrintFields;
    if s[0] == '[' {
      ArrayShort(SkipSpace(s[1..]));
    } else if s[0] == '{' {
      ObjectShort(SkipSpace(s[1..]));
    } else {
      assert !ParseScalar(s).value.Float?;
      ScalarShort(s);
    }
  }

  lemma {:induction false} ArrayShort(t: string)
    requires ParseArray(t).Got? && NoFloats(ParseArray(t).value)
    ensures Size(ParseArray(t).value) <= 1 + |t| - |ParseArray(t).rest|
    decreases |t|, 3
  {
    hide ParseItems, PrintItems;
    if !(t != [] && t[0] == ']') {
      ItemsShort(t);
    }
  }

  lemma {:induction false} ObjectShort(t: string)
    requires ParseObject(t).Got? && NoFloats(ParseObject(t).value)
    ensures Size(ParseObject(t).value) <= 1 + |t| - |ParseObject(t).rest|
    decreases |t|, 3
  {
    hide ParseFields, PrintFields;
    if !(t != [] && t[0] == '}') {
      FieldsShort(t);
    }
  }

  lemma {:induction false} ItemsShort(s: string)
    requires ParseItems(s).GotItems? && forall x | x in ParseItems(s).items :: NoFloats(x)
    ensures var items := ParseItems(s).items;
      items != [] && |PrintItems(CANONICAL, items)| <= |s| - |ParseItems(s).rest|
    decreases |s|, 2
  {
    hide ParseValue, NoFloats, Print;
    var v, rest := ParseValue(s).value, ParseValue(s).rest;
    var t := SkipSpace(rest);
    var items := ParseItems(s).items;
    assert v == items[0] && v in items;
    ValueShort(s);
    if t[0] == ',' {
      var more := ParseItems(SkipSpace(t[1..])).items;
      assert items == [v] + more && forall x | x in more :: x in items;
      ItemsShort(SkipSpace(t[1..]));
      assert items[1..] == more;
    }
  }

  lemma KeyShort(s: string)
    requires ParseKey(s).GotText?
    ensures |PrintString(false, ParseKey(s).text)| + 1 <= |s| - |ParseKey(s).rest|
  {
    hide ParseText, Escape;
    TextShort(s[1..]);
  }

  lemma {:induction false} FieldsShort(s: string)
    requires ParseFields(s).GotFields? && forall f | f in ParseFields(s).fields :: NoFloats(f.value)
    ensures var fields := ParseFields(s).fields;
      fields != [] && |PrintFields(CANONICAL, fields)| <= |s| - |ParseFields(s).rest|
    decreases |s|, 2
  {
    hide ParseValue, NoFloats, Print, ParseKey, PrintString;
    var key, body := ParseKey(s).text, ParseKey(s).rest;
    var v, rest := ParseValue(body).value, ParseValue(body).rest;
    var t := SkipSpace(rest);
    var fields := ParseFields(s).fields;
    assert Field(key, v) == fields[0] && fields[0] in fields;
    KeyShort(s);
    ValueShort(body);
    if t[0] == ',' {
      var more := ParseFields(SkipSpace(t[1..])).fields;
      assert fields == [Field(key, v)] + more && forall f | f in more :: f in fields;
      FieldsShort(SkipSpace(t[1..]));
      assert fields[1..] == more;
    }
  }

  // ---- sorting keeps the size ---------------------------------------------------------------

  function Wide(f: Field): nat {
    |PrintString(false, f.key)| + 1 + Size(f.value) + 1
  }

  function AllWide(fields: seq<Field>): nat {
    if fields == [] then 0 else Wide(fields[0]) + AllWide(fields[1..])
  }

  lemma {:induction false} FieldsSize(fields: seq<Field>)
    requires fields != []
    ensures |PrintFields(CANONICAL, fields)| == AllWide(fields)
  {
    hide Print, PrintString;
    if |fields| > 1 {
      FieldsSize(fields[1..]);
    } else {
      assert AllWide(fields[1..]) == 0;
    }
  }

  lemma {:induction false} InsertWide(f: Field, fields: seq<Field>)
    ensures AllWide(Insert(f, fields)) == Wide(f) + AllWide(fields)
  {
    hide Wide, Less;
    if fields == [] || !Less(fields[0].key, f.key) {
      assert ([f] + fields)[1..] == fields;
    } else {
      InsertWide(f, fields[1..]);
      assert ([fields[0]] + Insert(f, fields[1..]))[1..] == Insert(f, fields[1..]);
    }
  }

  lemma {:induction false} SortedSize(v: Json)
    ensures Size(Sorted(v)) == Size(v)
    decreases v, 1
  {
    hide PrintItems, PrintFields, SortedItems, SortedFields;
    if v.Arr? {
      SortedItemsSize(v.items);
    } else if v.Obj? {
      SortedFieldsSize(v.fields);
      SortedFieldsMembers(v.fields);
      if v.fields != [] {
        FieldsSize(v.fields);
        FieldsSize(SortedFields(v.fields));
      }
    }
  }

  lemma {:induction false} SortedItemsSize(items: seq<Json>)
    ensures |SortedItems(items)| == |items|
    ensures items != [] ==> |PrintItems(CANONICAL, SortedItems(items))| == |PrintItems(CANONICAL, items)|
    decreases items, 0
  {
    hide Print, Sorted;
    if items != [] {
      SortedSize(items[0]);
      SortedItemsSize(items[1..]);
      assert SortedItems(items)[1..] == SortedItems(items[1..]);
    }
  }

  lemma {:induction false} SortedFieldsSize(fields: seq<Field>)
    ensures AllWide(SortedFields(fields)) == AllWide(fields)
    decreases fields, 0
  {
    hide Print, PrintString, Sorted, Insert;
    if fields != [] {
      SortedSize(fields[0].value);
      SortedFieldsSize(fields[1..]);
      InsertWide(Normal(fields[0]), SortedFields(fields[1..]));
    }
  }

  // ---- the theorem ------------------------------------------------------------------------------

  lemma DocumentShort(text: string)
    requires ParseDocument(text).Some? && NoFloats(ParseDocument(text).value)
    ensures Size(ParseDocument(text).value) <= |text|
  {
    hide ParseValue;
    ValueShort(SkipSpace(text));
  }

  // No text that reads as a value equal to `v` is shorter than its canonical text.
  lemma CanonicalIsShortest(v: Json, text: string)
    requires Check(v, 0) && NoDuplicates(v)
    requires ParseDocument(text).Some? && NoDuplicates(ParseDocument(text).value)
    requires SameValue(v, ParseDocument(text).value)
    ensures CanonicalString(v).Some? && |CanonicalString(v).value| <= |text|
  {
    hide Check, NoDuplicates, SameValue, Sorted, Print, ParseDocument;
    var w := ParseDocument(text).value;
    SortedDecidesEquality(v, w);
    SortedKeepsCheck(v, 0);
    CheckedHasNoFloats(Sorted(v), 0);
    UnsortedNoFloats(w);
    SortedSize(w);
    DocumentShort(text);
  }

  lemma {:induction false} UnsortedNoFloats(v: Json)
    requires NoFloats(Sorted(v))
    ensures NoFloats(v)
    decreases v
  {
    if v.Arr? {
      SortedItemsMembers(v.items);
      SortedItemsLength(v.items);
      forall x | x in v.items ensures NoFloats(x) {
        var i :| 0 <= i < |v.items| && v.items[i] == x;
        assert SortedItems(v.items)[i] in SortedItems(v.items);
        UnsortedNoFloats(x);
      }
    } else if v.Obj? {
      SortedFieldsMembers(v.fields);
      forall f | f in v.fields ensures NoFloats(f.value) {
        var i :| 0 <= i < |v.fields| && v.fields[i] == f;
        assert Normal(v.fields[i]) in SortedFields(v.fields);
        UnsortedNoFloats(f.value);
      }
    }
  }

  predicate NoCapitals(s: string) {
    forall i :: 0 <= i < |s| ==> !('A' <= s[i] <= 'Z')
  }

  lemma UnitLower(n: nat)
    requires n < 0x1_0000
    ensures NoCapitals(UnicodeEscape(n))
  {
    assert forall k :: 0 <= k < 16 ==> !('A' <= HEX[k] <= 'Z');
  }

  // Where a code has to be spelled out, it is in lower case: with the length, that leaves
  // one spelling of every character.
  lemma EscapesLower(ascii: bool, c: char)
    ensures EscapeChar(ascii, c) == [c] || NoCapitals(EscapeChar(ascii, c))
  {
    hide UnicodeEscape;
    var n := c as int;
    if n < 0x1_0000 {
      UnitLower(n);
    } else {
      UnitLower(0xD800 + (n - 0x1_0000) / 1024);
      UnitLower(0xDC00 + n % 1024);
    }
  }
}
