/** How long printed text gets: the bound on a record's line, and on a journal
    entry holding one, that readers rely on. */
module ModelsSizes {
  import opened Json
  import opened JsonLaws
  import opened JsonCanonical
  import opened Utf8
  import opened Models
  import opened ModelsLaws

  function Bytes(s: string): nat {
    |Encode(s)|
  }

  // ---- strings and numbers ------------------------------------------------------

  lemma CharBytes(ascii: bool, c: char)
    ensures Bytes(EscapeChar(ascii, c)) <= 12
    ensures !ascii ==> Bytes(EscapeChar(ascii, c)) <= 6
    ensures ascii ==> Bytes(EscapeChar(ascii, c)) <= 6 * |EncodeChar(c)|
  {
    var e := EscapeChar(ascii, c);
    CharClean(ascii, c);
    if ascii || |e| > 1 {
      CharClean(true, c);
      assert !ascii ==> e == EscapeChar(true, c);
      EncodeAsciiLength(e);
    } else {
      assert Encode(e[1..]) == [];
      assert Encode(e) == EncodeChar(e[0]) + [];
    }
  }

  lemma {:induction false} EscapeBytes(ascii: bool, s: string)
    ensures Bytes(Escape(ascii, s)) <= 12 * |s|
    ensures !ascii ==> Bytes(Escape(ascii, s)) <= 6 * |s|
    ensures ascii ==> Bytes(Escape(ascii, s)) <= 6 * Bytes(s)
  {
    if s != [] {
      CharBytes(ascii, s[0]);
      EscapeBytes(ascii, s[1..]);
      EncodeConcat(EscapeChar(ascii, s[0]), Escape(ascii, s[1..]));
    }
  }

  lemma StringBytes(ascii: bool, s: string)
    ensures Bytes(PrintString(ascii, s)) == Bytes(Escape(ascii, s)) + 2
  {
    EncodeConcat("\"" + Escape(ascii, s), "\"");
    EncodeConcat("\"", Escape(ascii, s));
    EncodeAsciiLength("\"");
  }

  function Power10(k: nat): nat {
    if k == 0 then 1 else 10 * Power10(k - 1)
  }

  lemma {:induction false} NatLength(n: nat, k: nat)
    requires 1 <= k && n < Power10(k)
    ensures |PrintNat(n)| <= k
  {
    if n >= 10 {
      assert k >= 2 by { assert Power10(1) == 10 * Power10(0); }
      NatLength(n / 10, k - 1);
    }
  }

  lemma Int64Length(n: nat)
    requires n <= MAX_SEQUENCE
    ensures Bytes(PrintInt(n)) <= 19
  {
    assert Power10(4) == 10_000;
    assert Power10(8) == 100_000_000;
    assert Power10(12) == 1_000_000_000_000;
    assert Power10(16) == 10_000_000_000_000_000;
    assert Power10(19) == 10_000_000_000_000_000_000;
    NatLength(n, 19);
    IntClean(n);
    EncodeAsciiLength(PrintInt(n));
  }

  // ---- fields ---------------------------------------------------------------------

  function FieldText(st: Style, f: Field): string {
    PrintString(st.ascii, f.key) + st.colon + Print(st, f.value)
  }

  // Each field with the separator after it, though the last prints none.
  function FieldBytes(st: Style, f: Field): nat {
    Bytes(FieldText(st, f)) + Bytes(st.comma)
  }

  function FieldsBytes(st: Style, fields: seq<Field>): nat {
    if fields == [] then 0 else FieldBytes(st, fields[0]) + FieldsBytes(st, fields[1..])
  }

  lemma {:induction false} PrintFieldsBytes(st: Style, fields: seq<Field>)
    requires fields != []
    ensures Bytes(PrintFields(st, fields)) == FieldsBytes(st, fields) - Bytes(st.comma) + 1
  {
    var head := FieldText(st, fields[0]);
    EncodeAsciiLength("}");
    if |fields| == 1 {
      EncodeConcat(head, "}");
      assert FieldsBytes(st, fields[1..]) == 0;
      assert PrintFields(st, fields) == head + "}";
    } else {
      var more := PrintFields(st, fields[1..]);
      PrintFieldsBytes(st, fields[1..]);
      EncodeConcat(head, st.comma + more);
      EncodeConcat(st.comma, more);
      assert PrintFields(st, fields) == head + (st.comma + more);
    }
  }

  lemma ObjectBytes(st: Style, fields: seq<Field>)
    requires fields != []
    ensures Bytes(Print(st, Obj(fields))) == FieldsBytes(st, fields) - Bytes(st.comma) + 2
  {
    PrintFieldsBytes(st, fields);
    EncodeConcat("{", PrintFields(st, fields));
    EncodeAsciiLength("{");
  }

  lemma {:induction false} InsertBytes(st: Style, f: Field, fields: seq<Field>)
    ensures FieldsBytes(st, Insert(f, fields)) == FieldBytes(st, f) + FieldsBytes(st, fields)
  {
    if fields == [] || !Less(fields[0].key, f.key) {
      assert ([f] + fields)[1..] == fields;
    } else {
      InsertBytes(st, f, fields[1..]);
      assert ([fields[0]] + Insert(f, fields[1..]))[1..] == Insert(f, fields[1..]);
    }
  }

  // The total printed size of fields once each value is in canonical order.
  function NormalBytes(st: Style, fields: seq<Field>): nat {
    if fields == [] then 0 else FieldBytes(st, Normal(fields[0])) + NormalBytes(st, fields[1..])
  }

  // Sorting moves fields about without changing their total size.
  lemma {:induction false} SortedFieldsBytes(st: Style, fields: seq<Field>)
    ensures FieldsBytes(st, SortedFields(fields)) == NormalBytes(st, fields)
  {
    if fields != [] {
      SortedFieldsBytes(st, fields[1..]);
      InsertBytes(st, Normal(fields[0]), SortedFields(fields[1..]));
    }
  }

  lemma {:induction false} NormalBytesConcat(st: Style, a: seq<Field>, b: seq<Field>)
    ensures NormalBytes(st, a + b) == NormalBytes(st, a) + NormalBytes(st, b)
  {
    if a == [] {
      assert a + b == b;
    } else {
      assert (a + b)[1..] == a[1..] + b;
      NormalBytesConcat(st, a[1..], b);
    }
  }

  const SMALL_FIELD := 1010   // room for a key, a scalar of 128 characters and a separator

  lemma {:induction false} SmallFieldsBytes(st: Style, fields: seq<Field>)
    requires forall i :: 0 <= i < |fields| ==> FieldBytes(st, Normal(fields[i])) <= SMALL_FIELD
    ensures NormalBytes(st, fields) <= |fields| * SMALL_FIELD
  {
    if fields != [] {
      var tail := fields[1..];
      assert forall i :: 0 <= i < |tail| ==> tail[i] == fields[i + 1];
      SmallFieldsBytes(st, tail);
    }
  }

  lemma FieldTextBytes(st: Style, f: Field)
    requires Usual(st) && |f.key| <= 19
    ensures FieldBytes(st, f) <= 234 + Bytes(Print(st, f.value))
  {
    hide Encode, Escape, PrintString, Print;
    EscapeBytes(st.ascii, f.key);
    StringBytes(st.ascii, f.key);
    EncodeConcat(PrintString(st.ascii, f.key) + st.colon, Print(st, f.value));
    EncodeConcat(PrintString(st.ascii, f.key), st.colon);
    EncodeAsciiLength(st.colon);
    EncodeAsciiLength(st.comma);
  }

  // ---- a record's line ----------------------------------------------------------------

  const MAX_SIGNATURE_TEXT := 6172   // base64 of an ML-DSA-87 signature
  const MAX_LINE_BYTES := 115_000

  lemma ScalarBytes(v: Json, bound: nat)
    requires (v.Str? && |v.s| <= bound) || (v.Int? && 0 <= v.i <= MAX_SEQUENCE && 4 <= bound)
    ensures Bytes(Print(CANONICAL, Sorted(v))) <= 6 * bound + 2
  {
    if v.Str? {
      EscapeBytes(false, v.s);
      StringBytes(false, v.s);
    } else {
      Int64Length(v.i);
    }
  }

  predicate SmallScalar(v: Json) {
    (v.Str? && |v.s| <= 128) || (v.Int? && 0 <= v.i <= MAX_SEQUENCE)
  }

  lemma EnvelopeScalars(e: SignedEvent)
    requires ShortStrings(e, 128) && ValidSequence(e.sequence)
    ensures forall i :: 0 <= i < 11 && i != 5 && i != 10 ==> SmallScalar(EnvelopeFields(e)[i].value)
  {
  }

  lemma SmallFieldBytes(f: Field)
    requires |f.key| <= 19 && SmallScalar(f.value)
    ensures FieldBytes(CANONICAL, Normal(f)) <= SMALL_FIELD
  {
    FieldTextBytes(CANONICAL, Normal(f));
    ScalarBytes(f.value, 128);
  }

  lemma EventFieldBytes(f: Field)
    requires |f.key| <= 19 && ValidateEvent(f.value).Ok?
    ensures FieldBytes(CANONICAL, Normal(f)) <= 234 + MAX_EVENT_BYTES
  {
    FieldTextBytes(CANONICAL, Normal(f));
  }

  lemma SignatureFieldBytes(f: Field)
    requires |f.key| <= 19 && f.value.Str? && |f.value.s| <= MAX_SIGNATURE_TEXT
    ensures FieldBytes(CANONICAL, Normal(f)) <= 236 + 6 * MAX_SIGNATURE_TEXT
  {
    FieldTextBytes(CANONICAL, Normal(f));
    ScalarBytes(f.value, MAX_SIGNATURE_TEXT);
  }

  lemma NormalBytesOne(st: Style, f: Field)
    ensures NormalBytes(st, [f]) == FieldBytes(st, Normal(f))
  {
    assert [f][1..] == [];
  }

  lemma NormalBytesSplit(st: Style, fs: seq<Field>)
    requires |fs| == 11
    ensures NormalBytes(st, fs) == NormalBytes(st, fs[..5]) + FieldBytes(st, Normal(fs[5]))
                                 + NormalBytes(st, fs[6..10]) + FieldBytes(st, Normal(fs[10]))
  {
    var a, b, c, d := fs[..5], [fs[5]], fs[6..10], [fs[10]];
    assert fs == a + (b + (c + d));
    NormalBytesConcat(st, a, b + (c + d));
    NormalBytesConcat(st, b, c + d);
    NormalBytesConcat(st, c, d);
    NormalBytesOne(st, fs[5]);
    NormalBytesOne(st, fs[10]);
  }

  lemma SmallFieldsTotal(st: Style, fs: seq<Field>)
    requires |fs| == 11
    requires forall i :: 0 <= i < 11 && i != 5 && i != 10 ==> FieldBytes(st, Normal(fs[i])) <= SMALL_FIELD
    ensures NormalBytes(st, fs[..5]) + NormalBytes(st, fs[6..10]) <= 9 * SMALL_FIELD
  {
    SmallFieldsBytes(st, fs[..5]);
    SmallFieldsBytes(st, fs[6..10]);
  }

  lemma CanonicalBytes(fs: seq<Field>)
    requires fs != []
    ensures Bytes(CanonicalText(fs)) <= NormalBytes(CANONICAL, fs) + 2
  {
    SortedFieldsMembers(fs);
    SortedFieldsBytes(CANONICAL, fs);
    ObjectBytes(CANONICAL, SortedFields(fs));
  }

  lemma SmallEnvelopeFields(e: SignedEvent)
    requires ShortStrings(e, 128) && ValidSequence(e.sequence)
    ensures forall i :: 0 <= i < 11 && i != 5 && i != 10 ==> FieldBytes(CANONICAL, Normal(EnvelopeFields(e)[i])) <= SMALL_FIELD
    ensures |EnvelopeFields(e)[5].key| <= 19 && |EnvelopeFields(e)[10].key| <= 19
  {
    var fs := EnvelopeFields(e);
    EnvelopeScalars(e);
    EnvelopeKeys(e);
    KeyShort(5);
    KeyShort(10);
    forall i | 0 <= i < 11 && i != 5 && i != 10 ensures FieldBytes(CANONICAL, Normal(fs[i])) <= SMALL_FIELD {
      KeyShort(i);
      SmallFieldBytes(fs[i]);
    }
  }

  // No line the signer can build comes near the 262,144 byte reading limit.
  lemma LineBound(e: SignedEvent)
    requires ShortStrings(e, 128) && ValidSequence(e.sequence)
    requires ValidateEvent(e.event).Ok? && |e.signature| <= MAX_SIGNATURE_TEXT
    ensures Bytes(Line(e)) <= MAX_LINE_BYTES
  {
    hide FieldBytes, NormalBytes, Bytes, Print, Encode;
    var fs := EnvelopeFields(e);
    SmallEnvelopeFields(e);
    EventFieldBytes(fs[5]);
    SignatureFieldBytes(fs[10]);
    NormalBytesSplit(CANONICAL, fs);
    SmallFieldsTotal(CANONICAL, fs);
    CanonicalBytes(fs);
  }

  lemma WellFormedIsSmall(env: Env, e: SignedEvent)
    requires WellFormed(env, e) && |e.timestamp| <= 128
    ensures ShortStrings(e, 128)
  {
    assert forall a | a in SIGNATURE_ALGORITHMS :: |a| <= 10;
  }
}
