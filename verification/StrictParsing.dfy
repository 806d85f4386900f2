/** What the strict parser accepts, exactly: the texts that hold the fields of a
    well-formed record, each once and nothing else, in any order and any spelling. */
module StrictParsing {
  import opened Json
  import opened JsonParser
  import opened JsonCanonical
  import opened Utf8
  import opened Models
  import opened ModelsLaws

  // ---- what is accepted is well formed ----------------------------------------------------

  lemma FoundChecks(d: seq<Field>, key: string)
    requires Check(Obj(d), 0) && NoDuplicates(Obj(d)) && Get(d, key) != Null
    ensures Check(Get(d, key), 1) && NoDuplicates(Get(d, key))
  {
    LookupFinds(d, key);
  }

  lemma ShortString(v: Json)
    requires Check(v, 1) && v.Str?
    ensures |v.s| <= MAX_STRING_LENGTH
  {
  }

  lemma EventIsObject(v: Json)
    ensures ValidateEvent(v).Ok? ==> v.Obj? && ValidateEvent(v).value == v
  {
  }

  lemma ParsedIsWellFormed(env: Env, text: string, maxBytes: nat)
    requires ParseSignedEventJson(env, text, maxBytes).Ok?
    ensures WellFormed(env, ParseSignedEventJson(env, text, maxBytes).value)
  {
    hide Check, NoDuplicates, NoConstants, Get, CanonicalText, ValidateEvent, ValidIdentifier, ValidHash, ParseDocument, Encode;
    var d := ParseDocument(text).value.fields;
    FoundChecks(d, "signature");
    ShortString(Get(d, "signature"));
    FoundChecks(d, "timestamp");
    ShortString(Get(d, "timestamp"));
    assert Get(d, "event") != Null by { EventIsObject(Get(d, "event")); }
    FoundChecks(d, "event");
  }

  // ---- and holds just its fields ------------------------------------------------------------

  ghost predicate SameFields(d: seq<Field>, fs: seq<Field>) {
    forall f :: f in d <==> f in fs
  }

  lemma SameFieldsSort(d: seq<Field>, fs: seq<Field>)
    requires DistinctKeys(d) && DistinctKeys(fs) && SameFields(d, fs)
    ensures SortedFields(d) == SortedFields(fs)
  {
    SortedFieldsMembers(d);
    SortedFieldsMembers(fs);
    SortedFieldsOrdered(d);
    SortedFieldsOrdered(fs);
    forall x ensures x in SortedFields(d) <==> x in SortedFields(fs) {
      if x in SortedFields(d) {
        var i :| 0 <= i < |d| && x == Normal(d[i]);
        assert d[i] in fs;
        var j :| 0 <= j < |fs| && fs[j] == d[i];
      }
      if x in SortedFields(fs) {
        var i :| 0 <= i < |fs| && x == Normal(fs[i]);
        assert fs[i] in d;
        var j :| 0 <= j < |d| && d[j] == fs[i];
      }
    }
    OrderedUnique(SortedFields(d), SortedFields(fs));
  }

  predicate KeysAreThese(d: seq<Field>) {
    (set f | f in d :: f.key) == (set k | k in ENVELOPE_FIELDS)
  }

  lemma LookupIs(d: seq<Field>, f: Field)
    requires DistinctKeys(d) && f in d
    ensures Get(d, f.key) == f.value
  {
    LookupFinds(d, f.key);
  }

  lemma KeysMean(d: seq<Field>)
    ensures KeysAreThese(d)
      <==> (forall f :: f in d ==> f.key in ENVELOPE_FIELDS)
           && forall i :: 0 <= i < 11 ==> exists f :: f in d && f.key == ENVELOPE_FIELDS[i]
  {
    var keys, names := set f | f in d :: f.key, set k | k in ENVELOPE_FIELDS;
    if keys == names {
      forall f | f in d ensures f.key in ENVELOPE_FIELDS {
        assert f.key in keys && f.key in names;
      }
      forall i | 0 <= i < 11 ensures exists f :: f in d && f.key == ENVELOPE_FIELDS[i] {
        assert ENVELOPE_FIELDS[i] in names && ENVELOPE_FIELDS[i] in keys;
      }
    }
  }

  // Under each key the value of the record, and no other key: the same fields.
  lemma FieldsFromKeys(e: SignedEvent, d: seq<Field>)
    requires DistinctKeys(d) && KeysAreThese(d)
    requires forall i :: 0 <= i < 11 ==> Get(d, ENVELOPE_FIELDS[i]) == EnvelopeFields(e)[i].value
    ensures SameFields(d, EnvelopeFields(e))
  {
    hide EnvelopeFields, Get, KeysAreThese;
    var fs := EnvelopeFields(e);
    EnvelopeKeys(e);
    KeysMean(d);
    forall f ensures f in d <==> f in fs {
      if f in d {
        LookupIs(d, f);
        assert f.key in ENVELOPE_FIELDS;
        var i :| 0 <= i < |ENVELOPE_FIELDS| && ENVELOPE_FIELDS[i] == f.key;
        assert fs[i] == f;
      }
      if f in fs {
        var i :| 0 <= i < |fs| && fs[i] == f;
        var g :| g in d && g.key == ENVELOPE_FIELDS[i];
        LookupIs(d, g);
        assert g == f;
      }
    }
  }

  lemma KeysFromFields(e: SignedEvent, d: seq<Field>)
    requires DistinctKeys(d) && SameFields(d, EnvelopeFields(e))
    ensures KeysAreThese(d) && forall i :: 0 <= i < 11 ==> Get(d, ENVELOPE_FIELDS[i]) == EnvelopeFields(e)[i].value
  {
    hide EnvelopeFields, Get, KeysAreThese;
    var fs := EnvelopeFields(e);
    EnvelopeKeys(e);
    KeysMean(d);
    forall i | 0 <= i < 11 ensures Get(d, ENVELOPE_FIELDS[i]) == fs[i].value {
      assert fs[i] in fs;
      LookupIs(d, fs[i]);
    }
    forall f | f in d ensures f.key in ENVELOPE_FIELDS {
      var i :| 0 <= i < |fs| && fs[i] == f;
      assert ENVELOPE_FIELDS[i] == f.key;
    }
    forall i | 0 <= i < 11 ensures exists f :: f in d && f.key == ENVELOPE_FIELDS[i] {
      assert fs[i] in fs && fs[i] in d;
    }
  }

  // ---- the values, one by one -----------------------------------------------------------------

  function RawIs(e: SignedEvent): Raw {
    Raw(Str(e.formatVersion), Str(e.nodeId), Int(e.sequence), Str(e.timestamp), Str(e.previousEventHash), Str(e.eventHash),
        e.event, Str(e.signatureAlgorithm), Str(e.hashAlgorithm), Str(e.keyId), Str(e.signature))
  }

  lemma RawFields(e: SignedEvent, d: seq<Field>)
    ensures RawOf(d) == RawIs(e) <==> forall i :: 0 <= i < 11 ==> Get(d, ENVELOPE_FIELDS[i]) == EnvelopeFields(e)[i].value
  {
    hide Get;
    var fs := EnvelopeFields(e);
    if forall i :: 0 <= i < 11 ==> Get(d, ENVELOPE_FIELDS[i]) == fs[i].value {
      assert Get(d, ENVELOPE_FIELDS[0]) == fs[0].value && Get(d, ENVELOPE_FIELDS[1]) == fs[1].value;
      assert Get(d, ENVELOPE_FIELDS[2]) == fs[2].value && Get(d, ENVELOPE_FIELDS[3]) == fs[3].value;
      assert Get(d, ENVELOPE_FIELDS[4]) == fs[4].value && Get(d, ENVELOPE_FIELDS[5]) == fs[5].value;
      assert Get(d, ENVELOPE_FIELDS[6]) == fs[6].value && Get(d, ENVELOPE_FIELDS[7]) == fs[7].value;
      assert Get(d, ENVELOPE_FIELDS[8]) == fs[8].value && Get(d, ENVELOPE_FIELDS[9]) == fs[9].value;
      assert Get(d, ENVELOPE_FIELDS[10]) == fs[10].value;
    }
  }

  lemma AcceptedRaw(env: Env, d: Json, maxBytes: nat)
    requires ParseSignedEvent(env, d, maxBytes).Ok?
    ensures d.Obj? && KeysAreThese(d.fields) && RawOf(d.fields) == RawIs(ParseSignedEvent(env, d, maxBytes).value)
    ensures |Encode(CanonicalText(d.fields))| <= maxBytes
  {
    hide Check, CanonicalText, ValidIdentifier, ValidHash, Get, Encode;
    EventIsObject(RawOf(d.fields).event);
  }

  lemma RawPasses(env: Env, e: SignedEvent)
    requires WellFormed(env, e)
    ensures ValidateHead(env, RawIs(e)).Ok? && ValidTail(RawIs(e)) && ValidateEvent(e.event).Ok?
    ensures env.unb64(e.signature) == Some(e.signatureBytes)
  {
    hide ValidateEvent, ValidIdentifier, ValidHash;
  }

  lemma PartsAccepted(env: Env, d: Json, maxBytes: nat, e: SignedEvent)
    requires d.Obj? && KeysAreThese(d.fields) && RawOf(d.fields) == RawIs(e) && WellFormed(env, e)
    requires Check(d, 0) && |Encode(CanonicalText(d.fields))| <= maxBytes
    ensures ParseSignedEvent(env, d, maxBytes) == Ok(e)
  {
    hide Check, CanonicalText, ValidateHead, ValidTail, Get, Encode, WellFormed, ValidateEvent, RawOf;
    RawPasses(env, e);
  }

  lemma FieldsChecked(env: Env, e: SignedEvent, d: seq<Field>)
    requires WellFormed(env, e) && SameFields(d, EnvelopeFields(e))
    ensures Check(Obj(d), 0)
  {
    hide EnvelopeFields, WellFormed;
    EnvelopeChecks(env, e);
  }

  lemma SameLine(e: SignedEvent, d: seq<Field>)
    requires DistinctKeys(d) && SameFields(d, EnvelopeFields(e))
    ensures CanonicalText(d) == Line(e)
  {
    hide EnvelopeFields, SortedFields, SameFields;
    EnvelopeKeys(e);
    SameFieldsSort(d, EnvelopeFields(e));
  }

  // ---- the theorem --------------------------------------------------------------------------------

  // The text is a document holding the record's own fields, each once, and both it and
  // the record's canonical line are within the limit.
  ghost predicate Spells(text: string, e: SignedEvent, maxBytes: nat) {
    && |Encode(text)| <= maxBytes && |Encode(Line(e))| <= maxBytes
    && var v := ParseDocument(text);
       v.Some? && v.value.Obj? && NoDuplicates(v.value) && SameFields(v.value.fields, EnvelopeFields(e))
  }

  lemma ParsesExactly(env: Env, text: string, maxBytes: nat, e: SignedEvent)
    ensures ParseSignedEventJson(env, text, maxBytes) == Ok(e) <==> WellFormed(env, e) && Spells(text, e, maxBytes)
  {
    hide WellFormed, Check, NoDuplicates, NoConstants, ParseDocument, ParseSignedEvent, EnvelopeFields, Encode, Line, SameFields,
      Get, KeysAreThese, RawOf, RawIs, CanonicalText;
    var v := ParseDocument(text);
    if ParseSignedEventJson(env, text, maxBytes) == Ok(e) {
      ParsedIsWellFormed(env, text, maxBytes);
      AcceptedRaw(env, v.value, maxBytes);
      var d := v.value.fields;
      assert DistinctKeys(d) by { DistinctOf(d); }
      RawFields(e, d);
      FieldsFromKeys(e, d);
      SameLine(e, d);
    }
    if WellFormed(env, e) && Spells(text, e, maxBytes) {
      var d := v.value.fields;
      assert DistinctKeys(d) by { DistinctOf(d); }
      KeysFromFields(e, d);
      RawFields(e, d);
      FieldsChecked(env, e, d);
      CheckedHasNoFloats(Obj(d), 0);
      NoFloatsNoConstants(Obj(d));
      SameLine(e, d);
      PartsAccepted(env, v.value, maxBytes, e);
    }
  }

  lemma DistinctOf(d: seq<Field>)
    requires NoDuplicates(Obj(d))
    ensures DistinctKeys(d)
  {
  }

  // ---- why a text is refused -------------------------------------------------------------------------

  // The right fields and version, and a signature or hash algorithm not supported.
  predicate WrongAlgorithm(text: string, maxBytes: nat) {
    && |Encode(text)| <= maxBytes
    && var v := ParseDocument(text);
    && v.Some? && v.value.Obj? && NoDuplicates(v.value) && NoConstants(v.value) && KeysAreThese(v.value.fields)
    && var d := v.value.fields;
       var a, h := Get(d, "signature_algorithm"), Get(d, "hash_algorithm");
    && Get(d, "format_version") == Str("1.0") && a.Str?
    && (a.s !in {"ML-DSA-44", "ML-DSA-65", "ML-DSA-87"} || (h.Str? && h.s != "SHA3-256"))
  }

  lemma RefusedForAlgorithm(env: Env, text: string, maxBytes: nat)
    ensures ParseSignedEventJson(env, text, maxBytes) == Err(BadAlgorithm) <==> WrongAlgorithm(text, maxBytes)
  {
    hide Check, NoDuplicates, NoConstants, Get, CanonicalText, ValidateEvent, ValidIdentifier, ValidHash, ParseDocument, Encode,
      ValidSignature;
    var v := ParseDocument(text);
    if v.Some? && v.value.Obj? {
      EventReason(Get(v.value.fields, "event"));
    }
  }

  lemma EventReason(v: Json)
    ensures ValidateEvent(v).Err? ==> ValidateEvent(v).error != BadAlgorithm
  {
  }
}
