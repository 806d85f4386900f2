/** The envelope as a log line: parsing the line a record is written as gives the
    record back, with the keys of its event sorted. */
module ModelsLaws {
  import opened Json
  import opened JsonParser
  import opened JsonLaws
  import opened JsonCanonical
  import opened Utf8
  import opened Models

  // What validation guarantees of a record, however it was made.
  ghost predicate WellFormed(env: Env, e: SignedEvent) {
    && e.formatVersion == FORMAT_VERSION
    && e.signatureAlgorithm in SIGNATURE_ALGORITHMS
    && e.hashAlgorithm == HASH_ALGORITHM
    && env.normalize(e.timestamp) == Some(e.timestamp)
    && ValidIdentifier(e.nodeId) && ValidIdentifier(e.keyId)
    && ValidSequence(e.sequence)
    && ValidHash(e.previousEventHash) && ValidHash(e.eventHash)
    && ValidateEvent(e.event).Ok? && NoDuplicates(e.event)
    && ValidSignature(env, Str(e.signature)) && |e.signature| <= MAX_STRING_LENGTH
    && env.unb64(e.signature) == Some(e.signatureBytes)
    && |e.timestamp| <= MAX_STRING_LENGTH
  }

  // The same record with its event's keys in canonical order.
  function Canonical(e: SignedEvent): SignedEvent {
    e.(event := Sorted(e.event))
  }

  // ---- depth ---------------------------------------------------------------------

  lemma {:induction false} DepthAtLeast(v: Json, level: nat)
    ensures Depth(v, level) >= level
    decreases v
  {
    if v.Arr? && v.items != [] {
      DepthAtLeast(v.items[0], level + 1);
    } else if v.Obj? && v.fields != [] {
      DepthAtLeast(v.fields[0].value, level + 1);
    }
  }

  lemma {:induction false} CheckDeeper(v: Json, level: nat, from: nat, to: nat)
    requires Check(v, from) && Depth(v, level) <= MAX_EVENT_DEPTH
    requires to <= level + 1 <= MAX_EVENT_DEPTH + 1
    ensures Check(v, to)
    decreases v
  {
    DepthAtLeast(v, level);
    if v.Arr? {
      forall x | x in v.items ensures Check(x, to + 1) {
        ItemDepth(v.items, x, level + 1);
        DepthAtLeast(x, level + 1);
        CheckDeeper(x, level + 1, from + 1, to + 1);
      }
    } else if v.Obj? {
      forall f | f in v.fields ensures Check(f.value, to + 1) {
        FieldDepth(v.fields, f, level + 1);
        DepthAtLeast(f.value, level + 1);
        CheckDeeper(f.value, level + 1, from + 1, to + 1);
      }
    }
  }

  lemma {:induction false} ItemDepth(items: seq<Json>, x: Json, level: nat)
    requires x in items
    ensures Depth(x, level) <= ItemsDepth(items, level)
  {
    if x != items[0] {
      ItemDepth(items[1..], x, level);
    }
  }

  lemma {:induction false} FieldDepth(fields: seq<Field>, f: Field, level: nat)
    requires f in fields
    ensures Depth(f.value, level) <= FieldsDepth(fields, level)
  {
    if f != fields[0] {
      FieldDepth(fields[1..], f, level);
    }
  }

  // Sorting keys changes no depth.
  lemma {:induction false} SortedDepth(v: Json, level: nat)
    ensures Depth(Sorted(v), level) == Depth(v, level)
    decreases v, 1
  {
    if v.Arr? {
      SortedItemsDepth(v.items, level + 1);
    } else if v.Obj? {
      SortedFieldsDepth(v.fields, level + 1);
      SortedFieldsMembers(v.fields);
    }
  }

  lemma {:induction false} SortedItemsDepth(items: seq<Json>, level: nat)
    ensures ItemsDepth(SortedItems(items), level) == ItemsDepth(items, level)
    decreases items, 0
  {
    if items != [] {
      SortedDepth(items[0], level);
      SortedItemsDepth(items[1..], level);
    }
  }

  lemma {:induction false} SortedFieldsDepth(fields: seq<Field>, level: nat)
    ensures FieldsDepth(SortedFields(fields), level) == FieldsDepth(fields, level)
    decreases fields, 0
  {
    if fields != [] {
      SortedDepth(fields[0].value, level);
      SortedFieldsDepth(fields[1..], level);
      InsertDepth(Normal(fields[0]), SortedFields(fields[1..]), level);
    }
  }

  lemma {:induction false} InsertDepth(f: Field, fields: seq<Field>, level: nat)
    ensures FieldsDepth(Insert(f, fields), level) == Max(Depth(f.value, level), FieldsDepth(fields, level))
  {
    if fields != [] && Less(fields[0].key, f.key) {
      InsertDepth(f, fields[1..], level);
    }
  }

  lemma ValidEventSorted(v: Json)
    requires ValidateEvent(v).Ok? && NoDuplicates(v)
    ensures ValidateEvent(Sorted(v)) == Ok(Sorted(v)) && NoDuplicates(Sorted(v)) && Sorted(Sorted(v)) == Sorted(v)
  {
    SortedKeepsCheck(v, 0);
    SortedIdempotent(v);
    SortedKeepsNoDuplicates(v);
    SortedDepth(v, 1);
  }

  // ---- the envelope as JSON --------------------------------------------------------

  lemma KeysDiffer(i: nat, j: nat)
    requires i < j < |ENVELOPE_FIELDS|
    ensures ENVELOPE_FIELDS[i] != ENVELOPE_FIELDS[j]
  {
    var a, b := ENVELOPE_FIELDS[i], ENVELOPE_FIELDS[j];
    assert |a| != |b| || a[0] != b[0];
  }

  lemma EnvelopeKeys(e: SignedEvent)
    ensures var fs := EnvelopeFields(e);
      && (forall i :: 0 <= i < 11 ==> fs[i].key == ENVELOPE_FIELDS[i])
      && DistinctKeys(fs)
  {
    var fs := EnvelopeFields(e);
    forall i, j | 0 <= i < j < |fs| ensures fs[i].key != fs[j].key {
      KeysDiffer(i, j);
    }
  }

  lemma SortedLookup(fields: seq<Field>, f: Field)
    requires DistinctKeys(fields) && f in fields
    ensures Get(SortedFields(fields), f.key) == Sorted(f.value)
  {
    SortedFieldsMembers(fields);
    SortedFieldsOrdered(fields);
    OrderedDistinct(SortedFields(fields));
    LookupDistinct(SortedFields(fields), Normal(f));
  }

  lemma LineKeys(e: SignedEvent)
    ensures (set f | f in SortedFields(EnvelopeFields(e)) :: f.key) == (set k | k in ENVELOPE_FIELDS)
  {
    var fs := EnvelopeFields(e);
    var d := SortedFields(fs);
    EnvelopeKeys(e);
    SortedFieldsMembers(fs);
    forall k | k in ENVELOPE_FIELDS ensures k in (set f | f in d :: f.key) {
      var i :| 0 <= i < |ENVELOPE_FIELDS| && ENVELOPE_FIELDS[i] == k;
      assert Normal(fs[i]) in d;
    }
    forall f | f in d ensures f.key in ENVELOPE_FIELDS {
      var i :| 0 <= i < |fs| && f == Normal(fs[i]);
      assert ENVELOPE_FIELDS[i] == f.key;
    }
  }

  lemma LineFieldAt(e: SignedEvent, i: nat)
    requires i < 11
    ensures Get(SortedFields(EnvelopeFields(e)), ENVELOPE_FIELDS[i]) == Sorted(EnvelopeFields(e)[i].value)
  {
    EnvelopeKeys(e);
    SortedLookup(EnvelopeFields(e), EnvelopeFields(e)[i]);
  }

  // What a parser finds in the line a record is written as.
  lemma LineFields(e: SignedEvent, d: seq<Field>)
    requires d == SortedFields(EnvelopeFields(e))
    ensures Get(d, "format_version") == Str(e.formatVersion)
    ensures Get(d, "node_id") == Str(e.nodeId)
    ensures Get(d, "sequence") == Int(e.sequence)
    ensures Get(d, "timestamp") == Str(e.timestamp)
    ensures Get(d, "previous_event_hash") == Str(e.previousEventHash)
    ensures Get(d, "event") == Sorted(e.event)
  {
    LineFieldAt(e, 0);
    LineFieldAt(e, 1);
    LineFieldAt(e, 2);
    LineFieldAt(e, 3);
    LineFieldAt(e, 4);
    LineFieldAt(e, 5);
  }

  lemma LineLastFields(e: SignedEvent, d: seq<Field>)
    requires d == SortedFields(EnvelopeFields(e))
    ensures Get(d, "signature_algorithm") == Str(e.signatureAlgorithm)
    ensures Get(d, "hash_algorithm") == Str(e.hashAlgorithm)
    ensures Get(d, "key_id") == Str(e.keyId)
    ensures Get(d, "event_hash") == Str(e.eventHash)
    ensures Get(d, "signature") == Str(e.signature)
  {
    LineFieldAt(e, 6);
    LineFieldAt(e, 7);
    LineFieldAt(e, 8);
    LineFieldAt(e, 9);
    LineFieldAt(e, 10);
  }

  predicate FieldFits(f: Field) {
    |f.key| <= MAX_STRING_LENGTH && Check(f.value, 1) && NoDuplicates(f.value)
  }

  lemma KeyShort(i: nat)
    requires i < |ENVELOPE_FIELDS|
    ensures |ENVELOPE_FIELDS[i]| <= 19
  {
  }

  predicate StringFits(v: Json) {
    v.Int? || (v.Str? && |v.s| <= MAX_STRING_LENGTH)
  }

  predicate ShortStrings(e: SignedEvent, bound: nat) {
    && |e.formatVersion| <= bound && |e.nodeId| <= bound && |e.timestamp| <= bound && |e.keyId| <= bound
    && |e.previousEventHash| <= bound && |e.eventHash| <= bound
    && |e.signatureAlgorithm| <= bound && |e.hashAlgorithm| <= bound
  }

  lemma WellFormedIsShort(env: Env, e: SignedEvent)
    requires WellFormed(env, e)
    ensures ShortStrings(e, MAX_STRING_LENGTH)
  {
    assert forall a | a in SIGNATURE_ALGORITHMS :: |a| <= 10;
  }

  lemma ScalarsFit(e: SignedEvent)
    requires ShortStrings(e, MAX_STRING_LENGTH) && |e.signature| <= MAX_STRING_LENGTH
    ensures forall i :: 0 <= i < 11 && i != 5 ==> StringFits(EnvelopeFields(e)[i].value)
  {
  }

  lemma EnvelopeChecks(env: Env, e: SignedEvent)
    requires WellFormed(env, e)
    ensures Check(Obj(EnvelopeFields(e)), 0) && NoDuplicates(Obj(EnvelopeFields(e)))
  {
    hide Check, NoDuplicates, EnvelopeFields, WellFormed, FieldFits, ShortStrings, StringFits;
    var fs := EnvelopeFields(e);
    EnvelopeKeys(e);
    EventFits(env, e);
    WellFormedIsShort(env, e);
    ScalarsFit(e);
    forall i | 0 <= i < 11 ensures FieldFits(fs[i]) {
      KeyShort(i);
      if i == 5 {
        FitsAs(fs[i]);
      } else {
        ScalarFits(fs[i]);
      }
    }
    AllFit(fs);
  }

  lemma EventFits(env: Env, e: SignedEvent)
    requires WellFormed(env, e)
    ensures EnvelopeFields(e)[5].value == e.event && Check(e.event, 1) && NoDuplicates(e.event)
    ensures |e.signature| <= MAX_STRING_LENGTH
  {
    hide Check, NoDuplicates, ValidIdentifier, ValidHash, ValidateEvent, ValidSequence, ValidSignature;
    ValidEventFits(e.event);
    EventPlace(e);
  }

  lemma EventPlace(e: SignedEvent)
    ensures EnvelopeFields(e)[5].value == e.event
  {
  }

  lemma ValidEventFits(v: Json)
    requires ValidateEvent(v).Ok?
    ensures Check(v, 1)
  {
    hide Check, NoDuplicates, Depth;
    CheckDeeper(v, 1, 0, 1);
  }

  lemma FitsAs(f: Field)
    requires |f.key| <= MAX_STRING_LENGTH && Check(f.value, 1) && NoDuplicates(f.value)
    ensures FieldFits(f)
  {
  }

  lemma ScalarFits(f: Field)
    requires |f.key| <= MAX_STRING_LENGTH && StringFits(f.value)
    ensures FieldFits(f)
  {
  }

  lemma AllFit(fs: seq<Field>)
    requires DistinctKeys(fs) && forall i :: 0 <= i < |fs| ==> FieldFits(fs[i])
    ensures Check(Obj(fs), 0) && NoDuplicates(Obj(fs))
  {
    assert forall f | f in fs :: FieldFits(f);
  }

  lemma LineReadsBack(env: Env, e: SignedEvent)
    requires WellFormed(env, e)
    ensures var v := Obj(SortedFields(EnvelopeFields(e)));
      && ParseDocument(Line(e)) == Some(v) && NoDuplicates(v) && NoConstants(v) && Check(v, 0)
      && CanonicalText(v.fields) == Line(e)
  {
    var v := Obj(EnvelopeFields(e));
    EnvelopeChecks(env, e);
    CanonicalReadsBack(v);
    SortedKeepsNoDuplicates(v);
    SortedKeepsCheck(v, 0);
    CheckedHasNoFloats(Sorted(v), 0);
    NoFloatsNoConstants(Sorted(v));
    SortedIdempotent(v);
  }

  // A line parses back to the record it was written from.
  lemma LineRoundTrip(env: Env, e: SignedEvent, maxBytes: nat)
    requires WellFormed(env, e) && |Encode(Line(e))| <= maxBytes
    ensures ParseSignedEventJson(env, Line(e), maxBytes) == Ok(Canonical(e))
  {
    hide Get, SortedFields, EnvelopeFields, ParseDocument, ValidateHead, ValidTail, Check, NoDuplicates, NoConstants, CanonicalText;
    var d := SortedFields(EnvelopeFields(e));
    LineReadsBack(env, e);
    LineKeys(e);
    LineFields(e, d);
    LineLastFields(e, d);
    ValidEventSorted(e.event);
    assert RawOf(d) == Raw(Str(e.formatVersion), Str(e.nodeId), Int(e.sequence), Str(e.timestamp),
                           Str(e.previousEventHash), Str(e.eventHash), Sorted(e.event), Str(e.signatureAlgorithm),
                           Str(e.hashAlgorithm), Str(e.keyId), Str(e.signature));
    RawAccepted(env, e, RawOf(d));
  }

  lemma RawAccepted(env: Env, e: SignedEvent, r: Raw)
    requires WellFormed(env, e)
    requires r == Raw(Str(e.formatVersion), Str(e.nodeId), Int(e.sequence), Str(e.timestamp),
                      Str(e.previousEventHash), Str(e.eventHash), Sorted(e.event), Str(e.signatureAlgorithm),
                      Str(e.hashAlgorithm), Str(e.keyId), Str(e.signature))
    ensures ValidateHead(env, r).Ok? && ValidTail(r)
  {
  }

  // ---- the genesis ------------------------------------------------------------------------

  function GenesisBytes(nodeId: string): seq<byte> {
    Encode("ics-deception/pqc-evidence/genesis/v1/" + nodeId)
  }

  // Each node starts from its own bytes, and no record has the bytes any node starts from.
  lemma GenesisApart(env: Env, nodeId: string, other: string, e: SignedEvent)
    ensures GenesisPreviousHash(env, nodeId) == env.hash(GenesisBytes(nodeId))
    ensures GenesisBytes(nodeId) == GenesisBytes(other) ==> nodeId == other
    ensures GenesisBytes(nodeId) != HashPayload(e)
  {
    hide HashFields, SortedFields;
    var a, b := "ics-deception/pqc-evidence/genesis/v1/" + nodeId, "ics-deception/pqc-evidence/genesis/v1/" + other;
    if GenesisBytes(nodeId) == GenesisBytes(other) {
      EncodeInjective(a, b);
      assert a[38..] == nodeId && b[38..] == other;
    }
    var text := CanonicalText(HashFields(e));
    assert text[0] == '{' && a[0] == 'i';
    if GenesisBytes(nodeId) == HashPayload(e) {
      EncodeInjective(a, text);
    }
  }
}
