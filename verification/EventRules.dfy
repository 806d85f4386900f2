/** Which events may be signed, and which of the three reasons a refusal gives: for
    what is built here and for what comes in. */
module EventRules {
  import opened Json
  import opened JsonParser
  import opened JsonCanonical
  import opened Utf8
  import opened Models
  import opened ModelsLaws
  import opened KeyRegistry
  import opened Collector
  import opened StrictParsing

  // ---- events ------------------------------------------------------------------------------

  // Depth counts the levels under a value, itself included.
  lemma {:induction false} DepthIsHeight(v: Json, level: nat)
    ensures Depth(v, level) == level + Height(v)
    decreases v, 1
  {
    if v.Arr? {
      ItemsDepthIs(v.items, level);
    } else if v.Obj? {
      FieldsDepthIs(v.fields, level);
    }
  }

  lemma {:induction false} ItemsDepthIs(items: seq<Json>, level: nat)
    ensures items != [] ==> ItemsDepth(items, level + 1) == level + ItemsHeight(items)
    decreases items, 0
  {
    if items != [] {
      DepthIsHeight(items[0], level + 1);
      ItemsDepthIs(items[1..], level);
    }
  }

  lemma {:induction false} FieldsDepthIs(fields: seq<Field>, level: nat)
    ensures fields != [] ==> FieldsDepth(fields, level + 1) == level + FieldsHeight(fields)
    decreases fields, 0
  {
    if fields != [] {
      DepthIsHeight(fields[0].value, level + 1);
      FieldsDepthIs(fields[1..], level);
    }
  }

  // An object without a float or an overlong text, not too deep even for a record.
  predicate Canonicalizable(v: Json) {
    v.Obj? && NoFloats(v) && ShortTexts(v) && Height(v) <= 32
  }

  function CanonicalSize(v: Json): nat {
    |Encode(Print(CANONICAL, Sorted(v)))|
  }

  // An event is an object of at most 65,536 canonical bytes and 15 levels under it.
  lemma EventAccepted(v: Json)
    ensures ValidateEvent(v).Ok? <==> Canonicalizable(v) && CanonicalSize(v) <= 65_536 && Height(v) <= 15
    ensures ValidateEvent(v) == Err(Oversized) <==> Canonicalizable(v) && CanonicalSize(v) > 65_536
    ensures ValidateEvent(v).Err? ==> ValidateEvent(v).error != BadAlgorithm
  {
    hide Check, NoFloats, ShortTexts, Height, Depth, Encode, Print, Sorted;
    AcceptedMeans(v);
    DepthIsHeight(v, 1);
  }

  // ---- names and digests -----------------------------------------------------------------------

  // Both patterns let one final newline through, and only that.
  lemma NewlineSlips(s: string)
    ensures ValidHash(s + "\n") <==> Hex64(s)
    ensures (s == [] || s[|s| - 1] != '\n') ==> (ValidHash(s) <==> Hex64(s))
    ensures ValidIdentifier(s + "\n") <==> IdentifierText(s) && |s| < 128
    ensures (s == [] || s[|s| - 1] != '\n') ==> (ValidIdentifier(s) <==> IdentifierText(s))
  {
    var longer := s + "\n";
    assert longer[..|s|] == s && longer[|s|] == '\n';
    assert IdentifierText(longer) ==> IdentifierChar(longer[|s|]);
  }

  // ---- what is built here --------------------------------------------------------------------

  // The algorithm is looked at before all else, the size only of what is otherwise fit.
  lemma BuildRefusals(env: Env, nodeId: string, sequence: int, timestamp: string, previous: string, event: Json,
                      keyId: string, algorithm: string)
    ensures var built := BuildUnsigned(env, nodeId, sequence, timestamp, previous, event, keyId, algorithm);
      && (built == Err(BadAlgorithm) <==> algorithm !in {"ML-DSA-44", "ML-DSA-65", "ML-DSA-87"})
      && (built == Err(Oversized) <==>
            && algorithm in {"ML-DSA-44", "ML-DSA-65", "ML-DSA-87"} && env.normalize(timestamp).Some?
            && ValidIdentifier(nodeId) && 1 <= sequence < 0x8000_0000_0000_0000 && ValidHash(previous)
            && Canonicalizable(event) && CanonicalSize(event) > 65_536)
  {
    hide ValidIdentifier, ValidHash, ValidateEvent, Canonicalizable, CanonicalSize;
    EventAccepted(event);
  }

  // ---- what comes in --------------------------------------------------------------------------

  // The right keys, and under them a version, algorithms, a time and a signature to go on with.
  predicate HeadHolds(env: Env, d: seq<Field>) {
    var algorithm, time, signature := Get(d, "signature_algorithm"), Get(d, "timestamp"), Get(d, "signature");
    && KeysAreThese(d) && Get(d, "format_version") == Str("1.0")
    && algorithm.Str? && algorithm.s in {"ML-DSA-44", "ML-DSA-65", "ML-DSA-87"}
    && Get(d, "hash_algorithm") == Str("SHA3-256")
    && time.Str? && env.normalize(time.s) == Some(time.s)
    && signature.Str? && signature.s != "" && env.unb64(signature.s).Some? && env.unb64(signature.s).value != []
  }

  lemma HeadMeans(env: Env, d: seq<Field>)
    ensures KeysAreThese(d) && ValidateHead(env, RawOf(d)).Ok? <==> HeadHolds(env, d)
    ensures ValidateHead(env, RawOf(d)).Err? ==> ValidateHead(env, RawOf(d)).error != Oversized
  {
    hide Get, KeysAreThese;
  }

  // Too long as it comes, or with its event too long, or too long once canonical.
  predicate TooLong(env: Env, text: string, maxBytes: nat) {
    || |Encode(text)| > maxBytes
    || (var v := ParseDocument(text);
        && v.Some? && v.value.Obj? && NoDuplicates(v.value) && NoConstants(v.value) && HeadHolds(env, v.value.fields)
        && var event := Get(v.value.fields, "event");
        && Canonicalizable(event)
        && (CanonicalSize(event) > 65_536
            || (Height(event) <= 15 && Check(v.value, 0) && CanonicalSize(v.value) > maxBytes)))
  }

  lemma RefusedForSize(env: Env, text: string, maxBytes: nat)
    ensures ParseSignedEventJson(env, text, maxBytes) == Err(Oversized) <==> TooLong(env, text, maxBytes)
  {
    hide Check, NoDuplicates, NoConstants, Get, ValidateEvent, ValidateHead, HeadHolds, ValidTail, ParseDocument, Encode,
      Canonicalizable, Height, RawOf, Print, Sorted;
    var v := ParseDocument(text);
    if v.Some? && v.value.Obj? {
      var d := v.value.fields;
      HeadMeans(env, d);
      assert RawOf(d).event == Get(d, "event") by { RawEvent(d); }
      EventAccepted(Get(d, "event"));
    }
  }

  // A line that is no record is reported by one code: too long, of an algorithm not
  // supported, or else malformed.
  lemma LineRefused(reader: Reader, text: string)
    ensures var line, long, foreign := ParseLine(reader, text), TooLong(reader.env, text, reader.maxRecordBytes),
                                       WrongAlgorithm(text, reader.maxRecordBytes);
      && (line == Unparsed([OversizedEvidence]) <==> long)
      && (line == Unparsed([UnsupportedAlgorithm]) <==> foreign)
      && (line.Unparsed? && !long && !foreign ==> line == Unparsed([MalformedEvidence]))
      && (line.Event? ==> ParseSignedEventJson(reader.env, text, reader.maxRecordBytes) == Ok(line.event))
  {
    hide ParseSignedEventJson, TooLong, WrongAlgorithm;
    RefusedForSize(reader.env, text, reader.maxRecordBytes);
    RefusedForAlgorithm(reader.env, text, reader.maxRecordBytes);
    if |text| > reader.maxRecordBytes {
      NoShorter(text);
      LongMeans(reader.env, text, reader.maxRecordBytes);
    }
  }

  lemma LongMeans(env: Env, text: string, maxBytes: nat)
    requires |Encode(text)| > maxBytes
    ensures TooLong(env, text, maxBytes) && !WrongAlgorithm(text, maxBytes)
  {
    hide Encode, ParseDocument, NoDuplicates, NoConstants;
  }

  lemma {:induction false} NoShorter(text: string)
    ensures |Encode(text)| >= |text|
  {
    if text != [] {
      NoShorter(text[1..]);
    }
  }

  lemma RawEvent(d: seq<Field>)
    ensures RawOf(d).event == Get(d, "event")
  {
    hide Get;
  }
}
