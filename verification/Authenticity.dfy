/** What acceptance says of where records come from: short of a forged signature, every
    record of an accepted stream is one the holder of its key signed. */
module Authenticity {
  import opened Json
  import opened PyText
  import opened Models
  import opened ModelsLaws
  import opened KeyRegistry
  import opened Verifier
  import opened Collector
  import opened StreamTheorems
  import opened TamperTheorems
  import opened SignatureRules
  import opened HashBinding

  // If this signature verifies under the registered key, the bytes it covers are those
  // of a record that was signed: nobody forged it.
  ghost predicate Unforged(reader: Reader, made: set<SignedEvent>, e: SignedEvent) {
    var key := PublicKeyOf(reader, e.keyId);
    key.Some? && reader.env.verify(key.value, SigningPayload(e), e.signatureBytes, e.signatureAlgorithm)
    ==> exists x :: x in made && WellFormed(reader.env, x) && SigningPayload(x) == SigningPayload(e)
  }

  // The very record, as far as hash and signature cover it.
  ghost predicate Made(made: set<SignedEvent>, e: SignedEvent) {
    exists x :: x in made && SameHashed(x, e) && x.eventHash == e.eventHash
  }

  lemma SoundWasSigned(reader: Reader, made: set<SignedEvent>, raw: string)
    requires Sound(reader, raw) && Unforged(reader, made, Parse(reader, raw).event)
    ensures Made(made, Parse(reader, raw).event)
  {
    hide Parse, Trusted, Find, SigningPayload, ComputeEventHash, SameHashed, WellFormed;
    var e := Parse(reader, raw).event;
    SoundMeans(reader, raw);
    var x :| x in made && WellFormed(reader.env, x) && SigningPayload(x) == SigningPayload(e);
    ParsedWellFormed(reader, raw);
    SignatureBindsFields(reader.env, x, e);
  }

  // A record put together from a signed one's signature and any other content is not
  // accepted, alone or in a stream; and what is accepted was signed as it stands.
  lemma AcceptedWereSigned(reader: Reader, made: set<SignedEvent>, lines: seq<string>, es: seq<SignedEvent>)
    requires Reads(reader, lines, es) && Accepts(reader, lines)
    requires forall i :: 0 <= i < |es| ==> Unforged(reader, made, es[i])
    ensures forall i :: 0 <= i < |es| ==> Made(made, es[i])
  {
    hide Parse, Run, Strip, Unforged, Made;
    ExactAcceptance(reader, lines);
    forall i | 0 <= i < |es| ensures Made(made, es[i]) {
      assert Strip(lines[i]) != [] && Parse(reader, lines[i]) == Event(es[i]);
      SoundWasSigned(reader, made, lines[i]);
    }
  }
}
