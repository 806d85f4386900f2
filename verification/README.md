# Evidence chain and Modbus decoy: a verified model

This project models, in Dafny 4.11, the parts of the deception framework that
its evidence stands on, and proves what they promise.

- **The writer.** Signers share one evidence store: a lock, a write-ahead
  journal, an append-only log and a state file replaced whole. A process may
  crash, fail or give up between any two durable effects, every byte of the
  journal and of the log included (`Store`, `EvidenceStore`, `Recovery`,
  `Transaction`, `Protocol`, `ProtocolTheorems`, `Outcome`, `StoreRefinement`,
  `RecoveryRules`, `Hazards`, `StaleStore`, `Consistency`, `Signer`,
  `SigningLog`, `StateStore`).
- **The reader.** The stream verifier walks lines with one mutable cursor per
  node. What a key, a signature and a hash vouch for, which errors a record
  raises and what a report says is stated beside it in terms of the records
  (`KeyRegistry`, `RegistryTheorems`, `SignatureRules`, `HashBinding`,
  `Authenticity`, `Verifier`, `Collector`, `StreamTheorems`, `StreamCodes`,
  `TamperTheorems`, `ReportTheorems`, `Archive`, `ArchiveTheorems`,
  `ArchiveFacts`, `ArchiveTrust`).
- **Writer and reader together.** Whatever log a crashing run leaves, one
  recovery makes it a stream the reader reports valid (`EndToEnd`).
- **Underneath.** UTF-8, text lines, canonical JSON, its parser and the grammar
  that parser decides, the record envelope, its strict parsing and its sizes
  (`Utf8`, `PyText`, `Json`, `JsonParser`, `JsonLaws`, `JsonGrammar`,
  `JsonCanonical`, `JsonShortest`, `JsonTorn`, `Models`, `ModelsLaws`,
  `ModelsSizes`, `StrictParsing`, `EventRules`, `StoreLaws`), the DER key wrapper
  (`Der`) and the native log (`NativeLog`, `NativeLogFile`).
- **The Modbus/TCP decoys.** Stream reassembly, five function codes on shared
  registers, bit packing, requests told byte by byte, many clients under one
  lock, and the Python twin (`Modbus`, `ModbusTheorems`, `ModbusWire`,
  `ModbusServer`, `ModbusTwin`, `ModbusConcurrency`).

Code that changes things step by step is modelled by classes and loops proved
against functions; the theorems are about those functions. `dafny verify
dfyconfig.toml` checks everything.

## What is assumed

- The cryptography, base64 and timestamps are uninterpreted functions in the
  datatype `Env`. `Laws(env)` says what is assumed of them: a signature made
  with a private key verifies under its public half, ML-DSA signatures have the
  sizes of Table 2 in section 4 of FIPS 204, base64 decodes what it encodes,
  and normalising a timestamp twice changes nothing and gives 27 characters.
  `Consistency.LawsCanHold` exhibits functions that keep all of it.
- The hash has no law but its 64-digit form. Where distinct hashes are needed
  (`EndToEnd.LogVerifies`) the assumption is only that no two different payloads
  of that one chain collide; `HashBinding` assumes it of two records.
- The lock is mutual exclusion and a crash frees it. Replacing the state file is
  atomic. Effects reach the disk in program order. Files end before byte 2^63.
  Nobody edits the files between runs. A truncation that is attempted succeeds.
- Latency and random error injection of the native server are off.

## Where code and comments part

The model follows the code.

- The repair says it never rewinds; it writes the log's tail without comparing
  (`Hazards.RepairAfterLoss`, `Hazards.RepairFollowsTail`), and without a key it
  writes a state that cannot be read again (`Hazards.RepairReadable`).
- The check of state against log is skipped at state 0, so a lost or zeroed state
  file starts the numbers again (`Hazards.StateAgainstLog`, an iff).
- An append does not look for a leftover journal; skipping recovery after a
  failed commit reuses a number (`Hazards.UnrecoveredReuse`, an iff).
- Releasing a store keeps its remembered state; the signer makes a fresh store
  for each hold of the lock, as the protocol's processes do, and within a hold
  memory agrees with the file (`StoreRefinement.ReadyStoreBegins`). A store used
  again recovers from what it remembers (`StaleStore.StaleRecovery`, an iff). The older
  state store commits from memory too, and remembers what a refused call read, so
  its promise never to move backwards needs a condition
  (`StateStore.NeverBack`, an iff; `StateStore.RefusedCallReuses`).
- "One corrupt line does not lose the rest" holds of lines that are no JSON object.
  An object that validation refuses, such as {"a":1.5}, ends the batch: the lines
  after it are not signed and no report is returned, but chain and state are whole
  (`SigningLog.EvidenceSigner.SignLog`, an iff; `SigningLog.FractionLosesRest`).
- An archive of more than 1,000,000 records can be "fully verified" though the
  stream reader calls its evidence invalid: the alert it raises then is none of
  those the archive looks for (`ArchiveTrust.VerdictApart`, an iff).
- Registering demotes the old key before an insertion that may fail
  (`RegistryTheorems.FailedRegister`, an iff).
- A clean chain of more than 1,000,000 records is not reported valid
  (`EndToEnd.LogVerifies`, an iff).
- Replay detection keeps the claimed hash, the cursor the recomputed one.
- The identifier and hash patterns let one final newline through.
- Keys sort by code point, not by the UTF-16 code units of section 3.2.3 of
  RFC 8785.
- The first octet of an object identifier is never continued
  (`Der.IdentifierReads`, an iff).
- The Python Modbus server tests for overflow before it drains
  (`ModbusTheorems.PythonOverflows` and `ModbusTheorems.TwinsAgree`, iffs;
  `ModbusTheorems.TwinsDiffer`).

## Model

| member | source | states |
|---|---|---|
| `Utf8.DecodeEncode` | src/ics_deception/pqc_evidence/evidence_store.py:458-466 | Decoding with replacement gives back any text from its UTF-8 bytes. |
| `Utf8.EncodeInjective` | src/ics_deception/pqc_evidence/canonicalizer.py:166-179 | Different texts have different UTF-8 bytes. |
| `Utf8.HeadMeans` | src/ics_deception/pqc_evidence/evidence_store.py:463-464 | Of any bytes, the next character read is one they encode; or they encode none there, and it is one U+FFFD for the longest stretch that could have become a character, or for one byte. |
| `PyText.LinesOfLine` | src/ics_deception/pqc_evidence/evidence_store.py:464-467 | Reading a file in text mode takes a line and its newline off the front whole: splitting undoes appending. |
| `PyText.StripMeans` | src/ics_deception/pqc_evidence/evidence_store.py:466-468 | Stripping takes off blanks alone, and leaves none at either end. |
| `PyText.LinesMean` | src/ics_deception/pqc_evidence/evidence_store.py:464-467 | The lines joined again with the line ends between them are the text, and no line holds one. |
| `JsonLaws.DocumentRoundTrip` | src/ics_deception/pqc_evidence/canonicalizer.py:151-163 | For both printing styles of the package, parsing a printed value gives exactly that value. |
| `JsonGrammar.DocumentGrammar` | src/ics_deception/pqc_evidence/models.py:482-523 | A text is read as a value iff the JSON grammar, with Python's three constants, spells that value so: every escape, number form and blank, and nothing else. |
| `JsonGrammar.OneMeaning` | src/ics_deception/pqc_evidence/models.py:482-523 | That grammar is unambiguous. |
| `JsonCanonical.SortedDecidesEquality` | src/ics_deception/pqc_evidence/canonicalizer.py:151-163 | Key-sorting is a normal form: two values sort alike iff they are equal, dict order ignored and with no coercion between bool and int. |
| `JsonCanonical.CanonicalRoundTrip` | src/ics_deception/pqc_evidence/canonicalizer.py:106-179 | Every accepted value has a canonical text, with the keys of every object in code point order; parsing it gives an equal value, and printing that value again gives the same text. |
| `JsonCanonical.CanonicalInjective` | src/ics_deception/pqc_evidence/canonicalizer.py:151-179 | Two accepted values have the same canonical text iff they are equal values. |
| `JsonCanonical.AcceptedMeans` | src/ics_deception/pqc_evidence/canonicalizer.py:83-148 | A value is accepted iff it holds no float, no text over 1,000,000 characters and no more than 32 levels. |
| `JsonShortest.CanonicalIsShortest` | src/ics_deception/pqc_evidence/canonicalizer.py:151-163 | No JSON text of an accepted value is shorter than its canonical text. |
| `JsonShortest.EscapesLower` | src/ics_deception/pqc_evidence/canonicalizer.py:151-163 | A character is written as itself or by an escape without capitals, so with the length one spelling is left. |
| `JsonCanonical.PrintClean` | src/ics_deception/pqc_evidence/canonicalizer.py:151-163 | Printed text holds no control character, so no newline; the journal style prints ASCII only. |
| `JsonTorn.TornObject` | src/ics_deception/pqc_evidence/evidence_store.py:344-363 | No proper prefix of a printed object is a JSON document. |
| `ModelsLaws.LineReadsBack` | src/ics_deception/pqc_evidence/models.py:276-280 | A record's line is the canonical text of its envelope and parses to the sorted envelope. |
| `ModelsLaws.LineRoundTrip` | src/ics_deception/pqc_evidence/models.py:388-523 | Strictly parsing the line of any well-formed record (within the size limit) accepts it and returns that record, event keys sorted. |
| `ModelsLaws.SortedDepth` | src/ics_deception/pqc_evidence/models.py:212-217 | Sorting keys changes no nesting depth, so a re-read event passes the same depth limit. |
| `EventRules.EventAccepted` | src/ics_deception/pqc_evidence/models.py:193-217 | An event is accepted iff it is a canonicalizable object of at most 65,536 bytes with at most 15 levels under it; it is oversized iff only its bytes are looked at and too many. |
| `EventRules.NewlineSlips` | src/ics_deception/pqc_evidence/models.py:161-183 | Identifiers and hashes match their patterns, or do so before one final newline, and only so. |
| `EventRules.BuildRefusals` | src/ics_deception/pqc_evidence/models.py:336-386 | Which records cannot be built for their algorithm, and which for their size. |
| `StrictParsing.ParsesExactly` | src/ics_deception/pqc_evidence/models.py:388-523 | Strict parsing gives a record iff the record is well formed and the text holds just its eleven fields, each once, in any order and spelling, within the limits. |
| `StrictParsing.RefusedForAlgorithm` | src/ics_deception/pqc_evidence/models.py:388-462 | A text is refused for its algorithm iff it has the right fields and version and names a signature or hash algorithm not supported. |
| `EventRules.RefusedForSize` | src/ics_deception/pqc_evidence/models.py:465-523 | A text is refused for its size iff it is too long as it comes, or in its event, or as a canonical line. |
| `EventRules.LineRefused` | src/ics_deception/pqc_evidence/collector.py:202-222 | A line that is no record gets one code: oversized, unsupported algorithm, or else malformed, each exactly in its case. |
| `ModelsSizes.LineBound` | src/ics_deception/pqc_evidence/models.py:69-82 | A record with a 65,536-byte event and an ML-DSA signature is a line of at most 115,000 bytes. |
| `Signer.SignedIsGenuine` | src/ics_deception/pqc_evidence/signer.py:268-296 | Whatever the signer builds is well formed, carries its own hash, verifies under the public half of its key, and has the sequence, link, event, time, key and algorithm it was given. What hash and signature cover is `HashBinding.HashBindsFields` and `HashBinding.SignatureBindsFields`. |
| `Signer.PayloadsIgnoreSeals` | src/ics_deception/pqc_evidence/models.py:282-297 | The hash payload depends on neither hash nor signature; the signing payload does not depend on the signature. |
| `Signer.PayloadsReadBack` | src/ics_deception/pqc_evidence/models.py:282-297 | The record read back from a line has the hash payload and signing payload of the one written. |
| `HashBinding.HashBindsFields` | src/ics_deception/pqc_evidence/event_chain.py:79-85 | Two well-formed records have the same hash payload iff all nine hashed fields agree, events as dicts with no coercion: the payload covers every field but the hash and the signature, and nothing else. |
| `HashBinding.SignatureBindsFields` | src/ics_deception/pqc_evidence/models.py:288-297 | Two well-formed records have the same signed bytes iff all nine hashed fields and the hash agree: the signature covers everything but itself. |
| `Authenticity.AcceptedWereSigned` | src/ics_deception/pqc_evidence/verifier.py:235-272 | Short of a forged signature, every record of an accepted stream is one the holder of its key signed, field for field. |
| `ModelsLaws.GenesisApart` | src/ics_deception/pqc_evidence/event_chain.py:56-59 | What the genesis hash is taken of differs for every two nodes, and from what any record's hash is taken of. |
| `HashBinding.ParsedWellFormed` | src/ics_deception/pqc_evidence/models.py:388-523 | Whatever strict parsing accepts is a well-formed record. |
| `KeyRegistry.Registry.Insert` | src/ics_deception/pqc_evidence/key_registry.py:224-240 | Adds exactly the new record, or refuses for the reason the registry gives and changes nothing. |
| `KeyRegistry.Registry.Register` | src/ics_deception/pqc_evidence/key_registry.py:344-386 | The records and the outcome after a registration: an empty key or an unreadable time is refused, times are stored normalised and the key in base64, and the old key is demoted before the insertion that may fail. |
| `KeyRegistry.Registry.Rotate` | src/ics_deception/pqc_evidence/key_registry.py:404-410 | The records and the outcome after a rotation. |
| `KeyRegistry.Registry.Revoke` | src/ics_deception/pqc_evidence/key_registry.py:388-396 | The records and the outcome after a revocation; a blank reason is refused. |
| `KeyRegistry.Registry.Disable` | src/ics_deception/pqc_evidence/key_registry.py:398-402 | The records and the outcome after disabling a key. |
| `KeyRegistry.ActiveIndex` | src/ics_deception/pqc_evidence/key_registry.py:330-342 | The active record of the node that was activated last, the first registered of equals; none iff the node has no active record. |
| `RegistryTheorems.LifecycleHealthy` | src/ics_deception/pqc_evidence/key_registry.py:224-410 | From an empty registry, any run of register, rotate, revoke and disable keeps key ids and public keys distinct and at most one active key per node. |
| `RegistryTheorems.LifecycleKept` | src/ics_deception/pqc_evidence/key_registry.py:344-410 | Whatever times and keys callers give, any run of the four operations keeps only valid records, with a key that is not empty and times normalised. |
| `RegistryTheorems.FailedRegister` | src/ics_deception/pqc_evidence/key_registry.py:379-386 | A refused registration leaves the registry unchanged iff there was no active key of the node to demote (or the request was invalid). |
| `RegistryTheorems.RefusedYetDemoted` | src/ics_deception/pqc_evidence/key_registry.py:379-386 | Registering an active key twice is refused and leaves the node with no active key. |
| `RegistryTheorems.RotateKeepsReports` | src/ics_deception/pqc_evidence/key_registry.py:404-484 | Rotating a key leaves the whole report on every stream of already registered keys as it was. |
| `RegistryTheorems.WithdrawVerdict` | src/ics_deception/pqc_evidence/key_registry.py:388-402 | After a key is revoked or disabled a stream is valid iff it was valid before and uses no record of that key. |
| `RegistryTheorems.InsertMeans` | src/ics_deception/pqc_evidence/key_registry.py:224-240 | An insertion is a conflict, a repeated identifier or a shared key iff some record makes it one; else the record stands last. |
| `RegistryTheorems.RegisterMeans` | src/ics_deception/pqc_evidence/key_registry.py:344-386 | A key just registered as active is usable for its node and algorithm exactly from the activation asked for, or from now, to the expiry asked for. |
| `RegistryTheorems.RotateMeans` | src/ics_deception/pqc_evidence/key_registry.py:404-410 | A rotation is refused iff the node has no key; after one that succeeds the new key is active, the one that was is rotated, and nothing else changed. |
| `RegistryTheorems.RevokeMeans` | src/ics_deception/pqc_evidence/key_registry.py:388-396 | Revoking fails iff the key is unknown or the reason blank, and touches no other key. |
| `RegistryTheorems.DisableMeans` | src/ics_deception/pqc_evidence/key_registry.py:398-402 | Disabling fails iff the key is unknown, keeps all but the state, and touches no other key. |
| `SignatureRules.UsableMeans` | src/ics_deception/pqc_evidence/key_registry.py:420-484 | A key is usable iff it is registered for that node and algorithm, active or rotated, and the time is neither before its activation nor after its expiry. |
| `SignatureRules.UnknownCodes` | src/ics_deception/pqc_evidence/key_registry.py:428-441 | The codes for a key that is not registered, and iff its node has no key at all. |
| `SignatureRules.KeyCodes` | src/ics_deception/pqc_evidence/key_registry.py:443-484 | Of a registered key each broken condition raises its own code, and no other. |
| `SignatureRules.CodesInOrder` | src/ics_deception/pqc_evidence/verifier.py:192-211 | A record's own errors come once each and in one fixed order, hash before key before signature, so the list is known from which there are. |
| `Verifier.VerificationResult.AddError` | src/ics_deception/pqc_evidence/verifier.py:111-117 | Adds a code once and makes the result invalid. |
| `Verifier.ChainPosition.Advance` | src/ics_deception/pqc_evidence/event_chain.py:118-127 | The cursor after a record, holding the hash it is handed. |
| `Verifier.EvidenceVerifier.CheckEventHash` | src/ics_deception/pqc_evidence/verifier.py:213-220 | Adds a mismatch iff the recomputed hash differs from the claimed one. |
| `Verifier.EvidenceVerifier.CheckKey` | src/ics_deception/pqc_evidence/verifier.py:222-233 | Adds every reason the registry gives against the key at the record's own time; when there is none, and which there are, is `SignatureRules.UsableMeans` and `SignatureRules.KeyCodes`. |
| `Verifier.EvidenceVerifier.CheckSignature` | src/ics_deception/pqc_evidence/verifier.py:235-272 | Adds an invalid signature iff the key is unknown or its verification of the signed bytes fails; what those bytes bind is `HashBinding.SignatureBindsFields`. |
| `Verifier.EvidenceVerifier.CheckChain` | src/ics_deception/pqc_evidence/verifier.py:274-317 | Adds exactly the gap, duplicate, reset and link errors of a record at a cursor. |
| `Verifier.EvidenceVerifier.VerifyEvent` | src/ics_deception/pqc_evidence/verifier.py:192-211 | All errors of a record on its own, in order; valid iff none. |
| `Verifier.EvidenceVerifier.VerifyLine` | src/ics_deception/pqc_evidence/verifier.py:173-190 | The parsed event or the one error its reason maps to. |
| `SignatureRules.SoundMeans` | src/ics_deception/pqc_evidence/verifier.py:173-272 | A line is sound on its own iff it parses to a record with its own hash, a registered key trusted for it at its time, and a signature that key verifies. |
| `SignatureRules.SignatureCode` | src/ics_deception/pqc_evidence/verifier.py:235-272 | An invalid signature is reported iff the public key cannot be had or does not verify the record's signed bytes. |
| `Collector.NodeTracker.Note` | src/ics_deception/pqc_evidence/collector.py:98-142 | The replay errors of a record and the tracker after it, exhaustion included. |
| `Collector.EvidenceCollector.Record` | src/ics_deception/pqc_evidence/collector.py:281-289 | Counts every code and keeps the result, up to the limit. |
| `Collector.EvidenceCollector.VerifyRecord` | src/ics_deception/pqc_evidence/collector.py:226-246 | One record against its own node's tracker: the errors added, and every tracker after it. |
| `Collector.EvidenceCollector.VerifyStream` | src/ics_deception/pqc_evidence/collector.py:191-254 | The loop over mutable trackers computes the fold that the stream theorems speak of. |
| `ReportTheorems.ReportTells` | src/ics_deception/pqc_evidence/collector.py:191-289 | After any stream the report counts the lines, those that raised nothing, those that did, those that are no record, and for each code the lines that raised it; and holds the errors of the first lines, up to its limit. |
| `StreamTheorems.CursorDecides` | src/ics_deception/pqc_evidence/collector.py:226-246 | At the end of a gap-free chain a record raises no stream error iff it continues that chain. |
| `StreamTheorems.ExactAcceptance` | src/ics_deception/pqc_evidence/collector.py:98-254 | A stream is reported valid iff every nonblank line is sound on its own and, however nodes interleave, each node's records are one gap-free chain from its genesis of at most 1,000,000 distinct hashes. |
| `StreamCodes.CodesAtLine` | src/ics_deception/pqc_evidence/collector.py:98-142 | For any records of a node, in any order and however often: which of gap, reset, duplicate, replay and link error line i raises, told from the records before it; hash mismatch iff its hash is wrong. |
| `StreamCodes.DeletionShows` | src/ics_deception/pqc_evidence/verifier.py:274-317 | Deleting record k of a clean stream: a gap at every line from k on, and no duplicate, reset or replay anywhere. |
| `StreamCodes.ReplayShows` | src/ics_deception/pqc_evidence/collector.py:98-142 | Repeating an earlier record inside a clean stream raises duplicate and replay there, no gap, and a reset iff it was the first. |
| `TamperTheorems.TamperLocalised` | src/ics_deception/pqc_evidence/collector.py:226-246 | Replacing record k of a clean chain by any well-formed record with its node and sequence: no gap, duplicate or reset anywhere; hash mismatch only at k and iff its hash is wrong; link mismatch at k iff its link changed and at k+1 iff its recomputed hash changed; nowhere else. |
| `HashBinding.ChangeShows` | src/ics_deception/pqc_evidence/verifier.py:274-317 | Where the two records do not collide, a record put in place of record k, with its node and number, makes the link error at k+1 iff some hashed field was changed. |
| `HashBinding.ChangeReported` | src/ics_deception/pqc_evidence/collector.py:226-246 | Where the two records do not collide, replacing record k by any parsed record, of any node and number, with a hashed field changed is reported at k or at k+1. |
| `TamperTheorems.ReportedAlerts` | src/ics_deception/pqc_evidence/collector.py:281-289 | The errors the theorem speaks of are those in the report. |
| `TamperTheorems.OnlyPrefixesAccepted` | src/ics_deception/pqc_evidence/collector.py:191-254 | A stream drawn in any order and with repetition from one clean chain is accepted iff it is a prefix of it. |
| `TamperTheorems.PrefixAccepted` | src/ics_deception/pqc_evidence/collector.py:191-254 | Every prefix of an accepted stream is accepted: truncation at the end is what the reader cannot see. |
| `StoreLaws.JournalReadsBack` | src/ics_deception/pqc_evidence/evidence_store.py:614-634 | A whole journal says what was written into it to its own node, and is foreign to any other. |
| `StoreLaws.JournalTorn` | src/ics_deception/pqc_evidence/evidence_store.py:344-363 | A journal cut short anywhere is unreadable. |
| `StoreLaws.JournalBound` | src/ics_deception/pqc_evidence/evidence_store.py:347-351 | No journal of a record the signer can build, cut anywhere, exceeds the 1 MiB that recovery refuses. |
| `StoreLaws.LogReadsBack` | src/ics_deception/pqc_evidence/evidence_store.py:458-482 | Splitting a log of records into lines gives exactly their lines. |
| `StoreLaws.TailIsLast` | src/ics_deception/pqc_evidence/evidence_store.py:458-486 | The log's tail, as recovery reads it, is the last record's number and hash. |
| `StoreLaws.LoggedMeans` | src/ics_deception/pqc_evidence/evidence_store.py:466-481 | A line counts as a record iff it is an object naming the node, with a text for a hash and an integer, or a boolean, for a number. |
| `StoreLaws.LastLoggedMeans` | src/ics_deception/pqc_evidence/evidence_store.py:458-486 | The tail is the last line that counts, whatever is between and after. |
| `StoreLaws.ForeignIgnored` | src/ics_deception/pqc_evidence/evidence_store.py:475-480 | Another node's record does not count. |
| `StoreLaws.TornIgnored` | src/ics_deception/pqc_evidence/evidence_store.py:470-474 | Nor does a record cut short anywhere. |
| `RecoveryRules.JournalMeans` | src/ics_deception/pqc_evidence/evidence_store.py:344-376 | For any text as a journal: unreadable, usable, broken or not of this node, each exactly when; and the entry it names. |
| `RecoveryRules.JournalStops` | src/ics_deception/pqc_evidence/evidence_store.py:344-422 | Every way a journal can stop recovery, each iff its condition on text, log and state, and then nothing has been done. |
| `RecoveryRules.JournalActs` | src/ics_deception/pqc_evidence/evidence_store.py:356-422 | What recovery does with any other journal: finish the append it names, undo it, or throw the journal away. |
| `EvidenceStore.Files.Do` | src/ics_deception/pqc_evidence/evidence_store.py:514-524 | One durable effect on log, state or journal, recorded in order. |
| `EvidenceStore.EvidenceStore.Acquire` | src/ics_deception/pqc_evidence/evidence_store.py:199-227 | Succeeds iff already held or free. |
| `EvidenceStore.EvidenceStore.Release` | src/ics_deception/pqc_evidence/evidence_store.py:244-253 | Frees the lock and keeps the remembered state. |
| `EvidenceStore.EvidenceStore.ReadState` | src/ics_deception/pqc_evidence/evidence_store.py:271-296 | From memory if remembered, else the validated file or a zero state; what it returns is remembered. Memory that agrees with the file goes on agreeing, here and in every method below. |
| `EvidenceStore.EvidenceStore.WriteState` | src/ics_deception/pqc_evidence/evidence_store.py:298-326 | Replaces the state whole and remembers it. |
| `EvidenceStore.EvidenceStore.CompleteOrUndo` | src/ics_deception/pqc_evidence/evidence_store.py:372-422 | Makes exactly the effects of finishing or undoing the journalled append. |
| `EvidenceStore.EvidenceStore.ReplayJournal` | src/ics_deception/pqc_evidence/evidence_store.py:344-422 | Makes exactly the effects, and ends with the error, of replaying a journal of any content. |
| `EvidenceStore.EvidenceStore.LastLoggedRecord` | src/ics_deception/pqc_evidence/evidence_store.py:458-482 | The loop finds the last complete record of this node. |
| `EvidenceStore.EvidenceStore.CheckStateAgainstLog` | src/ics_deception/pqc_evidence/evidence_store.py:424-456 | Refuses, adopts or accepts, with exactly those effects, and remembers what it read or adopted. |
| `EvidenceStore.EvidenceStore.Recover` | src/ics_deception/pqc_evidence/evidence_store.py:328-342 | Recovery's effects and error, as the plan the theorems speak of; once it succeeds the recovered state is remembered. |
| `EvidenceStore.EvidenceStore.WriteJournal` | src/ics_deception/pqc_evidence/evidence_store.py:614-634 | Truncates, then writes any prefix of the journal. |
| `EvidenceStore.EvidenceStore.AppendBytes` | src/ics_deception/pqc_evidence/evidence_store.py:578-583 | Appends any prefix of the record's bytes, in order. |
| `EvidenceStore.EvidenceStore.Rollback` | src/ics_deception/pqc_evidence/evidence_store.py:636-641 | Cuts the log back to the offset if it grew, and drops the journal. |
| `EvidenceStore.EvidenceStore.Commit` | src/ics_deception/pqc_evidence/evidence_store.py:594-612 | The state write and the journal drop, with each way they can be cut short, and what is remembered then. |
| `EvidenceStore.EvidenceStore.AppendSigned` | src/ics_deception/pqc_evidence/evidence_store.py:527-612 | One append, with every way to stop in it: its effects are the plan's, and when it succeeds the number and hash it answers are those of the state it left. |
| `EvidenceStore.EvidenceStore.RepairFromLog` | src/ics_deception/pqc_evidence/evidence_store.py:664-695 | Writes the log's tail as the state, or refuses; never compares the two. |
| `Recovery.RecoverMends` | src/ics_deception/pqc_evidence/evidence_store.py:328-456 | Recovery of any disk a crash can leave succeeds, and its effects are the mending of that disk. |
| `Recovery.MendingHolds` | src/ics_deception/pqc_evidence/evidence_store.py:344-422 | After any number of recovery's effects the disk is again one a crash can leave, the chain has not shrunk, and at the end no journal is left. |
| `Recovery.RecoveryConverges` | src/ics_deception/pqc_evidence/evidence_store.py:328-456 | Recovery cut short anywhere and run again by any process ends in the files of one uninterrupted recovery; a finished one changes nothing. |
| `Transaction.SafeAppend` | src/ics_deception/pqc_evidence/evidence_store.py:527-612 | An append may stop after any of its effects, each byte of journal and record included. |
| `Transaction.SafeRecovery` | src/ics_deception/pqc_evidence/evidence_store.py:328-456 | Recovery may stop after any of its effects. |
| `Transaction.SafeRollback` | src/ics_deception/pqc_evidence/evidence_store.py:636-641 | The rollback of a failed append may stop after any of its effects. |
| `Protocol.AttemptFits` | src/ics_deception/pqc_evidence/evidence_store.py:545-574 | On a recovered store the record an append builds continues the chain, and its journal entry names it at the log's end. |
| `Protocol.StepKeeps` | src/ics_deception/pqc_evidence/evidence_store.py:199-641 | Every step of every process (lock, recover, one effect, begin, acknowledge, fail, crash) keeps the invariant and never shrinks the chain. |
| `ProtocolTheorems.LogHoldsChain` | src/ics_deception/pqc_evidence/evidence_store.py:344-612 | In every reachable state the log is the complete records 1..n and at most a prefix of one more, which a whole journal names at that offset; the state claims n exactly. |
| `ProtocolTheorems.RunGrows` | src/ics_deception/pqc_evidence/evidence_store.py:527-612 | From any point of a run on, the committed chain only grows and acknowledgements are only added. |
| `ProtocolTheorems.AcknowledgedIsDurable` | src/ics_deception/pqc_evidence/evidence_store.py:527-612 | Once an append has returned, its record lies whole at its offset in every later state, and the state counts it. |
| `ProtocolTheorems.NeverReissued` | src/ics_deception/pqc_evidence/evidence_store.py:545-552 | Acknowledged numbers strictly increase, and no append in progress has one of them. |
| `ProtocolTheorems.TruncationSpares` | src/ics_deception/pqc_evidence/evidence_store.py:514-518 | No truncation in recovery or rollback is past the end of the log or below an acknowledged record. |
| `ProtocolTheorems.OneWriter` | src/ics_deception/pqc_evidence/evidence_store.py:199-227 | No two processes are ever at work on the files at once. |
| `ProtocolTheorems.AlwaysRecovers` | src/ics_deception/pqc_evidence/evidence_store.py:328-456 | After any run recovery succeeds, converges however often it is cut short, and leaves one chain with matching state and no journal. |
| `Outcome.AppendOutcome` | src/ics_deception/pqc_evidence/evidence_store.py:545-612 | A whole append adds exactly the record to the log, replaces the state and leaves no journal. |
| `Outcome.RollbackOutcome` | src/ics_deception/pqc_evidence/evidence_store.py:636-641 | A rollback leaves exactly the log the append found. |
| `Outcome.AppendCompletes` | src/ics_deception/pqc_evidence/evidence_store.py:527-612 | A process left alone after beginning an append completes it and reports it. |
| `StoreRefinement.AppendIsAttempt` | src/ics_deception/pqc_evidence/signer.py:251-296 | A store that answers what its file would makes, with the signer's callback, the effects the protocol begins, or none and an error, whatever it remembers. |
| `StoreRefinement.AnswerIsAcknowledged` | src/ics_deception/pqc_evidence/evidence_store.py:545-612 | In every reachable state the number and hash an append answers are those the protocol acknowledges, of the log's last record, and of the state left, under the signer's key. |
| `StoreRefinement.CoherentReads` | src/ics_deception/pqc_evidence/evidence_store.py:271-296 | On any files a run can leave, memory that agrees with the state file answers what the file would. |
| `StoreRefinement.ReadyStoreBegins` | src/ics_deception/pqc_evidence/evidence_store.py:545-612 | In every reachable state, an append by a recovered process begins exactly the effects of the store's append, for any memory that agrees with the file. |
| `StoreRefinement.MishapIsPrefix` | src/ics_deception/pqc_evidence/evidence_store.py:561-612 | Any mishap but a failed record write stops the append after a prefix of its effects. |
| `StoreRefinement.FailedWriteUndone` | src/ics_deception/pqc_evidence/evidence_store.py:578-593 | A failed record write leaves log and state as they were, and no journal. |
| `StoreRefinement.EveryMishapRecovers` | src/ics_deception/pqc_evidence/evidence_store.py:527-641 | However an append ends, recovery copes with what it leaves and no committed record is lost. |
| `Signer.SigningSucceeds` | src/ics_deception/pqc_evidence/signer.py:268-296 | Signing succeeds iff validation accepts the algorithm, the time, both identifiers, the sequence, the link and the event. |
| `Consistency.FirstRecordAcknowledged` | src/ics_deception/pqc_evidence/evidence_store.py:527-612 | Some run of the protocol acknowledges a record: on a new store, record 1 at offset 0. |
| `Hazards.UnrecoveredReuse` | src/ics_deception/pqc_evidence/evidence_store.py:545-548 | An append that skips recovery issues a number a whole record in the log has iff the journal names a whole record the state does not count. |
| `Hazards.StateAgainstLog` | src/ics_deception/pqc_evidence/evidence_store.py:424-456 | With no journal and state and log at any two places of one chain: recovery refuses iff the log is behind; it ends without error and with the state at the log's end iff the log is not behind and the state is past 0 or the log is empty; at 0 it does nothing and the next number is 1. |
| `StaleStore.StaleRecovery` | src/ics_deception/pqc_evidence/evidence_store.py:244-253 | A released store that is used again, remembering an earlier place of the chain: recovery succeeds and leaves chain and state whole, and the store goes on from the end of the chain iff it remembers a place past 0, or the journal names a whole record past it, or the chain is empty; else it issues number 1 again. |
| `Hazards.RepairAfterLoss` | src/ics_deception/pqc_evidence/evidence_store.py:664-695 | After such a loss the repair rewinds the state to what is left, so signed numbers are reissued; with nothing left it refuses. |
| `Hazards.RepairFollowsTail` | src/ics_deception/pqc_evidence/evidence_store.py:664-695 | The repaired state is the log's tail, number, hash and all, and is behind the old one iff the tail is. |
| `Hazards.RepairRefuses` | src/ics_deception/pqc_evidence/evidence_store.py:664-685 | A repair is refused iff the log shows no record of the node and the state is good and past 0; a state that cannot be read does not stop it. |
| `Hazards.RepairReadable` | src/ics_deception/pqc_evidence/evidence_store.py:686-695 | A repaired state can be read again iff the store has a node and a key and the tail has a number of at least 1 and a SHA3-256 hash. |
| `EndToEnd.LogVerifies` | src/ics_deception/pqc_evidence/collector.py:191-254 | The log of a genuine chain, read by a reader that knows its keys, is accepted iff it has at most 1,000,000 records. |
| `EndToEnd.EveryRunVerifies` | src/ics_deception/pqc_evidence/evidence_store.py:328-612 | After any run of any number of signers, crashed anywhere, and one recovery, the log is one chain that the reader reports valid (up to 1,000,000 records). |
| `SigningLog.LoadedIsPython` | src/ics_deception/pqc_evidence/signer.py:339-346 | A value read from JSON text repeats no key, whatever the text did. |
| `SigningLog.LoadedKeepsLast` | src/ics_deception/pqc_evidence/signer.py:339-346 | Of a key repeated in a line the last value is signed. |
| `SigningLog.TakesWithin` | src/ics_deception/pqc_evidence/signer.py:330-349 | The events taken from a source are objects, no more than asked for, and every line passed is counted once. |
| `SigningLog.TakesExactly` | src/ics_deception/pqc_evidence/signer.py:330-349 | The lines read are the first n: skipped counts the blank ones, errors those that hold no object, the events are the objects of the rest in order, and it stops only at the end or at a nonblank line with as many as asked for. |
| `SigningLog.EvidenceSigner.Transact` | src/ics_deception/pqc_evidence/signer.py:251-266 | One event: refused iff there is nothing to link to or building it is refused, and then files and memory are as they were; else exactly one line added, the record built at the next place. |
| `SigningLog.EvidenceSigner.SignLines` | src/ics_deception/pqc_evidence/signer.py:298-349 | The interleaved loop signs the events taken, in order, each linked to the one before: all of them, or those before the first that is refused. |
| `SigningLog.EvidenceSigner.Session` | src/ics_deception/pqc_evidence/signer.py:312-356 | One hold of the lock: recovery's effects and error, then the batch, whole or broken off; and the lock is free again. |
| `SigningLog.EvidenceSigner.SignLog` | src/ics_deception/pqc_evidence/signer.py:298-356 | The batch starts from the state recovery left. With or without a refused event, a chain found, at rest or cut short anywhere, is left as that chain mended, continued by the records and at rest. It succeeds iff every event taken is signable at its place and moment, and then its counts and first and last numbers are those of the records; else the records are those of the events before the first that is not. |
| `SigningLog.BatchWhole` | src/ics_deception/pqc_evidence/signer.py:268-310 | On a chain a batch is whole iff each event taken passes validation at its place, which a caller can check beforehand. |
| `SigningLog.FractionLosesRest` | src/ics_deception/pqc_evidence/signer.py:317-349 | A line such as {"a":1.5} is an object, so not an error of its line, and no batch that takes it gets past it. |
| `SigningLog.BatchContinues` | src/ics_deception/pqc_evidence/signer.py:298-310 | Records signed in order from the end of a chain continue it, and log and state fit the longer chain. |
| `StateStore.StateStore.Read` | src/ics_deception/pqc_evidence/state_store.py:251-282 | The validated file or a zero state, remembered. |
| `StateStore.StateStore.Commit` | src/ics_deception/pqc_evidence/state_store.py:313-339 | Writes the next place after the remembered one, or refuses and leaves the file; file, memory and answer in each case, what a refused call has read included. |
| `StateStore.StateStore.RecoverFrom` | src/ics_deception/pqc_evidence/state_store.py:352-374 | Reads again, then moves forward or refuses; file, memory and answer in each case. |
| `StateStore.StateStore.Reset` | src/ics_deception/pqc_evidence/state_store.py:341-350 | Writes a zero state and remembers it. |
| `StateStore.CommitMoves` | src/ics_deception/pqc_evidence/state_store.py:313-339 | A commit is refused iff its number is not the one after what is remembered, or else held; if not, the file is at that number, hash, node and key. |
| `StateStore.RecoveryMoves` | src/ics_deception/pqc_evidence/state_store.py:352-374 | A recovery is refused iff its number is before the file's; if not, the file is at that number, hash and key. |
| `StateStore.ResetBeginsAgain` | src/ics_deception/pqc_evidence/state_store.py:341-350 | After a reset every object that has not read finds the chain empty and may commit number 1. |
| `StateStore.WrittenReadsBack` | src/ics_deception/pqc_evidence/state_store.py:251-374 | What a commit or a recovery wrote, any object of the node reads back, if it is the place of a record. |
| `StateStore.CommitRewinds` | src/ics_deception/pqc_evidence/state_store.py:313-339 | A commit puts the file at a place already reached iff the object remembers an older place than the file holds. |
| `StateStore.StepRepeats` | src/ics_deception/pqc_evidence/state_store.py:313-374 | A call moves the file back, or commits the number it already holds, iff it is a reset of a begun chain or a commit that follows memory while the file is past it. |
| `StateStore.NeverBack` | src/ics_deception/pqc_evidence/state_store.py:313-374 | Over any run of reads, commits, recoveries and resets by many objects: the file never goes back and no commit takes a number it held before iff no call of the run is of that kind. |
| `StateStore.RefusedCallReuses` | src/ics_deception/pqc_evidence/state_store.py:313-339 | An object whose first call only read, or was refused, commits number 1 again after another has reached 2. |
| `StateStore.Reuse` | src/ics_deception/pqc_evidence/state_store.py:313-339 | The same run on two objects and one file ends at place 1. |
| `Archive.SummariseEvidence` | src/ics_deception/pqc_evidence/archive.py:386-419 | The first pass: count, least and greatest sequence, last claimed hash, nodes. |
| `Archive.StreamLines` | src/ics_deception/pqc_evidence/archive.py:432-438 | The second pass sees exactly the nonblank lines, stripped. |
| `Archive.VerifyEvidence` | src/ics_deception/pqc_evidence/archive.py:977-1009 | The six trust facts of the registry branch. |
| `ArchiveTheorems.SummaryMeans` | src/ics_deception/pqc_evidence/archive.py:386-419 | Of evidence that parses: the count, the nodes, the last hash, and the least and greatest sequence. |
| `ArchiveFacts.FactsSeparate` | src/ics_deception/pqc_evidence/archive.py:440-455 | Each of the three facts about the evidence holds iff none of its own codes was raised, whatever the others say. |
| `ArchiveFacts.SignaturesMean` | src/ics_deception/pqc_evidence/archive.py:449-452 | The signature fact says that every record was signed by a registered key trusted for it at its time, and nothing about the chain. |
| `ArchiveFacts.ChainMeans` | src/ics_deception/pqc_evidence/archive.py:452-455 | The chain fact of one node's records says that each has the hash it claims and that they are one chain from the genesis, and nothing about keys. |
| `ArchiveTheorems.RecordCovered` | src/ics_deception/pqc_evidence/archive.py:449-455 | With validated registry records and room to track, every error of a parsed record is in one of the two sets of codes. |
| `ArchiveTheorems.VerdictShows` | src/ics_deception/pqc_evidence/archive.py:440-455 | Up to 1,000,000 records the stream is valid iff nothing is malformed and neither set of codes occurs. |
| `ArchiveTheorems.ShortTrust` | src/ics_deception/pqc_evidence/archive.py:311-323 | Up to 1,000,000 records, fully verified iff the stream reader accepts the evidence, it is one gap-free chain of the manifest's node, and the manifest gives first 1, last and count its length, and the recomputed hash of its last record. |
| `ArchiveTrust.FullTrust` | src/ics_deception/pqc_evidence/archive.py:311-323 | For evidence of any length, fully verified iff every record is sound, they are one numbered and linked chain of the manifest's node, none claiming the hash of an earlier one among the first 1,000,000, and the manifest describes it. |
| `ArchiveTrust.VerdictApart` | src/ics_deception/pqc_evidence/archive.py:440-455 | The evidence of a fully verified archive is reported valid by the stream reader iff it has at most 1,000,000 records. |
| `ArchiveTrust.LongDecides` | src/ics_deception/pqc_evidence/collector.py:98-142 | At the end of a chain of any length a record raises none of the codes the archive looks for iff it continues that chain. |
| `ArchiveTrust.ExhaustedOnce` | src/ics_deception/pqc_evidence/collector.py:130-142 | A chain is reported as too long to track at record 1,000,001, and there alone. |
| `Modbus.Look` | src/native/modbus_honeypot.cpp:370-402 | A frame at the front of a buffer is 8 to 260 bytes with a PDU of 1 to 253; an incomplete front is under 260. |
| `ModbusWire.FrameIsAdu` | src/native/modbus_honeypot.cpp:370-402 | A frame is found at the front of a buffer iff the buffer starts with the bytes of one that can be served, and its size is theirs. |
| `ModbusWire.FaultIsFinal` | src/native/modbus_honeypot.cpp:376-399 | A front is faulty iff it holds a whole header and no continuation of it starts with a frame. |
| `ModbusTheorems.DrainAhead` | src/native/modbus_honeypot.cpp:370-445 | What is drained from a buffer stays drained whatever follows; the rest is looked at again with it. |
| `ModbusTheorems.ChunkingIrrelevant` | src/native/modbus_honeypot.cpp:363-475 | However a stream is cut into chunks of 1 to 1024 bytes, the native server dispatches the frames and the fault of one pass over it, keeps at most 259 bytes, and never overflows. |
| `ModbusTheorems.BufferBound` | src/native/modbus_honeypot.cpp:363-475 | Its buffer never exceeds 1283 bytes. |
| `ModbusTheorems.TwinsAgree` | src/ics_deception/honeypots/modbus_server.py:105-187 | From one stream, cut by each server in its own way, both dispatch the same frames and end the same way iff no chunk the Python server got exceeds, with the partial frame before it, 1040 bytes. |
| `ModbusTheorems.ShortChunksAgree` | src/ics_deception/honeypots/modbus_server.py:105-187 | So they agree whenever no chunk is longer than 781 bytes. |
| `ModbusTheorems.PythonOverflows` | src/ics_deception/honeypots/modbus_server.py:124-134 | The Python server gives up for overflow iff some chunk and the partial frame before it exceed 1040 bytes together. |
| `ModbusTheorems.TwinsDiffer` | src/ics_deception/honeypots/modbus_server.py:124-134 | 87 pipelined requests arriving at once: the native server answers all, the Python server none. |
| `ModbusTheorems.AduReadsBack` | src/native/modbus_honeypot.cpp:139-149 | A frame built around a PDU reads back with its identifiers, whatever follows it. |
| `ModbusTheorems.ReplyReadsBack` | src/native/modbus_honeypot.cpp:319-342 | Every reply is at most 260 bytes and reads back with the request's transaction and unit. |
| `ModbusTheorems.RefusalChangesNothing` | src/native/modbus_honeypot.cpp:153-159 | A refused request changes no cell and gets a nine-byte exception. |
| `ModbusTheorems.BuiltRequestsUnderstood` | src/ics_deception/common/modbus.py:146-167 | The request builders' frames are understood as what they ask, or refused for their range alone. |
| `ModbusWire.CommandOf` | src/native/modbus_honeypot.cpp:161-317 | What every request PDU of the five codes asks for, read byte by byte, FC05 by 0xFF00 and 0x0000. |
| `ModbusWire.Refusals` | src/native/modbus_honeypot.cpp:153-317 | Every other request is answered by its code with the high bit set and one exception, unknown function before wrong value before wrong address, and changes nothing. |
| `ModbusWire.ReadsCoils` | src/native/modbus_honeypot.cpp:170-200 | FC01 answers bit for bit the coils asked for. |
| `ModbusWire.ReadsRegisters` | src/native/modbus_honeypot.cpp:202-227 | FC03 answers word for word the registers asked for. |
| `ModbusWire.CellsAfter` | src/native/modbus_honeypot.cpp:229-317 | Every coil and register after any request, told from the bytes of the request; a write is answered by its own first five bytes. |
| `ModbusWire.LastWriteStays` | src/native/modbus_honeypot.cpp:229-317 | After any run of requests every cell holds what the last legal request that wrote it gave. |
| `ModbusWire.SwitchThenRead` | src/native/modbus_honeypot.cpp:229-253 | After FC05 with FF00 a read of that coil answers 1, with 0000 it answers 0, and no other coil changed. |
| `ModbusTheorems.WriteThenRead` | src/native/modbus_honeypot.cpp:202-315 | A multiple write then a read of the same registers answers with the bytes written, and no other register changed. |
| `ModbusTheorems.PackedAt` | src/native/modbus_honeypot.cpp:184-198 | Coil i is bit i mod 8 of byte i div 8; bits past the last are zero. |
| `ModbusTheorems.SabotageReported` | src/native/modbus_honeypot.cpp:161-315 | A request is reported iff it succeeded in writing a critical cell, and at the lowest such address. |
| `ModbusTheorems.TwinsAnswerAlike` | src/ics_deception/honeypots/modbus_server.py:238-317 | From equal registers both servers answer byte for byte alike on all codes but 1, 5 and 16, which the Python server does not know. |
| `ModbusServer.BuildAdu` | src/native/modbus_honeypot.cpp:139-149 | The bytes of a frame. |
| `ModbusServer.Server.PackCoils` | src/native/modbus_honeypot.cpp:184-198 | The bit-setting loop packs the coils. |
| `ModbusServer.Server.HandleReadCoils` | src/native/modbus_honeypot.cpp:170-200 | FC01 refines the register machine. |
| `ModbusServer.Server.HandleReadRegisters` | src/native/modbus_honeypot.cpp:202-227 | FC03 refines the register machine. |
| `ModbusServer.Server.HandleWriteCoil` | src/native/modbus_honeypot.cpp:229-253 | FC05 refines the register machine, sabotage flag included; what it then reads as is `ModbusWire.SwitchThenRead`. |
| `ModbusServer.Server.HandleWriteRegister` | src/native/modbus_honeypot.cpp:255-275 | FC06 refines the register machine, sabotage flag included. |
| `ModbusServer.Server.HandleWriteRegisters` | src/native/modbus_honeypot.cpp:277-317 | FC16 refines the register machine, sabotage flag included. |
| `ModbusServer.Server.ProcessPdu` | src/native/modbus_honeypot.cpp:319-342 | Every request refines the register machine. |
| `ModbusServer.Server.DrainBuffer` | src/native/modbus_honeypot.cpp:370-445 | The inner loop serves exactly the complete frames, in order. |
| `ModbusServer.Server.HandleClient` | src/native/modbus_honeypot.cpp:357-480 | A connection dispatches, answers and ends as the chunk-independent function says. |
| `ModbusTwin.RegisterBank.Write` | src/ics_deception/honeypots/modbus_server.py:82-85 | Stores the low sixteen bits. |
| `ModbusTwin.Server.Dispatch` | src/ics_deception/honeypots/modbus_server.py:238-317 | The Python answer and the registers after it. |
| `ModbusTwin.Server.Handle` | src/ics_deception/honeypots/modbus_server.py:98-192 | A Python connection dispatches, answers and ends as the function the twin theorems speak of. |
| `ModbusConcurrency.Linearizable` | src/native/modbus_honeypot.cpp:97-315 | For every interleaving of cell-by-cell handlers under the lock: requests take effect whole, one after another, and every read is of one instant. |
| `ModbusConcurrency.LockOrder` | src/native/modbus_honeypot.cpp:97-315 | That serial order is the order in which the lock was taken, so each client's requests take effect in its own order. |
| `ModbusConcurrency.SeenWords` | src/native/modbus_honeypot.cpp:218-227 | The words seen under the lock are those of the reply. |
| `ModbusConcurrency.SeenCoils` | src/native/modbus_honeypot.cpp:190-200 | The coils seen under the lock are those of the reply. |
| `NativeLog.JsonEscape` | src/native/common/net_util.h:52-75 | The loop escapes every byte. |
| `NativeLog.EscapedReads` | src/native/common/net_util.h:52-75 | Reading escaped text up to its closing quote gives the bytes back. |
| `NativeLog.EscapedClean` | src/native/common/net_util.h:52-75 | Escaped text holds no control byte. |
| `NativeLog.EscapesBytesOrText` | src/native/common/net_util.h:52-75 | Escaping the bytes of a UTF-8 text is writing the escaped text in UTF-8. |
| `NativeLog.EscapesBytesOrDecoded` | src/native/common/net_util.h:52-75 | Decoding escaped bytes as UTF-8 with replacement is escaping the decoded text, for any bytes. |
| `NativeLog.JJoin` | src/native/common/net_util.h:186-195 | The loop joins with commas. |
| `NativeLog.DetailsRead` | src/native/common/net_util.h:177-195 | Joined pairs split back into exactly those pairs. |
| `NativeLog.LineReads` | src/native/common/net_util.h:141-145 | A log line, its bytes taken as characters, parses as the one object it was written from, whatever its values hold. |
| `NativeLog.LineReadsDecoded` | src/ics_deception/controller/app.py:262-275 | A reader that decodes the line as UTF-8 with replacement gets the one object whose values are the decoded values, for any bytes in them. |
| `NativeLogFile.LineClean` | src/native/common/net_util.h:140-165 | A built line holds no control character: no newline that would break it, no NUL that would cut it short. |
| `NativeLogFile.NewestEventsShown` | src/ics_deception/controller/app.py:247-277 | Of a whole log file of such lines, read as UTF-8 with replacement, the last rows shown are the last events written, in order, each the object it was written from with its values decoded, for any bytes in them. |
| `NativeLog.SendAll` | src/native/common/net_util.h:203-219 | Reports success iff the kernel took all the bytes; what it took is always a prefix. |
| `Der.LengthReads` | src/ics_deception/pqc_evidence/openssl_backend.py:133-137 | Every definite length is read back, with what follows untouched. |
| `Der.LengthShortest` | src/ics_deception/pqc_evidence/openssl_backend.py:133-137 | No definite length is written in more octets than it needs. |
| `Der.ElementReads` | src/ics_deception/pqc_evidence/openssl_backend.py:140-147 | Every element is read back, with what follows untouched. |
| `Der.ObjectIdentifier` | src/ics_deception/pqc_evidence/openssl_backend.py:150-165 | The chunking loops give the base-128 octets. |
| `Der.IdentifierReads` | src/ics_deception/pqc_evidence/openssl_backend.py:150-165 | An identifier is read back iff its first octet is below 128. |
| `Der.WrapUnwraps` | src/ics_deception/pqc_evidence/openssl_backend.py:67-115 | Unwrapping a wrapped key returns it, and a reader of the wrapper finds the algorithm and the key, for all six algorithms. |
| `Der.HeaderOctets` | src/ics_deception/pqc_evidence/openssl_backend.py:67-131 | A wrapped key is 22 header octets, given one by one for each of the six algorithms, and the key. |
| `Der.WrapRefuses` | src/ics_deception/pqc_evidence/openssl_backend.py:67-115 | Which algorithms and sizes each direction refuses. |

## Left out

- Cryptography, key files, OpenSSL processes, zlib, ZIP and AES-GCM: outside code. The archive's container and digest facts are taken as established before the registry branch.
- Time: `normalize_timestamp` and time comparison are functions of `Env`; wall-clock fields of state and reports are not modelled.
- Strings holding a lone surrogate, which the code refuses before encoding, are not values of Dafny's `char`.
- Floats: one value stands for every non-integer number, another for NaN and the infinities; both are refused. Python's limit on the digits of an integer and on parser recursion is not modelled.
- A journal whose fields have other types than the store writes raises an error in the model; the code would convert some of them (`int`, `str`) and go on.
- The state file is a value, not text: what makes a stored state acceptable is modelled, its JSON is not. The first store's limit on a state file's size goes with it.
- Symlink and permission checks, fsync failures, Windows branches, and the side files that preserve discarded bytes.
- `RecoveryReport`, alert details, warnings and metrics: reporting only. Error codes and their order are kept.
- A truncation that fails during rollback: the code then drops the journal all the same.
- `load` and `import_public` of the registry, which enforce no single active key, and aliasing of key records between registries: records are values in a sequence that the registry reassigns.
- Backend failures inside signature verification, which the code reports as an error of its own.
- Strict archive creation, whose own failures repeat what the report already says.
- That one thread at a time holds the registers' lock is taken as what a mutex does; `ModbusConcurrency` proves what follows from it.
- Modbus sockets, time-outs, failed sends and logging inside the loops; a failed send ends the connection.
- Two nodes writing one evidence file from different state files: the lock is per state file. The reader handles many nodes.
- Command line, controller, process supervision, configuration, benchmarks, PCAP tools, decoy shells and the DNP3 sensor: plumbing, or they would only add easy members.
- Waiting for the lock and its time-out: a process either finds it free or does not enter.
- That a running process is ever scheduled: `Outcome.AppendCompletes` says what happens to one that is left alone.
