/** What the store's files read back as: a journal is read whole or not at all, fits
    its size limit, and a log of genuine records splits into exactly their lines. */
module StoreLaws {
  import opened Json
  import opened JsonParser
  import opened JsonLaws
  import opened JsonCanonical
  import opened JsonTorn
  import opened PyText
  import Utf8
  import opened Models
  import opened ModelsLaws
  import opened ModelsSizes
  import opened Signer
  import opened Store

  // ---- the journal -------------------------------------------------------------------

  const ENTRY_FIELDS := ["node_id", "key_id", "sequence", "event_hash", "offset", "record", "written_at"]

  lemma EntryKeys(e: Entry)
    ensures forall i :: 0 <= i < 7 ==> EntryFields(e)[i].key == ENTRY_FIELDS[i]
    ensures DistinctKeys(EntryFields(e))
  {
    var fs := EntryFields(e);
    forall i, j | 0 <= i < j < 7 ensures fs[i].key != fs[j].key {
      var a, b := ENTRY_FIELDS[i], ENTRY_FIELDS[j];
      assert |a| != |b| || a[0] != b[0];
    }
  }

  lemma EntryField(e: Entry, i: nat)
    requires i < 7
    ensures Lookup(EntryFields(e), ENTRY_FIELDS[i]) == Some(EntryFields(e)[i].value)
  {
    EntryKeys(e);
    LookupDistinct(EntryFields(e), EntryFields(e)[i]);
  }

  lemma EntryComplete(e: Entry)
    ensures forall k :: k in REQUIRED ==> Lookup(EntryFields(e), k).Some?
  {
    hide Lookup, EntryFields;
    EntryField(e, 0);
    EntryField(e, 2);
    EntryField(e, 3);
    EntryField(e, 4);
    EntryField(e, 5);
  }

  // A whole journal says exactly what was written into it, to its own node.
  lemma JournalReadsBack(nodeId: string, e: Entry)
    ensures ViewJournal(nodeId, JournalText(e))
         == if e.nodeId == nodeId then Readable(e.keyId, e.sequence, e.eventHash, e.offset, e.record) else Foreign
  {
    hide Lookup, ParseDocument, Print, Get, EntryFields;
    EntryScalars(e);
    DocumentRoundTrip(DUMP, Obj(EntryFields(e)));
    EntryComplete(e);
    EntryValues(e);
  }

  lemma EntryScalars(e: Entry)
    ensures NoFloats(Obj(EntryFields(e)))
  {
  }

  lemma EntryValues(e: Entry)
    ensures var fs := EntryFields(e);
      && Get(fs, "node_id") == Str(e.nodeId) && Get(fs, "key_id") == Str(e.keyId) && Get(fs, "sequence") == Int(e.sequence)
      && Get(fs, "event_hash") == Str(e.eventHash) && Get(fs, "offset") == Int(e.offset) && Get(fs, "record") == Str(e.record)
  {
    hide Lookup;
    EntryField(e, 0);
    EntryField(e, 1);
    EntryField(e, 2);
    EntryField(e, 3);
    EntryField(e, 4);
    EntryField(e, 5);
  }

  // A journal cut short anywhere says nothing.
  lemma JournalTorn(nodeId: string, e: Entry, k: nat)
    requires k < |JournalText(e)|
    ensures ViewJournal(nodeId, JournalText(e)[..k]) == Unreadable
  {
    TornObject(DUMP, EntryFields(e), k);
  }

  // Strings of at most 128 characters, numbers of at most 19 digits.
  predicate SmallEntry(e: Entry) {
    && |e.nodeId| <= 128 && |e.keyId| <= 128 && |e.eventHash| <= 128 && |e.writtenAt| <= 128
    && 0 <= e.sequence <= MAX_SEQUENCE && e.offset <= MAX_SEQUENCE
  }

  lemma DumpedBytes(f: Field)
    requires |f.key| <= 19 && ((f.value.Str? && |f.value.s| <= 128) || (f.value.Int? && 0 <= f.value.i <= MAX_SEQUENCE))
    ensures FieldBytes(DUMP, f) <= 1772
  {
    FieldTextBytes(DUMP, f);
    if f.value.Str? {
      EscapeBytes(true, f.value.s);
      StringBytes(true, f.value.s);
    } else {
      Int64Length(f.value.i);
    }
  }

  lemma DumpedRecord(f: Field)
    requires |f.key| <= 19 && f.value.Str?
    ensures FieldBytes(DUMP, f) <= 236 + 6 * Bytes(f.value.s)
  {
    FieldTextBytes(DUMP, f);
    EscapeBytes(true, f.value.s);
    StringBytes(true, f.value.s);
  }

  lemma SevenFieldsBytes(fs: seq<Field>)
    requires |fs| == 7
    ensures FieldsBytes(DUMP, fs) == FieldBytes(DUMP, fs[0]) + FieldBytes(DUMP, fs[1]) + FieldBytes(DUMP, fs[2])
      + FieldBytes(DUMP, fs[3]) + FieldBytes(DUMP, fs[4]) + FieldBytes(DUMP, fs[5]) + FieldBytes(DUMP, fs[6])
  {
    hide FieldBytes;
    var a := fs[1..];
    var b := a[1..];
    var c := b[1..];
    var d := c[1..];
    var e := d[1..];
    var f := e[1..];
    assert FieldsBytes(DUMP, f) == FieldBytes(DUMP, fs[6]) by { assert f[1..] == []; }
    assert FieldsBytes(DUMP, d) == FieldBytes(DUMP, fs[4]) + FieldBytes(DUMP, fs[5]) + FieldBytes(DUMP, fs[6]);
    assert FieldsBytes(DUMP, b) == FieldBytes(DUMP, fs[2]) + FieldBytes(DUMP, fs[3]) + FieldsBytes(DUMP, d);
  }

  // Recovery refuses journals over 1 MiB; none the store writes is that large,
  // even if every byte of the record costs six to escape.
  lemma JournalBound(e: Entry, k: nat)
    requires SmallEntry(e) && Bytes(e.record) <= MAX_LINE_BYTES && k <= |JournalText(e)|
    ensures |Utf8.Encode(JournalText(e)[..k])| <= MAX_JOURNAL_BYTES
  {
    hide Print, FieldBytes, FieldsBytes;
    var fs := EntryFields(e);
    DumpedBytes(fs[0]);
    DumpedBytes(fs[1]);
    DumpedBytes(fs[2]);
    DumpedBytes(fs[3]);
    DumpedBytes(fs[4]);
    DumpedRecord(fs[5]);
    DumpedBytes(fs[6]);
    SevenFieldsBytes(fs);
    ObjectBytes(DUMP, fs);
    Utf8.EncodeAsciiLength(DUMP.comma);
    Utf8.EncodeConcat(JournalText(e)[..k], JournalText(e)[k..]);
    assert JournalText(e) == JournalText(e)[..k] + JournalText(e)[k..];
  }

  // ---- the log ----------------------------------------------------------------------------

  // The text of a log that holds these records and nothing else.
  function LogText(c: seq<SignedEvent>): string {
    if c == [] then "" else LogText(c[..|c| - 1]) + Line(c[|c| - 1]) + "\n"
  }

  function LogOf(c: seq<SignedEvent>): seq<Utf8.byte> {
    Utf8.Encode(LogText(c))
  }

  function LinesOf(c: seq<SignedEvent>): seq<string> {
    if c == [] then [] else LinesOf(c[..|c| - 1]) + [Line(c[|c| - 1])]
  }

  lemma LogAppend(c: seq<SignedEvent>, e: SignedEvent)
    ensures LogOf(c + [e]) == LogOf(c) + Payload(Line(e))
  {
    hide Line;
    assert (c + [e])[..|c|] == c;
    assert LogText(c) + Line(e) + "\n" == LogText(c) + (Line(e) + "\n");
    Utf8.EncodeConcat(LogText(c), Line(e) + "\n");
  }

  lemma {:induction false} LogPrefix(c: seq<SignedEvent>, n: nat)
    requires n <= |c|
    ensures LogOf(c[..n]) <= LogOf(c)
    decreases |c| - n
  {
    if n < |c| {
      LogPrefix(c, n + 1);
      assert c[..n + 1] == c[..n] + [c[n]];
      LogAppend(c[..n], c[n]);
    } else {
      assert c[..n] == c;
    }
  }

  lemma LineShape(e: SignedEvent)
    ensures OneLine(Line(e)) && Strip(Line(e)) == Line(e) && Line(e) != []
  {
    hide EnvelopeFields, SortedFields, PrintFields;
    var fs := SortedFields(EnvelopeFields(e));
    SortedFieldsMembers(EnvelopeFields(e));
    PrintClean(CANONICAL, Obj(fs));
    assert Line(e)[0] == '{';
    ObjectEnds(fs);
    StripNothing(Line(e));
  }

  lemma ObjectEnds(fs: seq<Field>)
    requires fs != []
    ensures var s := Print(CANONICAL, Obj(fs)); s[|s| - 1] == '}'
  {
    FieldsEnd(fs);
  }

  lemma {:induction false} FieldsEnd(fs: seq<Field>)
    requires fs != []
    ensures var s := PrintFields(CANONICAL, fs); s != [] && s[|s| - 1] == '}'
  {
    if |fs| > 1 {
      FieldsEnd(fs[1..]);
    }
  }

  lemma {:induction false} LinesOfText(c: seq<SignedEvent>, rest: string)
    ensures Lines(LogText(c) + rest) == LinesOf(c) + Lines(rest)
    decreases |c|
  {
    hide Line;
    if c == [] {
      assert LogText(c) + rest == rest;
    } else {
      var front, last := c[..|c| - 1], Line(c[|c| - 1]);
      LineShape(c[|c| - 1]);
      assert LogText(c) + rest == LogText(front) + (last + "\n" + rest);
      LinesOfText(front, last + "\n" + rest);
      LinesOfLine(last, rest);
      assert LinesOf(front) + ([last] + Lines(rest)) == LinesOf(c) + Lines(rest);
    }
  }

  // Splitting the log into lines undoes appending.
  lemma LogReadsBack(c: seq<SignedEvent>)
    ensures Lines(Utf8.DecodeReplace(LogOf(c))) == LinesOf(c) + [""]
  {
    Utf8.DecodeEncode(LogText(c));
    assert LogText(c) + "" == LogText(c);
    LinesOfText(c, "");
    assert Lines("") == [""];
  }

  lemma LineLogged(env: Env, e: SignedEvent)
    requires WellFormed(env, e)
    ensures LoggedRecord(e.nodeId, Line(e)) == Some(Logged(e.sequence, e.eventHash))
  {
    hide Get, EnvelopeFields, SortedFields, ParseDocument, CanonicalText;
    LineShape(e);
    LineReadsBack(env, e);
    LineFields(e, SortedFields(EnvelopeFields(e)));
    LineLastFields(e, SortedFields(EnvelopeFields(e)));
  }

  // The log's tail, as recovery reads it, is its last record.
  lemma TailIsLast(env: Env, nodeId: string, c: seq<SignedEvent>, d: Disk)
    requires forall i :: 0 <= i < |c| ==> WellFormed(env, c[i]) && c[i].nodeId == nodeId
    requires d.log.Some? && d.log.value == LogOf(c)
    ensures LogTail(nodeId, d)
         == if c == [] then None else Some(Logged(c[|c| - 1].sequence, c[|c| - 1].eventHash))
  {
    hide LoggedRecord, WellFormed, LogOf;
    LogReadsBack(c);
    var lines := LinesOf(c) + [""];
    BlankLogged(nodeId);
    assert lines[..|lines| - 1] == LinesOf(c);
    if c != [] {
      LineLogged(env, c[|c| - 1]);
      assert LinesOf(c)[|LinesOf(c)| - 1] == Line(c[|c| - 1]);
    }
    assert LastLogged(nodeId, lines) == LastLogged(nodeId, LinesOf(c));
  }

  lemma BlankLogged(nodeId: string)
    ensures LoggedRecord(nodeId, "") == None
  {
  }

  // ---- the tail of any log -----------------------------------------------------------------

  // The tail is the last line that is a complete record of this node, whatever comes
  // after it; and there is none iff no line is.
  lemma {:induction false} LastLoggedMeans(nodeId: string, lines: seq<string>)
    ensures LastLogged(nodeId, lines).None? <==> forall i :: 0 <= i < |lines| ==> LoggedRecord(nodeId, lines[i]).None?
    ensures LastLogged(nodeId, lines).Some? ==>
      exists i :: 0 <= i < |lines| && LoggedRecord(nodeId, lines[i]) == LastLogged(nodeId, lines)
        && forall j :: i < j < |lines| ==> LoggedRecord(nodeId, lines[j]).None?
  {
    hide LoggedRecord;
    if lines != [] {
      var n := |lines| - 1;
      LastLoggedMeans(nodeId, lines[..n]);
      if LoggedRecord(nodeId, lines[n]).None? && LastLogged(nodeId, lines[..n]).Some? {
        var i :| 0 <= i < n && LoggedRecord(nodeId, lines[..n][i]) == LastLogged(nodeId, lines[..n])
          && forall j :: i < j < n ==> LoggedRecord(nodeId, lines[..n][j]).None?;
        assert LoggedRecord(nodeId, lines[i]) == LastLogged(nodeId, lines);
        assert forall j :: i < j < |lines| ==> LoggedRecord(nodeId, lines[j]).None?;
      }
    }
  }

  // What a line must hold to count: an object naming the node, with a hash and a number,
  // a boolean counting as 0 or 1.
  predicate Counts(nodeId: string, v: Json, l: Logged) {
    && v.Obj? && Get(v.fields, "node_id") == Str(nodeId) && Get(v.fields, "event_hash") == Str(l.eventHash)
    && (Get(v.fields, "sequence") == Int(l.sequence)
        || (Get(v.fields, "sequence") == Bool(true) && l.sequence == 1)
        || (Get(v.fields, "sequence") == Bool(false) && l.sequence == 0))
  }

  lemma LoggedMeans(nodeId: string, raw: string, l: Logged)
    ensures LoggedRecord(nodeId, raw) == Some(l)
      <==> var v := ParseDocument(Strip(raw)); Strip(raw) != [] && v.Some? && Counts(nodeId, v.value, l)
  {
    hide ParseDocument, Strip, Get;
  }

  // Another node's record is no record of this one.
  lemma ForeignIgnored(env: Env, nodeId: string, e: SignedEvent)
    requires WellFormed(env, e) && e.nodeId != nodeId
    ensures LoggedRecord(nodeId, Line(e)) == None
  {
    hide Get, EnvelopeFields, SortedFields, ParseDocument, CanonicalText;
    LineShape(e);
    LineReadsBack(env, e);
    LineFields(e, SortedFields(EnvelopeFields(e)));
  }

  // Nor is the start of a record, where it was cut short.
  lemma TornIgnored(env: Env, nodeId: string, e: SignedEvent, k: nat)
    requires WellFormed(env, e) && k < |Line(e)|
    ensures LoggedRecord(nodeId, Line(e)[..k]) == None
  {
    hide Get, EnvelopeFields, SortedFields, ParseDocument, WellFormed, Check, NoFloats;
    EnvelopeChecks(env, e);
    SortedKeepsCheck(Obj(EnvelopeFields(e)), 0);
    CheckedHasNoFloats(Sorted(Obj(EnvelopeFields(e))), 0);
    var cut := Line(e)[..k];
    var a, b := StripMeans(cut);
    HeadKept(e, cut, a, b);
    TornObject(CANONICAL, SortedFields(EnvelopeFields(e)), |Strip(cut)|);
  }

  // What stripping leaves of the start of a line is a start of it.
  lemma HeadKept(e: SignedEvent, cut: string, a: string, b: string)
    requires cut <= Line(e) && cut == a + Strip(cut) + b && AllBlank(a) && AllBlank(b)
    ensures Strip(cut) != [] ==> Strip(cut) == Line(e)[..|Strip(cut)|]
  {
    hide EnvelopeFields, SortedFields;
    assert Line(e)[0] == '{';
    assert cut != [] ==> cut[0] == '{';
    BlankStart(a, Strip(cut) + b);
    assert a + Strip(cut) + b == a + (Strip(cut) + b);
  }

  lemma BlankStart(a: string, rest: string)
    requires AllBlank(a)
    ensures a == [] || Blank((a + rest)[0])
  {
  }
}
