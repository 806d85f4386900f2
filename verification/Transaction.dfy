/** Work in progress on the files: a list of effects still to come, safe to stop
    after any of them.  Recovery, one append, and the rollback of a failed append
    are each such a list. */
module Transaction {
  import opened Json
  import opened Utf8
  import opened Models
  import opened ModelsLaws
  import opened ModelsSizes
  import opened Signer
  import opened Store
  import opened StoreLaws
  import opened Recovery

  // What a finished append reports: the record, and where its bytes begin.
  datatype Ack = Ack(sequence: int, eventHash: string, offset: nat, record: string)

  predicate AckHolds(ack: Ack, c: seq<SignedEvent>) {
    && 1 <= ack.sequence <= |c|
    && c[ack.sequence - 1].eventHash == ack.eventHash
    && Line(c[ack.sequence - 1]) == ack.record
    && |LogOf(c[..ack.sequence - 1])| == ack.offset
  }

  // What must hold just before an effect: bytes are appended, and state is moved,
  // only under a journal that names the record; truncation ends at the chain.
  predicate HeadFits(e: Effect, c: seq<SignedEvent>, phase: Phase, goal: Option<Ack>) {
    match e
    case AppendByte(_) => phase.Writing? && goal.Some? && goal.value.offset == |LogOf(c)|
    case SetState(_) => phase.Writing? && (goal.Some? ==> goal.value.offset == |LogOf(c)|)
    case Truncate(offset) => phase.Writing? && offset == |LogOf(c)|
    case _ => true
  }

  // The files may be left as they are now, or after any number of these effects;
  // the chain only grows; and after the last of them nothing is pending.
  ghost predicate Safe(w: World, d: Disk, c: seq<SignedEvent>, phase: Phase, todo: seq<Effect>, goal: Option<Ack>)
    decreases |todo|
  {
    Holds(w, d, c, phase)
    && if todo == [] then phase.Quiet? && d.journal.None? && (goal.Some? ==> AckHolds(goal.value, c))
       else
         && HeadFits(todo[0], c, phase, goal)
         && exists c', phase' :: c <= c' && Safe(w, Apply(d, todo[0]), c', phase', todo[1..], goal)
  }

  lemma SafeStep(w: World, d: Disk, c: seq<SignedEvent>, phase: Phase, e: Effect, rest: seq<Effect>, goal: Option<Ack>,
                 c': seq<SignedEvent>, phase': Phase)
    requires Holds(w, d, c, phase) && HeadFits(e, c, phase, goal) && c <= c'
    requires Safe(w, Apply(d, e), c', phase', rest, goal)
    ensures Safe(w, d, c, phase, [e] + rest, goal)
  {
    hide Holds, HeadFits, Apply;
    assert ([e] + rest)[1..] == rest;
  }

  // ---- recovery -----------------------------------------------------------------------

  lemma SafeDrop(w: World, d: Disk, c: seq<SignedEvent>, phase: Phase, goal: Option<Ack>)
    requires Holds(w, d, c, phase) && !phase.Writing? && (goal.Some? ==> AckHolds(goal.value, c))
    ensures Safe(w, d, c, phase, [DropJournal], goal)
  {
    hide AckHolds, GoodChain, StateFits, Names, LogOf;
    if phase.Quiet? {
      MendQuiet(w, d, c);
    } else {
      MendCommitted(w, d, c);
    }
    SafeStep(w, d, c, phase, DropJournal, [], goal, c, Quiet);
    assert [DropJournal] + [] == [DropJournal];
  }

  lemma SafeUndo(w: World, d: Disk, c: seq<SignedEvent>, e: SignedEvent, k: nat)
    requires Holds(w, d, c, Writing(e, k))
    ensures Safe(w, d, c, Writing(e, k), [Truncate(|LogOf(c)|), DropJournal], None)
  {
    hide Holds, LogOf;
    MendTorn(w, d, c, e, k);
    var cut := Apply(d, Truncate(|LogOf(c)|));
    assert Safe(w, Apply(cut, DropJournal), c, Quiet, [], None);
    SafeStep(w, cut, c, Writing(e, 0), DropJournal, [], None, c, Quiet);
    assert [DropJournal] + [] == [DropJournal];
    SafeStep(w, d, c, Writing(e, k), Truncate(|LogOf(c)|), [DropJournal], None, c, Writing(e, 0));
    assert [Truncate(|LogOf(c)|)] + [DropJournal] == [Truncate(|LogOf(c)|), DropJournal];
  }

  lemma SafeCommit(w: World, d: Disk, c: seq<SignedEvent>, e: SignedEvent, s: NodeState, goal: Option<Ack>)
    requires Holds(w, d, c, Writing(e, |Payload(Line(e))|))
    requires s.keyId != "" && s == NodeState(w.nodeId, s.keyId, |c| + 1, Some(e.eventHash), FORMAT_VERSION)
    requires goal.Some? ==> goal.value.offset == |LogOf(c)| && AckHolds(goal.value, c + [e])
    ensures Safe(w, d, c, Writing(e, |Payload(Line(e))|), [SetState(s), DropJournal], goal)
  {
    hide Holds, LogOf, AckHolds, Safe;
    MendWhole(w, d, c, e, s);
    SafeDrop(w, Apply(d, SetState(s)), c + [e], Committed, goal);
    SafeStep(w, d, c, Writing(e, |Payload(Line(e))|), SetState(s), [DropJournal], goal, c + [e], Committed);
    assert [SetState(s)] + [DropJournal] == [SetState(s), DropJournal];
  }

  lemma SafeNothing(w: World, d: Disk, c: seq<SignedEvent>)
    requires Holds(w, d, c, Quiet) && d.journal.None?
    ensures Safe(w, d, c, Quiet, [], None)
  {
  }

  lemma SafeMending(w: World, d: Disk, c: seq<SignedEvent>, phase: Phase)
    requires Holds(w, d, c, phase)
    ensures Safe(w, d, c, phase, Mending(w.nodeId, d, c, phase), None)
  {
    hide Safe, Holds, LogOf, Line, Payload;
    match phase
    case Quiet =>
      if d.journal.None? { SafeNothing(w, d, c); } else { SafeDrop(w, d, c, phase, None); }
    case Committed => SafeDrop(w, d, c, phase, None);
    case Writing(e, k) => SafeWriting(w, d, c, e, k);
  }

  lemma SafeWriting(w: World, d: Disk, c: seq<SignedEvent>, e: SignedEvent, k: nat)
    requires Holds(w, d, c, Writing(e, k))
    ensures Safe(w, d, c, Writing(e, k), Mending(w.nodeId, d, c, Writing(e, k)), None)
  {
    hide Safe, LogOf, GoodChain, StateFits, Line, Payload;
    if k < |Payload(Line(e))| {
      SafeUndo(w, d, c, e, k);
    } else {
      NextSequence(w, c, e);
      SafeCommit(w, d, c, e, JournalState(w.nodeId, d.journal, e), None);
    }
  }

  // Recovery of anything a crash can leave succeeds, and may itself be cut short anywhere.
  lemma SafeRecovery(w: World, who: Owner, d: Disk, c: seq<SignedEvent>, phase: Phase)
    requires Holds(w, d, c, phase) && who.nodeId == w.nodeId
    ensures RecoverPlan(who, d).error.None? && Safe(w, d, c, phase, RecoverPlan(who, d).effects, None)
  {
    hide RecoverPlan, Safe, Mending, Holds;
    RecoverMends(w, who, d, c, phase);
    SafeMending(w, d, c, phase);
  }

  // Undoing an append that failed while its record was being written.
  lemma SafeRollback(w: World, d: Disk, c: seq<SignedEvent>, e: SignedEvent, k: nat)
    requires Holds(w, d, c, Writing(e, k))
    ensures Safe(w, d, c, Writing(e, k), RollbackPlan(d, |LogOf(c)|), None)
  {
    hide GoodChain, LogOf, Safe, StateFits, Line, Payload;
    SafeUndo(w, d, c, e, k);
    if k == 0 {
      assert LogOf(c) + Payload(Line(e))[..0] == LogOf(c);
      SafeNothingWritten(w, d, c, e);
      assert [] + [DropJournal] == [DropJournal];
    } else {
      assert [Truncate(|LogOf(c)|)] + [DropJournal] == [Truncate(|LogOf(c)|), DropJournal];
    }
  }

  lemma SafeNothingWritten(w: World, d: Disk, c: seq<SignedEvent>, e: SignedEvent)
    requires Holds(w, d, c, Writing(e, 0)) && d.log == Some(LogOf(c))
    ensures Safe(w, d, c, Writing(e, 0), [DropJournal], None)
  {
    hide GoodChain, LogOf, StateFits, Names;
    assert Safe(w, Apply(d, DropJournal), c, Quiet, [], None);
    SafeStep(w, d, c, Writing(e, 0), DropJournal, [], None, c, Quiet);
    assert [DropJournal] + [] == [DropJournal];
  }

  // ---- one append ------------------------------------------------------------------------

  // The record `e` and the entry journalled for it fit the end of chain `c`.
  ghost predicate Fits(w: World, c: seq<SignedEvent>, e: SignedEvent, entry: Entry) {
    && GoodChain(w, c + [e])
    && entry == Entry(w.nodeId, entry.keyId, e.sequence, e.eventHash, |LogOf(c)|, Line(e), entry.writtenAt)
    && entry.keyId != "" && SmallEntry(entry) && Bytes(entry.record) <= MAX_LINE_BYTES
  }

  function AckOf(entry: Entry): Ack {
    Ack(entry.sequence, entry.eventHash, entry.offset, entry.record)
  }

  lemma AckFits(w: World, c: seq<SignedEvent>, e: SignedEvent, entry: Entry)
    requires Fits(w, c, e, entry)
    ensures AckHolds(AckOf(entry), c + [e])
  {
    hide GoodChain, LogOf, SmallEntry;
    NextSequence(w, c, e);
    assert (c + [e])[..|c|] == c;
  }

  // Once the journal is whole it names the record.
  lemma JournalWhole(w: World, d: Disk, c: seq<SignedEvent>, e: SignedEvent, entry: Entry)
    requires Fits(w, c, e, entry) && Holds(w, d, c, Quiet) && d.log.Some?
    ensures Holds(w, Apply(d, WriteJournal(JournalText(entry))), c, Writing(e, 0))
  {
    hide GoodChain, LogOf, StateFits, JournalText, SmallEntry, ViewJournal, Bytes;
    JournalReadsBack(w.nodeId, entry);
    JournalBound(entry, |JournalText(entry)|);
    assert JournalText(entry)[..|JournalText(entry)|] == JournalText(entry);
    assert LogOf(c) + Payload(Line(e))[..0] == LogOf(c);
  }

  // Until then it says nothing.
  lemma JournalPartly(w: World, d: Disk, c: seq<SignedEvent>, e: SignedEvent, entry: Entry, j: nat)
    requires Fits(w, c, e, entry) && Holds(w, d, c, Quiet) && j < |JournalText(entry)|
    ensures Holds(w, Apply(d, WriteJournal(JournalText(entry)[..j])), c, Quiet)
  {
    hide GoodChain, LogOf, StateFits, JournalText, SmallEntry, ViewJournal, Bytes;
    JournalTorn(w.nodeId, entry, j);
    JournalBound(entry, j);
  }

  lemma OneMoreByte(w: World, d: Disk, c: seq<SignedEvent>, e: SignedEvent, k: nat)
    requires Holds(w, d, c, Writing(e, k)) && k < |Payload(Line(e))|
    ensures Holds(w, Apply(d, AppendByte(Payload(Line(e))[k])), c, Writing(e, k + 1))
  {
    hide GoodChain, LogOf, StateFits, Names, Line, Payload;
    var p := Payload(Line(e));
    assert LogOf(c) + p[..k] + [p[k]] == LogOf(c) + p[..k + 1];
  }

  lemma {:induction false} SafeRecord(w: World, d: Disk, c: seq<SignedEvent>, e: SignedEvent, entry: Entry, s: NodeState, k: nat)
    requires Fits(w, c, e, entry) && Holds(w, d, c, Writing(e, k))
    requires s.keyId != "" && s == NodeState(w.nodeId, s.keyId, |c| + 1, Some(e.eventHash), FORMAT_VERSION)
    ensures Safe(w, d, c, Writing(e, k), LogWrites(Payload(Line(e)))[k..] + CommitPlan(s), Some(AckOf(entry)))
    decreases |Payload(Line(e))| - k
  {
    hide Holds, LogOf, Safe, Line, Payload, Apply, AckHolds;
    var p := Payload(Line(e));
    HoldsWithin(w, d, c, e, k);
    if k == |p| {
      AckFits(w, c, e, entry);
      SafeCommit(w, d, c, e, s, Some(AckOf(entry)));
      assert LogWrites(p)[k..] + CommitPlan(s) == [SetState(s), DropJournal];
    } else {
      OneMoreByte(w, d, c, e, k);
      var b := AppendByte(p[k]);
      SafeRecord(w, Apply(d, b), c, e, entry, s, k + 1);
      SafeStep(w, d, c, Writing(e, k), b, LogWrites(p)[k + 1..] + CommitPlan(s), Some(AckOf(entry)), c, Writing(e, k + 1));
      assert [b] + (LogWrites(p)[k + 1..] + CommitPlan(s)) == LogWrites(p)[k..] + CommitPlan(s);
    }
  }

  lemma HoldsWithin(w: World, d: Disk, c: seq<SignedEvent>, e: SignedEvent, k: nat)
    requires Holds(w, d, c, Writing(e, k))
    ensures k <= |Payload(Line(e))|
  {
  }

  lemma {:induction false} SafeJournal(w: World, d: Disk, c: seq<SignedEvent>, e: SignedEvent, entry: Entry, s: NodeState, j: nat)
    requires Fits(w, c, e, entry) && Holds(w, d, c, Quiet) && d.log.Some? && j <= |JournalText(entry)|
    requires s.keyId != "" && s == NodeState(w.nodeId, s.keyId, |c| + 1, Some(e.eventHash), FORMAT_VERSION)
    ensures Safe(w, d, c, Quiet, JournalWrites(JournalText(entry))[j..] + (LogWrites(Payload(Line(e))) + CommitPlan(s)),
                 Some(AckOf(entry)))
    decreases |JournalText(entry)| - j
  {
    hide Holds, LogOf, Safe, Line, Payload, AckHolds, JournalText, Fits, LogWrites, CommitPlan;
    var text := JournalText(entry);
    var write := WriteJournal(text[..j]);
    var rest := LogWrites(Payload(Line(e))) + CommitPlan(s);
    if j == |text| {
      assert text[..j] == text;
      JournalWhole(w, d, c, e, entry);
      SafeRecord(w, Apply(d, write), c, e, entry, s, 0);
      assert LogWrites(Payload(Line(e)))[0..] == LogWrites(Payload(Line(e)));
      SafeStep(w, d, c, Quiet, write, rest, Some(AckOf(entry)), c, Writing(e, 0));
      assert [write] + rest == JournalWrites(text)[j..] + rest;
    } else {
      JournalPartly(w, d, c, e, entry, j);
      SafeJournal(w, Apply(d, write), c, e, entry, s, j + 1);
      SafeStep(w, d, c, Quiet, write, JournalWrites(text)[j + 1..] + rest, Some(AckOf(entry)), c, Quiet);
      assert [write] + (JournalWrites(text)[j + 1..] + rest) == JournalWrites(text)[j..] + rest;
    }
  }

  // An append may stop after any of its effects.
  lemma SafeAppend(w: World, d: Disk, c: seq<SignedEvent>, e: SignedEvent, entry: Entry, s: NodeState)
    requires Fits(w, c, e, entry) && Holds(w, d, c, Quiet)
    requires s.keyId != "" && s == NodeState(w.nodeId, s.keyId, |c| + 1, Some(e.eventHash), FORMAT_VERSION)
    ensures Safe(w, d, c, Quiet, WritePlan(d, entry) + CommitPlan(s), Some(AckOf(entry)))
  {
    hide Safe, JournalText, JournalWrites, LogWrites, CommitPlan, Fits, GoodChain, StateFits, LogOf, Line, Idle, Payload;
    var journal, rest := JournalWrites(JournalText(entry)), LogWrites(Payload(Line(e))) + CommitPlan(s);
    assert entry.record == Line(e) by { FitsRecord(w, c, e, entry); }
    assert journal[0..] == journal;
    if d.log.None? {
      var made := Apply(d, CreateLog);
      assert Holds(w, made, c, Quiet);
      SafeJournal(w, made, c, e, entry, s, 0);
      SafeStep(w, d, c, Quiet, CreateLog, journal + rest, Some(AckOf(entry)), c, Quiet);
      assert [CreateLog] + (journal + rest) == WritePlan(d, entry) + CommitPlan(s);
    } else {
      SafeJournal(w, d, c, e, entry, s, 0);
      assert journal + rest == WritePlan(d, entry) + CommitPlan(s);
    }
  }

  lemma FitsRecord(w: World, c: seq<SignedEvent>, e: SignedEvent, entry: Entry)
    requires Fits(w, c, e, entry)
    ensures entry.record == Line(e)
  {
  }
}
