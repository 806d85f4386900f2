/** Recovery by a store that was released and taken up again: it still remembers the
    state of its last hold of the lock, and believes that before the file. */
module StaleStore {
  import opened Json
  import opened Models
  import opened Store
  import opened StoreLaws
  import opened Recovery
  import opened Hazards

  // What the store remembers was the state when the chain had its first `k` records.
  predicate Remembered(w: World, who: Owner, c: seq<SignedEvent>, k: nat, earlier: Option<NodeState>, m: NodeState) {
    && who.nodeId == w.nodeId && k <= |c| && StateFits(earlier, w.nodeId, c[..k]) && Remembers(who, earlier, Some(m))
  }

  // The journal names a whole record past the remembered one.
  predicate JournalAhead(who: Owner, d: Disk, m: NodeState) {
    && d.journal.Some?
    && var v := ViewJournal(who.nodeId, d.journal.value);
       v.Readable? && Appended(LogBytes(d), v.offset, Payload(v.record)) && m.lastSequence < v.sequence
  }

  lemma RememberedPlace(w: World, who: Owner, c: seq<SignedEvent>, k: nat, earlier: Option<NodeState>, m: NodeState)
    requires Remembered(w, who, c, k, earlier, m)
    ensures m.lastSequence == k && (k > 0 ==> m.keyId != "")
  {
  }

  // ---- the journal --------------------------------------------------------------------------

  ghost predicate Replayed(w: World, d: Disk, chain: seq<SignedEvent>) {
    Holds(w, d, chain, Quiet) && d.journal.None?
  }

  lemma AsMending(w: World, d: Disk, c: seq<SignedEvent>, phase: Phase)
    requires Holds(w, d, c, phase)
    ensures Replayed(w, ApplyAll(d, Mending(w.nodeId, d, c, phase)), MendedChain(c, phase))
  {
    hide Holds, Mending, MendedChain;
    var all := Mending(w.nodeId, d, c, phase);
    var c', phase' := MendingHolds(w, d, c, phase, |all|);
    assert all[..|all|] == all;
  }

  // A journal still there after its commit makes a stale store commit again.
  lemma CommittedAgain(w: World, d: Disk, c: seq<SignedEvent>)
    requires Holds(w, d, c, Committed)
    ensures var s := JournalState(w.nodeId, d.journal, c[|c| - 1]);
      Replayed(w, ApplyAll(d, [SetState(s), DropJournal]), c) && s.lastSequence == |c|
  {
    hide GoodChain, LogOf, Line, StateFits, ViewJournal;
    var e := c[|c| - 1];
    var s := JournalState(w.nodeId, d.journal, e);
    assert c[..|c| - 1] + [e] == c;
    NextSequence(w, c[..|c| - 1], e);
    ApplyTwo(d, SetState(s), DropJournal);
    ChainState(w, c, s);
  }

  lemma QuietAhead(w: World, who: Owner, d: Disk, c: seq<SignedEvent>, m: NodeState)
    requires Holds(w, d, c, Quiet) && who.nodeId == w.nodeId
    ensures !JournalAhead(who, d, m)
  {
    hide GoodChain, LogOf, StateFits, ViewJournal;
  }

  lemma NamedAhead(w: World, who: Owner, d: Disk, e: SignedEvent, offset: nat, m: NodeState)
    requires Names(d.journal, w.nodeId, e, offset) && who.nodeId == w.nodeId
    ensures JournalAhead(who, d, m) <==> Appended(LogBytes(d), offset, Payload(Line(e))) && m.lastSequence < e.sequence
  {
    hide Line, Payload, ViewJournal, Appended;
  }

  lemma PartNotAppended(w: World, d: Disk, c: seq<SignedEvent>, e: SignedEvent, k: nat)
    requires Holds(w, d, c, Writing(e, k))
    ensures Appended(LogBytes(d), |LogOf(c)|, Payload(Line(e))) <==> k == |Payload(Line(e))|
  {
    hide GoodChain, LogOf, Line, Payload, StateFits, Names;
    assert Payload(Line(e))[..|Payload(Line(e))|] == Payload(Line(e));
  }

  lemma LastAppended(w: World, d: Disk, c: seq<SignedEvent>)
    requires Holds(w, d, c, Committed)
    ensures c[|c| - 1].sequence == |c|
    ensures Appended(LogBytes(d), |LogOf(c[..|c| - 1])|, Payload(Line(c[|c| - 1])))
  {
    hide GoodChain, LogOf, Line, Payload, StateFits, Names;
    assert c[..|c| - 1] + [c[|c| - 1]] == c;
    NextSequence(w, c[..|c| - 1], c[|c| - 1]);
    LogAppend(c[..|c| - 1], c[|c| - 1]);
  }

  // What a stale store makes of the journal.
  ghost predicate StaleReplay(w: World, who: Owner, d: Disk, m: NodeState, chain: seq<SignedEvent>) {
    var replay := ReplayPlan(who, d, Some(m));
    var read := ReadAfter(who, d, Some(m), replay);
    && replay.error.None? && Replayed(w, ApplyAll(d, replay.effects), chain)
    && read.Ok? && (read.value.lastSequence > 0 ==> read.value.keyId != "")
    && read.value.lastSequence == if JournalAhead(who, d, m) then |chain| else m.lastSequence
  }

  lemma QuietReplay(w: World, who: Owner, d: Disk, c: seq<SignedEvent>, m: NodeState)
    requires Holds(w, d, c, Quiet) && who.nodeId == w.nodeId && (m.lastSequence > 0 ==> m.keyId != "")
    ensures StaleReplay(w, who, d, m, c)
  {
    hide Holds, JournalAhead, Replayed, ReplayPlan;
    ReplayQuiet(w, who, d, Some(m), c);
    QuietAhead(w, who, d, c, m);
    AsMending(w, d, c, Quiet);
  }

  lemma WritingReplay(w: World, who: Owner, d: Disk, c: seq<SignedEvent>, e: SignedEvent, k: nat, m: NodeState)
    requires Holds(w, d, c, Writing(e, k)) && who.nodeId == w.nodeId
    requires m.lastSequence <= |c| && (m.lastSequence > 0 ==> m.keyId != "")
    ensures StaleReplay(w, who, d, m, MendedChain(c, Writing(e, k)))
  {
    hide JournalAhead, Replayed, ReplayPlan, Appended, Line, Payload, LogOf, GoodChain, StateFits, Names, JournalState;
    NextSequence(w, c, e);
    ReplayNamed(w, who, d, Some(m), e, |LogOf(c)|);
    NamedAhead(w, who, d, e, |LogOf(c)|, m);
    PartNotAppended(w, d, c, e, k);
    AsMending(w, d, c, Writing(e, k));
    assert [Truncate(|LogOf(c)|)] + [DropJournal] == [Truncate(|LogOf(c)|), DropJournal];
    var s := JournalState(w.nodeId, d.journal, e);
    assert [SetState(s)] + [DropJournal] == [SetState(s), DropJournal];
    if k >= |Payload(Line(e))| {
      WholeJournal(w, d, c, e, k);
    }
  }

  lemma CommittedReplay(w: World, who: Owner, d: Disk, c: seq<SignedEvent>, m: NodeState)
    requires Holds(w, d, c, Committed) && who.nodeId == w.nodeId
    requires m.lastSequence <= |c| && (m.lastSequence > 0 ==> m.keyId != "")
    ensures StaleReplay(w, who, d, m, c)
  {
    hide JournalAhead, Replayed, ReplayPlan, Appended, Line, Payload, LogOf, GoodChain, StateFits, Names, JournalState;
    var e := c[|c| - 1];
    LastAppended(w, d, c);
    ReplayNamed(w, who, d, Some(m), e, |LogOf(c[..|c| - 1])|);
    NamedAhead(w, who, d, e, |LogOf(c[..|c| - 1])|, m);
    var s := JournalState(w.nodeId, d.journal, e);
    assert [SetState(s)] + [DropJournal] == [SetState(s), DropJournal];
    assert [] + [DropJournal] == [DropJournal];
    AsMending(w, d, c, Committed);
    CommittedAgain(w, d, c);
    JournalKey(w, d, e, |LogOf(c[..|c| - 1])|);
  }

  lemma JournalKey(w: World, d: Disk, e: SignedEvent, offset: nat)
    requires Names(d.journal, w.nodeId, e, offset)
    ensures JournalState(w.nodeId, d.journal, e).keyId != ""
  {
    hide ViewJournal, Line;
  }

  // ---- state against log ----------------------------------------------------------------------

  // From a mended disk, what the check makes of a place remembered.
  lemma StaleCheck(w: World, who: Owner, d: Disk, chain: seq<SignedEvent>, s: NodeState)
    requires Replayed(w, d, chain) && who.nodeId == w.nodeId
    requires 0 <= s.lastSequence <= |chain| && (s.lastSequence > 0 ==> s.keyId != "")
    ensures var check := CheckPlan(who, d, Ok(s));
      && check.error.None? && Replayed(w, ApplyAll(d, check.effects), chain)
      && CheckedState(check, Ok(s)).Ok?
      && CheckedState(check, Ok(s)).value.lastSequence == if s.lastSequence > 0 then |chain| else 0
  {
    hide LogTail, LogOf, GoodChain, StateFits, CheckPlan, Or;
    assert ApplyAll(d, []) == d;
    if chain != [] {
      ChainTail(w, d, chain);
      CheckCases(who, d, s, LogTail(who.nodeId, d));
      if 0 < s.lastSequence < |chain| {
        var adopted := AdoptedState(who, s, Logged(|chain|, chain[|chain| - 1].eventHash));
        KeyKept(who, s);
        ApplyOne(d, SetState(adopted));
        ChainState(w, chain, adopted);
      }
    } else {
      CheckCases(who, d, s, LogTail(who.nodeId, d));
    }
  }

  lemma KeyKept(who: Owner, s: NodeState)
    requires s.keyId != ""
    ensures Or(who.keyId, s.keyId) != ""
  {
  }

  lemma StaleSteps(w: World, who: Owner, d: Disk, c: seq<SignedEvent>, phase: Phase, m: NodeState)
    requires Holds(w, d, c, phase) && who.nodeId == w.nodeId
    requires 0 <= m.lastSequence <= |c| && (m.lastSequence > 0 ==> m.keyId != "")
    ensures StaleReplay(w, who, d, m, MendedChain(c, phase))
  {
    hide Holds, StaleReplay, Line, Payload;
    match phase
    case Quiet => QuietReplay(w, who, d, c, m);
    case Writing(e, k) => WritingReplay(w, who, d, c, e, k, m);
    case Committed => CommittedReplay(w, who, d, c, m);
  }

  // A store that remembers an earlier place of the chain recovers without error, and
  // the files end whole whatever it remembers.  What it goes on from is the end of the
  // chain exactly when it remembers a place past zero, or the journal brings it there,
  // or there is nothing in the chain; else its next append issues number 1 again.
  lemma StaleRecovery(w: World, who: Owner, d: Disk, c: seq<SignedEvent>, phase: Phase, k: nat,
                      earlier: Option<NodeState>, m: NodeState)
    requires Holds(w, d, c, phase) && Remembered(w, who, c, k, earlier, m)
    ensures var plan := RecoverFrom(who, d, Some(m));
      var chain, after := MendedChain(c, phase), RecoveredState(who, d, Some(m));
      && plan.error.None? && Holds(w, ApplyAll(d, plan.effects), chain, Quiet) && ApplyAll(d, plan.effects).journal.None?
      && after.Ok?
      && (after.value.lastSequence == |chain| <==> m.lastSequence > 0 || JournalAhead(who, d, m) || chain == [])
      && (after.value.lastSequence != |chain| ==> after.value.lastSequence + 1 == 1 <= |chain|)
  {
    hide Holds, Remembered, JournalAhead, ReplayPlan, ReadAfter, CheckPlan, CheckedState, ApplyAll;
    RememberedPlace(w, who, c, k, earlier, m);
    assert who.nodeId == w.nodeId && k <= |c| by { RememberedWho(w, who, c, k, earlier, m); }
    StaleSteps(w, who, d, c, phase, m);
    var replay := ReplayPlan(who, d, Some(m));
    var read := ReadAfter(who, d, Some(m), replay);
    var there := ApplyAll(d, replay.effects);
    assert |c| <= |MendedChain(c, phase)|;
    StaleCheck(w, who, there, MendedChain(c, phase), read.value);
    ApplyConcat(d, replay.effects, CheckPlan(who, there, read).effects);
    if JournalAhead(who, d, m) {
      AheadNonempty(w, who, d, c, phase, m);
    }
  }

  lemma RememberedWho(w: World, who: Owner, c: seq<SignedEvent>, k: nat, earlier: Option<NodeState>, m: NodeState)
    requires Remembered(w, who, c, k, earlier, m)
    ensures who.nodeId == w.nodeId && k <= |c|
  {
    hide StateFits, Remembers;
  }

  // A journal ahead is one of a record of the chain.
  lemma AheadNonempty(w: World, who: Owner, d: Disk, c: seq<SignedEvent>, phase: Phase, m: NodeState)
    requires Holds(w, d, c, phase) && who.nodeId == w.nodeId && JournalAhead(who, d, m)
    ensures MendedChain(c, phase) != []
  {
    hide JournalAhead, Line, Payload, LogOf, GoodChain, StateFits, Names, Appended;
    match phase
    case Quiet => QuietAhead(w, who, d, c, m);
    case Writing(e, k) =>
      NamedAhead(w, who, d, e, |LogOf(c)|, m);
      PartNotAppended(w, d, c, e, k);
    case Committed =>
  }
}
