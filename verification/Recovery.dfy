/** What the store's files can hold at any moment, and what recovery makes of them.
    A chain of committed records fixes the state; the log holds that chain and at
    most a prefix of one record more, which a whole journal then names. */
module Recovery {
  import opened Json
  import opened Utf8
  import opened Models
  import opened ModelsLaws
  import opened ModelsSizes
  import opened Signer
  import opened Store
  import opened StoreLaws
  import StreamTheorems

  // The node, the private keys its signers hold, and the libraries they use.
  datatype World = World(env: Env, nodeId: string, keys: map<string, seq<byte>>)

  ghost predicate GoodChain(w: World, c: seq<SignedEvent>) {
    forall i :: 0 <= i < |c| ==>
      && Genuine(w.env, w.nodeId, w.keys, c[i])
      && c[i].sequence == i + 1
      && c[i].previousEventHash == StreamTheorems.ExpectedPrevious(w.env, w.nodeId, c, i)
  }

  predicate StateFits(s: Option<NodeState>, nodeId: string, c: seq<SignedEvent>) {
    if s.None? then c == []
    else
      && ValidState(s.value, nodeId) && s.value.lastSequence == |c|
      && (c != [] ==> s.value.lastEventHash == Some(c[|c| - 1].eventHash))
  }

  // A journal recovery drops without doing anything else.
  predicate Idle(journal: Option<string>, nodeId: string) {
    journal.None? || (|Encode(journal.value)| <= MAX_JOURNAL_BYTES && ViewJournal(nodeId, journal.value).Unreadable?)
  }

  // A whole journal for this record at this offset.
  predicate Names(journal: Option<string>, nodeId: string, e: SignedEvent, offset: nat) {
    && journal.Some? && |Encode(journal.value)| <= MAX_JOURNAL_BYTES
    && var v := ViewJournal(nodeId, journal.value);
       v.Readable? && v.keyId != "" && v == Readable(v.keyId, e.sequence, e.eventHash, offset, Line(e))
  }

  datatype Phase =
    | Quiet                              // the log is exactly the chain
    | Writing(next: SignedEvent, k: nat) // k bytes of a journalled record follow it
    | Committed                          // the journal still names the chain's last record

  ghost predicate Holds(w: World, d: Disk, c: seq<SignedEvent>, phase: Phase) {
    && GoodChain(w, c) && StateFits(d.state, w.nodeId, c)
    && match phase
       case Quiet => Idle(d.journal, w.nodeId) && LogBytes(d) == LogOf(c) && (c != [] ==> d.log.Some?)
       case Writing(e, k) => (
         && GoodChain(w, c + [e]) && d.log.Some? && Names(d.journal, w.nodeId, e, |LogOf(c)|)
         && k <= |Payload(Line(e))| && d.log.value == LogOf(c) + Payload(Line(e))[..k])
       case Committed => (
         && c != [] && d.log == Some(LogOf(c))
         && Names(d.journal, w.nodeId, c[|c| - 1], |LogOf(c[..|c| - 1])|))
  }

  // ---- effects in a row -----------------------------------------------------------------

  lemma {:induction false} ApplyConcat(d: Disk, a: seq<Effect>, b: seq<Effect>)
    ensures ApplyAll(d, a + b) == ApplyAll(ApplyAll(d, a), b)
    decreases |b|
  {
    hide Apply;
    if b == [] {
      assert a + b == a;
    } else {
      assert (a + b)[..|a + b| - 1] == a + b[..|b| - 1];
      ApplyConcat(d, a, b[..|b| - 1]);
    }
  }

  lemma ApplyOne(d: Disk, e: Effect)
    ensures ApplyAll(d, [e]) == Apply(d, e)
  {
    assert [e][..0] == [];
  }

  lemma ApplyTwo(d: Disk, e: Effect, f: Effect)
    ensures ApplyAll(d, [e, f]) == Apply(Apply(d, e), f)
  {
    assert [e, f] == [e] + [f];
    ApplyConcat(d, [e], [f]);
    ApplyOne(d, e);
    ApplyOne(Apply(d, e), f);
  }

  // ---- chains ------------------------------------------------------------------------------

  // A record in its place: genuine, numbered, and linked to the one before.
  ghost predicate Linked(w: World, c: seq<SignedEvent>, i: nat)
    requires i < |c|
  {
    && Genuine(w.env, w.nodeId, w.keys, c[i])
    && c[i].sequence == i + 1
    && c[i].previousEventHash == StreamTheorems.ExpectedPrevious(w.env, w.nodeId, c, i)
  }

  lemma GoodWhenLinked(w: World, c: seq<SignedEvent>)
    ensures GoodChain(w, c) <==> forall i :: 0 <= i < |c| ==> Linked(w, c, i)
  {
    hide Genuine, StreamTheorems.ExpectedPrevious;
    if GoodChain(w, c) {
      forall i | 0 <= i < |c| ensures Linked(w, c, i) {
      }
    }
    if forall i :: 0 <= i < |c| ==> Linked(w, c, i) {
      forall i | 0 <= i < |c|
        ensures Genuine(w.env, w.nodeId, w.keys, c[i]) && c[i].sequence == i + 1
        ensures c[i].previousEventHash == StreamTheorems.ExpectedPrevious(w.env, w.nodeId, c, i)
      {
        assert Linked(w, c, i);
      }
    }
  }

  lemma LinkKept(w: World, c: seq<SignedEvent>, e: SignedEvent, i: nat)
    requires i < |c| && Linked(w, c, i)
    ensures Linked(w, c + [e], i)
  {
    hide Genuine, ComputeEventHash, GenesisPreviousHash;
  }

  lemma LastLinked(w: World, c: seq<SignedEvent>, e: SignedEvent)
    requires Genuine(w.env, w.nodeId, w.keys, e) && e.sequence == |c| + 1
    requires c != [] ==> c[|c| - 1].eventHash == ComputeEventHash(w.env, c[|c| - 1])
    requires e.previousEventHash
      == if c == [] then GenesisPreviousHash(w.env, w.nodeId) else c[|c| - 1].eventHash
    ensures Linked(w, c + [e], |c|)
  {
    hide Genuine, ComputeEventHash, GenesisPreviousHash;
  }

  lemma OwnHash(w: World, e: SignedEvent)
    requires Genuine(w.env, w.nodeId, w.keys, e)
    ensures e.eventHash == ComputeEventHash(w.env, e) && WellFormed(w.env, e) && e.nodeId == w.nodeId
  {
    hide ComputeEventHash, WellFormed, SigningPayload;
  }

  lemma ChainExtends(w: World, c: seq<SignedEvent>, e: SignedEvent)
    requires GoodChain(w, c) && Genuine(w.env, w.nodeId, w.keys, e) && e.sequence == |c| + 1
    requires e.previousEventHash
      == if c == [] then GenesisPreviousHash(w.env, w.nodeId) else c[|c| - 1].eventHash
    ensures GoodChain(w, c + [e])
  {
    hide Genuine, ComputeEventHash, GenesisPreviousHash, GoodChain, Linked;
    GoodWhenLinked(w, c);
    GoodWhenLinked(w, c + [e]);
    if c != [] {
      GenuineAt(w, c, |c| - 1);
      OwnHash(w, c[|c| - 1]);
    }
    LastLinked(w, c, e);
    forall i | 0 <= i < |c + [e]| ensures Linked(w, c + [e], i) {
      if i < |c| {
        LinkKept(w, c, e, i);
      }
    }
  }

  lemma GenuineAt(w: World, c: seq<SignedEvent>, i: nat)
    requires GoodChain(w, c) && i < |c|
    ensures Genuine(w.env, w.nodeId, w.keys, c[i])
  {
    hide Genuine, StreamTheorems.ExpectedPrevious;
  }

  lemma ChainTail(w: World, d: Disk, c: seq<SignedEvent>)
    requires GoodChain(w, c) && d.log == Some(LogOf(c))
    ensures LogTail(w.nodeId, d) == if c == [] then None else Some(Logged(|c|, c[|c| - 1].eventHash))
  {
    hide LogTail, LogOf, WellFormed, Genuine, GoodChain;
    forall i | 0 <= i < |c| ensures WellFormed(w.env, c[i]) && c[i].nodeId == w.nodeId {
      GenuineAt(w, c, i);
      OwnHash(w, c[i]);
    }
    TailIsLast(w.env, w.nodeId, c, d);
    if c != [] {
      assert c == c[..|c| - 1] + [c[|c| - 1]];
      NextSequence(w, c[..|c| - 1], c[|c| - 1]);
    }
  }

  // ---- what recovery does --------------------------------------------------------------------

  // The state a journal's record commits.
  function JournalState(nodeId: string, journal: Option<string>, e: SignedEvent): NodeState {
    var v := if journal.Some? then ViewJournal(nodeId, journal.value) else Unreadable;
    NodeState(nodeId, if v.Readable? then v.keyId else "", e.sequence, Some(e.eventHash), FORMAT_VERSION)
  }

  function Mending(nodeId: string, d: Disk, c: seq<SignedEvent>, phase: Phase): seq<Effect> {
    match phase
    case Quiet => if d.journal.None? then [] else [DropJournal]
    case Writing(e, k) =>
      [if k < |Payload(Line(e))| then Truncate(|LogOf(c)|) else SetState(JournalState(nodeId, d.journal, e)), DropJournal]
    case Committed => [DropJournal]
  }

  // The chain that the mending ends with.
  function MendedChain(c: seq<SignedEvent>, phase: Phase): seq<SignedEvent> {
    if phase.Writing? && phase.k >= |Payload(Line(phase.next))| then c + [phase.next] else c
  }

  lemma ChainState(w: World, c: seq<SignedEvent>, s: NodeState)
    requires GoodChain(w, c) && c != [] && s.keyId != ""
    requires s == NodeState(w.nodeId, s.keyId, |c|, Some(c[|c| - 1].eventHash), FORMAT_VERSION)
    ensures StateFits(Some(s), w.nodeId, c)
  {
    hide SigningPayload, HashPayload;
    assert Genuine(w.env, w.nodeId, w.keys, c[|c| - 1]);
    assert ValidIdentifier(w.nodeId);
  }

  lemma ReplayQuiet(w: World, who: Owner, d: Disk, memory: Option<NodeState>, c: seq<SignedEvent>)
    requires Holds(w, d, c, Quiet) && who.nodeId == w.nodeId
    ensures ReplayPlan(who, d, memory) == Plan(Mending(w.nodeId, d, c, Quiet), None)
  {
    hide ViewJournal, GoodChain;
  }

  lemma ReplayNamed(w: World, who: Owner, d: Disk, memory: Option<NodeState>, e: SignedEvent, offset: nat)
    requires Names(d.journal, w.nodeId, e, offset) && who.nodeId == w.nodeId && d.log.Some?
    requires ReadThrough(who, d, memory).Ok?
    ensures var p := Payload(Line(e));
      ReplayPlan(who, d, memory) == Plan(
        (if Appended(LogBytes(d), offset, p) then
           (if ReadThrough(who, d, memory).value.lastSequence < e.sequence then [SetState(JournalState(w.nodeId, d.journal, e))] else [])
         else [Truncate(offset)]) + [DropJournal], None)
  {
    hide ViewJournal, Line, ReadState, Payload, Appended;
  }

  lemma StateReads(w: World, who: Owner, d: Disk, c: seq<SignedEvent>)
    requires StateFits(d.state, w.nodeId, c) && who.nodeId == w.nodeId
    ensures ReadState(who, d).Ok? && ReadState(who, d).value.lastSequence == |c|
    ensures c != [] ==> ReadState(who, d).value.lastEventHash == Some(c[|c| - 1].eventHash)
  {
  }

  lemma ReplayHolds(w: World, who: Owner, d: Disk, c: seq<SignedEvent>, phase: Phase)
    requires Holds(w, d, c, phase) && who.nodeId == w.nodeId
    ensures ReplayPlan(who, d, None) == Plan(Mending(w.nodeId, d, c, phase), None)
  {
    hide ViewJournal, Line, ReadState, Payload, GoodChain, LogOf, Names, StateFits, ReplayPlan;
    StateReads(w, who, d, c);
    match phase
    case Quiet => ReplayQuiet(w, who, d, None, c);
    case Writing(e, k) =>
      ReplayNamed(w, who, d, None, e, |LogOf(c)|);
      NextSequence(w, c, e);
      assert Payload(Line(e))[..|Payload(Line(e))|] == Payload(Line(e));
      assert [Truncate(|LogOf(c)|)] + [DropJournal] == [Truncate(|LogOf(c)|), DropJournal];
    case Committed =>
      var e := c[|c| - 1];
      ReplayNamed(w, who, d, None, e, |LogOf(c[..|c| - 1])|);
      assert c[..|c| - 1] + [e] == c;
      NextSequence(w, c[..|c| - 1], e);
      LogAppend(c[..|c| - 1], e);
      assert [] + [DropJournal] == [DropJournal];
  }

  lemma NextSequence(w: World, c: seq<SignedEvent>, e: SignedEvent)
    requires GoodChain(w, c + [e])
    ensures e.sequence == |c| + 1
  {
    hide Genuine, StreamTheorems.ExpectedPrevious;
    assert (c + [e])[|c|] == e;
  }

  lemma CheckQuiet(w: World, who: Owner, d: Disk, c: seq<SignedEvent>, s: NodeState)
    requires Holds(w, d, c, Quiet) && who.nodeId == w.nodeId && s.lastSequence == |c|
    ensures CheckPlan(who, d, Ok(s)) == Plan([], None)
  {
    hide GoodChain, LogOf, LogTail, Idle, StateFits;
    if c != [] {
      ChainTail(w, d, c);
    }
  }

  // The state recovery goes on with is the one the mended chain has.
  lemma MendedReads(w: World, who: Owner, d: Disk, c: seq<SignedEvent>, phase: Phase)
    requires Holds(w, d, c, phase) && who.nodeId == w.nodeId
    ensures var read := ReadAfter(who, d, None, Plan(Mending(w.nodeId, d, c, phase), None));
      read.Ok? && read.value.lastSequence == |MendedChain(c, phase)|
  {
    hide GoodChain, LogOf, Idle, StateFits, Line, Payload, ReadState;
    StateReads(w, who, d, c);
    if phase.Writing? {
      NextSequence(w, c, phase.next);
    }
  }

  // ---- every prefix of recovery ----------------------------------------------------------------

  lemma MendQuiet(w: World, d: Disk, c: seq<SignedEvent>)
    requires Holds(w, d, c, Quiet)
    ensures Holds(w, Apply(d, DropJournal), c, Quiet)
  {
    hide GoodChain, LogOf;
  }

  lemma MendCommitted(w: World, d: Disk, c: seq<SignedEvent>)
    requires Holds(w, d, c, Committed)
    ensures Holds(w, Apply(d, DropJournal), c, Quiet)
  {
    hide GoodChain, LogOf, StateFits;
  }

  lemma MendTorn(w: World, d: Disk, c: seq<SignedEvent>, e: SignedEvent, k: nat)
    requires Holds(w, d, c, Writing(e, k))
    ensures var d' := Apply(d, Truncate(|LogOf(c)|));
      && Holds(w, d', c, Writing(e, 0))
      && Holds(w, Apply(d', DropJournal), c, Quiet)
      && |LogOf(c)| <= |LogBytes(d)| && Apply(d', DropJournal).log == Some(LogOf(c))
  {
    hide GoodChain, LogOf, StateFits, Names, Line;
    assert (LogOf(c) + Payload(Line(e))[..k])[..|LogOf(c)|] == LogOf(c);
    assert LogOf(c) + Payload(Line(e))[..0] == LogOf(c);
  }

  lemma MendWhole(w: World, d: Disk, c: seq<SignedEvent>, e: SignedEvent, s: NodeState)
    requires Holds(w, d, c, Writing(e, |Payload(Line(e))|))
    requires s.keyId != "" && s == NodeState(w.nodeId, s.keyId, |c| + 1, Some(e.eventHash), FORMAT_VERSION)
    ensures Holds(w, Apply(d, SetState(s)), c + [e], Committed)
  {
    hide GoodChain, LogOf, StateFits, Names, Line;
    assert (c + [e])[..|c|] == c;
    LogAppend(c, e);
    assert Payload(Line(e))[..|Payload(Line(e))|] == Payload(Line(e));
    ChainState(w, c + [e], s);
  }

  // What holds once the first `i` effects of recovery have reached the disk.
  lemma MendingHolds(w: World, d: Disk, c: seq<SignedEvent>, phase: Phase, i: nat)
    returns (c': seq<SignedEvent>, phase': Phase)
    requires Holds(w, d, c, phase) && i <= |Mending(w.nodeId, d, c, phase)|
    ensures Holds(w, ApplyAll(d, Mending(w.nodeId, d, c, phase)[..i]), c', phase')
    ensures c <= c'
    ensures i == |Mending(w.nodeId, d, c, phase)| ==>
      phase' == Quiet && c' == MendedChain(c, phase) && ApplyAll(d, Mending(w.nodeId, d, c, phase)[..i]).journal.None?
  {
    hide GoodChain, LogOf, StateFits, Names, Line, Idle;
    var m := Mending(w.nodeId, d, c, phase);
    c', phase' := c, phase;
    if i == 0 {
      assert m[..0] == [];
      return;
    }
    if |m| == 1 {
      assert m[..1] == [DropJournal];
      ApplyOne(d, DropJournal);
      phase' := Quiet;
      if phase.Quiet? { MendQuiet(w, d, c); } else { MendCommitted(w, d, c); }
      return;
    }
    c', phase' := WritingMended(w, d, c, phase.next, phase.k, i);
  }

  lemma WritingMended(w: World, d: Disk, c: seq<SignedEvent>, e: SignedEvent, k: nat, i: nat)
    returns (c': seq<SignedEvent>, phase': Phase)
    requires Holds(w, d, c, Writing(e, k)) && 1 <= i <= 2
    ensures Holds(w, ApplyAll(d, Mending(w.nodeId, d, c, Writing(e, k))[..i]), c', phase')
    ensures c' == if k < |Payload(Line(e))| then c else c + [e]
    ensures i == 1 ==> phase' == if k < |Payload(Line(e))| then Writing(e, 0) else Committed
    ensures i == 2 ==> phase' == Quiet && ApplyAll(d, Mending(w.nodeId, d, c, Writing(e, k))[..i]).journal.None?
  {
    hide Holds, LogOf, Line;
    var m := Mending(w.nodeId, d, c, Writing(e, k));
    assert m[..1] == [m[0]] && m[..2] == [m[0], DropJournal];
    ApplyOne(d, m[0]);
    ApplyTwo(d, m[0], DropJournal);
    if k < |Payload(Line(e))| {
      MendTorn(w, d, c, e, k);
      c', phase' := c, if i == 1 then Writing(e, 0) else Quiet;
    } else {
      WholeJournal(w, d, c, e, k);
      MendWhole(w, d, c, e, JournalState(w.nodeId, d.journal, e));
      MendCommitted(w, Apply(d, m[0]), c + [e]);
      c', phase' := c + [e], if i == 1 then Committed else Quiet;
    }
  }

  // What a journal says, once its record is whole in the log, is the next state.
  lemma WholeJournal(w: World, d: Disk, c: seq<SignedEvent>, e: SignedEvent, k: nat)
    requires Holds(w, d, c, Writing(e, k)) && k >= |Payload(Line(e))|
    ensures k == |Payload(Line(e))|
    ensures var s := JournalState(w.nodeId, d.journal, e);
      s.keyId != "" && s == NodeState(w.nodeId, s.keyId, |c| + 1, Some(e.eventHash), FORMAT_VERSION)
  {
    hide GoodChain, LogOf, StateFits, Line, Payload;
    NextSequence(w, c, e);
  }

  // Recovery of anything a crash can leave succeeds, and its effects are the mending.
  lemma RecoverMends(w: World, who: Owner, d: Disk, c: seq<SignedEvent>, phase: Phase)
    requires Holds(w, d, c, phase) && who.nodeId == w.nodeId
    ensures RecoverPlan(who, d) == Plan(Mending(w.nodeId, d, c, phase), None)
  {
    hide Holds, Mending, ReplayPlan, CheckPlan, ReadAfter, MendedChain;
    var m := Mending(w.nodeId, d, c, phase);
    ReplayHolds(w, who, d, c, phase);
    MendedReads(w, who, d, c, phase);
    var c', phase' := MendingHolds(w, d, c, phase, |m|);
    assert m[..|m|] == m && m + [] == m;
    CheckQuiet(w, who, ApplyAll(d, m), c', ReadAfter(who, d, None, Plan(m, None)).value);
  }

  // ---- recovery interrupted, and recovery repeated ------------------------------------------------

  // From a disk that recovery has already worked on, what is left to do is the rest.
  lemma RestMends(w: World, who: Owner, d: Disk, c: seq<SignedEvent>, phase: Phase, i: nat)
    requires Holds(w, d, c, phase) && who.nodeId == w.nodeId && i <= |Mending(w.nodeId, d, c, phase)|
    ensures var m := Mending(w.nodeId, d, c, phase);
      var cut := ApplyAll(d, m[..i]);
      && RecoverPlan(who, cut).error.None?
      && ApplyAll(cut, RecoverPlan(who, cut).effects) == ApplyAll(cut, m[i..])
      && (i == |m| ==> RecoverPlan(who, cut).effects == [])
  {
    hide RecoverPlan, Holds;
    var m := Mending(w.nodeId, d, c, phase);
    var cut := ApplyAll(d, m[..i]);
    if i == 0 {
      assert m[..0] == [] && m[0..] == m;
      RecoverMends(w, who, d, c, phase);
    } else if i == |m| {
      var c', phase' := MendingHolds(w, d, c, phase, i);
      RecoverMends(w, who, cut, c', phase');
      assert m[i..] == [];
    } else {
      HalfMends(w, who, d, c, phase.next, phase.k);
    }
  }

  lemma HalfMends(w: World, who: Owner, d: Disk, c: seq<SignedEvent>, e: SignedEvent, k: nat)
    requires Holds(w, d, c, Writing(e, k)) && who.nodeId == w.nodeId
    ensures var m := Mending(w.nodeId, d, c, Writing(e, k));
      var cut := ApplyAll(d, m[..1]);
      RecoverPlan(who, cut).error.None? && ApplyAll(cut, RecoverPlan(who, cut).effects) == ApplyAll(cut, m[1..])
  {
    hide RecoverPlan, Line, LogOf, Payload;
    var m := Mending(w.nodeId, d, c, Writing(e, k));
    var cut := ApplyAll(d, m[..1]);
    var c', phase' := WritingMended(w, d, c, e, k, 1);
    RecoverMends(w, who, cut, c', phase');
    assert m[1..] == [DropJournal];
    hide GoodChain, StateFits, Names;
    if k < |Payload(Line(e))| {
      assert cut.log == Some(LogOf(c));
      TruncatedTwice(cut, |LogOf(c)|);
    }
  }

  lemma TruncatedTwice(d: Disk, offset: nat)
    requires d.log.Some? && |d.log.value| == offset
    ensures ApplyAll(d, [Truncate(offset), DropJournal]) == ApplyAll(d, [DropJournal])
  {
    ApplyTwo(d, Truncate(offset), DropJournal);
    ApplyOne(d, DropJournal);
    assert d.log.value[..offset] == d.log.value;
  }

  // Recovery cut short after any number of its effects, then run again by any
  // process, ends in the same files as one recovery left alone; and recovery of
  // what a finished recovery left changes nothing.
  lemma RecoveryConverges(w: World, who: Owner, again: Owner, d: Disk, c: seq<SignedEvent>, phase: Phase, i: nat)
    requires Holds(w, d, c, phase) && who.nodeId == w.nodeId && again.nodeId == w.nodeId
    requires i <= |RecoverPlan(who, d).effects|
    ensures var plan := RecoverPlan(who, d);
      var cut := ApplyAll(d, plan.effects[..i]);
      && plan.error.None? && RecoverPlan(again, cut).error.None?
      && ApplyAll(cut, RecoverPlan(again, cut).effects) == ApplyAll(d, plan.effects)
      && (i == |plan.effects| ==> RecoverPlan(again, cut).effects == [])
  {
    hide RecoverPlan, Holds, Mending;
    RecoverMends(w, who, d, c, phase);
    var m := Mending(w.nodeId, d, c, phase);
    RestMends(w, again, d, c, phase, i);
    assert m[..i] + m[i..] == m;
    ApplyConcat(d, m[..i], m[i..]);
  }
}
