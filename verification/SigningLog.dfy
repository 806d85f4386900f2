/** Signing a whole log of plain events under one hold of the lock. */
module SigningLog {
  import opened Json
  import opened JsonParser
  import opened JsonLaws
  import opened PyText
  import opened Utf8
  import opened Models
  import opened Signer
  import opened Store
  import opened StoreLaws
  import opened Recovery
  import opened Outcome
  import opened Protocol
  import opened EvidenceStore
  import opened StoreRefinement

  // ---- from JSON text to a Python value -----------------------------------------------

  // `dict(pairs)`: a repeated key keeps its first place and its last value.
  function Put(fields: seq<Field>, f: Field): seq<Field> {
    if fields == [] then [f]
    else if fields[0].key == f.key then [f] + fields[1..]
    else [fields[0]] + Put(fields[1..], f)
  }

  function Loaded(v: Json): Json
    decreases v, 1
  {
    match v
    case Arr(items) => Arr(LoadedItems(items))
    case Obj(fields) => Obj(LoadedFields(fields))
    case _ => v
  }

  function LoadedItems(items: seq<Json>): seq<Json>
    decreases items, 0
  {
    if items == [] then [] else [Loaded(items[0])] + LoadedItems(items[1..])
  }

  function LoadedFields(fields: seq<Field>): seq<Field>
    decreases fields, 0
  {
    if fields == [] then []
    else
      var last := fields[|fields| - 1];
      Put(LoadedFields(fields[..|fields| - 1]), Field(last.key, Loaded(last.value)))
  }

  lemma {:induction false} PutKeeps(fields: seq<Field>, f: Field)
    requires DistinctKeys(fields)
    ensures DistinctKeys(Put(fields, f))
    ensures forall x :: x in Put(fields, f) ==> x == f || (x in fields && x.key != f.key)
  {
    if fields != [] {
      var tail := fields[1..];
      assert forall i :: 0 <= i < |tail| ==> tail[i] == fields[i + 1];
      assert forall x :: x in tail ==> x.key != fields[0].key;
      if fields[0].key != f.key {
        PutKeeps(tail, f);
        var more := Put(tail, f);
        assert forall i :: 0 <= i < |more| ==> more[i] in more;
      }
    }
  }

  // A value read from text repeats no key, whatever the text did.
  lemma {:induction false} LoadedIsPython(v: Json)
    ensures NoDuplicates(Loaded(v))
    decreases v, 1
  {
    if v.Arr? {
      LoadedItemsArePython(v.items);
    } else if v.Obj? {
      LoadedFieldsArePython(v.fields);
    }
  }

  lemma {:induction false} LoadedItemsArePython(items: seq<Json>)
    ensures forall x :: x in LoadedItems(items) ==> NoDuplicates(x)
    decreases items, 0
  {
    if items != [] {
      LoadedIsPython(items[0]);
      LoadedItemsArePython(items[1..]);
    }
  }

  lemma {:induction false} LoadedFieldsArePython(fields: seq<Field>)
    ensures DistinctKeys(LoadedFields(fields)) && forall f :: f in LoadedFields(fields) ==> NoDuplicates(f.value)
    decreases fields, 0
  {
    if fields != [] {
      var last := fields[|fields| - 1];
      LoadedIsPython(last.value);
      LoadedFieldsArePython(fields[..|fields| - 1]);
      PutKeeps(LoadedFields(fields[..|fields| - 1]), Field(last.key, Loaded(last.value)));
    }
  }

  // ---- which lines are signed -------------------------------------------------------------

  // The events taken from a source, and the lines passed over on the way.
  datatype Intake = Intake(events: seq<Json>, skipped: nat, errors: nat)

  function TakeIn(source: seq<string>, count: nat, max: Option<nat>): Intake {
    if source == [] then Intake([], 0, 0)
    else
      var text := Strip(source[0]);
      if text == [] then
        var more := TakeIn(source[1..], count, max); more.(skipped := more.skipped + 1)
      else if max.Some? && count >= max.value then Intake([], 0, 0)
      else
        var parsed := ParseDocument(text);
        if parsed.None? || !parsed.value.Obj? then
          var more := TakeIn(source[1..], count, max); more.(errors := more.errors + 1)
        else
          var more := TakeIn(source[1..], count + 1, max); more.(events := [Loaded(parsed.value)] + more.events)
  }

  function Joined(a: Intake, b: Intake): Intake {
    Intake(a.events + b.events, a.skipped + b.skipped, a.errors + b.errors)
  }

  // Never more than was asked for, and never a line that is not an object.
  lemma {:induction false} TakesWithin(source: seq<string>, count: nat, max: Option<nat>)
    ensures var t := TakeIn(source, count, max);
      && (max.Some? && count <= max.value ==> count + |t.events| <= max.value)
      && |t.events| + t.skipped + t.errors <= |source|
      && (max.None? ==> |t.events| + t.skipped + t.errors == |source|)
      && forall e :: e in t.events ==> e.Obj? && NoDuplicates(e)
    decreases |source|
  {
    hide Strip, ParseDocument, Loaded, NoDuplicates;
    if source != [] {
      TakesWithin(source[1..], count, max);
      TakesWithin(source[1..], count + 1, max);
      var text := Strip(source[0]);
      var parsed := ParseDocument(text);
      if text != [] && parsed.Some? && parsed.value.Obj? {
        LoadedIsPython(parsed.value);
        LoadedObject(parsed.value);
      }
    }
  }

  lemma LoadedObject(v: Json)
    requires v.Obj?
    ensures Loaded(v).Obj?
  {
  }

  predicate BlankLine(line: string) {
    Strip(line) == []
  }

  predicate ObjectLine(line: string) {
    ParseDocument(Strip(line)).Some? && ParseDocument(Strip(line)).value.Obj?
  }

  // How many of these lines are so.
  function Many(lines: seq<string>, so: string -> bool): nat {
    if lines == [] then 0 else (if so(lines[0]) then 1 else 0) + Many(lines[1..], so)
  }

  // The objects on these lines, in order.
  function Objects(lines: seq<string>): seq<Json> {
    if lines == [] then []
    else
      (if !BlankLine(lines[0]) && ObjectLine(lines[0]) then [Loaded(ParseDocument(Strip(lines[0])).value)] else [])
      + Objects(lines[1..])
  }

  // The lines read are the first `n`: the blank ones of them are skipped, the others that
  // hold no object are the errors, and the rest are the events.  It stops at the end, or
  // at a line that is not blank when it has as many as were asked for.
  lemma {:induction false} TakesExactly(source: seq<string>, count: nat, max: Option<nat>) returns (n: nat)
    requires max.Some? ==> count <= max.value
    ensures n <= |source|
    ensures var t, lines := TakeIn(source, count, max), source[..n];
      && t.skipped == Many(lines, BlankLine)
      && t.errors == Many(lines, (line: string) => !BlankLine(line) && !ObjectLine(line))
      && t.events == Objects(lines)
      && (n == |source| || (!BlankLine(source[n]) && max.Some? && count + |t.events| == max.value))
    decreases |source|
  {
    hide Strip, ParseDocument, Loaded;
    n := 0;
    if source != [] {
      var text := Strip(source[0]);
      if text == [] {
        n := TakesExactly(source[1..], count, max);
        n := n + 1;
        assert source[..n][1..] == source[1..][..n - 1];
      } else if !(max.Some? && count >= max.value) {
        var parsed := ParseDocument(text);
        n := TakesExactly(source[1..], if parsed.None? || !parsed.value.Obj? then count else count + 1, max);
        n := n + 1;
        assert source[..n][1..] == source[1..][..n - 1];
      }
    }
  }

  // ---- signing them ---------------------------------------------------------------------------

  datatype SigningReport = SigningReport(signed: nat, skipped: nat, errors: nat, firstSequence: Option<int>,
                                         lastSequence: Option<int>)

  // Record `i` is event `i`, signed at its own moment, one place after record `i - 1`.
  ghost predicate Continues(env: Env, who: Identity, clock: nat -> string, start: NodeState, events: seq<Json>,
                            records: seq<SignedEvent>)
  {
    && |records| == |events|
    && forall i :: 0 <= i < |records| ==>
         var previous := PreviousHash(env, who.nodeId, start, records, i);
         && previous.Some?
         && BuildAndSign(env, who, events[i], clock(i), start.lastSequence + 1 + i, previous.value) == Ok(records[i])
  }

  function PreviousHash(env: Env, nodeId: string, start: NodeState, records: seq<SignedEvent>, i: nat): Option<string>
    requires i <= |records|
  {
    ExpectedPreviousHash(env, nodeId, start.lastSequence + 1 + i,
                         if i == 0 then start.lastEventHash else Some(records[i - 1].eventHash))
  }

  lemma ContinuesStep(env: Env, who: Identity, clock: nat -> string, start: NodeState, events: seq<Json>,
                      records: seq<SignedEvent>, event: Json, e: SignedEvent)
    requires Continues(env, who, clock, start, events, records)
    requires PreviousHash(env, who.nodeId, start, records, |records|).Some?
    requires BuildAndSign(env, who, event, clock(|records|), start.lastSequence + 1 + |records|,
                          PreviousHash(env, who.nodeId, start, records, |records|).value) == Ok(e)
    ensures Continues(env, who, clock, start, events + [event], records + [e])
  {
    hide BuildAndSign, PreviousHash;
    var more, all := records + [e], events + [event];
    forall i | 0 <= i < |more|
      ensures PreviousHash(env, who.nodeId, start, more, i).Some?
      ensures BuildAndSign(env, who, all[i], clock(i), start.lastSequence + 1 + i,
                           PreviousHash(env, who.nodeId, start, more, i).value) == Ok(more[i])
    {
      PreviousKept(env, who.nodeId, start, records, e, i);
      assert i < |records| ==> more[i] == records[i] && all[i] == events[i];
    }
  }

  lemma PreviousKept(env: Env, nodeId: string, start: NodeState, records: seq<SignedEvent>, e: SignedEvent, i: nat)
    requires i <= |records|
    ensures PreviousHash(env, nodeId, start, records + [e], i) == PreviousHash(env, nodeId, start, records, i)
  {
  }

  // The state the store goes on from has the place of the last record.
  predicate Reached(start: NodeState, records: seq<SignedEvent>, s: NodeState) {
    && s.lastSequence == start.lastSequence + |records|
    && s.lastEventHash == if records == [] then start.lastEventHash else Some(records[|records| - 1].eventHash)
  }

  // The files after at least one append: its state, its log, no journal.
  predicate Settled(who: Identity, now: Disk, s: NodeState) {
    && now.state == Some(s) && now.journal.None? && now.log.Some?
    && s.nodeId == who.nodeId && s.keyId != "" && s.formatVersion == FORMAT_VERSION
  }

  // Where a batch stands: these events signed as these records, the log grown by them.
  ghost predicate Progress(env: Env, who: Identity, clock: nat -> string, start: NodeState, base: Disk, now: Disk,
                           s: Option<NodeState>, events: seq<Json>, records: seq<SignedEvent>)
  {
    && s.Some? && Reached(start, records, s.value) && Continues(env, who, clock, start, events, records)
    && LogBytes(now) == LogBytes(base) + LogOf(records)
    && (if records == [] then now == base && s.value == start else Settled(who, now, s.value))
  }

  // Building and signing the event refuses it at the place after these records.
  predicate Refused(env: Env, who: Identity, clock: nat -> string, start: NodeState, records: seq<SignedEvent>, event: Json)
  {
    var previous := PreviousHash(env, who.nodeId, start, records, |records|);
    previous.None?
    || BuildAndSign(env, who, event, clock(|records|), start.lastSequence + 1 + |records|, previous.value).Err?
  }

  predicate Reported(report: SigningReport, start: NodeState, records: seq<SignedEvent>) {
    && report.signed == |records|
    && report.firstSequence == (if records == [] then None else Some(start.lastSequence + 1))
    && report.lastSequence == (if records == [] then None else Some(start.lastSequence + |records|))
  }

  lemma ProgressStarts(env: Env, who: Identity, clock: nat -> string, start: NodeState, base: Disk)
    ensures Progress(env, who, clock, start, base, base, Some(start), [], [])
    ensures Reported(SigningReport(0, 0, 0, None, None), start, [])
  {
    assert LogOf([]) == [];
    assert LogBytes(base) + [] == LogBytes(base);
  }

  // ---- the lines already read -----------------------------------------------------------------

  // These events and counts are what the first `i` lines gave.
  predicate Taken(source: seq<string>, i: nat, max: Option<nat>, events: seq<Json>, report: SigningReport)
    requires i <= |source|
  {
    TakeIn(source, 0, max)
    == Joined(Intake(events, report.skipped, report.errors), TakeIn(source[i..], report.signed, max))
  }

  lemma TakenNone(source: seq<string>, max: Option<nat>)
    ensures Taken(source, 0, max, [], SigningReport(0, 0, 0, None, None))
  {
    hide TakeIn;
    assert source[0..] == source;
    var t := TakeIn(source, 0, max);
    assert [] + t.events == t.events;
  }

  lemma TakenBlank(source: seq<string>, i: nat, max: Option<nat>, events: seq<Json>, report: SigningReport)
    requires i < |source| && Taken(source, i, max, events, report) && Strip(source[i]) == []
    ensures Taken(source, i + 1, max, events, report.(skipped := report.skipped + 1))
  {
    hide Strip, ParseDocument, Loaded;
    assert source[i..][1..] == source[i + 1..];
  }

  lemma TakenBad(source: seq<string>, i: nat, max: Option<nat>, events: seq<Json>, report: SigningReport)
    requires i < |source| && Taken(source, i, max, events, report) && Strip(source[i]) != []
    requires !(max.Some? && report.signed >= max.value)
    requires ParseDocument(Strip(source[i])).None? || !ParseDocument(Strip(source[i])).value.Obj?
    ensures Taken(source, i + 1, max, events, report.(errors := report.errors + 1))
  {
    hide Strip, ParseDocument, Loaded;
    assert source[i..][1..] == source[i + 1..];
  }

  lemma TakenEvent(source: seq<string>, i: nat, max: Option<nat>, events: seq<Json>, report: SigningReport)
    requires i < |source| && Taken(source, i, max, events, report) && Strip(source[i]) != []
    requires !(max.Some? && report.signed >= max.value)
    requires ParseDocument(Strip(source[i])).Some? && ParseDocument(Strip(source[i])).value.Obj?
    ensures var event := Loaded(ParseDocument(Strip(source[i])).value);
      && events + [event] <= TakeIn(source, 0, max).events
      && Taken(source, i + 1, max, events + [event], report.(signed := report.signed + 1))
  {
    hide Strip, ParseDocument, Loaded, TakeIn;
    TakeStep(source, i, report.signed, max);
    var event := Loaded(ParseDocument(Strip(source[i])).value);
    var more := TakeIn(source[i + 1..], report.signed + 1, max).events;
    assert events + ([event] + more) == events + [event] + more;
  }

  lemma TakeStep(source: seq<string>, i: nat, count: nat, max: Option<nat>)
    requires i < |source| && Strip(source[i]) != [] && !(max.Some? && count >= max.value)
    requires ParseDocument(Strip(source[i])).Some? && ParseDocument(Strip(source[i])).value.Obj?
    ensures var more := TakeIn(source[i + 1..], count + 1, max);
      TakeIn(source[i..], count, max)
      == Intake([Loaded(ParseDocument(Strip(source[i])).value)] + more.events, more.skipped, more.errors)
  {
    hide Strip, ParseDocument, Loaded;
    assert source[i..][1..] == source[i + 1..];
  }

  lemma TakenAll(source: seq<string>, i: nat, max: Option<nat>, events: seq<Json>, report: SigningReport)
    requires i <= |source| && Taken(source, i, max, events, report)
    requires i == |source| || (Strip(source[i]) != [] && max.Some? && report.signed >= max.value)
    ensures TakeIn(source, 0, max) == Intake(events, report.skipped, report.errors)
  {
    hide Strip, ParseDocument, Loaded;
    assert events + [] == events;
  }

  class EvidenceSigner {
    const env: Env
    const files: Files
    const who: Identity

    constructor (env: Env, files: Files, who: Identity)
      ensures this.env == env && this.files == files && this.who == who
    {
      this.env, this.files, this.who := env, files, who;
    }

    // One event, on a store this signer holds and has recovered: it is refused exactly
    // when there is nothing to link to or building it is, and then nothing changes.
    method Transact(store: EvidenceStore, event: Json, timestamp: string, writtenAt: string)
      returns (r: Result<SignedEvent, StoreError>)
      requires store.files == files && store.env == env && store.nodeId == who.nodeId && store.keyId == who.keyId
      requires store.Valid() && store.Coherent() && store.holding && store.memory.Some?
      modifies store`memory, files`log, files`state, files`journal, files`effects
      ensures store.Valid() && store.Coherent()
      ensures var s := old(store.memory.value);
        var previous := ExpectedPreviousHash(env, who.nodeId, s.lastSequence + 1, s.lastEventHash);
        && (r.Err? <==> previous.None?
                        || BuildAndSign(env, who, event, timestamp, s.lastSequence + 1, previous.value).Err?)
        && (r.Err? ==>
              && r.error == (if previous.None? then StateCorruption else SigningFailed)
              && files.effects == old(files.effects) && files.Image() == old(files.Image())
              && store.memory == old(store.memory))
        && (r.Ok? ==>
              && BuildAndSign(env, who, event, timestamp, s.lastSequence + 1, previous.value) == Ok(r.value)
              && store.memory.Some? && store.memory.value.lastSequence == s.lastSequence + 1
              && store.memory.value.lastEventHash == Some(r.value.eventHash)
              && LogBytes(files.Image()) == LogBytes(old(files.Image())) + Payload(Line(r.value))
              && Settled(who, files.Image(), store.memory.value))
    {
      hide BuildAndSign, WritePlan, CommitPlan, Payload, Line, Remembers;
      var s := store.memory.value;
      ghost var before, d := files.effects, files.Image();
      ghost var plan := AppendPlan(env, store.Who(), d, store.memory, Builder(env, who, event, timestamp), who.keyId,
                                   writtenAt, Fine);
      var result := store.AppendSigned(Builder(env, who, event, timestamp), who.keyId, writtenAt, Fine);
      if result.Err? {
        assert plan.effects == [] && before + [] == before;
        return Err(result.error);
      }
      var previous := ExpectedPreviousHash(env, who.nodeId, s.lastSequence + 1, s.lastEventHash);
      var built := BuildAndSign(env, who, event, timestamp, s.lastSequence + 1, previous.value);
      r := Ok(built.value);
      SignedKey(env, who, event, timestamp, s.lastSequence + 1, previous.value);
      ApplyConcat(files.origin, before, plan.effects);
      var signed := Signed(Line(built.value), built.value.eventHash);
      AppendOutcome(d, NewEntry(store.Who(), who.keyId, s, d, signed, writtenAt), NewState(store.Who(), who.keyId, s, signed));
    }

    // One event of a batch.
    method SignOne(store: EvidenceStore, event: Json, timestamp: string, writtenAt: string, report: SigningReport,
                   ghost clock: nat -> string, ghost start: NodeState, ghost base: Disk, ghost events: seq<Json>,
                   ghost records: seq<SignedEvent>)
      returns (r: Result<SigningReport, StoreError>, ghost more: seq<SignedEvent>)
      requires store.files == files && store.env == env && store.nodeId == who.nodeId && store.keyId == who.keyId
      requires store.Valid() && store.Coherent() && store.holding
      requires Progress(env, who, clock, start, base, files.Image(), store.memory, events, records)
      requires Reported(report, start, records) && timestamp == clock(report.signed)
      modifies store`memory, files`log, files`state, files`journal, files`effects
      ensures store.Valid() && store.Coherent()
      ensures r.Ok? <==> !Refused(env, who, clock, start, records, event)
      ensures r.Ok? ==>
        && Progress(env, who, clock, start, base, files.Image(), store.memory, events + [event], more)
        && Reported(r.value, start, more) && r.value.signed == report.signed + 1
        && r.value.skipped == report.skipped && r.value.errors == report.errors
      ensures r.Err? ==>
        more == records && Progress(env, who, clock, start, base, files.Image(), store.memory, events, records)
    {
      hide BuildAndSign, Line, Payload, LogOf, ExpectedPreviousHash, Continues, GenesisPreviousHash, ApplyAll, Remembers,
        Settled;
      more := records;
      assert |records| == |events| by { SameCount(env, who, clock, start, events, records); }
      var signed := Transact(store, event, timestamp, writtenAt);
      if signed.Err? {
        return Err(signed.error), records;
      }
      ghost var e := signed.value;
      ContinuesStep(env, who, clock, start, events, records, event, e);
      LogAppend(records, e);
      assert LogBytes(base) + LogOf(records) + Payload(Line(e)) == LogBytes(base) + (LogOf(records) + Payload(Line(e)));
      more := records + [e];
      var sequence := store.memory.value.lastSequence;
      r := Ok(report.(signed := report.signed + 1, lastSequence := Some(sequence),
                      firstSequence := if report.firstSequence.None? then Some(sequence) else report.firstSequence));
    }

    // The lines of a source, on a store just opened.
    method SignLines(store: EvidenceStore, source: seq<string>, max: Option<nat>, clock: nat -> string, writtenAt: string)
      returns (r: Result<SigningReport, StoreError>, ghost records: seq<SignedEvent>)
      requires store.files == files && store.env == env && store.nodeId == who.nodeId && store.keyId == who.keyId
      requires store.Valid() && store.Coherent() && store.holding && store.memory.Some?
      modifies store`memory, files`log, files`state, files`journal, files`effects
      ensures store.Valid() && store.Coherent()
      ensures Batched(env, who, clock, old(store.memory.value), old(files.Image()), files.Image(), store.memory,
                      TakeIn(source, 0, max), records, r)
    {
      hide Strip, ParseDocument, Loaded, Progress, Reported, Taken, TakeIn, Remembers, Refused;
      var report := SigningReport(0, 0, 0, None, None);
      ghost var start, base := store.memory.value, files.Image();
      ghost var events: seq<Json> := [];
      records := [];
      ProgressStarts(env, who, clock, start, base);
      TakenNone(source, max);
      var i := 0;
      while i < |source|
        invariant 0 <= i <= |source| && store.Valid() && store.Coherent() && store.holding
        invariant Progress(env, who, clock, start, base, files.Image(), store.memory, events, records)
        invariant Reported(report, start, records) && Taken(source, i, max, events, report)
      {
        var text := Strip(source[i]);
        if text == [] {
          TakenBlank(source, i, max, events, report);
          SameReport(report, report.(skipped := report.skipped + 1), start, records);
          report := report.(skipped := report.skipped + 1);
        } else if max.Some? && report.signed >= max.value {
          break;
        } else {
          var parsed := ParseDocument(text);
          if parsed.None? || !parsed.value.Obj? {
            TakenBad(source, i, max, events, report);
            SameReport(report, report.(errors := report.errors + 1), start, records);
            report := report.(errors := report.errors + 1);
          } else {
            TakenEvent(source, i, max, events, report);
            var event := Loaded(parsed.value);
            var signed: Result<SigningReport, StoreError>;
            signed, records := SignOne(store, event, clock(report.signed), writtenAt, report,
                                       clock, start, base, events, records);
            if signed.Err? {
              BatchStops(env, who, clock, start, base, files.Image(), store.memory, TakeIn(source, 0, max), events, event,
                         records, signed.error);
              return Err(signed.error), records;
            }
            SameTaken(source, i + 1, max, events + [event], report.(signed := report.signed + 1), signed.value);
            report, events := signed.value, events + [event];
          }
        }
        i := i + 1;
      }
      TakenAll(source, i, max, events, report);
      BatchEnds(env, who, clock, start, base, files.Image(), store.memory, events, records, report);
      r := Ok(report);
    }

    // One hold of the lock: recovery, then the lines.
    method Session(source: seq<string>, max: Option<nat>, clock: nat -> string, writtenAt: string)
      returns (r: Result<SigningReport, StoreError>, ghost start: NodeState, ghost end: Option<NodeState>,
               ghost records: seq<SignedEvent>)
      requires files.Valid()
      modifies files
      ensures files.Valid() && files.locked == old(files.locked)
      ensures old(files.locked) ==> r == Err(LockTimeout) && files.effects == old(files.effects)
      ensures !old(files.locked) ==>
        var plan := RecoverPlan(Host(who), old(files.Image()));
        var recovered := ApplyAll(old(files.Image()), plan.effects);
        if plan.error.Some? then r == Err(plan.error.value) && records == [] && files.Image() == recovered
        else
          && Remembers(Host(who), recovered.state, Some(start))
          && Batched(env, who, clock, start, recovered, files.Image(), end, TakeIn(source, 0, max), records, r)
    {
      hide RecoverPlan, ApplyAll, TakeIn, Remembers, Batched;
      start, records, end := NodeState("", "", 0, None, ""), [], None;
      var store := new EvidenceStore(env, files, who.nodeId, who.keyId);
      var acquired := store.Acquire();
      if acquired.Err? {
        return Err(acquired.error), start, end, records;
      }
      var failed := Opened(store);
      if failed.Some? {
        store.Release();
        return Err(failed.value), start, end, records;
      }
      start := store.memory.value;
      assert Remembers(Host(who), files.Image().state, Some(start));
      r, records := SignLines(store, source, max, clock, writtenAt);
      end := store.memory;
      store.Release();
    }

    // Blank lines are skipped, lines that are no JSON object counted as errors, and
    // the rest signed in order until `max` of them have been or one is refused, which
    // ends the batch.  It starts from the state recovery left; and whether or not an
    // event was refused, what was one chain before is one chain after, at rest.
    method SignLog(source: seq<string>, max: Option<nat>, clock: nat -> string, writtenAt: string, ghost w: World,
                   ghost c: seq<SignedEvent>, ghost phase: Phase)
      returns (r: Result<SigningReport, StoreError>, ghost start: NodeState, ghost records: seq<SignedEvent>)
      requires files.Valid()
      modifies files
      ensures files.Valid() && files.locked == old(files.locked)
      ensures old(files.locked) ==> r == Err(LockTimeout) && files.effects == old(files.effects)
      ensures !old(files.locked) ==>
        var t := TakeIn(source, 0, max);
        var plan := RecoverPlan(Host(who), old(files.Image()));
        var recovered := ApplyAll(old(files.Image()), plan.effects);
        if plan.error.Some? then r == Err(plan.error.value) && records == [] && files.Image() == recovered
        else
          && Remembers(Host(who), recovered.state, Some(start))
          && |records| <= |t.events| && Continues(env, who, clock, start, t.events[..|records|], records)
          && LogBytes(files.Image()) == LogBytes(recovered) + LogOf(records)
          && (records == [] ==> files.Image() == recovered)
          && (r.Err? ==> |records| < |t.events| && Refused(env, who, clock, start, records, t.events[|records|]))
          && (r.Ok? ==>
                && |records| == |t.events|
                && r.value == SigningReport(|t.events|, t.skipped, t.errors,
                                            if records == [] then None else Some(start.lastSequence + 1),
                                            if records == [] then None else Some(start.lastSequence + |records|)))
      ensures !old(files.locked) && Held(w, env, who) && Holds(w, old(files.Image()), c, phase) ==>
        var t := TakeIn(source, 0, max);
        && ReadState(Host(who), ApplyAll(old(files.Image()), RecoverPlan(Host(who), old(files.Image())).effects)) == Ok(start)
        && Holds(w, files.Image(), MendedChain(c, phase) + records, Quiet) && files.journal.None?
        && (r.Ok? <==> AllSignable(env, who, clock, |MendedChain(c, phase)|, t.events, |t.events|))
        && (r.Err? ==> |records| < |t.events| && AllSignable(env, who, clock, |MendedChain(c, phase)|, t.events, |records|))
    {
      hide RecoverPlan, LogOf, LogBytes, Continues, ApplyAll, TakeIn, Remembers, Holds, Held, Batched, MendedChain, ReadState,
        Refused, AllSignable;
      ghost var found := files.Image();
      ghost var end;
      r, start, end, records := Session(source, max, clock, writtenAt);
      if !files.locked {
        ghost var plan := RecoverPlan(Host(who), found);
        if plan.error.None? {
          BatchMeans(env, who, clock, start, ApplyAll(found, plan.effects), files.Image(), end, TakeIn(source, 0, max),
                     records, r);
        }
        if Held(w, env, who) && Holds(w, found, c, phase) {
          BatchRecovers(w, env, who, found, c, phase);
          BatchHolds(w, env, who, clock, found, files.Image(), c, phase, start, end, source, max, records, r);
        }
      }
    }

    // Entering the store: recovery, and the state it leaves in memory.
    method Opened(store: EvidenceStore) returns (error: Option<StoreError>)
      requires store.files == files && store.Who() == Host(who)
      requires store.Fresh() && store.holding
      modifies store`memory, files`log, files`state, files`journal, files`effects
      ensures store.Valid() && store.Coherent()
      ensures var plan := RecoverPlan(Host(who), old(files.Image()));
        && error == plan.error && files.Image() == ApplyAll(old(files.Image()), plan.effects)
        && (error.None? ==>
              store.memory.Some? && Ok(store.memory.value) == RecoveredState(Host(who), old(files.Image()), None))
    {
      hide RecoverFrom, RecoveredState;
      ghost var before, plan := files.effects, RecoverPlan(store.Who(), files.Image());
      error := store.Recover();
      ApplyConcat(files.origin, before, plan.effects);
    }
  }

  lemma SameReport(a: SigningReport, b: SigningReport, start: NodeState, records: seq<SignedEvent>)
    requires Reported(a, start, records)
    requires a.signed == b.signed && a.firstSequence == b.firstSequence && a.lastSequence == b.lastSequence
    ensures Reported(b, start, records)
  {
  }

  lemma SameTaken(source: seq<string>, i: nat, max: Option<nat>, events: seq<Json>, a: SigningReport, b: SigningReport)
    requires i <= |source| && Taken(source, i, max, events, a)
    requires a.signed == b.signed && a.skipped == b.skipped && a.errors == b.errors
    ensures Taken(source, i, max, events, b)
  {
    hide TakeIn;
  }

  // A batch of the events taken, whole or broken off at the first that was refused.
  ghost predicate Batched(env: Env, who: Identity, clock: nat -> string, start: NodeState, base: Disk, now: Disk,
                          s: Option<NodeState>, t: Intake, records: seq<SignedEvent>, r: Result<SigningReport, StoreError>)
  {
    && |records| <= |t.events|
    && Progress(env, who, clock, start, base, now, s, t.events[..|records|], records)
    && match r
       case Ok(report) =>
         && |records| == |t.events| && Reported(report, start, records)
         && report.skipped == t.skipped && report.errors == t.errors
       case Err(_) => |records| < |t.events| && Refused(env, who, clock, start, records, t.events[|records|])
  }

  lemma BatchStops(env: Env, who: Identity, clock: nat -> string, start: NodeState, base: Disk, now: Disk,
                   s: Option<NodeState>, t: Intake, events: seq<Json>, event: Json, records: seq<SignedEvent>,
                   error: StoreError)
    requires Progress(env, who, clock, start, base, now, s, events, records)
    requires Refused(env, who, clock, start, records, event) && events + [event] <= t.events
    ensures Batched(env, who, clock, start, base, now, s, t, records, Err(error))
  {
    hide Refused, Reached, LogOf, Settled;
    SameCount(env, who, clock, start, events, records);
    hide Continues;
    assert t.events[..|events|] == events && t.events[|events|] == event;
  }

  lemma BatchEnds(env: Env, who: Identity, clock: nat -> string, start: NodeState, base: Disk, now: Disk,
                  s: Option<NodeState>, events: seq<Json>, records: seq<SignedEvent>, report: SigningReport)
    requires Progress(env, who, clock, start, base, now, s, events, records) && Reported(report, start, records)
    ensures Batched(env, who, clock, start, base, now, s, Intake(events, report.skipped, report.errors), records, Ok(report))
  {
    hide Refused, Reached, LogOf, Settled, Reported;
    SameCount(env, who, clock, start, events, records);
    hide Continues;
    assert events[..|events|] == events;
  }

  // The store a signer opens.
  function Host(who: Identity): Owner {
    Owner(who.nodeId, who.keyId)
  }

  // ---- the chain a batch adds to --------------------------------------------------------------

  // The signer is one of the world's: its node, its libraries, a key of its own.
  ghost predicate Held(w: World, env: Env, who: Identity) {
    Laws(env) && env == w.env && who.nodeId == w.nodeId && who.keyId in w.keys && w.keys[who.keyId] == who.privateKey
  }

  // What the recovered store remembers is the end of the chain.
  lemma StartIsEnd(w: World, who: Owner, base: Disk, c: seq<SignedEvent>, start: NodeState)
    requires StateFits(base.state, w.nodeId, c) && Remembers(who, base.state, Some(start))
    ensures start.lastSequence == |c| && (c != [] ==> start.lastEventHash == Some(c[|c| - 1].eventHash))
  {
  }

  // One record of the batch: genuine, and where the batch has come to.
  lemma RecordAt(w: World, env: Env, who: Identity, clock: nat -> string, start: NodeState, events: seq<Json>,
                 records: seq<SignedEvent>, i: nat)
    requires Held(w, env, who) && Continues(env, who, clock, start, events, records) && i < |records|
    requires NoDuplicates(events[i])
    ensures var e, previous := records[i], PreviousHash(env, who.nodeId, start, records, i);
      && Genuine(w.env, w.nodeId, w.keys, e) && e.sequence == start.lastSequence + 1 + i
      && previous == Some(e.previousEventHash)
  {
    hide Genuine, BuildAndSign, NoDuplicates, Laws, PreviousHash;
    var previous := PreviousHash(env, who.nodeId, start, records, i).value;
    SignedIsGenuine(env, who, w.keys, events[i], clock(i), start.lastSequence + 1 + i, previous);
  }

  // The hash it links to is that of the record before it on the chain.
  lemma LinkAt(env: Env, nodeId: string, c: seq<SignedEvent>, start: NodeState, records: seq<SignedEvent>, i: nat)
    requires start.lastSequence == |c| && (c != [] ==> start.lastEventHash == Some(c[|c| - 1].eventHash)) && i <= |records|
    ensures var front := c + records[..i];
      PreviousHash(env, nodeId, start, records, i)
      == Some(if front == [] then GenesisPreviousHash(env, nodeId) else front[|front| - 1].eventHash)
  {
    hide GenesisPreviousHash;
  }

  lemma {:induction false} ChainContinues(w: World, env: Env, who: Identity, clock: nat -> string, c: seq<SignedEvent>,
                                          start: NodeState, events: seq<Json>, records: seq<SignedEvent>, n: nat)
    requires Held(w, env, who) && GoodChain(w, c) && n <= |records| == |events|
    requires start.lastSequence == |c| && (c != [] ==> start.lastEventHash == Some(c[|c| - 1].eventHash))
    requires Continues(env, who, clock, start, events, records) && forall e :: e in events ==> NoDuplicates(e)
    ensures GoodChain(w, c + records[..n])
  {
    hide GoodChain, Genuine, Continues, NoDuplicates, Laws, GenesisPreviousHash, PreviousHash;
    if n == 0 {
      assert c + records[..0] == c;
    } else {
      ChainContinues(w, env, who, clock, c, start, events, records, n - 1);
      RecordAt(w, env, who, clock, start, events, records, n - 1);
      LinkAt(env, who.nodeId, c, start, records, n - 1);
      ChainExtends(w, c + records[..n - 1], records[n - 1]);
      assert c + records[..n] == c + records[..n - 1] + [records[n - 1]];
    }
  }

  lemma {:induction false} LogOfConcat(c: seq<SignedEvent>, records: seq<SignedEvent>)
    ensures LogOf(c + records) == LogOf(c) + LogOf(records)
  {
    hide LogOf;
    if records == [] {
      assert c + records == c && LogOf([]) == [] by { NoLog(); }
    } else {
      var n := |records| - 1;
      LogOfConcat(c, records[..n]);
      LogAppend(c + records[..n], records[n]);
      LogAppend(records[..n], records[n]);
      assert c + records[..n] + [records[n]] == c + records && records[..n] + [records[n]] == records;
    }
  }

  lemma NoLog()
    ensures LogOf([]) == []
  {
  }

  lemma SettledHolds(w: World, who: Identity, now: Disk, c: seq<SignedEvent>, s: NodeState)
    requires GoodChain(w, c) && c != [] && Settled(who, now, s) && who.nodeId == w.nodeId
    requires LogBytes(now) == LogOf(c) && s.lastSequence == |c| && s.lastEventHash == Some(c[|c| - 1].eventHash)
    ensures Holds(w, now, c, Quiet)
  {
    hide GoodChain, LogOf, StateFits;
    ChainState(w, c, s);
  }

  // A batch on a recovered store leaves one chain: the one recovered, and its records.
  lemma BatchContinues(w: World, env: Env, who: Identity, clock: nat -> string, base: Disk, now: Disk,
                       c: seq<SignedEvent>, start: NodeState, s: Option<NodeState>, events: seq<Json>,
                       records: seq<SignedEvent>)
    requires Held(w, env, who) && Holds(w, base, c, Quiet) && base.journal.None?
    requires Remembers(Host(who), base.state, Some(start))
    requires Progress(env, who, clock, start, base, now, s, events, records)
    requires forall e :: e in events ==> NoDuplicates(e)
    ensures Holds(w, now, c + records, Quiet) && now.journal.None?
  {
    hide GoodChain, LogOf, StateFits, Remembers, Continues, NoDuplicates, Laws, Idle;
    StartIsEnd(w, Host(who), base, c, start);
    if records == [] {
      assert c + records == c;
    } else {
      SameCount(env, who, clock, start, events, records);
      ChainContinues(w, env, who, clock, c, start, events, records, |records|);
      assert records[..|records|] == records;
      LogOfConcat(c, records);
      SettledHolds(w, who, now, c + records, s.value);
    }
  }

  lemma BatchMeans(env: Env, who: Identity, clock: nat -> string, start: NodeState, base: Disk, now: Disk,
                   s: Option<NodeState>, t: Intake, records: seq<SignedEvent>, r: Result<SigningReport, StoreError>)
    requires Batched(env, who, clock, start, base, now, s, t, records, r)
    ensures |records| <= |t.events| && Continues(env, who, clock, start, t.events[..|records|], records)
    ensures LogBytes(now) == LogBytes(base) + LogOf(records) && (records == [] ==> now == base)
    ensures r.Err? ==> |records| < |t.events| && Refused(env, who, clock, start, records, t.events[|records|])
    ensures r.Ok? ==>
      && |records| == |t.events|
      && r.value == SigningReport(|t.events|, t.skipped, t.errors,
                                  if records == [] then None else Some(start.lastSequence + 1),
                                  if records == [] then None else Some(start.lastSequence + |records|))
  {
    hide LogOf, LogBytes, Continues, Settled, Reached, Refused;
  }

  lemma HoldsFits(w: World, d: Disk, c: seq<SignedEvent>, phase: Phase)
    requires Holds(w, d, c, phase)
    ensures StateFits(d.state, w.nodeId, c)
  {
    hide GoodChain, StateFits, LogOf;
  }

  // ---- which batches are signed whole ---------------------------------------------------------

  // What the caller can check of an event, its moment and its place beforehand.
  predicate Signable(env: Env, who: Identity, moment: string, sequence: int, event: Json) {
    && who.algorithm in SIGNATURE_ALGORITHMS && env.normalize(moment).Some?
    && ValidIdentifier(who.nodeId) && ValidIdentifier(who.keyId)
    && ValidSequence(sequence) && ValidateEvent(event).Ok?
  }

  // The first `n` events, signed from place `from + 1` on.
  predicate AllSignable(env: Env, who: Identity, clock: nat -> string, from: nat, events: seq<Json>, n: nat)
    requires n <= |events|
  {
    forall i :: 0 <= i < n ==> Signable(env, who, clock(i), from + 1 + i, events[i])
  }

  lemma GoodHash(w: World, c: seq<SignedEvent>)
    requires GoodChain(w, c)
    ensures ValidHash(if c == [] then GenesisPreviousHash(w.env, w.nodeId) else c[|c| - 1].eventHash)
  {
    hide ComputeEventHash;
  }

  // On a chain, an event is refused exactly when it is not signable.
  lemma RefusedMeans(w: World, env: Env, who: Identity, clock: nat -> string, c: seq<SignedEvent>, start: NodeState,
                     records: seq<SignedEvent>, event: Json)
    requires Held(w, env, who) && GoodChain(w, c + records)
    requires start.lastSequence == |c| && (c != [] ==> start.lastEventHash == Some(c[|c| - 1].eventHash))
    ensures Refused(env, who, clock, start, records, event)
      <==> !Signable(env, who, clock(|records|), |c| + 1 + |records|, event)
  {
    hide BuildAndSign, ValidIdentifier, ValidHash, ValidateEvent, ValidSequence, GoodChain, PreviousHash, Laws, GenesisPreviousHash;
    LinkAt(env, who.nodeId, c, start, records, |records|);
    assert records[..|records|] == records;
    GoodHash(w, c + records);
    var previous := PreviousHash(env, who.nodeId, start, records, |records|).value;
    SigningSucceeds(env, who, event, clock(|records|), start.lastSequence + 1 + |records|, previous);
  }

  lemma SignedSignable(env: Env, who: Identity, clock: nat -> string, start: NodeState, events: seq<Json>,
                       records: seq<SignedEvent>)
    requires Laws(env) && start.lastSequence >= 0 && |records| <= |events|
    requires Continues(env, who, clock, start, events[..|records|], records)
    ensures AllSignable(env, who, clock, start.lastSequence, events, |records|)
  {
    hide BuildAndSign, ValidIdentifier, ValidHash, ValidateEvent, ValidSequence, PreviousHash, Laws;
    forall i | 0 <= i < |records| ensures Signable(env, who, clock(i), start.lastSequence + 1 + i, events[i]) {
      var previous := PreviousHash(env, who.nodeId, start, records, i).value;
      SigningSucceeds(env, who, events[i], clock(i), start.lastSequence + 1 + i, previous);
    }
  }

  // The batch is whole exactly when every event taken is signable at its place.
  lemma BatchWhole(w: World, env: Env, who: Identity, clock: nat -> string, c: seq<SignedEvent>, start: NodeState,
                   base: Disk, now: Disk, s: Option<NodeState>, t: Intake, records: seq<SignedEvent>,
                   r: Result<SigningReport, StoreError>)
    requires Held(w, env, who) && GoodChain(w, c + records)
    requires start.lastSequence == |c| && (c != [] ==> start.lastEventHash == Some(c[|c| - 1].eventHash))
    requires Batched(env, who, clock, start, base, now, s, t, records, r)
    ensures AllSignable(env, who, clock, |c|, t.events, |records|)
    ensures r.Ok? <==> AllSignable(env, who, clock, |c|, t.events, |t.events|)
  {
    hide GoodChain, Continues, Laws, Signable, Refused, Reported, Reached, Settled, LogOf;
    SignedSignable(env, who, clock, start, t.events, records);
    if r.Err? {
      RefusedMeans(w, env, who, clock, c, start, records, t.events[|records|]);
    }
  }

  // From any disk a run can leave: recovery mends its chain, and the batch goes on from there.
  lemma BatchHolds(w: World, env: Env, who: Identity, clock: nat -> string, found: Disk, now: Disk,
                   c: seq<SignedEvent>, phase: Phase, start: NodeState, end: Option<NodeState>, source: seq<string>,
                   max: Option<nat>, records: seq<SignedEvent>, r: Result<SigningReport, StoreError>)
    requires Held(w, env, who) && Holds(w, found, c, phase)
    requires var recovered := ApplyAll(found, RecoverPlan(Host(who), found).effects);
      && Remembers(Host(who), recovered.state, Some(start))
      && Batched(env, who, clock, start, recovered, now, end, TakeIn(source, 0, max), records, r)
    ensures var t := TakeIn(source, 0, max);
      && |records| <= |t.events|
      && Holds(w, now, MendedChain(c, phase) + records, Quiet) && now.journal.None?
      && ReadState(Host(who), ApplyAll(found, RecoverPlan(Host(who), found).effects)) == Ok(start)
      && (r.Ok? <==> AllSignable(env, who, clock, |MendedChain(c, phase)|, t.events, |t.events|))
      && AllSignable(env, who, clock, |MendedChain(c, phase)|, t.events, |records|)
  {
    hide Holds, Remembers, ReadState, Progress, RecoverPlan, TakeIn, Mending, MendedChain, NoDuplicates, Laws, Refused,
      Reported, AllSignable;
    RecoverMends(w, Host(who), found, c, phase);
    var m := Mending(w.nodeId, found, c, phase);
    var c', phase' := MendingHolds(w, found, c, phase, |m|);
    assert m[..|m|] == m;
    TakesWithin(source, 0, max);
    var recovered, t := ApplyAll(found, m), TakeIn(source, 0, max);
    assert StateFits(recovered.state, w.nodeId, c') by { HoldsFits(w, recovered, c', phase'); }
    CoherentReads(w, Host(who), recovered, c', Some(start));
    BatchContinues(w, env, who, clock, recovered, now, c', start, end, t.events[..|records|], records);
    StartIsEnd(w, Host(who), recovered, c', start);
    HoldsGood(w, now, c' + records, Quiet);
    BatchWhole(w, env, who, clock, c', start, recovered, now, end, t, records, r);
  }

  lemma BatchRecovers(w: World, env: Env, who: Identity, found: Disk, c: seq<SignedEvent>, phase: Phase)
    requires Held(w, env, who) && Holds(w, found, c, phase)
    ensures RecoverPlan(Host(who), found).error.None?
  {
    hide Holds, RecoverPlan, Laws, Mending, MendedChain;
    RecoverMends(w, Host(who), found, c, phase);
  }

  lemma HoldsGood(w: World, d: Disk, c: seq<SignedEvent>, phase: Phase)
    requires Holds(w, d, c, phase)
    ensures GoodChain(w, c)
  {
    hide GoodChain, StateFits, LogOf;
  }

  lemma FractionStops(env: Env, who: Identity, moment: string, sequence: int, event: Json, key: string)
    requires event.Obj? && Field(key, Float(false)) in event.fields
    ensures !Signable(env, who, moment, sequence, event)
  {
    hide ValidIdentifier, ValidSequence;
    assert !Check(event, 0);
  }

  // One line such as {"a":1.5} loses the rest: it is an object, so no error of its own
  // line, but no batch gets past it.
  lemma FractionLosesRest(env: Env, who: Identity, clock: nat -> string, from: nat, key: string, rest: seq<string>)
    ensures var t := TakeIn(["{" + (PrintString(false, key) + ":1.5}")] + rest, 0, None);
      && t == TakeIn(rest, 1, None).(events := [Obj([Field(key, Float(false))])] + TakeIn(rest, 1, None).events)
      && forall n :: 0 < n <= |t.events| ==> !AllSignable(env, who, clock, from, t.events, n)
  {
    hide ParseDocument, Strip, Loaded, PrintString, Signable;
    var line := "{" + (PrintString(false, key) + ":1.5}");
    FractionLine(key, line);
    assert ([line] + rest)[1..] == rest;
    var t := TakeIn([line] + rest, 0, None);
    FractionStops(env, who, clock(0), from + 1, t.events[0], key);
  }

  lemma FractionLine(key: string, line: string)
    requires line == "{" + (PrintString(false, key) + ":1.5}")
    ensures Strip(line) == line && line != [] && ParseDocument(line) == Some(Obj([Field(key, Float(false))]))
    ensures Loaded(Obj([Field(key, Float(false))])) == Obj([Field(key, Float(false))])
  {
    hide PrintString, ParseFields, ParseItems, ParseScalar, ParseKey;
    var body, t := "1.5}", PrintString(false, key) + ":1.5}";
    assert line[0] == '{' && line[|line| - 1] == '}';
    StripNothing(line);
    FractionReads(body);
    KeyRoundTrip(CANONICAL, key, body);
    assert t == PrintString(false, key) + ":" + body;
    LastField(t, key, body, Float(false), "");
    assert line[1..] == t && SkipSpace(t) == t && SkipSpace(line) == line && SkipSpace("") == "";
    assert ParseValue(line) == Got(Obj([Field(key, Float(false))]), "");
    assert LoadedFields([Field(key, Float(false))]) == Put(LoadedFields([]), Field(key, Float(false)));
  }

  lemma FractionReads(body: string)
    requires body == "1.5}"
    ensures ParseValue(body) == Got(Float(false), "}" + "")
  {
    hide NatOf;
    assert body == "1" + ".5}" && "5}" == "5" + "}" && ".5}"[1..] == "5}";
    TakeDigitsOf("1", ".5}");
    TakeDigitsOf("5", "}");
    assert SkipFraction(".5}") == "}" && SkipExponent("}") == "}";
  }

  lemma SameCount(env: Env, who: Identity, clock: nat -> string, start: NodeState, events: seq<Json>,
                  records: seq<SignedEvent>)
    requires Continues(env, who, clock, start, events, records)
    ensures |records| == |events|
  {
    hide BuildAndSign, PreviousHash;
  }

  // ---- what a repeated key means -----------------------------------------------------------

  lemma {:induction false} PutLookup(fields: seq<Field>, f: Field, key: string)
    requires DistinctKeys(fields)
    ensures Lookup(Put(fields, f), key) == if key == f.key then Some(f.value) else Lookup(fields, key)
  {
    if fields != [] {
      var tail := fields[1..];
      assert forall i :: 0 <= i < |tail| ==> tail[i] == fields[i + 1];
      if fields[0].key == f.key {
        NotThere(tail, f.key);
        assert ([f] + tail)[1..] == tail;
      } else {
        PutLookup(tail, f, key);
        assert ([fields[0]] + Put(tail, f))[1..] == Put(tail, f);
        if key == fields[0].key {
          NotThere(tail, key);
        }
      }
    }
  }

  lemma {:induction false} NotThere(fields: seq<Field>, key: string)
    requires forall i :: 0 <= i < |fields| ==> fields[i].key != key
    ensures Lookup(fields, key) == None
  {
    if fields != [] {
      NotThere(fields[1..], key);
    }
  }

  lemma {:induction false} LookupAppend(fields: seq<Field>, f: Field, key: string)
    ensures Lookup(fields + [f], key) == if key == f.key then Some(f.value) else Lookup(fields, key)
  {
    if fields == [] {
      assert ([] + [f])[1..] == [];
    } else {
      assert (fields + [f])[1..] == fields[1..] + [f];
      LookupAppend(fields[1..], f, key);
    }
  }

  // Under every key a loaded object holds the last value the text gave for it.
  lemma {:induction false} LoadedKeepsLast(fields: seq<Field>, key: string)
    ensures var v := Lookup(fields, key);
      Lookup(LoadedFields(fields), key) == if v.Some? then Some(Loaded(v.value)) else None
  {
    hide Loaded;
    if fields != [] {
      var front, last := fields[..|fields| - 1], fields[|fields| - 1];
      LoadedKeepsLast(front, key);
      LoadedFieldsArePython(front);
      PutLookup(LoadedFields(front), Field(last.key, Loaded(last.value)), key);
      LookupAppend(front, last, key);
      assert fields == front + [last];
    }
  }
}
