/** What recovery makes of a journal, whatever a crash or a hand left in it: which texts
    stop it, which are thrown away, and which name an append to finish or undo. */
module RecoveryRules {
  import opened Json
  import opened JsonParser
  import opened Utf8
  import opened Models
  import opened Store

  // An object naming this node, with nothing missing that an entry must have.
  predicate Ours(nodeId: string, v: Json) {
    && v.Obj? && Lookup(v.fields, "node_id") == Some(Str(nodeId))
    && Lookup(v.fields, "sequence").Some? && Lookup(v.fields, "event_hash").Some?
    && Lookup(v.fields, "offset").Some? && Lookup(v.fields, "record").Some?
  }

  predicate Proper(v: Json)
    requires v.Obj?
  {
    var offset := Get(v.fields, "offset");
    && Get(v.fields, "sequence").Int? && Get(v.fields, "event_hash").Str? && Get(v.fields, "record").Str?
    && offset.Int? && offset.i >= 0
  }

  // A list is asked which names it holds, so one with a list or a dict in it is no set,
  // and one with all five names is taken for an entry.
  predicate Mistaken(v: Json) {
    match v
    case Arr(items) =>
      || (exists x :: x in items && (x.Arr? || x.Obj?))
      || (Str("sequence") in items && Str("event_hash") in items && Str("offset") in items && Str("record") in items
          && Str("node_id") in items)
    case Str(_) => false
    case Obj(_) => false
    case _ => true
  }

  lemma AllNamed(fields: seq<Field>)
    ensures (exists k :: k in REQUIRED && Lookup(fields, k).None?)
      <==> || Lookup(fields, "sequence").None? || Lookup(fields, "event_hash").None? || Lookup(fields, "offset").None?
           || Lookup(fields, "record").None? || Lookup(fields, "node_id").None?
  {
    hide Lookup;
    assert "sequence" in REQUIRED && "event_hash" in REQUIRED && "offset" in REQUIRED && "record" in REQUIRED;
    assert "node_id" in REQUIRED;
  }

  lemma AllHeld(items: seq<Json>)
    ensures (forall k :: k in REQUIRED ==> Str(k) in items)
      <==> (Str("sequence") in items && Str("event_hash") in items && Str("offset") in items && Str("record") in items
            && Str("node_id") in items)
  {
    assert "sequence" in REQUIRED && "event_hash" in REQUIRED && "offset" in REQUIRED && "record" in REQUIRED;
    assert "node_id" in REQUIRED;
  }

  // An entry of this node that can be used is read field by field; one that cannot, or a
  // value mistaken for one, stops recovery; everything else is thrown away.
  lemma JournalMeans(nodeId: string, text: string)
    ensures var v, view := ParseDocument(text), ViewJournal(nodeId, text);
      && (view.Unreadable? <==> v.None?)
      && (view.Readable? <==> v.Some? && Ours(nodeId, v.value) && Proper(v.value))
      && (view.Broken? <==> v.Some? && (Mistaken(v.value) || (Ours(nodeId, v.value) && !Proper(v.value))))
      && (view.Readable? ==>
            var fields := v.value.fields;
            && Get(fields, "sequence") == Int(view.sequence) && Get(fields, "event_hash") == Str(view.eventHash)
            && Get(fields, "offset") == Int(view.offset) && Get(fields, "record") == Str(view.record)
            && (Get(fields, "key_id") == Str(view.keyId) || (!Get(fields, "key_id").Str? && view.keyId == "")))
  {
    hide ParseDocument, Lookup;
    var v := ParseDocument(text);
    if v.Some? && v.value.Obj? {
      AllNamed(v.value.fields);
    } else if v.Some? && v.value.Arr? {
      AllHeld(v.value.items);
    }
  }

  lemma PayloadSome(record: string)
    ensures Payload(record) != []
  {
    hide Encode;
    EncodeConcat(record, "\n");
    assert Encode("\n") != [] by { NewlineSome(); }
  }

  lemma NewlineSome()
    ensures Encode("\n") != []
  {
  }

  // Every way a journal can stop recovery; when one does, nothing has been done.
  lemma JournalStops(who: Owner, d: Disk, memory: Option<NodeState>)
    ensures var plan, v := ReplayPlan(who, d, memory), if d.journal.Some? then ParseDocument(d.journal.value) else None;
      var large := d.journal.Some? && |Encode(d.journal.value)| > 1_048_576;
      var usable := !large && v.Some? && Ours(who.nodeId, v.value) && Proper(v.value);
      && (plan.error == Some(BadJournal)
          <==> !large && v.Some? && (Mistaken(v.value) || (Ours(who.nodeId, v.value) && !Proper(v.value))))
      && (plan.error == Some(MissingLog) <==> usable && d.log.None?)
      && (plan.error == Some(StateCorruption)
          <==> large || (usable && Whole(d, v.value) && ReadThrough(who, d, memory).Err?))
      && (plan.error.Some? ==>
            plan.effects == []
            && (plan.error.value == BadJournal || plan.error.value == MissingLog || plan.error.value == StateCorruption))
  {
    hide ParseDocument, Lookup, Mistaken, Encode, ViewJournal, ValidState;
    if d.journal.Some? {
      var view := ViewJournal(who.nodeId, d.journal.value);
      JournalMeans(who.nodeId, d.journal.value);
      if view.Readable? {
        PayloadSome(view.record);
        assert Whole(d, ParseDocument(d.journal.value).value) <==> Appended(LogBytes(d), view.offset, Payload(view.record));
      }
    }
  }

  // The record an entry names, with its newline, lies in the log where the entry says.
  predicate Whole(d: Disk, v: Json) {
    v.Obj? && Proper(v)
    && var offset, line := Get(v.fields, "offset").i, Encode(Get(v.fields, "record").s + "\n");
       d.log.Some? && offset + |line| <= |d.log.value| && d.log.value[offset..offset + |line|] == line
  }

  // A usable entry is finished if its record lies whole where it says, and undone if not;
  // any other journal that does not stop recovery is thrown away and nothing else happens.
  lemma JournalActs(who: Owner, d: Disk, memory: Option<NodeState>)
    requires d.journal.Some? && ReplayPlan(who, d, memory).error.None?
    ensures var effects, v := ReplayPlan(who, d, memory).effects, ParseDocument(d.journal.value);
      if v.None? || !Ours(who.nodeId, v.value) then effects == [DropJournal]
      else
        && Proper(v.value)
        && var fields := v.value.fields;
           if !Whole(d, v.value) then effects == [Truncate(Get(fields, "offset").i), DropJournal]
           else
             var read := ReadThrough(who, d, memory);
             && read.Ok?
             && if Get(fields, "sequence").i <= read.value.lastSequence then effects == [DropJournal]
                else |effects| == 2 && effects[0].SetState? && effects[1] == DropJournal
                     && Follows(who, read.value, fields, effects[0].state)
  {
    hide ParseDocument, Lookup, Mistaken, Encode, ViewJournal, ValidState;
    var view := ViewJournal(who.nodeId, d.journal.value);
    JournalMeans(who.nodeId, d.journal.value);
    if view.Readable? {
      PayloadSome(view.record);
      assert Whole(d, ParseDocument(d.journal.value).value) <==> Appended(LogBytes(d), view.offset, Payload(view.record));
    }
  }

  // The state an entry moves a store on to: its place, and the first key there is of the
  // entry's, the store's and the state's own.
  predicate Follows(who: Owner, was: NodeState, fields: seq<Field>, now: NodeState) {
    var named := Get(fields, "key_id");
    && Get(fields, "sequence") == Int(now.lastSequence) && now.lastEventHash.Some?
    && Get(fields, "event_hash") == Str(now.lastEventHash.value)
    && now.nodeId == who.nodeId && now.formatVersion == "1.0"
    && (named.Str? && named.s != "" ==> now.keyId == named.s)
    && (!(named.Str? && named.s != "") ==> now.keyId == if who.keyId != "" then who.keyId else was.keyId)
  }
}
