/** What a whole append leaves behind, and that a process left alone completes one. */
module Outcome {
  import opened Json
  import opened Utf8
  import opened Models
  import opened Signer
  import opened Store
  import opened StoreLaws
  import opened Recovery
  import opened Transaction
  import opened Protocol
  import opened ProtocolTheorems

  // ---- the effects of an append in a row ------------------------------------------------

  lemma {:induction false} JournalOutcome(d: Disk, text: string, j: nat)
    requires j <= |text|
    ensures ApplyAll(d, JournalWrites(text)[..j + 1]) == d.(journal := Some(text[..j]))
  {
    var es := JournalWrites(text)[..j + 1];
    assert es[..j] == JournalWrites(text)[..j];
    if j > 0 {
      JournalOutcome(d, text, j - 1);
    }
  }

  lemma {:induction false} LogOutcome(d: Disk, payload: seq<byte>, k: nat)
    requires d.log.Some? && k <= |payload|
    ensures ApplyAll(d, LogWrites(payload)[..k]) == d.(log := Some(d.log.value + payload[..k]))
  {
    var es := LogWrites(payload)[..k];
    if k == 0 {
      assert d.log.value + payload[..0] == d.log.value;
    } else {
      assert es[..k - 1] == LogWrites(payload)[..k - 1];
      LogOutcome(d, payload, k - 1);
      assert payload[..k - 1] + [payload[k - 1]] == payload[..k];
      assert d.log.value + payload[..k - 1] + [payload[k - 1]] == d.log.value + payload[..k];
    }
  }

  lemma WriteOutcome(d: Disk, e: Entry)
    ensures ApplyAll(d, WritePlan(d, e))
         == Disk(Some(LogBytes(d) + Payload(e.record)), d.state, Some(JournalText(e)))
  {
    hide JournalText, Payload, JournalWrites, LogWrites;
    var text, p := JournalText(e), Payload(e.record);
    var made := d.(log := Some(LogBytes(d)));
    Created(d);
    JournalOutcome(made, text, |text|);
    LogOutcome(made.(journal := Some(text)), p, |p|);
    assert text[..|text|] == text && p[..|p|] == p;
    WholeWrites(text, p);
    ApplyConcat(d, Creation(d) + JournalWrites(text), LogWrites(p));
    ApplyConcat(d, Creation(d), JournalWrites(text));
  }

  lemma WholeWrites(text: string, p: seq<byte>)
    ensures JournalWrites(text)[..|text| + 1] == JournalWrites(text) && LogWrites(p)[..|p|] == LogWrites(p)
  {
  }

  lemma Created(d: Disk)
    ensures ApplyAll(d, Creation(d)) == d.(log := Some(LogBytes(d)))
  {
    if d.log.None? {
      ApplyOne(d, CreateLog);
    }
  }

  // A whole append adds exactly the record to the log, replaces the state, and
  // leaves no journal.
  lemma AppendOutcome(d: Disk, e: Entry, s: NodeState)
    ensures ApplyAll(d, WritePlan(d, e) + CommitPlan(s)) == Disk(Some(LogBytes(d) + Payload(e.record)), Some(s), None)
  {
    hide JournalText, Payload, WritePlan;
    WriteOutcome(d, e);
    ApplyConcat(d, WritePlan(d, e), CommitPlan(s));
    ApplyTwo(ApplyAll(d, WritePlan(d, e)), SetState(s), DropJournal);
  }

  // Rolling back leaves exactly the log the append found.
  lemma RollbackOutcome(d: Disk, log: seq<byte>, written: seq<byte>)
    requires d.log == Some(log + written)
    ensures ApplyAll(d, RollbackPlan(d, |log|)) == Disk(Some(log), d.state, None)
  {
    assert (log + written)[..|log|] == log;
    if written == [] {
      assert log + written == log;
      assert RollbackPlan(d, |log|) == [DropJournal];
      ApplyOne(d, DropJournal);
    } else {
      assert RollbackPlan(d, |log|) == [Truncate(|log|), DropJournal];
      ApplyTwo(d, Truncate(|log|), DropJournal);
    }
  }

  // ---- left alone -----------------------------------------------------------------------------

  function Onwards(w: World, s: Sys, p: nat, n: nat): Sys {
    if n == 0 then s else Next(w, Onwards(w, s, p, n - 1), Write(p))
  }

  lemma WriteNext(w: World, s: Sys, p: nat)
    requires Todo(ProcOf(s, p)) != []
    ensures var t := Next(w, s, Write(p));
      && t == Sys(Apply(s.disk, Todo(ProcOf(s, p))[0]), s.holder, t.procs, s.acks)
      && ProcOf(t, p) == Protocol.Advanced(ProcOf(s, p))
  {
    hide Apply, Todo, Protocol.Advanced;
  }

  lemma {:induction false} OnwardsApplies(w: World, s: Sys, p: nat, n: nat)
    requires n <= |Todo(ProcOf(s, p))|
    ensures var todo := Todo(ProcOf(s, p));
      var t := Onwards(w, s, p, n);
      && t.disk == ApplyAll(s.disk, todo[..n]) && t.acks == s.acks && t.holder == s.holder
      && Todo(ProcOf(t, p)) == todo[n..]
      && (ProcOf(s, p).Appending? ==> ProcOf(t, p).Appending? && ProcOf(t, p).ack == ProcOf(s, p).ack
                                      && ProcOf(t, p).who == ProcOf(s, p).who)
  {
    hide Apply, Next, ProcOf;
    var todo := Todo(ProcOf(s, p));
    if n == 0 {
      assert todo[..0] == [] && todo[0..] == todo;
    } else {
      OnwardsApplies(w, s, p, n - 1);
      WriteNext(w, Onwards(w, s, p, n - 1), p);
      assert todo[..n][..n - 1] == todo[..n - 1];
      assert todo[n - 1..][1..] == todo[n..];
    }
  }

  // A ready process whose event can be signed, left alone, appends exactly one record
  // and reports it.
  lemma AppendCompletes(w: World, s: Sys, a: Action)
    requires a.Begin? && ProcOf(s, a.p).Ready? && Callable(w, s.disk, a.signer, a.event, a.writtenAt)
    requires Attempt(w, ProcOf(s, a.p).who, s.disk, a.signer, a.event, a.timestamp, a.writtenAt).Some?
    ensures var (entry, state) := Attempt(w, ProcOf(s, a.p).who, s.disk, a.signer, a.event, a.timestamp, a.writtenAt).value;
      var begun := Next(w, s, a);
      var end := Next(w, Onwards(w, begun, a.p, |Todo(ProcOf(begun, a.p))|), Acknowledge(a.p));
      && end.disk == Disk(Some(LogBytes(s.disk) + Payload(entry.record)), Some(state), None)
      && end.acks == s.acks + [AckOf(entry)] && ProcOf(end, a.p) == ProcOf(s, a.p)
  {
    hide Attempt, Callable, WritePlan, CommitPlan, Payload;
    var (entry, state) := Attempt(w, ProcOf(s, a.p).who, s.disk, a.signer, a.event, a.timestamp, a.writtenAt).value;
    var begun := Next(w, s, a);
    var todo := WritePlan(s.disk, entry) + CommitPlan(state);
    assert ProcOf(begun, a.p) == Appending(ProcOf(s, a.p).who, AckOf(entry), todo);
    OnwardsApplies(w, begun, a.p, |todo|);
    assert todo[..|todo|] == todo && todo[|todo|..] == [];
    AppendOutcome(s.disk, entry, state);
  }
}
