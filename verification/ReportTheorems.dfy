/** What the numbers of a report count: every figure of it, for any stream. */
module ReportTheorems {
  import opened Json
  import opened PyText
  import opened Models
  import opened KeyRegistry
  import opened Verifier
  import opened Collector
  import opened StreamTheorems

  // The errors of every nonblank line, in order.
  function Codes(reader: Reader, lines: seq<string>): seq<seq<Alert>> {
    if lines == [] then []
    else
      var front, raw := lines[..|lines| - 1], lines[|lines| - 1];
      Codes(reader, front) + (if Strip(raw) == [] then [] else [LineCodes(reader, Run(reader, front).tracks, raw)])
  }

  function LineCodes(reader: Reader, tracks: map<string, Track>, raw: string): seq<Alert> {
    match Parse(reader, raw)
    case Unparsed(alerts) => alerts
    case Event(e) => RecordAlerts(reader, tracks, e)
  }

  // The nonblank lines, in order.
  function Texts(lines: seq<string>): seq<string> {
    if lines == [] then []
    else
      var raw := lines[|lines| - 1];
      Texts(lines[..|lines| - 1]) + (if Strip(raw) == [] then [] else [raw])
  }

  lemma {:induction false} OneCodeEach(reader: Reader, lines: seq<string>)
    ensures |Codes(reader, lines)| == |Texts(lines)|
  {
    hide Strip, LineCodes, Run;
    if lines != [] {
      OneCodeEach(reader, lines[..|lines| - 1]);
    }
  }

  // How many of these are so.
  function Count<T>(items: seq<T>, so: T -> bool): (n: nat)
    ensures n <= |items|
    ensures n == |items| <==> forall i :: 0 <= i < |items| ==> so(items[i])
  {
    if items == [] then 0
    else
      assert forall i :: 0 <= i < |items| - 1 ==> items[..|items| - 1][i] == items[i];
      Count(items[..|items| - 1], so) + (if so(items[|items| - 1]) then 1 else 0)
  }

  function Clean(codes: seq<seq<Alert>>): nat {
    Count(codes, (c: seq<Alert>) => c == [])
  }

  function Raising(codes: seq<seq<Alert>>, a: Alert): nat {
    Count(codes, (c: seq<Alert>) => a in c)
  }

  function Unread(reader: Reader, texts: seq<string>): nat {
    Count(texts, raw => !Parse(reader, raw).Event?)
  }

  lemma CleanAppend(codes: seq<seq<Alert>>, c: seq<Alert>)
    ensures Clean(codes + [c]) == Clean(codes) + (if c == [] then 1 else 0)
  {
    assert (codes + [c])[..|codes|] == codes;
  }

  lemma RaisingAppend(codes: seq<seq<Alert>>, c: seq<Alert>, a: Alert)
    ensures Raising(codes + [c], a) == Raising(codes, a) + (if a in c then 1 else 0)
  {
    assert (codes + [c])[..|codes|] == codes;
  }

  lemma UnreadAppend(reader: Reader, texts: seq<string>, raw: string)
    ensures Unread(reader, texts + [raw]) == Unread(reader, texts) + (if Parse(reader, raw).Event? then 0 else 1)
  {
    hide Parse;
    assert (texts + [raw])[..|texts|] == texts;
  }

  // ---- one line's part ---------------------------------------------------------------------

  predicate Once(alerts: seq<Alert>) {
    forall i, j :: 0 <= i < j < |alerts| ==> alerts[i] != alerts[j]
  }

  lemma {:induction false} AddAllOnce(errors: seq<Alert>, alerts: seq<Alert>)
    requires Once(errors)
    ensures Once(AddAll(errors, alerts))
    decreases |alerts|
  {
    if alerts != [] {
      AddAllOnce(Add(errors, alerts[0]), alerts[1..]);
    }
  }

  lemma CodesOnce(reader: Reader, tracks: map<string, Track>, raw: string)
    ensures Once(LineCodes(reader, tracks, raw))
    ensures !Parse(reader, raw).Event? ==> LineCodes(reader, tracks, raw) != []
  {
    hide EventAlerts, StreamAlerts, ParseSignedEventJson, Strip;
    if Parse(reader, raw).Event? {
      var e := Parse(reader, raw).event;
      EventOnce(reader.env, reader.records, e);
      AddAllOnce(EventAlerts(reader.env, reader.records, e), StreamAlerts(reader.env, TrackOf(tracks, e.nodeId), e));
    }
  }

  lemma EventOnce(env: Env, records: seq<KeyRecord>, e: SignedEvent)
    ensures Once(EventAlerts(env, records, e))
  {
    hide HashAlerts, KeyAlerts, SignatureAlerts;
    AddAllOnce([], HashAlerts(env, e));
    AddAllOnce(AddAll([], HashAlerts(env, e)), KeyAlerts(env, records, e));
    AddAllOnce(AddAll(AddAll([], HashAlerts(env, e)), KeyAlerts(env, records, e)), SignatureAlerts(env, records, e));
  }

  function CountOf(counts: map<Alert, nat>, a: Alert): nat {
    if a in counts then counts[a] else 0
  }

  lemma {:induction false} CountedOnce(counts: map<Alert, nat>, alerts: seq<Alert>, a: Alert)
    requires Once(alerts)
    ensures CountOf(Counted(counts, alerts), a) == CountOf(counts, a) + (if a in alerts then 1 else 0)
    ensures a in Counted(counts, alerts) <==> a in counts || a in alerts
    decreases |alerts|
  {
    if alerts != [] {
      var more := counts[alerts[0] := (if alerts[0] in counts then counts[alerts[0]] else 0) + 1];
      assert forall i :: 0 <= i < |alerts[1..]| ==> alerts[1..][i] == alerts[i + 1];
      CountedOnce(more, alerts[1..], a);
    }
  }

  // The figures a report gives, against the lines it is about.
  ghost predicate Tells(r: Report, reader: Reader, texts: seq<string>, codes: seq<seq<Alert>>) {
    && r.total == |codes| && r.verified == Clean(codes) && r.verified + r.failed == r.total
    && r.malformed == Unread(reader, texts)
    && (r.valid <==> r.failed == 0)
    && (forall a :: CountOf(r.alertCounts, a) == Raising(codes, a))
    && (forall a :: a in r.alertCounts <==> Raising(codes, a) > 0)
    && r.results == (if |codes| <= reader.maxResults then codes else codes[..reader.maxResults])
    && (r.truncated <==> |codes| > reader.maxResults)
  }

  lemma CountsTell(r: Report, codes: seq<seq<Alert>>, c: seq<Alert>)
    requires Once(c)
    requires forall a :: CountOf(r.alertCounts, a) == Raising(codes, a)
    requires forall a :: a in r.alertCounts <==> Raising(codes, a) > 0
    ensures var after := Counted(r.alertCounts, c);
      && (forall a :: CountOf(after, a) == Raising(codes + [c], a))
      && (forall a :: a in after <==> Raising(codes + [c], a) > 0)
  {
    hide Raising, CountOf;
    var after := Counted(r.alertCounts, c);
    forall a ensures CountOf(after, a) == Raising(codes + [c], a) && (a in after <==> Raising(codes + [c], a) > 0) {
      CountedOnce(r.alertCounts, c, a);
      RaisingAppend(codes, c, a);
    }
  }

  lemma StepTells(reader: Reader, s: State, texts: seq<string>, codes: seq<seq<Alert>>, raw: string)
    requires Strip(raw) != [] && Tells(s.report, reader, texts, codes)
    ensures var c := LineCodes(reader, s.tracks, raw);
      Tells(Step(reader, s, raw).report, reader, texts + [raw], codes + [c])
  {
    hide ParseLine, RecordAlerts, Follow, Counted, Clean, Unread, Raising, CountOf;
    var c := LineCodes(reader, s.tracks, raw);
    CodesOnce(reader, s.tracks, raw);
    CountsTell(s.report, codes, c);
    CleanAppend(codes, c);
    UnreadAppend(reader, texts, raw);
    var more := codes + [c];
    assert |codes| < reader.maxResults ==> s.report.results + [c] == more;
    assert |codes| == reader.maxResults ==> more[..reader.maxResults] == codes;
    assert |codes| > reader.maxResults ==> more[..reader.maxResults] == codes[..reader.maxResults];
  }

  // After any stream: how many lines there were, how many raised nothing, how many did,
  // how many could not be read, how many raised each code, and which errors each of the
  // first of them raised.
  lemma {:induction false} ReportTells(reader: Reader, lines: seq<string>)
    ensures Tells(Run(reader, lines).report, reader, Texts(lines), Codes(reader, lines))
    decreases |lines|
  {
    hide Tells, Step, Strip, LineCodes;
    if lines == [] {
      NothingTold(reader);
    } else {
      var front, raw := lines[..|lines| - 1], lines[|lines| - 1];
      ReportTells(reader, front);
      if Strip(raw) == [] {
        assert lines == front + [raw];
        BlankLine(reader, front, raw);
        assert Texts(front) + [] == Texts(front) && Codes(reader, front) + [] == Codes(reader, front);
      } else {
        StepTells(reader, Run(reader, front), Texts(front), Codes(reader, front), raw);
      }
    }
  }

  lemma NothingTold(reader: Reader)
    ensures Tells(EMPTY, reader, [], [])
  {
  }
}
