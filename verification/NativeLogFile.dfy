/** A whole log file of the native services, and what the controller shows of it: no
    built line can be broken in two, so the last lines are the last events. */
module NativeLogFile {
  import opened Json
  import opened JsonParser
  import opened JsonLaws
  import opened JsonCanonical
  import opened PyText
  import opened NativeLog
  import Utf8

  datatype Event = Event(now: string, source: string, eventType: string, details: seq<Detail>)

  function LineOf(e: Event): string {
    EventLine(e.now, e.source, e.eventType, Joined(Texts(e.details)))
  }

  // The clock's own text is plain; everything else may be any bytes.
  predicate Bytes(e: Event) {
    PlainText(e.now) && Utf8.Ascii(e.now) && ByteText(e.source) && ByteText(e.eventType) && ByteDetails(e.details)
  }

  function DecodedEvent(e: Event): Event
    requires Bytes(e)
  {
    Event(e.now, Decoded(e.source), Decoded(e.eventType), DecodedDetails(e.details))
  }

  function ObjectOf(e: Event): Json {
    Obj([Field("timestamp", Str(e.now)), Field("source", Str(e.source)), Field("event_type", Str(e.eventType)),
         Field("details", Obj(FieldsOf(e.details)))])
  }

  // ---- a line is one line ------------------------------------------------------------------

  lemma QuotedClean(s: string)
    ensures Clean(false, Quoted(s))
  {
    hide Escaped;
    EscapedClean(s);
  }

  lemma DetailClean(d: Detail)
    ensures Clean(false, DetailText(d))
  {
    hide Quoted, PrintInt;
    QuotedClean(d.key);
    if d.Text? {
      QuotedClean(d.value);
    } else {
      IntClean(d.number);
    }
  }

  lemma {:induction false} DetailsClean(ds: seq<Detail>)
    ensures Clean(false, Joined(Texts(ds)))
  {
    hide DetailText;
    if ds == [] {
      NothingJoined();
    } else {
      DetailClean(ds[0]);
      DetailsClean(ds[1..]);
      JoinedMore(ds);
    }
  }

  lemma PlainClean(s: string)
    requires PlainText(s)
    ensures Clean(false, s)
  {
    hide EscapeOne;
    EscapedClean(s);
    PlainUnescaped(s);
  }

  // No control character: no newline that would end it, no NUL that would cut it short.
  lemma LineClean(e: Event)
    requires PlainText(e.now)
    ensures Clean(false, LineOf(e)) && OneLine(LineOf(e))
    ensures LineOf(e) != [] && Strip(LineOf(e)) == LineOf(e)
  {
    hide Escaped, Joined, Texts, PlainText, Strip;
    PlainClean(e.now);
    EscapedClean(e.source);
    EscapedClean(e.eventType);
    DetailsClean(e.details);
    StripNothing(LineOf(e));
  }

  // ---- a file ------------------------------------------------------------------------------

  function FileText(es: seq<Event>): string {
    if es == [] then "" else LineOf(es[0]) + "\n" + FileText(es[1..])
  }

  function LinesOf(es: seq<Event>): (r: seq<string>)
    ensures |r| == |es| && forall i :: 0 <= i < |es| ==> r[i] == LineOf(es[i])
  {
    seq(|es|, i requires 0 <= i < |es| => LineOf(es[i]))
  }

  predicate AllBytes(es: seq<Event>) {
    forall i :: 0 <= i < |es| ==> Bytes(es[i])
  }

  function DecodedAll(es: seq<Event>): (r: seq<Event>)
    requires AllBytes(es)
    ensures |r| == |es| && forall i :: 0 <= i < |es| ==> r[i] == DecodedEvent(es[i])
  {
    seq(|es|, i requires 0 <= i < |es| => DecodedEvent(es[i]))
  }

  lemma {:induction false} FileLines(es: seq<Event>)
    requires forall i :: 0 <= i < |es| ==> PlainText(es[i].now)
    ensures Lines(FileText(es)) == LinesOf(es) + [""]
  {
    hide LineOf, PlainText;
    if es != [] {
      LineClean(es[0]);
      LinesOfLine(LineOf(es[0]), FileText(es[1..]));
      FileLines(es[1..]);
      assert LinesOf(es) == [LineOf(es[0])] + LinesOf(es[1..]);
      assert [LineOf(es[0])] + (LinesOf(es[1..]) + [""]) == LinesOf(es) + [""];
    }
  }

  // Reading the file as UTF-8 is writing it with every event read so.
  lemma {:induction false} FileDecoded(es: seq<Event>)
    requires AllBytes(es)
    ensures ByteText(FileText(es)) && Decoded(FileText(es)) == FileText(DecodedAll(es))
  {
    hide LineOf, Decoded, Bytes, DecodedEvent;
    if es == [] {
      AsciiDecoded("");
    } else {
      var line, rest := LineOf(es[0]), FileText(es[1..]);
      OneDecoded(es[0]);
      FileDecoded(es[1..]);
      AsciiStart("\n", rest);
      DecodedSplits(line, "\n" + rest);
      assert line + "\n" + rest == line + ("\n" + rest);
      assert DecodedAll(es)[1..] == DecodedAll(es[1..]);
      var other, tail := LineOf(DecodedEvent(es[0])), FileText(DecodedAll(es[1..]));
      assert other + "\n" + tail == other + ("\n" + tail);
    }
  }

  lemma OneDecoded(e: Event)
    requires Bytes(e)
    ensures ByteText(LineOf(e)) && Decoded(LineOf(e)) == LineOf(DecodedEvent(e))
  {
    hide Decoded, EventLine, Joined, Texts, DecodedDetails;
    LineDecoded(e.now, e.source, e.eventType, e.details);
  }

  // ---- what the controller shows -------------------------------------------------------------

  // What iterating over the file gives: the text after the last newline is a line only
  // if there is some.
  function FileRows(text: string): seq<string> {
    var all := Lines(text);
    if all[|all| - 1] == "" then all[..|all| - 1] else all
  }

  // A bounded queue keeps the last `limit`.
  function Newest<T>(rows: seq<T>, limit: nat): seq<T> {
    if |rows| <= limit then rows else rows[|rows| - limit..]
  }

  // One entry for each line that is not blank: the object it holds, or none.
  function Shown(rows: seq<string>): seq<Option<Json>> {
    if rows == [] then []
    else
      var text := Strip(rows[0]);
      var v := ParseDocument(text);
      (if text == [] then [] else [if v.Some? && v.value.Obj? then v else None]) + Shown(rows[1..])
  }

  lemma {:induction false} ShownLines(es: seq<Event>)
    requires forall i :: 0 <= i < |es| ==> PlainText(es[i].now)
    ensures Shown(LinesOf(es)) == seq(|es|, i requires 0 <= i < |es| => Some(ObjectOf(es[i])))
  {
    hide LineOf, ObjectOf, PlainText, Strip, ParseDocument;
    if es != [] {
      LineClean(es[0]);
      LineObject(es[0]);
      ShownLines(es[1..]);
      assert LinesOf(es)[1..] == LinesOf(es[1..]);
    }
  }

  lemma LineObject(e: Event)
    requires PlainText(e.now)
    ensures ParseDocument(LineOf(e)) == Some(ObjectOf(e)) && ObjectOf(e).Obj?
  {
    hide EventLine, ParseDocument, PlainText, Joined, Texts, FieldsOf;
    LineReads(e.now, e.source, e.eventType, e.details);
  }

  lemma LastRows(es: seq<Event>, limit: nat)
    requires AllBytes(es)
    ensures var from := if limit < |es| then |es| - limit else 0;
      Newest(LinesOf(DecodedAll(es)), limit) == LinesOf(DecodedAll(es)[from..])
  {
    hide LineOf, DecodedEvent;
  }

  // Whatever bytes peers got into the values, the last `limit` rows of the file are the
  // last `limit` events, each the object it was written from with its values decoded.
  lemma NewestEventsShown(es: seq<Event>, limit: nat)
    requires AllBytes(es)
    ensures ByteText(FileText(es))
    ensures var from := if limit < |es| then |es| - limit else 0;
      var shown := Shown(Newest(FileRows(Decoded(FileText(es))), limit));
      |shown| == |es| - from && forall i :: from <= i < |es| ==> shown[i - from] == Some(ObjectOf(DecodedEvent(es[i])))
  {
    hide LineOf, Decoded, DecodedEvent, ObjectOf, Shown, PlainText, Lines, FileText, Newest, LinesOf, Bytes;
    FileDecoded(es);
    var read := DecodedAll(es);
    DecodedPlain(es);
    FileLines(read);
    var all := LinesOf(read) + [""];
    assert all[..|all| - 1] == LinesOf(read) && all[|all| - 1] == "";
    LastRows(es, limit);
    ShownLines(read[if limit < |es| then |es| - limit else 0..]);
  }

  lemma DecodedPlain(es: seq<Event>)
    requires AllBytes(es)
    ensures forall i :: 0 <= i < |es| ==> PlainText(DecodedAll(es)[i].now)
  {
    hide Decoded, PlainText, DecodedDetails;
  }
}
