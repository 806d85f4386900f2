/** The log lines of the native services: one JSON object a line, whatever bytes a
    peer put into its values.  A byte string is written here as characters of the same
    numbers; what a reader that decodes it as UTF-8 gets comes last. */
module NativeLog {
  import opened Json
  import opened JsonParser
  import opened JsonLaws
  import opened JsonCanonical
  import Utf8

  // ---- escaping ----------------------------------------------------------------------

  function EscapeOne(c: char): (s: string)
    ensures s != []
  {
    if c == '\\' then "\\\\"
    else if c == '"' then "\\\""
    else if c == '\n' then "\\n"
    else if c == '\r' then "\\r"
    else if c == '\t' then "\\t"
    else if c as int == 8 then "\\b"
    else if c as int == 12 then "\\f"
    else if c as int < 0x20 || c as int == 0x7F then UnicodeEscape(c as int)
    else [c]
  }

  function Escaped(s: string): string {
    if s == [] then [] else EscapeOne(s[0]) + Escaped(s[1..])
  }

  // The escapes are those of the other printer, but for DEL.
  lemma EscapesAlike(c: char)
    ensures EscapeOne(c) == EscapeChar(c as int == 0x7F, c)
  {
    hide UnicodeEscape;
  }

  lemma EscapedAppend(s: string, c: char)
    ensures Escaped(s + [c]) == Escaped(s) + EscapeOne(c)
  {
    hide EscapeOne;
    if s == [] {
      assert (s + [c])[1..] == [];
    } else {
      assert (s + [c])[1..] == s[1..] + [c];
      EscapedAppend(s[1..], c);
    }
  }

  method JsonEscape(s: string) returns (out: string)
    ensures out == Escaped(s)
  {
    hide EscapeOne;
    out := "";
    var i := 0;
    while i < |s|
      invariant 0 <= i <= |s| && out == Escaped(s[..i])
    {
      assert s[..i + 1] == s[..i] + [s[i]];
      EscapedAppend(s[..i], s[i]);
      out := out + EscapeOne(s[i]);
      i := i + 1;
    }
    assert s[..i] == s;
  }

  // Reading the escaped text up to the closing quote gives the bytes back.
  lemma {:induction false} EscapedReads(s: string, rest: string)
    ensures ParseText(Escaped(s) + "\"" + rest) == GotText(s, rest)
  {
    hide EscapeChar, ParseChar, EscapeOne;
    var t := Escaped(s) + "\"" + rest;
    if s == [] {
      assert t == "\"" + rest;
    } else {
      var e := EscapeOne(s[0]);
      var more := Escaped(s[1..]) + "\"" + rest;
      assert t == e + more;
      EscapesAlike(s[0]);
      CharRoundTrip(s[0] as int == 0x7F, s[0], more);
      assert t[|e|..] == more;
      EscapedReads(s[1..], rest);
      assert [s[0]] + s[1..] == s;
    }
  }

  // No control byte survives, so no newline breaks a line.
  lemma {:induction false} EscapedClean(s: string)
    ensures Clean(false, Escaped(s)) && forall i :: 0 <= i < |Escaped(s)| ==> Escaped(s)[i] as int != 0x7F
  {
    hide EscapeChar, EscapeOne;
    if s != [] {
      EscapedClean(s[1..]);
      EscapesAlike(s[0]);
      CharClean(s[0] as int == 0x7F, s[0]);
      NoDelete(s[0]);
    }
  }

  lemma NoDelete(c: char)
    ensures forall i :: 0 <= i < |EscapeOne(c)| ==> EscapeOne(c)[i] as int != 0x7F
  {
  }

  // Escaping the bytes of a UTF-8 text is writing its escaped text in UTF-8.
  function Widened(b: seq<Utf8.byte>): string {
    seq(|b|, i requires 0 <= i < |b| => b[i] as char)
  }

  lemma NarrowChar(c: char)
    requires c as int < 0x80
    ensures Utf8.Ascii(EscapeOne(c))
  {
    EscapesAlike(c);
    CharClean(true, c);
    if EscapeOne(c) != [c] {
      assert EscapeOne(c) == EscapeChar(true, c);
    }
  }

  lemma WideChar(c: char)
    ensures Escaped(Widened(Utf8.EncodeChar(c))) == Widened(Utf8.Encode(EscapeOne(c)))
  {
    hide EscapeOne;
    var b := Utf8.EncodeChar(c);
    if c as int < 0x80 {
      NarrowChar(c);
      AsciiBytes(EscapeOne(c));
      assert Widened(b) == [c] && [c][1..] == [];
    } else {
      HighUnescaped(Widened(b));
      assert EscapeOne(c) == [c] by { HighUnescaped([c]); assert [c][1..] == []; }
      assert Utf8.Encode([c]) == b + Utf8.Encode([c][1..]) == b;
    }
  }

  lemma {:induction false} AsciiBytes(s: string)
    requires Utf8.Ascii(s)
    ensures Widened(Utf8.Encode(s)) == s
  {
    if s != [] {
      AsciiBytes(s[1..]);
      assert Widened(Utf8.Encode(s)) == [s[0]] + Widened(Utf8.Encode(s[1..]));
    }
  }

  lemma {:induction false} HighUnescaped(s: string)
    requires forall i :: 0 <= i < |s| ==> s[i] as int >= 0x80
    ensures Escaped(s) == s
  {
    if s != [] {
      HighUnescaped(s[1..]);
      assert EscapeOne(s[0]) == [s[0]];
    }
  }

  lemma {:induction false} EscapedConcat(s: string, t: string)
    ensures Escaped(s + t) == Escaped(s) + Escaped(t)
  {
    hide EscapeOne;
    if s == [] {
      assert s + t == t;
    } else {
      assert (s + t)[1..] == s[1..] + t;
      EscapedConcat(s[1..], t);
    }
  }

  lemma WidenedConcat(a: seq<Utf8.byte>, b: seq<Utf8.byte>)
    ensures Widened(a + b) == Widened(a) + Widened(b)
  {
  }

  lemma {:induction false} EscapesBytesOrText(s: string)
    ensures Escaped(Widened(Utf8.Encode(s))) == Widened(Utf8.Encode(Escaped(s)))
  {
    hide EscapeOne, Utf8.EncodeChar;
    if s != [] {
      var head, tail := Utf8.EncodeChar(s[0]), Utf8.Encode(s[1..]);
      EscapesBytesOrText(s[1..]);
      WidenedConcat(head, tail);
      EscapedConcat(Widened(head), Widened(tail));
      WideChar(s[0]);
      Utf8.EncodeConcat(EscapeOne(s[0]), Escaped(s[1..]));
      WidenedConcat(Utf8.Encode(EscapeOne(s[0])), Utf8.Encode(Escaped(s[1..])));
    }
  }

  // ---- lines -----------------------------------------------------------------------------

  datatype Detail = Text(key: string, value: string) | Number(key: string, number: int)

  function Quoted(s: string): string {
    "\"" + Escaped(s) + "\""
  }

  function JStr(key: string, value: string): string {
    Quoted(key) + ":" + Quoted(value)
  }

  function JNum(key: string, value: int): string {
    Quoted(key) + ":" + PrintInt(value)
  }

  function DetailText(d: Detail): string {
    match d
    case Text(key, value) => JStr(key, value)
    case Number(key, value) => JNum(key, value)
  }

  function Texts(ds: seq<Detail>): (r: seq<string>)
    ensures |r| == |ds|
  {
    if ds == [] then [] else [DetailText(ds[0])] + Texts(ds[1..])
  }

  function FieldsOf(ds: seq<Detail>): (r: seq<Field>)
    ensures |r| == |ds|
  {
    if ds == [] then []
    else [Field(ds[0].key, if ds[0].Text? then Str(ds[0].value) else Int(ds[0].number))] + FieldsOf(ds[1..])
  }

  function Joined(parts: seq<string>): string {
    if parts == [] then "" else if |parts| == 1 then parts[0] else parts[0] + "," + Joined(parts[1..])
  }

  lemma {:induction false} JoinedAppend(parts: seq<string>, part: string)
    requires parts != []
    ensures Joined(parts + [part]) == Joined(parts) + "," + part
  {
    if |parts| == 1 {
      assert (parts + [part])[1..] == [part];
    } else {
      assert (parts + [part])[1..] == parts[1..] + [part];
      JoinedAppend(parts[1..], part);
    }
  }

  method JJoin(parts: seq<string>) returns (out: string)
    ensures out == Joined(parts)
  {
    out := "";
    var i := 0;
    while i < |parts|
      invariant 0 <= i <= |parts| && out == Joined(parts[..i])
    {
      assert parts[..i + 1] == parts[..i] + [parts[i]];
      if i != 0 {
        JoinedAppend(parts[..i], parts[i]);
        out := out + ",";
      }
      out := out + parts[i];
      i := i + 1;
    }
    assert parts[..i] == parts;
  }

  // `now` is the clock's own text and is not escaped.
  function EventLine(now: string, source: string, eventType: string, details: string): string {
    "{" + ("\"timestamp\":" + "\"" + now + "\"" + ","
           + ("\"source\":" + "\"" + Escaped(source) + "\"" + ","
              + ("\"event_type\":" + "\"" + Escaped(eventType) + "\"" + ","
                 + ("\"details\":" + ("{" + details + "}" + "}")))))
  }

  // ---- lines read back ---------------------------------------------------------------------

  predicate PlainText(s: string) {
    forall i :: 0 <= i < |s| ==> EscapeOne(s[i]) == [s[i]]
  }

  lemma {:induction false} PlainUnescaped(s: string)
    requires PlainText(s)
    ensures Escaped(s) == s
  {
    hide EscapeOne;
    if s != [] {
      PlainUnescaped(s[1..]);
    }
  }

  lemma QuotedKeyReads(key: string, body: string)
    requires body != [] && !Space(body[0])
    ensures ParseKey(Quoted(key) + ":" + body) == GotText(key, body)
  {
    hide ParseText, Escaped;
    var s := Quoted(key) + ":" + body;
    assert s[1..] == Escaped(key) + "\"" + (":" + body);
    EscapedReads(key, ":" + body);
    SkipSeparator(":", ':', body);
  }

  lemma QuotedReads(value: string, rest: string)
    ensures ParseValue(Quoted(value) + rest) == Got(Str(value), rest)
  {
    hide ParseNumber, Escaped, ParseText, ParseFields, ParseItems;
    assert (Quoted(value) + rest)[1..] == Escaped(value) + "\"" + rest;
    EscapedReads(value, rest);
  }

  lemma DetailReads(d: Detail, more: string) returns (body: string)
    requires Follow(more)
    ensures ParseKey(DetailText(d) + more) == GotText(d.key, body)
    ensures ParseValue(body) == Got(if d.Text? then Str(d.value) else Int(d.number), more)
  {
    hide ParseValue, ParseKey, Quoted, PrintInt;
    if d.Text? {
      body := Quoted(d.value) + more;
      QuotedReads(d.value, more);
      assert DetailText(d) + more == Quoted(d.key) + ":" + body;
      assert body[0] == '"' by { QuoteFirst(d.value, more); }
    } else {
      body := PrintInt(d.number) + more;
      RoundTrip(CANONICAL, Int(d.number), more);
      PrintHead(CANONICAL, Int(d.number));
      assert DetailText(d) + more == Quoted(d.key) + ":" + body;
      assert body[0] == PrintInt(d.number)[0];
    }
    QuotedKeyReads(d.key, body);
  }

  lemma QuoteFirst(s: string, more: string)
    ensures Quoted(s) + more != [] && (Quoted(s) + more)[0] == '"'
  {
  }

  lemma DetailFirst(d: Detail, more: string)
    ensures DetailText(d) + more != [] && (DetailText(d) + more)[0] == '"'
  {
    hide Escaped, PrintInt;
  }

  // Joined pairs split back into exactly the pairs that were joined.
  lemma {:induction false} DetailsRead(ds: seq<Detail>, rest: string)
    requires ds != []
    ensures ParseFields(Joined(Texts(ds)) + "}" + rest) == GotFields(FieldsOf(ds), rest)
    ensures (Joined(Texts(ds)) + "}" + rest)[0] == '"'
  {
    hide ParseFields, ParseKey, ParseValue, SkipSpace, DetailText;
    var d, texts := ds[0], Texts(ds);
    var s := Joined(texts) + "}" + rest;
    if |ds| == 1 {
      assert s == DetailText(d) + ("}" + rest);
      var body := DetailReads(d, "}" + rest);
      LastField(s, d.key, body, FieldsOf(ds)[0].value, rest);
      assert FieldsOf(ds[1..]) == [];
      DetailFirst(d, "}" + rest);
    } else {
      var tail := Joined(texts[1..]) + "}" + rest;
      var more := "," + tail;
      assert texts[1..] == Texts(ds[1..]);
      assert s == DetailText(d) + more;
      var body := DetailReads(d, more);
      DetailsRead(ds[1..], rest);
      SkipSeparator(",", ',', tail) by { QuoteNoSpace(tail); }
      MoreFields(s, d.key, body, FieldsOf(ds)[0].value, more, tail);
      DetailFirst(d, more);
    }
  }

  lemma QuoteNoSpace(tail: string)
    requires tail != [] && tail[0] == '"'
    ensures !Space(tail[0])
  {
  }

  lemma DetailsObject(ds: seq<Detail>, rest: string)
    ensures ParseValue("{" + Joined(Texts(ds)) + "}" + rest) == Got(Obj(FieldsOf(ds)), rest)
  {
    hide ParseFields, ParseItems, Joined;
    var t := Joined(Texts(ds)) + "}" + rest;
    var s := "{" + Joined(Texts(ds)) + "}" + rest;
    assert s == "{" + t && s[1..] == t;
    if ds == [] {
      NothingJoined();
      assert t == "}" + rest && t[1..] == rest;
    } else {
      DetailsRead(ds, rest);
    }
    assert SkipSpace(t) == t;
  }

  lemma NothingJoined()
    ensures Joined(Texts([])) == ""
  {
  }

  // Three quoted pairs and the details, then the end of the line.
  lemma LineAsFields(now: string, source: string, eventType: string, ds: seq<Detail>)
    requires PlainText(now)
    ensures EventLine(now, source, eventType, Joined(Texts(ds)))
         == "{" + (JStr("timestamp", now) + "," + (JStr("source", source) + "," + (JStr("event_type", eventType) + ","
            + (Quoted("details") + ":" + ("{" + Joined(Texts(ds)) + "}" + "}")))))
  {
    hide Escaped, Joined, JStr, Quoted, PlainText;
    PlainKeys();
    PlainUnescaped(now);
    PlainPair("\"timestamp\":", "timestamp", now);
    PlainPair("\"source\":", "source", source);
    PlainPair("\"event_type\":", "event_type", eventType);
    Rejoin("\"timestamp\":", now);
    Rejoin("\"source\":", Escaped(source));
    Rejoin("\"event_type\":", Escaped(eventType));
  }

  lemma Rejoin(head: string, body: string)
    ensures head + ("\"" + body + "\"") == head + "\"" + body + "\""
  {
  }

  lemma PlainKey(key: string)
    requires forall i :: 0 <= i < |key| ==> 'a' <= key[i] <= 'z' || key[i] == '_'
    ensures Quoted(key) + ":" == "\"" + key + "\":"
  {
    PlainUnescaped(key);
  }

  lemma PlainKeys()
    ensures Quoted("timestamp") + ":" == "\"timestamp\":"
    ensures Quoted("source") + ":" == "\"source\":"
    ensures Quoted("event_type") + ":" == "\"event_type\":"
    ensures Quoted("details") + ":" == "\"details\":"
  {
    hide Quoted;
    PlainKey("timestamp");
    PlainKey("source");
    PlainKey("event_type");
    PlainKey("details");
  }

  lemma PlainPair(head: string, key: string, value: string)
    requires Quoted(key) + ":" == head
    ensures JStr(key, value) == head + ("\"" + Escaped(value) + "\"")
  {
    hide Escaped;
  }

  lemma TextFieldThen(key: string, value: string, tail: string, fields: seq<Field>, rest: string)
    requires tail != [] && tail[0] == '"' && ParseFields(tail) == GotFields(fields, rest)
    ensures ParseFields(JStr(key, value) + "," + tail) == GotFields([Field(key, Str(value))] + fields, rest)
    ensures (JStr(key, value) + "," + tail)[0] == '"'
  {
    hide ParseFields, ParseKey, ParseValue, SkipSpace, Quoted;
    var d := Text(key, value);
    var s := JStr(key, value) + "," + tail;
    assert s == DetailText(d) + ("," + tail);
    var body := DetailReads(d, "," + tail);
    SkipSeparator(",", ',', tail) by { QuoteNoSpace(tail); }
    MoreFields(s, key, body, Str(value), "," + tail, tail);
    DetailFirst(d, "," + tail);
  }

  lemma DetailsField(ds: seq<Detail>)
    ensures var s := Quoted("details") + ":" + ("{" + Joined(Texts(ds)) + "}" + "}");
      s[0] == '"' && ParseFields(s) == GotFields([Field("details", Obj(FieldsOf(ds)))], "")
  {
    hide ParseFields, ParseKey, ParseValue, Joined, Quoted, Texts, FieldsOf, SkipSpace;
    var body := "{" + Joined(Texts(ds)) + "}" + "}";
    DetailsObject(ds, "}");
    QuotedKeyReads("details", body);
    LastField(Quoted("details") + ":" + body, "details", body, Obj(FieldsOf(ds)), "");
    assert "}" + "" == "}";
    QuoteFirst("details", ":" + body);
    assert Quoted("details") + ":" + body == Quoted("details") + (":" + body);
  }

  // A log line reads back as the one object it was written from, whatever its values hold.
  lemma LineReads(now: string, source: string, eventType: string, ds: seq<Detail>)
    requires PlainText(now)
    ensures ParseDocument(EventLine(now, source, eventType, Joined(Texts(ds))))
         == Some(Obj([Field("timestamp", Str(now)), Field("source", Str(source)), Field("event_type", Str(eventType)),
                      Field("details", Obj(FieldsOf(ds)))]))
  {
    hide ParseFields, JStr, Quoted, Joined, EventLine;
    LineAsFields(now, source, eventType, ds);
    var d := Quoted("details") + ":" + ("{" + Joined(Texts(ds)) + "}" + "}");
    DetailsField(ds);
    var c := JStr("event_type", eventType) + "," + d;
    TextFieldThen("event_type", eventType, d, [Field("details", Obj(FieldsOf(ds)))], "");
    var b := JStr("source", source) + "," + c;
    TextFieldThen("source", source, c, [Field("event_type", Str(eventType)), Field("details", Obj(FieldsOf(ds)))], "");
    var a := JStr("timestamp", now) + "," + b;
    TextFieldThen("timestamp", now, b,
                  [Field("source", Str(source)), Field("event_type", Str(eventType)), Field("details", Obj(FieldsOf(ds)))], "");
    ObjectOf("{" + a, a, [Field("timestamp", Str(now)), Field("source", Str(source)), Field("event_type", Str(eventType)),
                          Field("details", Obj(FieldsOf(ds)))]);
  }

  lemma ObjectOf(s: string, t: string, fields: seq<Field>)
    requires s == "{" + t && t != [] && t[0] == '"' && ParseFields(t) == GotFields(fields, "")
    ensures ParseDocument(s) == Some(Obj(fields))
  {
    hide ParseFields, ParseItems;
    assert s[1..] == t && SkipSpace(t) == t && SkipSpace(s) == s;
    assert SkipSpace("") == "";
    assert ParseValue(s) == Got(Obj(fields), "");
  }

  // ---- a UTF-8 reader ------------------------------------------------------------------------

  // A string that stands for bytes.
  predicate ByteText(s: string) {
    forall i :: 0 <= i < |s| ==> (s[i] as int) < 256
  }

  function Narrowed(s: string): (b: seq<Utf8.byte>)
    requires ByteText(s)
    ensures |b| == |s|
  {
    seq(|s|, i requires 0 <= i < |s| => s[i] as int)
  }

  // What a reader makes of the bytes, `errors="replace"`.
  function Decoded(s: string): string
    requires ByteText(s)
  {
    Utf8.DecodeReplace(Narrowed(s))
  }

  lemma DecodedSplits(s: string, t: string)
    requires ByteText(s) && ByteText(t) && (t == [] || (t[0] as int) < 0x80)
    ensures ByteText(s + t) && Decoded(s + t) == Decoded(s) + Decoded(t)
  {
    hide Utf8.DecodeReplace;
    assert Narrowed(s + t) == Narrowed(s) + Narrowed(t);
    Utf8.DecodeSplits(Narrowed(s), Narrowed(t));
  }

  lemma {:induction false} AsciiDecoded(s: string)
    requires Utf8.Ascii(s)
    ensures ByteText(s) && Decoded(s) == s
  {
    if s != [] {
      AsciiDecoded(s[1..]);
      assert Narrowed(s)[1..] == Narrowed(s[1..]);
    }
  }

  lemma {:induction false} HighDecoded(b: seq<Utf8.byte>)
    requires forall i :: 0 <= i < |b| ==> b[i] >= 0x80
    ensures forall i :: 0 <= i < |Utf8.DecodeReplace(b)| ==> Utf8.DecodeReplace(b)[i] as int >= 0x80
    decreases |b|
  {
    hide Utf8.DecodeHead;
    if b != [] {
      HighDecoded(b[Utf8.DecodeHead(b).1..]);
    }
  }

  lemma EscapeOneBytes(c: char)
    requires (c as int) < 256
    ensures ByteText(EscapeOne(c))
    ensures (c as int) < 0x80 ==> Utf8.Ascii(EscapeOne(c))
    ensures (c as int) >= 0x80 ==> EscapeOne(c) == [c]
  {
    hide UnicodeEscape;
    if (c as int) < 0x80 {
      NarrowChar(c);
    }
  }

  lemma {:induction false} EscapedBytes(s: string)
    requires ByteText(s)
    ensures ByteText(Escaped(s))
    ensures s != [] && (s[0] as int) < 0x80 ==> Escaped(s) != [] && (Escaped(s)[0] as int) < 0x80
  {
    hide EscapeOne;
    if s != [] {
      EscapeOneBytes(s[0]);
      EscapedBytes(s[1..]);
    }
  }

  // The length of the run of bytes past ASCII that `s` starts with.
  function HighRun(s: string): (n: nat)
    ensures n <= |s| && (forall i :: 0 <= i < n ==> s[i] as int >= 0x80) && (n < |s| ==> (s[n] as int) < 0x80)
  {
    if s == [] || (s[0] as int) < 0x80 then 0 else 1 + HighRun(s[1..])
  }

  lemma HighRunEscapes(s: string)
    requires ByteText(s) && forall i :: 0 <= i < |s| ==> s[i] as int >= 0x80
    ensures Escaped(s) == s && Escaped(Decoded(s)) == Decoded(s)
  {
    hide EscapeOne, Utf8.DecodeReplace;
    HighUnescaped(s);
    HighDecoded(Narrowed(s));
    HighUnescaped(Decoded(s));
  }

  lemma AsciiFirstEscapes(c: char, tail: string)
    requires (c as int) < 0x80 && ByteText(tail) && ByteText(Escaped(tail))
    requires Decoded(Escaped(tail)) == Escaped(Decoded(tail))
    requires HeadAscii(EscapeOne(c), Escaped(tail)) && HeadAscii([c], tail)
    ensures ByteText([c] + tail) && ByteText(Escaped([c] + tail))
    ensures Decoded(Escaped([c] + tail)) == Escaped(Decoded([c] + tail))
  {
    hide EscapeOne, Decoded;
    assert ([c] + tail)[1..] == tail;
    assert ([c] + Decoded(tail))[1..] == Decoded(tail);
  }

  // Decoding passes over an ASCII start.
  predicate HeadAscii(s: string, t: string) {
    ByteText(s + t) && ByteText(t) && Decoded(s + t) == s + Decoded(t)
  }

  lemma {:induction false} AsciiStart(s: string, t: string)
    requires Utf8.Ascii(s) && ByteText(t)
    ensures HeadAscii(s, t)
  {
    if s == [] {
      assert s + t == t;
    } else {
      AsciiStart(s[1..], t);
      assert Narrowed(s + t)[1..] == Narrowed(s[1..] + t);
      assert s == [s[0]] + s[1..];
    }
  }

  // Escaping before or after decoding is the same, for any bytes at all.
  lemma {:induction false} EscapesBytesOrDecoded(s: string)
    requires ByteText(s)
    ensures ByteText(Escaped(s)) && Decoded(Escaped(s)) == Escaped(Decoded(s))
    decreases |s|
  {
    hide EscapeOne, Decoded, Escaped, HeadAscii;
    EscapedBytes(s);
    var n := HighRun(s);
    if s == [] {
      AsciiDecoded("");
      HighUnescaped("");
    } else if n == 0 {
      var tail := s[1..];
      EscapesBytesOrDecoded(tail);
      EscapeOneBytes(s[0]);
      AsciiStart(EscapeOne(s[0]), Escaped(tail));
      AsciiStart([s[0]], tail);
      AsciiFirstEscapes(s[0], tail);
      assert [s[0]] + tail == s;
    } else {
      var h, t := s[..n], s[n..];
      assert h + t == s;
      EscapesBytesOrDecoded(t);
      EscapedBytes(t);
      HighRunEscapes(h);
      EscapedConcat(h, t);
      EscapedConcat(Decoded(h), Decoded(t));
      DecodedSplits(h, t);
      assert t == [] ==> Escaped(t) == [] by { HighUnescaped(""); }
      DecodedSplits(h, Escaped(t));
    }
  }

  lemma QuotedDecoded(s: string)
    requires ByteText(s)
    ensures ByteText(Quoted(s)) && Decoded(Quoted(s)) == Quoted(Decoded(s))
  {
    hide Decoded, Escaped;
    EscapesBytesOrDecoded(s);
    AsciiDecoded("\"");
    DecodedSplits(Escaped(s), "\"");
    AsciiStart("\"", Escaped(s) + "\"");
    assert Quoted(s) == "\"" + (Escaped(s) + "\"");
    assert Quoted(Decoded(s)) == "\"" + (Escaped(Decoded(s)) + "\"");
  }

  predicate ByteDetail(d: Detail) {
    ByteText(d.key) && (d.Text? ==> ByteText(d.value))
  }

  predicate ByteDetails(ds: seq<Detail>) {
    forall i :: 0 <= i < |ds| ==> ByteDetail(ds[i])
  }

  function DecodedDetail(d: Detail): Detail
    requires ByteDetail(d)
  {
    match d
    case Text(key, value) => Text(Decoded(key), Decoded(value))
    case Number(key, number) => Number(Decoded(key), number)
  }

  function DecodedDetails(ds: seq<Detail>): (r: seq<Detail>)
    requires ByteDetails(ds)
    ensures |r| == |ds|
  {
    if ds == [] then [] else [DecodedDetail(ds[0])] + DecodedDetails(ds[1..])
  }

  lemma JStrDecoded(key: string, value: string)
    requires ByteText(key) && ByteText(value)
    ensures ByteText(JStr(key, value)) && Decoded(JStr(key, value)) == JStr(Decoded(key), Decoded(value))
  {
    hide Decoded, Quoted;
    QuotedDecoded(key);
    QuotedDecoded(value);
    AsciiStart(":", Quoted(value));
    DecodedSplits(Quoted(key), ":" + Quoted(value));
    assert Quoted(key) + ":" + Quoted(value) == Quoted(key) + (":" + Quoted(value));
    assert JStr(Decoded(key), Decoded(value)) == Quoted(Decoded(key)) + (":" + Quoted(Decoded(value)));
  }

  lemma JNumDecoded(key: string, value: int)
    requires ByteText(key)
    ensures ByteText(JNum(key, value)) && Decoded(JNum(key, value)) == JNum(Decoded(key), value)
  {
    hide Decoded, Quoted, PrintInt;
    QuotedDecoded(key);
    IntAscii(value);
    AsciiDecoded(":" + PrintInt(value));
    DecodedSplits(Quoted(key), ":" + PrintInt(value));
    assert Quoted(key) + ":" + PrintInt(value) == Quoted(key) + (":" + PrintInt(value));
    assert JNum(Decoded(key), value) == Quoted(Decoded(key)) + (":" + PrintInt(value));
  }

  lemma IntAscii(value: int)
    ensures Utf8.Ascii(PrintInt(value))
  {
    NatAscii(if value < 0 then -value else value);
  }

  lemma {:induction false} NatAscii(n: nat)
    ensures Utf8.Ascii(PrintNat(n))
  {
    if n >= 10 {
      NatAscii(n / 10);
    }
  }

  lemma DetailDecoded(d: Detail)
    requires ByteDetail(d)
    ensures ByteText(DetailText(d)) && Decoded(DetailText(d)) == DetailText(DecodedDetail(d))
    ensures DetailText(d) != [] && (DetailText(d)[0] as int) < 0x80
  {
    hide Decoded, JStr, JNum;
    if d.Text? {
      JStrDecoded(d.key, d.value);
    } else {
      JNumDecoded(d.key, d.number);
    }
    DetailFirst(d, "");
    assert DetailText(d) + "" == DetailText(d);
  }

  lemma {:induction false} JoinedDecoded(ds: seq<Detail>)
    requires ByteDetails(ds)
    ensures ByteText(Joined(Texts(ds))) && Decoded(Joined(Texts(ds))) == Joined(Texts(DecodedDetails(ds)))
  {
    hide Decoded, DetailText, DecodedDetail;
    if ds == [] {
      AsciiDecoded("");
    } else {
      var d, more := ds[0], ds[1..];
      var text, rest := DetailText(d), Joined(Texts(more));
      DetailDecoded(d);
      JoinedDecoded(more);
      JoinedMore(ds);
      JoinedMore(DecodedDetails(ds));
      assert DecodedDetails(ds)[1..] == DecodedDetails(more) && DecodedDetails(ds)[0] == DecodedDetail(d);
      AsciiStart(",", rest);
      DecodedSplits(text, "," + rest);
    }
  }

  lemma JoinedMore(ds: seq<Detail>)
    requires ds != []
    ensures Joined(Texts(ds))
         == if |ds| == 1 then DetailText(ds[0]) else DetailText(ds[0]) + ("," + Joined(Texts(ds[1..])))
  {
    hide DetailText;
    assert Texts(ds)[1..] == Texts(ds[1..]);
  }

  // Pairs and what follows them.
  lemma PairThen(pair: string, tail: string)
    requires ByteText(pair) && ByteText(tail)
    ensures ByteText(pair + "," + tail) && Decoded(pair + "," + tail) == Decoded(pair) + "," + Decoded(tail)
  {
    hide Decoded;
    AsciiStart(",", tail);
    DecodedSplits(pair, "," + tail);
    assert pair + "," + tail == pair + ("," + tail);
    assert Decoded(pair) + "," + Decoded(tail) == Decoded(pair) + ("," + Decoded(tail));
  }

  lemma DetailsDecoded(ds: seq<Detail>)
    requires ByteDetails(ds)
    ensures var s := Quoted("details") + ":" + ("{" + Joined(Texts(ds)) + "}" + "}");
      && ByteText(s)
      && Decoded(s) == Quoted("details") + ":" + ("{" + Joined(Texts(DecodedDetails(ds))) + "}" + "}")
  {
    hide Decoded, Joined, Texts, DecodedDetails, Quoted;
    JoinedDecoded(ds);
    var body := Joined(Texts(ds));
    var head := Quoted("details") + ":{";
    AsciiDecoded("details");
    QuotedDecoded("details");
    AsciiDecoded(":{");
    DecodedSplits(Quoted("details"), ":{");
    AsciiDecoded("}}");
    DecodedSplits(body, "}}");
    DetailsHead();
    AsciiStart(head, body + "}}");
    assert Quoted("details") + ":" + ("{" + body + "}" + "}") == head + (body + "}}");
    var other := Joined(Texts(DecodedDetails(ds)));
    assert Quoted("details") + ":" + ("{" + other + "}" + "}") == head + (other + "}}");
  }

  lemma AsciiJoins(s: string, t: string)
    requires Utf8.Ascii(s) && Utf8.Ascii(t)
    ensures Utf8.Ascii(s + t)
  {
  }

  lemma DetailsHead()
    ensures Utf8.Ascii(Quoted("details") + ":{")
  {
    hide Quoted;
    PlainKeys();
    AsciiJoins(Quoted("details") + ":", "{");
    assert Quoted("details") + ":{" == (Quoted("details") + ":") + "{";
  }

  // Reading a whole line as UTF-8 is writing it with every value read so.
  lemma LineDecoded(now: string, source: string, eventType: string, ds: seq<Detail>)
    requires PlainText(now) && Utf8.Ascii(now) && ByteText(source) && ByteText(eventType) && ByteDetails(ds)
    ensures var line := EventLine(now, source, eventType, Joined(Texts(ds)));
      && ByteText(line)
      && Decoded(line) == EventLine(now, Decoded(source), Decoded(eventType), Joined(Texts(DecodedDetails(ds))))
  {
    hide Decoded, JStr, Joined, Texts, Quoted, EventLine, PlainText;
    LineAsFields(now, source, eventType, ds);
    LineAsFields(now, Decoded(source), Decoded(eventType), DecodedDetails(ds));
    var d := Quoted("details") + ":" + ("{" + Joined(Texts(ds)) + "}" + "}");
    DetailsDecoded(ds);
    AsciiDecoded("timestamp");
    AsciiDecoded("source");
    AsciiDecoded("event_type");
    AsciiDecoded(now);
    JStrDecoded("event_type", eventType);
    JStrDecoded("source", source);
    JStrDecoded("timestamp", now);
    var c := JStr("event_type", eventType) + "," + d;
    PairThen(JStr("event_type", eventType), d);
    var b := JStr("source", source) + "," + c;
    PairThen(JStr("source", source), c);
    var a := JStr("timestamp", now) + "," + b;
    PairThen(JStr("timestamp", now), b);
    AsciiStart("{", a);
  }

  // So a reader that decodes the file as UTF-8 gets the one object whose values are the
  // decoded values, though a peer chose their bytes.
  lemma LineReadsDecoded(now: string, source: string, eventType: string, ds: seq<Detail>)
    requires PlainText(now) && Utf8.Ascii(now) && ByteText(source) && ByteText(eventType) && ByteDetails(ds)
    ensures var line := EventLine(now, source, eventType, Joined(Texts(ds)));
      && ByteText(line)
      && ParseDocument(Decoded(line))
         == Some(Obj([Field("timestamp", Str(now)), Field("source", Str(Decoded(source))),
                      Field("event_type", Str(Decoded(eventType))), Field("details", Obj(FieldsOf(DecodedDetails(ds))))]))
  {
    hide Decoded, EventLine, ParseDocument, Joined, Texts, FieldsOf, DecodedDetails;
    LineDecoded(now, source, eventType, ds);
    LineReads(now, Decoded(source), Decoded(eventType), DecodedDetails(ds));
  }

  // ---- sending ---------------------------------------------------------------------------------

  // What one call of `send` does: it is interrupted, fails, or takes some bytes.
  datatype Sent = Interrupted | Failed | Took(n: nat)

  // Hands the kernel the whole of `data`, in as many calls as it takes; the replies
  // of the kernel are `answers`, and what it took is `wire`.
  method SendAll(data: string, answers: seq<Sent>) returns (ok: bool, wire: string)
    ensures wire <= data
    ensures ok ==> wire == data
    ensures !ok ==> wire < data
  {
    wire := "";
    var i := 0;
    while |wire| < |data|
      invariant 0 <= i <= |answers| && wire <= data
      decreases |answers| - i
    {
      if i == |answers| {
        return false, wire;
      }
      var answer := answers[i];
      i := i + 1;
      match answer {
        case Interrupted =>
        case Failed =>
          return false, wire;
        case Took(n) =>
          if n == 0 {
            return false, wire;
          }
          var left := |data| - |wire|;
          wire := data[..|wire| + if n <= left then n else left];
      }
    }
    ok := true;
  }
}
