/** The two text operations of Python that decide what counts as a line. */
module PyText {

  // str.isspace
  predicate Blank(c: char) {
    var n := c as int;
    9 <= n <= 13 || 0x1C <= n <= 0x20 || n == 0x85 || n == 0xA0 || n == 0x1680 || 0x2000 <= n <= 0x200A
    || n == 0x2028 || n == 0x2029 || n == 0x202F || n == 0x205F || n == 0x3000
  }

  function StripLeft(s: string): (r: string)
    ensures r == [] || !Blank(r[0])
  {
    if s != [] && Blank(s[0]) then StripLeft(s[1..]) else s
  }

  function StripRight(s: string): (r: string)
    ensures r <= s
    ensures r == [] || !Blank(r[|r| - 1])
  {
    if s != [] && Blank(s[|s| - 1]) then StripRight(s[..|s| - 1]) else s
  }

  function Strip(s: string): string {
    StripRight(StripLeft(s))
  }

  lemma StripNothing(s: string)
    requires s != [] && !Blank(s[0]) && !Blank(s[|s| - 1])
    ensures Strip(s) == s
  {
  }

  predicate LineEnd(c: char) {
    c == '\n' || c == '\r'
  }

  // The lines of a file opened in text mode, each without its ending.  The pair
  // "\r\n" shows here as an ending and a blank line, which every reader skips.
  function Lines(text: string): (r: seq<string>)
    ensures r != []
  {
    if text == [] then [""]
    else
      var more := Lines(text[1..]);
      if LineEnd(text[0]) then [""] + more else [[text[0]] + more[0]] + more[1..]
  }

  predicate OneLine(s: string) {
    forall i :: 0 <= i < |s| ==> !LineEnd(s[i])
  }

  // A line and its newline come off the front of a file whole.
  lemma {:induction false} LinesOfLine(line: string, rest: string)
    requires OneLine(line)
    ensures Lines(line + "\n" + rest) == [line] + Lines(rest)
  {
    var text := line + "\n" + rest;
    if line == [] {
      assert text[1..] == rest;
    } else {
      assert text[1..] == line[1..] + "\n" + rest;
      LinesOfLine(line[1..], rest);
      assert [line[0]] + line[1..] == line;
    }
  }

  predicate AllBlank(s: string) {
    forall i :: 0 <= i < |s| ==> Blank(s[i])
  }

  lemma {:induction false} LeftBlanks(s: string) returns (a: string)
    ensures s == a + StripLeft(s) && AllBlank(a)
  {
    a := [];
    if s != [] && Blank(s[0]) {
      a := LeftBlanks(s[1..]);
      a := [s[0]] + a;
    }
  }

  lemma {:induction false} RightBlanks(s: string) returns (b: string)
    ensures s == StripRight(s) + b && AllBlank(b)
  {
    b := [];
    if s != [] && Blank(s[|s| - 1]) {
      b := RightBlanks(s[..|s| - 1]);
      b := b + [s[|s| - 1]];
    }
  }

  // Stripping takes off all the blank characters at both ends and nothing else.
  lemma StripMeans(s: string) returns (a: string, b: string)
    ensures s == a + Strip(s) + b && AllBlank(a) && AllBlank(b)
    ensures var r := Strip(s); r == [] || (!Blank(r[0]) && !Blank(r[|r| - 1]))
  {
    a := LeftBlanks(s);
    b := RightBlanks(StripLeft(s));
    var r := Strip(s);
    assert r != [] ==> r[0] == StripLeft(s)[0];
  }

  // Lines with what ended each, the last with nothing.
  function Rejoined(lines: seq<string>, ends: string): string
    requires |lines| == |ends| + 1
  {
    if ends == [] then lines[0] else lines[0] + [ends[0]] + Rejoined(lines[1..], ends[1..])
  }

  // The lines are what the ends cut the text into: none holds one, and with them put
  // back they are the text.
  lemma {:induction false} LinesMean(text: string) returns (ends: string)
    ensures |Lines(text)| == |ends| + 1 && (forall i :: 0 <= i < |ends| ==> LineEnd(ends[i]))
    ensures Rejoined(Lines(text), ends) == text && forall i :: 0 <= i < |Lines(text)| ==> OneLine(Lines(text)[i])
  {
    ends := [];
    if text != [] {
      var more := Lines(text[1..]);
      ends := LinesMean(text[1..]);
      if LineEnd(text[0]) {
        ends := [text[0]] + ends;
        assert Lines(text)[1..] == more;
      } else {
        var rest := Lines(text)[1..];
        assert rest == more[1..];
        assert text == [text[0]] + Rejoined(more, ends);
      }
    }
  }
}
