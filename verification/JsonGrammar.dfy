/** What the reader accepts, exactly: the texts of the JSON grammar (section 2 of
    RFC 8259) and Python's three constants, each with the one value it spells. */
module JsonGrammar {
  import opened Json
  import opened JsonParser
  import opened JsonLaws

  // ---- the grammar ---------------------------------------------------------------------

  // Text that spells one character of a string.
  datatype Spelled = Spelled(text: string, c: char)

  // A text as the grammar takes it apart.
  datatype Tree =
    | Word(word: string)
    | Number(minus: bool, whole: string, fraction: string, exponent: string)
    | Text(chars: seq<Spelled>)
    | List(pad: string, slots: seq<Slot>)
    | Dict(pad: string, entries: seq<Entry>)

  datatype Slot = Slot(before: string, tree: Tree, after: string)

  datatype Entry = Entry(start: string, key: seq<Spelled>, gap: string, slot: Slot)

  predicate Blanks(s: string) {
    forall i :: 0 <= i < |s| ==> s[i] == ' ' || s[i] == '\t' || s[i] == '\n' || s[i] == '\r'
  }

  predicate Digits(s: string) {
    s != [] && forall i :: 0 <= i < |s| ==> '0' <= s[i] <= '9'
  }

  predicate HexIs(c: char, n: nat) {
    n < 16 && (c == "0123456789abcdef"[n] || c == "0123456789ABCDEF"[n])
  }

  // Four hexadecimal digits after \u.
  ghost predicate UnitIs(t: string, n: int) {
    |t| == 6 && t[0] == '\\' && t[1] == 'u'
    && exists a: nat, b: nat, c: nat, d: nat ::
         HexIs(t[2], a) && HexIs(t[3], b) && HexIs(t[4], c) && HexIs(t[5], d) && n == ((a * 16 + b) * 16 + c) * 16 + d
  }

  ghost predicate PairIs(t: string, high: nat, low: nat) {
    |t| == 12 && UnitIs(t[..6], 0xD800 + high) && UnitIs(t[6..], 0xDC00 + low) && high < 1024 && low < 1024
  }

  // A character stands for itself, for what its two-character escape names, or for one or
  // two code units (section 7 of RFC 8259).
  ghost predicate SpellsChar(t: string, c: char) {
    || (t == [c] && c >= ' ' && c != '"' && c != '\\')
    || (exists k: nat :: k < 8 && t == ['\\', "\"\\/bfnrt"[k]] && c as int == [0x22, 0x5C, 0x2F, 8, 12, 10, 13, 9][k])
    || UnitIs(t, c as int)
    || exists high: nat, low: nat :: PairIs(t, high, low) && c as int == 0x1_0000 + high * 1024 + low
  }

  ghost predicate AllSpelled(cs: seq<Spelled>) {
    forall i :: 0 <= i < |cs| ==> SpellsChar(cs[i].text, cs[i].c)
  }

  ghost predicate Proper(t: Tree)
    decreases t
  {
    match t
    case Word(w) => w in ["null", "true", "false", "NaN", "Infinity", "-Infinity"]
    case Number(_, whole, fraction, exponent) =>
      && Digits(whole) && (whole[0] == '0' ==> whole == "0")
      && (fraction == "" || (fraction[0] == '.' && Digits(fraction[1..])))
      && (exponent == ""
          || ((exponent[0] == 'e' || exponent[0] == 'E')
              && (Digits(exponent[1..])
                  || (|exponent| >= 2 && (exponent[1] == '+' || exponent[1] == '-') && Digits(exponent[2..])))))
    case Text(cs) => AllSpelled(cs)
    case List(pad, slots) =>
      Blanks(pad) && forall s | s in slots :: Blanks(s.before) && Blanks(s.after) && Proper(s.tree)
    case Dict(pad, entries) =>
      Blanks(pad)
      && forall e | e in entries ::
           Blanks(e.start) && AllSpelled(e.key) && Blanks(e.gap)
           && Blanks(e.slot.before) && Blanks(e.slot.after) && Proper(e.slot.tree)
  }

  function CharsShown(cs: seq<Spelled>): string {
    if cs == [] then "" else cs[0].text + CharsShown(cs[1..])
  }

  function CharsMeant(cs: seq<Spelled>): string {
    if cs == [] then "" else [cs[0].c] + CharsMeant(cs[1..])
  }

  function Shown(t: Tree): string
    decreases t, 1
  {
    match t
    case Word(w) => w
    case Number(minus, whole, fraction, exponent) => (if minus then "-" else "") + (whole + (fraction + exponent))
    case Text(cs) => "\"" + (CharsShown(cs) + "\"")
    case List(pad, slots) => "[" + ((if slots == [] then pad else SlotsShown(slots)) + "]")
    case Dict(pad, entries) => "{" + ((if entries == [] then pad else EntriesShown(entries)) + "}")
  }

  function SlotShown(s: Slot): string
    decreases s, 0
  {
    s.before + (Shown(s.tree) + s.after)
  }

  function SlotsShown(slots: seq<Slot>): string
    decreases slots, 0
  {
    if slots == [] then ""
    else SlotShown(slots[0]) + (if |slots| == 1 then "" else "," + SlotsShown(slots[1..]))
  }

  function EntryShown(e: Entry): string
    decreases e, 0
  {
    e.start + ("\"" + (CharsShown(e.key) + ("\"" + (e.gap + (":" + SlotShown(e.slot))))))
  }

  function EntriesShown(entries: seq<Entry>): string
    decreases entries, 0
  {
    if entries == [] then ""
    else EntryShown(entries[0]) + (if |entries| == 1 then "" else "," + EntriesShown(entries[1..]))
  }

  function Meaning(t: Tree): Json
    requires Proper(t)
    decreases t, 1
  {
    match t
    case Word(w) =>
      if w == "null" then Null else if w == "true" then Bool(true) else if w == "false" then Bool(false) else Float(true)
    case Number(minus, whole, fraction, exponent) =>
      if fraction != "" || exponent != "" then Float(false)
      else Int(if minus then 0 - Decimal(whole, 0) else Decimal(whole, 0))
    case Text(cs) => Str(CharsMeant(cs))
    case List(_, slots) => Arr(SlotsMeant(slots))
    case Dict(_, entries) => Obj(EntriesMeant(entries))
  }

  function SlotsMeant(slots: seq<Slot>): seq<Json>
    requires forall s | s in slots :: Proper(s.tree)
    decreases slots, 0
  {
    if slots == [] then [] else [Meaning(slots[0].tree)] + SlotsMeant(slots[1..])
  }

  function EntriesMeant(entries: seq<Entry>): seq<Field>
    requires forall e | e in entries :: Proper(e.slot.tree)
    decreases entries, 0
  {
    if entries == [] then []
    else [Field(CharsMeant(entries[0].key), Meaning(entries[0].slot.tree))] + EntriesMeant(entries[1..])
  }

  // Read from the left, each digit worth a tenth of the one before.
  function Decimal(digits: string, sofar: nat): nat
    requires forall i :: 0 <= i < |digits| ==> '0' <= digits[i] <= '9'
  {
    if digits == [] then sofar
    else
      assert '0' <= digits[0] <= '9';
      Decimal(digits[1..], sofar * 10 + (digits[0] as int - '0' as int))
  }

  // ---- blanks -----------------------------------------------------------------------------

  lemma {:induction false} SkipBlanks(pad: string, t: string)
    requires Blanks(pad) && (t == [] || !Space(t[0]))
    ensures SkipSpace(pad + t) == t
  {
    if pad == [] {
      assert pad + t == t;
    } else {
      assert (pad + t)[1..] == pad[1..] + t;
      SkipBlanks(pad[1..], t);
    }
  }

  lemma {:induction false} BlanksSkipped(s: string) returns (pad: string)
    ensures Blanks(pad) && s == pad + SkipSpace(s)
  {
    pad := "";
    if s != [] && Space(s[0]) {
      var more := BlanksSkipped(s[1..]);
      pad := [s[0]] + more;
    }
  }

  // ---- numbers ------------------------------------------------------------------------------

  predicate AllDigits(s: string) {
    forall i :: 0 <= i < |s| ==> '0' <= s[i] <= '9'
  }

  lemma {:induction false} DecimalAppend(front: string, last: char, sofar: nat)
    requires AllDigits(front) && '0' <= last <= '9'
    ensures AllDigits(front + [last])
    ensures Decimal(front + [last], sofar) == Decimal(front, sofar) * 10 + (last as int - '0' as int)
  {
    var all := front + [last];
    if front == [] {
      assert all[1..] == [];
    } else {
      assert '0' <= front[0] <= '9';
      assert all[1..] == front[1..] + [last];
      DecimalAppend(front[1..], last, sofar * 10 + (front[0] as int - '0' as int));
    }
  }

  lemma {:induction false} DecimalIs(digits: string)
    requires AllDigits(digits)
    ensures Decimal(digits, 0) == NatOf(digits)
  {
    if digits != [] {
      var front, last := digits[..|digits| - 1], digits[|digits| - 1];
      assert digits == front + [last];
      DecimalIs(front);
      DecimalAppend(front, last, 0);
    }
  }

  predicate Fraction(s: string) {
    s == "" || (s[0] == '.' && Digits(s[1..]))
  }

  predicate Exponent(s: string) {
    s == ""
    || ((s[0] == 'e' || s[0] == 'E')
        && (Digits(s[1..]) || (|s| >= 2 && (s[1] == '+' || s[1] == '-') && Digits(s[2..]))))
  }

  lemma FractionReads(fraction: string, tail: string)
    requires Fraction(fraction) && (tail == [] || (!Digit(tail[0]) && tail[0] != '.'))
    ensures SkipFraction(fraction + tail) == tail
  {
    hide TakeDigits;
    if fraction == "" {
      assert fraction + tail == tail;
    } else {
      assert (fraction + tail)[1..] == fraction[1..] + tail;
      assert Digit(fraction[1..][0]);
      TakeDigitsOf(fraction[1..], tail);
    }
  }

  lemma ExponentReads(exponent: string, tail: string)
    requires Exponent(exponent) && Follow(tail)
    ensures SkipExponent(exponent + tail) == tail
  {
    hide TakeDigits;
    var s := exponent + tail;
    if exponent == "" {
      assert s == tail;
    } else if Digits(exponent[1..]) {
      assert s[1..] == exponent[1..] + tail && s[1] == exponent[1..][0];
      TakeDigitsOf(exponent[1..], tail);
    } else {
      assert s[2..] == exponent[2..] + tail && s[2] == exponent[2..][0];
      TakeDigitsOf(exponent[2..], tail);
    }
  }

  lemma MagnitudeReads(whole: string, fraction: string, exponent: string, rest: string)
    requires Digits(whole) && (whole[0] == '0' ==> whole == "0") && Fraction(fraction) && Exponent(exponent) && Follow(rest)
    ensures ParseMagnitude(whole + (fraction + (exponent + rest)))
         == Got(if fraction != "" || exponent != "" then Float(false) else Int(NatOf(whole)), rest)
  {
    hide TakeDigits, SkipFraction, SkipExponent, NatOf;
    var tail := fraction + (exponent + rest);
    assert tail == [] || !Digit(tail[0]);
    FractionReads(fraction, exponent + rest);
    ExponentReads(exponent, rest);
    var t := whole + tail;
    assert t[0] == whole[0];
    if whole[0] == '0' {
      assert t[1..] == tail;
    } else {
      TakeDigitsOf(whole, tail);
    }
  }

  lemma Regroup(sign: string, whole: string, fraction: string, exponent: string, rest: string)
    ensures (sign + (whole + (fraction + exponent))) + rest == sign + (whole + (fraction + (exponent + rest)))
  {
    var a, b := (sign + (whole + (fraction + exponent))) + rest, sign + (whole + (fraction + (exponent + rest)));
    assert |a| == |b|;
    assert forall i :: 0 <= i < |a| ==> a[i] == b[i];
  }

  lemma NumberReads(minus: bool, whole: string, fraction: string, exponent: string, rest: string)
    requires Proper(Number(minus, whole, fraction, exponent)) && Follow(rest)
    ensures var t := Number(minus, whole, fraction, exponent);
      Shown(t) != [] && (Shown(t)[0] == '-' || Digit(Shown(t)[0])) && ParseNumber(Shown(t) + rest) == Got(Meaning(t), rest)
  {
    hide ParseMagnitude, NatOf, Decimal, Follow;
    MagnitudeReads(whole, fraction, exponent, rest);
    DecimalIs(whole);
    var sign := if minus then "-" else "";
    var body := whole + (fraction + (exponent + rest));
    Regroup(sign, whole, fraction, exponent, rest);
    assert '0' <= whole[0] <= '9' && body[0] == whole[0];
    if minus {
      assert (sign + body)[1..] == body;
    } else {
      assert sign + body == body;
    }
  }

  lemma FractionWritten(s: string) returns (fraction: string)
    ensures Fraction(fraction) && s == fraction + SkipFraction(s)
  {
    hide TakeDigits;
    fraction := "";
    if |s| >= 2 && s[0] == '.' && Digit(s[1]) {
      var (d, rest) := TakeDigits(s[1..]);
      fraction := "." + d;
      SomeTaken(s[1..]);
    }
  }

  lemma SomeTaken(s: string)
    requires s != [] && Digit(s[0])
    ensures Digits(TakeDigits(s).0)
  {
    var d := TakeDigits(s).0;
    forall i | 0 <= i < |d| ensures '0' <= d[i] <= '9' {
      assert Digit(d[i]);
    }
  }

  lemma ExponentWritten(s: string) returns (exponent: string)
    ensures Exponent(exponent) && s == exponent + SkipExponent(s)
  {
    hide TakeDigits;
    exponent := "";
    if s != [] && (s[0] == 'e' || s[0] == 'E') {
      if |s| >= 2 && Digit(s[1]) {
        SomeTaken(s[1..]);
        exponent := [s[0]] + TakeDigits(s[1..]).0;
        assert exponent[1..] == TakeDigits(s[1..]).0;
      } else if |s| >= 3 && (s[1] == '+' || s[1] == '-') && Digit(s[2]) {
        SomeTaken(s[2..]);
        exponent := [s[0], s[1]] + TakeDigits(s[2..]).0;
        assert exponent[2..] == TakeDigits(s[2..]).0;
      }
    }
  }

  lemma TailWritten(rest: string) returns (fraction: string, exponent: string)
    ensures Fraction(fraction) && Exponent(exponent) && rest == fraction + exponent + SkipExponent(SkipFraction(rest))
    ensures fraction + exponent == "" <==> |SkipExponent(SkipFraction(rest))| == |rest|
  {
    hide SkipFraction, SkipExponent, Fraction, Exponent;
    fraction := FractionWritten(rest);
    exponent := ExponentWritten(SkipFraction(rest));
  }

  lemma WholeWritten(t: string) returns (whole: string, rest: string)
    requires t != [] && Digit(t[0])
    ensures t == whole + rest && Digits(whole) && (whole[0] == '0' ==> whole == "0")
    ensures (whole, rest) == if t[0] == '0' then ("0", t[1..]) else TakeDigits(t)
  {
    hide TakeDigits;
    SomeTaken(t);
    var (d, r) := if t[0] == '0' then ("0", t[1..]) else TakeDigits(t);
    whole, rest := d, r;
    assert whole[0] == t[0];
  }

  lemma MagnitudeWritten(t: string) returns (whole: string, fraction: string, exponent: string)
    requires ParseMagnitude(t).Got?
    ensures Proper(Number(false, whole, fraction, exponent)) && Digits(whole)
    ensures t == whole + (fraction + exponent) + ParseMagnitude(t).rest
    ensures ParseMagnitude(t).value == if fraction != "" || exponent != "" then Float(false) else Int(NatOf(whole))
  {
    hide TakeDigits, SkipFraction, SkipExponent, NatOf, Digits;
    var rest: string;
    whole, rest := WholeWritten(t);
    fraction, exponent := TailWritten(rest);
    assert Digits(whole);
  }

  lemma NumberWritten(s: string) returns (t: Tree)
    requires ParseNumber(s).Got?
    ensures Proper(t) && Meaning(t) == ParseNumber(s).value && s == Shown(t) + ParseNumber(s).rest
  {
    hide ParseMagnitude, NatOf, Decimal, Digits;
    var minus := s != [] && s[0] == '-';
    var sign, body := if minus then "-" else "", if minus then s[1..] else s;
    var whole, fraction, exponent := MagnitudeWritten(body);
    t := Number(minus, whole, fraction, exponent);
    DecimalOf(whole);
    assert s == sign + body;
    Associate(sign, whole + (fraction + exponent), ParseMagnitude(body).rest);
  }

  lemma DecimalOf(whole: string)
    requires Digits(whole)
    ensures AllDigits(whole) && Decimal(whole, 0) == NatOf(whole)
  {
    DecimalIs(whole);
  }

  // ---- strings --------------------------------------------------------------------------------

  lemma HexMeans(c: char)
    ensures HexValue(c) < 0 ==> forall n: nat :: !HexIs(c, n)
    ensures HexValue(c) >= 0 ==> HexIs(c, HexValue(c)) && forall n: nat :: HexIs(c, n) ==> n == HexValue(c)
  {
  }

  lemma UnitMeans(t: string, n: int)
    requires |t| == 6
    ensures UnitIs(t, n) <==> n >= 0 && UnicodeUnit(t) == n
  {
    hide HexIs, HexValue;
    HexMeans(t[2]);
    HexMeans(t[3]);
    HexMeans(t[4]);
    HexMeans(t[5]);
  }

  // A unit at the head of a longer text.
  lemma UnitAhead(s: string, n: int)
    requires |s| >= 6
    ensures UnitIs(s[..6], n) <==> n >= 0 && UnicodeUnit(s) == n
  {
    UnitMeans(s[..6], n);
  }

  lemma UnitStart(t: string, n: int)
    requires UnitIs(t, n)
    ensures |t| == 6 && t[0] == '\\' && t[1] == 'u'
  {
  }

  lemma PairReads(t: string, c: char, high: nat, low: nat, rest: string)
    requires PairIs(t, high, low) && c as int == 0x1_0000 + high * 1024 + low
    ensures t[0] != '"' && ParseChar(t + rest) == Some((c, 12))
  {
    hide UnicodeUnit, UnitIs;
    var s := t + rest;
    UnitStart(t[..6], 0xD800 + high);
    assert s[..6] == t[..6] && s[6..][..6] == t[6..];
    UnitAhead(s, 0xD800 + high);
    UnitAhead(s[6..], 0xDC00 + low);
  }

  lemma UnitReads(t: string, c: char, rest: string)
    requires UnitIs(t, c as int)
    ensures |t| == 6 && t[0] != '"' && ParseChar(t + rest) == Some((c, 6))
  {
    hide UnicodeUnit, UnitIs;
    UnitStart(t, c as int);
    assert (t + rest)[..6] == t;
    UnitAhead(t + rest, c as int);
  }

  lemma ShortReads(k: nat, rest: string)
    requires k < 8
    ensures var t, c := ['\\', "\"\\/bfnrt"[k]], [0x22, 0x5C, 0x2F, 8, 12, 10, 13, 9][k];
      ParseChar(t + rest) == Some((c as char, 2))
  {
    hide UnicodeUnit;
  }

  lemma CharReads(p: Spelled, rest: string)
    requires SpellsChar(p.text, p.c)
    ensures p.text != [] && p.text[0] != '"' && ParseChar(p.text + rest) == Some((p.c, |p.text|))
  {
    hide UnicodeUnit, UnitIs, ParseChar, PairIs;
    if p.text == [p.c] && p.c >= ' ' && p.c != '"' && p.c != '\\' {
      PlainChar(p.c, rest);
    } else if UnitIs(p.text, p.c as int) {
      UnitReads(p.text, p.c, rest);
    } else if exists high: nat, low: nat :: PairIs(p.text, high, low) && p.c as int == 0x1_0000 + high * 1024 + low {
      var high: nat, low: nat :| PairIs(p.text, high, low) && p.c as int == 0x1_0000 + high * 1024 + low;
      PairLength(p.text, high, low);
      PairReads(p.text, p.c, high, low, rest);
    } else {
      var k: nat :| k < 8 && p.text == ['\\', "\"\\/bfnrt"[k]] && p.c as int == [0x22, 0x5C, 0x2F, 8, 12, 10, 13, 9][k];
      ShortReads(k, rest);
    }
  }

  lemma PairLength(t: string, high: nat, low: nat)
    requires PairIs(t, high, low)
    ensures |t| == 12
  {
  }

  lemma PlainChar(c: char, rest: string)
    requires c >= ' ' && c != '"' && c != '\\'
    ensures ParseChar([c] + rest) == Some((c, 1))
  {
  }

  lemma CharWritten(s: string)
    requires s != [] && s[0] != '"' && ParseChar(s).Some?
    ensures SpellsChar(s[..ParseChar(s).value.1], ParseChar(s).value.0)
  {
    hide UnicodeUnit, UnitIs, SpellsChar;
    var (c, n) := ParseChar(s).value;
    if n == 1 {
      assert s[..1] == [c];
      ByItself(c);
    } else if n == 2 {
      ShortWritten(s);
    } else if n == 6 {
      UnitAhead(s, UnicodeUnit(s));
      ByUnit(s[..6], c);
    } else {
      var u, l := UnicodeUnit(s), UnicodeUnit(s[6..]);
      assert l >= 0 && |s[6..]| >= 6;
      UnitAhead(s, u);
      UnitAhead(s[6..], l);
      assert s[..12][..6] == s[..6] && s[..12][6..] == s[6..][..6];
      ByPair(s[..12], c, u - 0xD800, l - 0xDC00);
    }
  }

  lemma ByItself(c: char)
    requires c >= ' ' && c != '"' && c != '\\'
    ensures SpellsChar([c], c)
  {
  }

  lemma ByUnit(t: string, c: char)
    requires UnitIs(t, c as int)
    ensures SpellsChar(t, c)
  {
    hide UnitIs;
  }

  lemma ByPair(t: string, c: char, high: nat, low: nat)
    requires |t| == 12 && UnitIs(t[..6], 0xD800 + high) && UnitIs(t[6..], 0xDC00 + low) && high < 1024 && low < 1024
    requires c as int == 0x1_0000 + high * 1024 + low
    ensures SpellsChar(t, c)
  {
    hide UnitIs;
    assert PairIs(t, high, low);
  }

  lemma ByLetter(k: nat, c: char)
    requires k < 8 && c as int == [0x22, 0x5C, 0x2F, 8, 12, 10, 13, 9][k]
    ensures SpellsChar(['\\', "\"\\/bfnrt"[k]], c)
  {
    hide UnitIs, PairIs;
  }

  lemma ShortWritten(s: string)
    requires s != [] && s[0] != '"' && ParseChar(s).Some? && ParseChar(s).value.1 == 2
    ensures SpellsChar(s[..2], ParseChar(s).value.0)
  {
    hide UnicodeUnit, SpellsChar;
    var c := ParseChar(s).value.0;
    var k: nat := if s[1] == '"' then 0 else if s[1] == '\\' then 1 else if s[1] == '/' then 2 else if s[1] == 'b' then 3
                  else if s[1] == 'f' then 4 else if s[1] == 'n' then 5 else if s[1] == 'r' then 6 else 7;
    assert s[..2] == ['\\', "\"\\/bfnrt"[k]];
    ByLetter(k, c);
  }

  lemma {:induction false} TextReads(cs: seq<Spelled>, rest: string)
    requires AllSpelled(cs)
    ensures ParseText(CharsShown(cs) + ("\"" + rest)) == GotText(CharsMeant(cs), rest)
  {
    hide SpellsChar, ParseChar;
    var s := CharsShown(cs) + ("\"" + rest);
    if cs == [] {
      assert s == "\"" + rest && s[1..] == rest;
    } else {
      var more := CharsShown(cs[1..]) + ("\"" + rest);
      Associate(cs[0].text, CharsShown(cs[1..]), "\"" + rest);
      assert s == cs[0].text + more;
      CharReads(cs[0], more);
      assert s[|cs[0].text|..] == more && s[0] == cs[0].text[0];
      TextReads(cs[1..], rest);
    }
  }

  lemma {:induction false} TextWritten(s: string) returns (cs: seq<Spelled>)
    requires ParseText(s).GotText?
    ensures AllSpelled(cs) && CharsMeant(cs) == ParseText(s).text
    ensures s == CharsShown(cs) + ("\"" + ParseText(s).rest)
    decreases |s|
  {
    hide SpellsChar, ParseChar;
    cs := [];
    if s[0] == '"' {
      assert s == "\"" + s[1..];
    } else {
      var (c, n) := ParseChar(s).value;
      CharWritten(s);
      var more := TextWritten(s[n..]);
      cs := [Spelled(s[..n], c)] + more;
      assert cs[1..] == more && s == s[..n] + s[n..];
      Associate(s[..n], CharsShown(more), "\"" + ParseText(s).rest);
    }
  }

  // ---- values: every text of the grammar is read as what it means -------------------------------

  lemma ShownStarts(t: Tree)
    requires Proper(t)
    ensures Shown(t) != []
    ensures var c := Shown(t)[0]; !Space(c) && c != ']' && c != '}' && c != ','
  {
    hide AllSpelled, SlotsShown, EntriesShown, CharsShown;
    if t.Number? {
      assert '0' <= t.whole[0] <= '9';
    }
  }

  lemma StartsHead(s: string, word: string)
    requires s != [] && word != []
    ensures Starts(s, word) ==> s[0] == word[0]
  {
  }

  lemma WordReads(w: string, rest: string)
    requires Proper(Word(w))
    ensures ParseValue(w + rest) == Got(Meaning(Word(w)), rest)
  {
    hide ParseText, ParseMagnitude, Starts;
    var s := w + rest;
    assert s[0] == w[0] && s[|w|..] == rest;
    assert Starts(s, w) by { StartsItself(w, rest); }
    StartsHead(s, "null");
    StartsHead(s, "true");
    StartsHead(s, "false");
    StartsHead(s, "NaN");
    StartsHead(s, "Infinity");
    StartsHead(s, "-Infinity");
    if s[0] == '-' {
      assert s[1] == 'I';
      NoMagnitude(s[1..]);
    }
  }

  lemma StartsItself(w: string, rest: string)
    ensures Starts(w + rest, w)
  {
  }

  lemma NoMagnitude(t: string)
    requires t != [] && !Digit(t[0])
    ensures ParseMagnitude(t) == NoValue
  {
  }

  lemma ScalarReads(t: Tree, rest: string)
    requires Proper(t) && Follow(rest) && (t.Word? || t.Number? || t.Text?)
    ensures ParseValue(Shown(t) + rest) == Got(Meaning(t), rest)
  {
    hide ParseText, ParseNumber, ParseWord, Follow, AllSpelled;
    var s := Shown(t) + rest;
    if t.Word? {
      WordReads(t.word, rest);
    } else if t.Number? {
      NumberReads(t.minus, t.whole, t.fraction, t.exponent, rest);
      assert s[0] == Shown(t)[0];
    } else {
      TextReads(t.chars, rest);
      Associate(CharsShown(t.chars), "\"", rest);
      assert s[1..] == CharsShown(t.chars) + ("\"" + rest);
    }
  }

  lemma BlankFollows(after: string, tail: string)
    requires Blanks(after) && tail != [] && (tail[0] == ',' || tail[0] == ']' || tail[0] == '}')
    ensures Follow(after + tail) && SkipSpace(after + tail) == tail
  {
    hide SkipSpace;
    SkipBlanks(after, tail);
    assert (after + tail)[0] == if after == [] then tail[0] else after[0];
  }

  lemma OneItem(s: string, v: Json, more: string, rest: string)
    requires ParseValue(s) == Got(v, more) && SkipSpace(more) == "]" + rest
    ensures ParseItems(s) == GotItems([v], rest)
  {
    hide ParseValue, SkipSpace;
    assert ("]" + rest)[1..] == rest;
  }

  lemma NextItem(s: string, v: Json, more: string, tail: string)
    requires ParseValue(s) == Got(v, more) && SkipSpace(more) == "," + tail && ParseItems(SkipSpace(tail)).GotItems?
    ensures var next := ParseItems(SkipSpace(tail)); ParseItems(s) == GotItems([v] + next.items, next.rest)
  {
    hide ParseValue, SkipSpace;
    assert ("," + tail)[1..] == tail;
  }

  ghost predicate ProperSlots(slots: seq<Slot>) {
    forall s | s in slots :: Blanks(s.before) && Blanks(s.after) && Proper(s.tree)
  }

  // Between the first slot and the end of its list.
  lemma SlotsApart(slots: seq<Slot>, rest: string) returns (tail: string)
    requires slots != []
    ensures var s := slots[0];
      SlotsShown(slots) + ("]" + rest) == s.before + (Shown(s.tree) + (s.after + tail))
    ensures tail == if |slots| == 1 then "]" + rest else "," + (SlotsShown(slots[1..]) + ("]" + rest))
  {
    hide Shown;
    var s := slots[0];
    tail := if |slots| == 1 then "]" + rest else "," + (SlotsShown(slots[1..]) + ("]" + rest));
    var between := if |slots| == 1 then "" else "," + SlotsShown(slots[1..]);
    Associate(SlotShown(s), between, "]" + rest);
    if |slots| > 1 {
      Associate(",", SlotsShown(slots[1..]), "]" + rest);
    } else {
      assert between + ("]" + rest) == tail;
    }
    assert between + ("]" + rest) == tail;
    Associate(s.before, Shown(s.tree) + s.after, tail);
    Associate(Shown(s.tree), s.after, tail);
  }

  lemma ListValue(t: Tree, rest: string)
    requires Proper(t) && t.List?
    requires ParseArray(SkipSpace((if t.slots == [] then t.pad else SlotsShown(t.slots)) + ("]" + rest)))
          == Got(Arr(SlotsMeant(t.slots)), rest)
    ensures ParseValue(Shown(t) + rest) == Got(Meaning(t), rest)
  {
    hide ParseArray, SlotsShown, SkipSpace;
    var inner := if t.slots == [] then t.pad else SlotsShown(t.slots);
    Associate(inner, "]", rest);
    assert (Shown(t) + rest)[1..] == inner + ("]" + rest);
  }

  lemma DictValue(t: Tree, rest: string)
    requires Proper(t) && t.Dict?
    requires ParseObject(SkipSpace((if t.entries == [] then t.pad else EntriesShown(t.entries)) + ("}" + rest)))
          == Got(Obj(EntriesMeant(t.entries)), rest)
    ensures ParseValue(Shown(t) + rest) == Got(Meaning(t), rest)
  {
    hide ParseObject, EntriesShown, SkipSpace, AllSpelled;
    var inner := if t.entries == [] then t.pad else EntriesShown(t.entries);
    Associate(inner, "}", rest);
    assert (Shown(t) + rest)[1..] == inner + ("}" + rest);
  }

  // Whatever follows it, so long as it could not be more of a number.
  lemma {:induction false} ValueReads(t: Tree, rest: string)
    requires Proper(t) && Follow(rest)
    ensures ParseValue(Shown(t) + rest) == Got(Meaning(t), rest)
    decreases t, 1
  {
    hide ParseArray, ParseObject, ParseValue, Shown, Meaning, SlotsShown, EntriesShown, Follow, AllSpelled, SkipSpace;
    if t.List? {
      ListReads(t.pad, t.slots, rest);
      ListValue(t, rest);
    } else if t.Dict? {
      DictReads(t.pad, t.entries, rest);
      DictValue(t, rest);
    } else {
      ScalarReads(t, rest);
    }
  }

  lemma {:induction false} ListReads(pad: string, slots: seq<Slot>, rest: string)
    requires Blanks(pad) && ProperSlots(slots)
    ensures ParseArray(SkipSpace((if slots == [] then pad else SlotsShown(slots)) + ("]" + rest)))
         == Got(Arr(SlotsMeant(slots)), rest)
    decreases slots, 1
  {
    hide ParseItems, SlotsShown, SkipSpace;
    if slots == [] {
      SkipBlanks(pad, "]" + rest);
      assert ("]" + rest)[1..] == rest;
    } else {
      ItemsRead(slots, rest);
    }
  }

  lemma {:induction false} ItemsRead(slots: seq<Slot>, rest: string)
    requires slots != [] && ProperSlots(slots)
    ensures var s := SkipSpace(SlotsShown(slots) + ("]" + rest));
      ParseItems(s) == GotItems(SlotsMeant(slots), rest) && s != [] && s[0] != ']'
    decreases slots, 0
  {
    hide ParseItems, ParseValue, SlotsShown, SkipSpace, Shown, Proper, Meaning, Follow;
    var s := slots[0];
    var tail := SlotsApart(slots, rest);
    var body := Shown(s.tree) + (s.after + tail);
    ShownStarts(s.tree);
    assert body[0] == Shown(s.tree)[0];
    SkipBlanks(s.before, body);
    BlankFollows(s.after, tail);
    ValueReads(s.tree, s.after + tail);
    if |slots| == 1 {
      OneItem(body, Meaning(s.tree), s.after + tail, rest);
      assert slots[1..] == [];
    } else {
      ItemsRead(slots[1..], rest);
      NextItem(body, Meaning(s.tree), s.after + tail, SlotsShown(slots[1..]) + ("]" + rest));
    }
  }

  lemma KeyReads(key: seq<Spelled>, gap: string, before: string, body: string)
    requires AllSpelled(key) && Blanks(gap) && Blanks(before) && body != [] && !Space(body[0])
    ensures ParseKey("\"" + (CharsShown(key) + ("\"" + (gap + (":" + (before + body)))))) == GotText(CharsMeant(key), body)
  {
    hide AllSpelled, SkipSpace, ParseText;
    var tail := ":" + (before + body);
    TextReads(key, gap + tail);
    SkipBlanks(gap, tail);
    SkipBlanks(before, body);
    assert tail[1..] == before + body;
    var s := "\"" + (CharsShown(key) + ("\"" + (gap + tail)));
    assert s[1..] == CharsShown(key) + ("\"" + (gap + tail));
  }

  lemma OneField(s: string, key: string, body: string, v: Json, more: string, rest: string)
    requires ParseKey(s) == GotText(key, body) && ParseValue(body) == Got(v, more) && SkipSpace(more) == "}" + rest
    ensures ParseFields(s) == GotFields([Field(key, v)], rest)
  {
    hide ParseValue, SkipSpace, ParseKey;
    assert ("}" + rest)[1..] == rest;
  }

  lemma NextField(s: string, key: string, body: string, v: Json, more: string, tail: string)
    requires ParseKey(s) == GotText(key, body) && ParseValue(body) == Got(v, more) && SkipSpace(more) == "," + tail
    requires ParseFields(SkipSpace(tail)).GotFields?
    ensures var next := ParseFields(SkipSpace(tail)); ParseFields(s) == GotFields([Field(key, v)] + next.fields, next.rest)
  {
    hide ParseValue, SkipSpace, ParseKey;
    assert ("," + tail)[1..] == tail;
  }

  ghost predicate ProperEntries(entries: seq<Entry>) {
    forall e | e in entries ::
      Blanks(e.start) && AllSpelled(e.key) && Blanks(e.gap)
      && Blanks(e.slot.before) && Blanks(e.slot.after) && Proper(e.slot.tree)
  }

  // A key, its colon and what follows.
  function KeyShown(e: Entry, body: string): string {
    "\"" + (CharsShown(e.key) + ("\"" + (e.gap + (":" + (e.slot.before + body)))))
  }

  lemma EntryApart(e: Entry, tail: string)
    ensures EntryShown(e) + tail == e.start + KeyShown(e, Shown(e.slot.tree) + (e.slot.after + tail))
  {
    hide Shown, CharsShown;
    var s := e.slot;
    Associate(Shown(s.tree), s.after, tail);
    Associate(s.before, Shown(s.tree) + s.after, tail);
    Associate(":", SlotShown(s), tail);
    Associate(e.gap, ":" + SlotShown(s), tail);
    Associate("\"", e.gap + (":" + SlotShown(s)), tail);
    Associate(CharsShown(e.key), "\"" + (e.gap + (":" + SlotShown(s))), tail);
    Associate("\"", CharsShown(e.key) + ("\"" + (e.gap + (":" + SlotShown(s)))), tail);
    Associate(e.start, "\"" + (CharsShown(e.key) + ("\"" + (e.gap + (":" + SlotShown(s))))), tail);
  }

  lemma EntriesApart(entries: seq<Entry>, rest: string) returns (tail: string)
    requires entries != []
    ensures var e := entries[0];
      EntriesShown(entries) + ("}" + rest) == e.start + KeyShown(e, Shown(e.slot.tree) + (e.slot.after + tail))
    ensures tail == if |entries| == 1 then "}" + rest else "," + (EntriesShown(entries[1..]) + ("}" + rest))
  {
    hide Shown, EntryShown, KeyShown;
    var e := entries[0];
    tail := if |entries| == 1 then "}" + rest else "," + (EntriesShown(entries[1..]) + ("}" + rest));
    var between := if |entries| == 1 then "" else "," + EntriesShown(entries[1..]);
    Associate(EntryShown(e), between, "}" + rest);
    if |entries| > 1 {
      Associate(",", EntriesShown(entries[1..]), "}" + rest);
    }
    assert between + ("}" + rest) == tail;
    EntryApart(e, tail);
  }

  lemma {:induction false} DictReads(pad: string, entries: seq<Entry>, rest: string)
    requires Blanks(pad) && ProperEntries(entries)
    ensures ParseObject(SkipSpace((if entries == [] then pad else EntriesShown(entries)) + ("}" + rest)))
         == Got(Obj(EntriesMeant(entries)), rest)
    decreases entries, 1
  {
    hide ParseFields, EntriesShown, SkipSpace;
    if entries == [] {
      SkipBlanks(pad, "}" + rest);
      assert ("}" + rest)[1..] == rest;
    } else {
      FieldsRead(entries, rest);
    }
  }

  lemma {:induction false} FieldsRead(entries: seq<Entry>, rest: string)
    requires entries != [] && ProperEntries(entries)
    ensures var s := SkipSpace(EntriesShown(entries) + ("}" + rest));
      ParseFields(s) == GotFields(EntriesMeant(entries), rest) && s != [] && s[0] != '}'
    decreases entries, 0
  {
    hide ParseFields, ParseValue, ParseKey, EntriesShown, SkipSpace, Shown, Proper, Meaning, Follow, AllSpelled, CharsShown,
      CharsMeant;
    var e := entries[0];
    var tail := EntriesApart(entries, rest);
    var body := Shown(e.slot.tree) + (e.slot.after + tail);
    ShownStarts(e.slot.tree);
    assert body[0] == Shown(e.slot.tree)[0];
    SkipBlanks(e.start, KeyShown(e, body));
    KeyReads(e.key, e.gap, e.slot.before, body);
    BlankFollows(e.slot.after, tail);
    ValueReads(e.slot.tree, e.slot.after + tail);
    var key, v := CharsMeant(e.key), Meaning(e.slot.tree);
    if |entries| == 1 {
      OneField(KeyShown(e, body), key, body, v, e.slot.after + tail, rest);
      assert entries[1..] == [];
    } else {
      FieldsRead(entries[1..], rest);
      NextField(KeyShown(e, body), key, body, v, e.slot.after + tail, EntriesShown(entries[1..]) + ("}" + rest));
    }
  }

  // ---- values: whatever is read is a text of the grammar -----------------------------------------

  lemma WordWritten(s: string) returns (t: Tree)
    requires ParseWord(s).Got?
    ensures Proper(t) && Meaning(t) == ParseWord(s).value && s == Shown(t) + ParseWord(s).rest
  {
    var w := if Starts(s, "null") then "null" else if Starts(s, "true") then "true" else if Starts(s, "false") then "false"
             else if Starts(s, "NaN") then "NaN" else if Starts(s, "Infinity") then "Infinity" else "-Infinity";
    t := Word(w);
    assert Starts(s, w) && s[|w|..] == ParseWord(s).rest && Shown(t) == w;
    assert s == s[..|w|] + s[|w|..];
  }

  lemma ScalarWritten(s: string) returns (t: Tree)
    requires s != [] && ParseScalar(s).Got?
    ensures Proper(t) && Meaning(t) == ParseScalar(s).value && s == Shown(t) + ParseScalar(s).rest
  {
    hide ParseText, ParseNumber, ParseWord, AllSpelled;
    if s[0] == '"' {
      var cs := TextWritten(s[1..]);
      t := Text(cs);
      var rest := ParseText(s[1..]).rest;
      Associate(CharsShown(cs), "\"", rest);
      assert s == "\"" + s[1..];
    } else if (Digit(s[0]) || s[0] == '-') && ParseNumber(s).Got? {
      t := NumberWritten(s);
    } else {
      t := WordWritten(s);
    }
  }

  lemma {:induction false} ValueWritten(s: string) returns (t: Tree)
    requires ParseValue(s).Got?
    ensures Proper(t) && Meaning(t) == ParseValue(s).value && s == Shown(t) + ParseValue(s).rest
    decreases |s|, 1
  {
    hide ParseArray, ParseObject, ParseScalar, SkipSpace;
    if s[0] == '[' {
      t := ListWritten(s);
    } else if s[0] == '{' {
      t := DictWritten(s);
    } else {
      t := ScalarWritten(s);
    }
  }

  lemma {:induction false} ListWritten(s: string) returns (t: Tree)
    requires s != [] && s[0] == '[' && ParseValue(s).Got?
    ensures Proper(t) && Meaning(t) == ParseValue(s).value && s == Shown(t) + ParseValue(s).rest
    decreases |s|, 0
  {
    hide ParseItems, SkipSpace, SlotsShown;
    var pad := BlanksSkipped(s[1..]);
    var inside := SkipSpace(s[1..]);
    var rest := ParseValue(s).rest;
    if inside != [] && inside[0] == ']' {
      t := List(pad, []);
      assert inside == "]" + rest;
      Associate(pad, "]", rest);
    } else {
      var slots := ItemsWritten(pad, inside);
      t := List("", slots);
      Associate(SlotsShown(slots), "]", rest);
    }
    assert s == "[" + s[1..];
  }

  lemma {:induction false} ItemsWritten(pad: string, s: string) returns (slots: seq<Slot>)
    requires Blanks(pad) && ParseItems(s).GotItems?
    ensures slots != [] && ProperSlots(slots) && SlotsMeant(slots) == ParseItems(s).items
    ensures pad + s == SlotsShown(slots) + ("]" + ParseItems(s).rest)
    decreases |s|, 2
  {
    hide ParseValue, SkipSpace, Shown, Meaning, Proper, SlotsShown;
    var tree := ValueWritten(s);
    var more := ParseValue(s).rest;
    var after := BlanksSkipped(more);
    var tail := SkipSpace(more);
    var slot := Slot(pad, tree, after);
    if tail[0] == ']' {
      slots := [slot];
      assert slots[1..] == [];
      assert tail == "]" + tail[1..];
    } else {
      var next := BlanksSkipped(tail[1..]);
      var others := ItemsWritten(next, SkipSpace(tail[1..]));
      slots := [slot] + others;
      assert slots[1..] == others;
      assert tail == "," + tail[1..];
    }
    var end := SlotsApart(slots, ParseItems(s).rest);
    assert end == tail;
  }

  lemma {:induction false} DictWritten(s: string) returns (t: Tree)
    requires s != [] && s[0] == '{' && ParseValue(s).Got?
    ensures Proper(t) && Meaning(t) == ParseValue(s).value && s == Shown(t) + ParseValue(s).rest
    decreases |s|, 0
  {
    hide ParseFields, SkipSpace, EntriesShown, AllSpelled;
    var pad := BlanksSkipped(s[1..]);
    var inside := SkipSpace(s[1..]);
    var rest := ParseValue(s).rest;
    if inside != [] && inside[0] == '}' {
      t := Dict(pad, []);
      assert inside == "}" + rest;
      Associate(pad, "}", rest);
    } else {
      var entries := FieldsWritten(pad, inside);
      t := Dict("", entries);
      Associate(EntriesShown(entries), "}", rest);
    }
    assert s == "{" + s[1..];
  }

  lemma KeyWritten(s: string) returns (key: seq<Spelled>, gap: string, before: string)
    requires ParseKey(s).GotText?
    ensures AllSpelled(key) && Blanks(gap) && Blanks(before) && CharsMeant(key) == ParseKey(s).text
    ensures s == "\"" + (CharsShown(key) + ("\"" + (gap + (":" + (before + ParseKey(s).rest)))))
  {
    hide ParseText, SkipSpace, AllSpelled;
    key := TextWritten(s[1..]);
    var more := ParseText(s[1..]).rest;
    gap := BlanksSkipped(more);
    var tail := SkipSpace(more);
    before := BlanksSkipped(tail[1..]);
    assert tail == ":" + tail[1..] && s == "\"" + s[1..];
  }

  lemma {:induction false} FieldsWritten(pad: string, s: string) returns (entries: seq<Entry>)
    requires Blanks(pad) && ParseFields(s).GotFields?
    ensures entries != [] && ProperEntries(entries) && EntriesMeant(entries) == ParseFields(s).fields
    ensures pad + s == EntriesShown(entries) + ("}" + ParseFields(s).rest)
    decreases |s|, 2
  {
    hide ParseKey, ParseValue, SkipSpace, Shown, Meaning, Proper, EntriesShown, AllSpelled, CharsShown, CharsMeant;
    var key, gap, before := KeyWritten(s);
    var body := ParseKey(s).rest;
    var tree := ValueWritten(body);
    var more := ParseValue(body).rest;
    var after := BlanksSkipped(more);
    var tail := SkipSpace(more);
    var entry := Entry(pad, key, gap, Slot(before, tree, after));
    if tail[0] == '}' {
      entries := [entry];
      assert entries[1..] == [];
      assert tail == "}" + tail[1..];
    } else {
      var next := BlanksSkipped(tail[1..]);
      var others := FieldsWritten(next, SkipSpace(tail[1..]));
      entries := [entry] + others;
      assert entries[1..] == others;
      assert tail == "," + tail[1..];
    }
    var end := EntriesApart(entries, ParseFields(s).rest);
    assert end == tail;
  }

  // ---- documents -----------------------------------------------------------------------------------

  // One value and nothing but blanks around it.
  ghost predicate DocumentOf(text: string, before: string, t: Tree, after: string, v: Json) {
    Blanks(before) && Blanks(after) && Proper(t) && Meaning(t) == v && text == before + (Shown(t) + after)
  }

  // A text is read as a value exactly when the grammar spells that value so.
  lemma DocumentGrammar(text: string, v: Json)
    ensures ParseDocument(text) == Some(v) <==> exists before, t, after :: DocumentOf(text, before, t, after, v)
  {
    hide ParseValue, SkipSpace, Shown, Meaning, Proper;
    if ParseDocument(text) == Some(v) {
      var before := BlanksSkipped(text);
      var t := ValueWritten(SkipSpace(text));
      var after := BlanksSkipped(ParseValue(SkipSpace(text)).rest);
      assert after + "" == after;
      assert DocumentOf(text, before, t, after, v);
    }
    if exists before, t, after :: DocumentOf(text, before, t, after, v) {
      var before, t, after :| DocumentOf(text, before, t, after, v);
      DocumentReads(before, t, after);
    }
  }

  // The grammar is unambiguous: no text spells two values.
  lemma OneMeaning(text: string, v: Json, w: Json)
    requires exists before, t, after :: DocumentOf(text, before, t, after, v)
    requires exists before, t, after :: DocumentOf(text, before, t, after, w)
    ensures v == w
  {
    hide DocumentOf;
    DocumentGrammar(text, v);
    DocumentGrammar(text, w);
  }

  lemma DocumentReads(before: string, t: Tree, after: string)
    requires Blanks(before) && Blanks(after) && Proper(t)
    ensures ParseDocument(before + (Shown(t) + after)) == Some(Meaning(t))
  {
    hide ParseValue, SkipSpace, Shown, Meaning, Proper;
    ShownStarts(t);
    var s := Shown(t) + after;
    assert s[0] == Shown(t)[0];
    SkipBlanks(before, s);
    ValueReads(t, after);
    SkipBlanks(after, "");
    assert after + "" == after;
  }
}
