/** A write cut short: reading succeeds on a longer text whenever it succeeded on
    a shorter one, so no proper prefix of a printed object is a document. */
module JsonTorn {
  import opened Json
  import opened JsonParser
  import opened JsonLaws

  // The value ends here whatever text comes later.
  predicate Settled(v: Json, rest: string) {
    v.Int? || v.Float? ==> rest != [] && Follow(rest)
  }

  lemma {:induction false} SkipSpaceExtends(s: string, t: string)
    requires SkipSpace(s) != []
    ensures SkipSpace(s + t) == SkipSpace(s) + t
  {
    if Space(s[0]) {
      assert (s + t)[1..] == s[1..] + t;
      SkipSpaceExtends(s[1..], t);
    }
  }

  lemma {:induction false} TakeDigitsExtends(s: string, t: string)
    requires TakeDigits(s).1 != []
    ensures TakeDigits(s + t) == (TakeDigits(s).0, TakeDigits(s).1 + t)
  {
    if Digit(s[0]) {
      assert (s + t)[1..] == s[1..] + t;
      TakeDigitsExtends(s[1..], t);
    }
  }

  lemma FractionExtends(s: string, t: string)
    requires var r := SkipExponent(SkipFraction(s)); r != [] && Follow(r)
    ensures SkipFraction(s + t) == SkipFraction(s) + t
    ensures SkipFraction(s) != []
  {
    if |s| >= 2 && s[0] == '.' && Digit(s[1]) {
      assert (s + t)[1..] == s[1..] + t;
      TakeDigitsExtends(s[1..], t);
    }
  }

  lemma ExponentExtends(s: string, t: string)
    requires var r := SkipExponent(s); r != [] && Follow(r)
    ensures SkipExponent(s + t) == SkipExponent(s) + t
  {
    if s[0] == 'e' || s[0] == 'E' {
      if |s| >= 2 && Digit(s[1]) {
        assert (s + t)[1..] == s[1..] + t;
        TakeDigitsExtends(s[1..], t);
      } else if |s| >= 3 {
        assert (s + t)[2..] == s[2..] + t;
        TakeDigitsExtends(s[2..], t);
      }
    }
  }

  lemma MagnitudeExtends(s: string, t: string)
    requires var p := ParseMagnitude(s); p.Got? && p.rest != [] && Follow(p.rest)
    ensures var p := ParseMagnitude(s); ParseMagnitude(s + t) == Got(p.value, p.rest + t)
  {
    hide TakeDigits, SkipFraction, SkipExponent, NatOf;
    var rest := if s[0] == '0' then s[1..] else TakeDigits(s).1;
    ExponentExtends(SkipFraction(rest), t);
    FractionExtends(rest, t);
    if s[0] == '0' {
      assert (s + t)[1..] == s[1..] + t;
    } else {
      TakeDigitsExtends(s, t);
    }
  }

  lemma CharExtends(s: string, t: string)
    requires s != [] && s[0] != '"' && ParseChar(s).Some?
    ensures ParseChar(s + t) == ParseChar(s)
  {
    if |s| >= 6 {
      assert (s + t)[6..] == s[6..] + t;
    }
  }

  lemma {:induction false} TextExtends(s: string, t: string)
    requires ParseText(s).GotText?
    ensures ParseText(s + t) == GotText(ParseText(s).text, ParseText(s).rest + t)
    decreases |s|
  {
    if s[0] == '"' {
      assert (s + t)[1..] == s[1..] + t;
    } else {
      CharExtends(s, t);
      var n := ParseChar(s).value.1;
      assert (s + t)[n..] == s[n..] + t;
      TextExtends(s[n..], t);
    }
  }

  lemma StartsExtends(s: string, t: string, w: string)
    requires w != []
    ensures Starts(s, w) ==> Starts(s + t, w) && (s + t)[|w|..] == s[|w|..] + t && s[0] == w[0]
    ensures s != [] && s[0] != w[0] ==> !Starts(s + t, w)
  {
  }

  lemma WordExtends(s: string, t: string)
    requires s != [] && ParseWord(s).Got?
    ensures ParseWord(s + t) == Got(ParseWord(s).value, ParseWord(s).rest + t)
  {
    StartsExtends(s, t, "null");
    StartsExtends(s, t, "true");
    StartsExtends(s, t, "false");
    StartsExtends(s, t, "NaN");
    StartsExtends(s, t, "Infinity");
    StartsExtends(s, t, "-Infinity");
    hide Starts;
  }

  lemma NumberExtends(s: string, t: string)
    requires s != [] && ParseNumber(s).Got? && Settled(ParseNumber(s).value, ParseNumber(s).rest)
    ensures ParseNumber(s + t) == Got(ParseNumber(s).value, ParseNumber(s).rest + t)
  {
    hide ParseMagnitude, Follow, Digit;
    if s[0] == '-' {
      assert (s + t)[1..] == s[1..] + t;
      MagnitudeExtends(s[1..], t);
    } else {
      MagnitudeExtends(s, t);
    }
  }

  lemma NotANumberExtends(s: string, t: string)
    requires s != [] && !ParseNumber(s).Got? && ParseWord(s).Got?
    ensures !ParseNumber(s + t).Got?
  {
    assert Digit(s[0]) ==> ParseMagnitude(s).Got?;
    assert s[0] == '-' ==> Starts(s, "-Infinity") && s[1] == "-Infinity"[1];
    assert s[0] == '-' ==> (s + t)[1..][0] == s[1];
  }

  lemma ScalarExtends(s: string, t: string)
    requires s != [] && ParseScalar(s).Got? && Settled(ParseScalar(s).value, ParseScalar(s).rest)
    ensures ParseScalar(s + t) == Got(ParseScalar(s).value, ParseScalar(s).rest + t)
  {
    if s[0] == '"' {
      assert (s + t)[1..] == s[1..] + t;
      TextExtends(s[1..], t);
    } else if (Digit(s[0]) || s[0] == '-') && ParseNumber(s).Got? {
      NumberExtends(s, t);
    } else {
      WordExtends(s, t);
      if Digit(s[0]) || s[0] == '-' {
        NotANumberExtends(s, t);
      }
    }
  }

  // ---- values -------------------------------------------------------------

  lemma {:induction false} ValueExtends(s: string, t: string)
    requires ParseValue(s).Got? && Settled(ParseValue(s).value, ParseValue(s).rest)
    ensures ParseValue(s + t) == Got(ParseValue(s).value, ParseValue(s).rest + t)
    decreases |s|, 1
  {
    if s[0] == '[' || s[0] == '{' {
      assert (s + t)[1..] == s[1..] + t;
      var u := SkipSpace(s[1..]);
      SkipSpaceExtends(s[1..], t);
      if u[0] == (if s[0] == '[' then ']' else '}') {
        assert (u + t)[1..] == u[1..] + t;
      } else if s[0] == '[' {
        ItemsExtend(u, t);
      } else {
        FieldsExtend(u, t);
      }
    } else {
      ScalarExtends(s, t);
    }
  }

  // A value that a separator or a closing bracket follows reads the same later.
  lemma {:induction false} InnerExtends(s: string, t: string)
    requires ParseValue(s).Got?
    requires var u := SkipSpace(ParseValue(s).rest); u != [] && (u[0] == ',' || u[0] == ']' || u[0] == '}')
    ensures ParseValue(s + t) == Got(ParseValue(s).value, ParseValue(s).rest + t)
    ensures SkipSpace(ParseValue(s).rest + t) == SkipSpace(ParseValue(s).rest) + t
    decreases |s|, 2
  {
    var r := ParseValue(s).rest;
    assert r != [] && (Space(r[0]) || r == SkipSpace(r));
    ValueExtends(s, t);
    SkipSpaceExtends(r, t);
  }

  lemma NextExtends(u: string, t: string)
    requires u != [] && SkipSpace(u[1..]) != []
    ensures SkipSpace((u + t)[1..]) == SkipSpace(u[1..]) + t
  {
    assert (u + t)[1..] == u[1..] + t;
    SkipSpaceExtends(u[1..], t);
  }

  // What a list body that reads successfully is made of.
  lemma ItemsParts(s: string) returns (v: Json, rest: string, u: string)
    requires ParseItems(s).GotItems?
    ensures ParseValue(s) == Got(v, rest) && u == SkipSpace(rest)
    ensures u != [] && (u[0] == ',' || u[0] == ']')
    ensures u[0] == ']' ==> ParseItems(s) == GotItems([v], u[1..])
    ensures u[0] == ',' ==> ParseItems(SkipSpace(u[1..])).GotItems? && SkipSpace(u[1..]) != []
    ensures |u| < |s|
    ensures u[0] == ',' ==> var more := ParseItems(SkipSpace(u[1..])); ParseItems(s) == GotItems([v] + more.items, more.rest)
  {
    v, rest := ParseValue(s).value, ParseValue(s).rest;
    u := SkipSpace(rest);
  }

  lemma LastItemAt(s: string, v: Json, rest: string, u: string)
    requires ParseValue(s) == Got(v, rest) && SkipSpace(rest) == u && u != [] && u[0] == ']'
    ensures ParseItems(s) == GotItems([v], u[1..])
  {
    hide ParseValue, SkipSpace;
  }

  lemma MoreItemsAt(s: string, v: Json, rest: string, u: string, more: Items)
    requires ParseValue(s) == Got(v, rest) && SkipSpace(rest) == u && u != [] && u[0] == ','
    requires more.GotItems? && ParseItems(SkipSpace(u[1..])) == more
    ensures ParseItems(s) == GotItems([v] + more.items, more.rest)
  {
    hide ParseValue, SkipSpace;
  }

  lemma {:induction false} ItemsExtend(s: string, t: string)
    requires ParseItems(s).GotItems?
    ensures ParseItems(s + t) == GotItems(ParseItems(s).items, ParseItems(s).rest + t)
    decreases |s|, 3
  {
    hide ParseItems, ParseValue, SkipSpace;
    var v, rest, u := ItemsParts(s);
    InnerExtends(s, t);
    if u[0] == ']' {
      assert (u + t)[1..] == u[1..] + t;
      LastItemAt(s + t, v, rest + t, u + t);
    } else {
      var w := SkipSpace(u[1..]);
      NextExtends(u, t);
      ItemsExtend(w, t);
      MoreItemsAt(s + t, v, rest + t, u + t, GotItems(ParseItems(w).items, ParseItems(w).rest + t));
    }
  }

  lemma KeyExtends(s: string, t: string)
    requires ParseKey(s).GotText? && ParseKey(s).rest != []
    ensures ParseKey(s + t) == GotText(ParseKey(s).text, ParseKey(s).rest + t)
  {
    assert (s + t)[1..] == s[1..] + t;
    TextExtends(s[1..], t);
    var r := ParseText(s[1..]).rest;
    SkipSpaceExtends(r, t);
    NextExtends(SkipSpace(r), t);
  }

  lemma FieldsParts(s: string) returns (key: string, body: string, v: Json, rest: string, u: string)
    requires ParseFields(s).GotFields?
    ensures ParseKey(s) == GotText(key, body) && body != [] && ParseValue(body) == Got(v, rest) && u == SkipSpace(rest)
    ensures u != [] && (u[0] == ',' || u[0] == '}')
    ensures u[0] == '}' ==> ParseFields(s) == GotFields([Field(key, v)], u[1..])
    ensures u[0] == ',' ==> ParseFields(SkipSpace(u[1..])).GotFields? && SkipSpace(u[1..]) != []
    ensures |u| < |s|
    ensures u[0] == ',' ==>
      var more := ParseFields(SkipSpace(u[1..])); ParseFields(s) == GotFields([Field(key, v)] + more.fields, more.rest)
  {
    key, body := ParseKey(s).text, ParseKey(s).rest;
    v, rest := ParseValue(body).value, ParseValue(body).rest;
    u := SkipSpace(rest);
    hide SkipSpace;
  }

  lemma LastFieldAt(s: string, key: string, body: string, v: Json, rest: string, u: string)
    requires ParseKey(s) == GotText(key, body) && ParseValue(body) == Got(v, rest)
    requires SkipSpace(rest) == u && u != [] && u[0] == '}'
    ensures ParseFields(s) == GotFields([Field(key, v)], u[1..])
  {
    hide ParseKey, ParseValue, SkipSpace;
  }

  lemma MoreFieldsAt(s: string, key: string, body: string, v: Json, rest: string, u: string, more: Fields)
    requires ParseKey(s) == GotText(key, body) && ParseValue(body) == Got(v, rest)
    requires SkipSpace(rest) == u && u != [] && u[0] == ','
    requires more.GotFields? && ParseFields(SkipSpace(u[1..])) == more
    ensures ParseFields(s) == GotFields([Field(key, v)] + more.fields, more.rest)
  {
    hide ParseKey, ParseValue, SkipSpace;
  }

  lemma {:induction false} FieldsExtend(s: string, t: string)
    requires ParseFields(s).GotFields?
    ensures ParseFields(s + t) == GotFields(ParseFields(s).fields, ParseFields(s).rest + t)
    decreases |s|, 3
  {
    hide ParseFields, ParseKey, ParseValue, SkipSpace;
    var key, body, v, rest, u := FieldsParts(s);
    KeyExtends(s, t);
    InnerExtends(body, t);
    if u[0] == '}' {
      assert (u + t)[1..] == u[1..] + t;
      LastFieldAt(s + t, key, body + t, v, rest + t, u + t);
    } else {
      var w := SkipSpace(u[1..]);
      NextExtends(u, t);
      FieldsExtend(w, t);
      MoreFieldsAt(s + t, key, body + t, v, rest + t, u + t, GotFields(ParseFields(w).fields, ParseFields(w).rest + t));
    }
  }

  // A dict printed only in part is no document: recovery and the log scan tell
  // an interrupted write from a finished one by this alone.
  lemma TornObject(st: Style, fields: seq<Field>, k: nat)
    requires Usual(st) && NoFloats(Obj(fields))
    requires k < |Print(st, Obj(fields))|
    ensures ParseDocument(Print(st, Obj(fields))[..k]) == None
  {
    var s := Print(st, Obj(fields));
    var p, t := s[..k], s[k..];
    assert s == p + t;
    PrintHead(st, Obj(fields));
    assert s[0] == '{';
    if ParseDocument(p).Some? {
      assert p[0] == '{';
      ValueExtends(p, t);
      assert s + [] == s;
      RoundTrip(st, Obj(fields), []);
      assert false;
    }
  }
}
