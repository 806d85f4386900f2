/** The canonical form: sorting keys changes nothing equality of dicts sees, and
    canonical text reads back, is equal exactly for equal values, and never holds
    a control character. */
module JsonCanonical {
  import opened Json
  import opened JsonParser
  import opened JsonLaws
  import opened Utf8

  // ---- key order ------------------------------------------------------------

  lemma {:induction false} LessTotal(a: string, b: string)
    ensures Less(a, b) || Less(b, a) || a == b
    ensures !(Less(a, b) && Less(b, a)) && !Less(a, a)
  {
    if a != [] && b != [] && a[0] == b[0] {
      LessTotal(a[1..], b[1..]);
      assert a == [a[0]] + a[1..] && b == [b[0]] + b[1..];
    }
    if a != [] {
      LessTotal(a[1..], a[1..]);
    }
  }

  lemma {:induction false} LessTransitive(a: string, b: string, c: string)
    requires Less(a, b) && Less(b, c)
    ensures Less(a, c)
  {
    if a != [] && a[0] == b[0] && b[0] == c[0] {
      LessTransitive(a[1..], b[1..], c[1..]);
    }
  }

  // The texts agree up to `n`, where `a` ends or has the lower code point.
  predicate PartAt(a: string, b: string, n: nat) {
    n <= |a| && n < |b| && a[..n] == b[..n] && (n == |a| || a[n] < b[n])
  }

  ghost predicate Precedes(a: string, b: string) {
    exists n: nat :: PartAt(a, b, n)
  }

  // Where two texts part, if the first comes first.
  function Parting(a: string, b: string): nat {
    if a != [] && b != [] && a[0] == b[0] then 1 + Parting(a[1..], b[1..]) else 0
  }

  lemma PartLater(a: string, b: string, n: nat)
    requires a != [] && b != [] && a[0] == b[0]
    ensures PartAt(a[1..], b[1..], n) <==> PartAt(a, b, n + 1)
  {
    if n <= |a[1..]| && n <= |b[1..]| {
      assert a[..n + 1] == [a[0]] + a[1..][..n] && b[..n + 1] == [b[0]] + b[1..][..n];
      assert a[1..][..n] == a[..n + 1][1..] && b[1..][..n] == b[..n + 1][1..];
    }
  }

  lemma {:induction false} LessParts(a: string, b: string)
    ensures Less(a, b) <==> PartAt(a, b, Parting(a, b))
  {
    if a != [] && b != [] && a[0] == b[0] {
      LessParts(a[1..], b[1..]);
      PartLater(a, b, Parting(a[1..], b[1..]));
    } else {
      assert a[..0] == b[..0];
    }
  }

  lemma {:induction false} PartsOnce(a: string, b: string, n: nat)
    requires PartAt(a, b, n)
    ensures n == Parting(a, b)
  {
    SameHead(a, b, n);
    if n > 0 {
      PartLater(a, b, n - 1);
      PartsOnce(a[1..], b[1..], n - 1);
    }
  }

  lemma LessPrecedes(a: string, b: string)
    ensures Less(a, b) <==> Precedes(a, b)
  {
    hide Less, Parting, PartAt;
    LessParts(a, b);
    if Precedes(a, b) {
      var n: nat :| PartAt(a, b, n);
      PartsOnce(a, b, n);
    }
  }

  lemma SameHead(a: string, b: string, n: nat)
    requires n <= |a| && n <= |b| && a[..n] == b[..n]
    ensures n > 0 ==> a[0] == b[0]
  {
    assert n > 0 ==> a[..n][0] == a[0] && b[..n][0] == b[0];
  }

  // In every object the keys come in code point order, none twice.
  ghost predicate InOrder(v: Json)
    decreases v
  {
    match v
    case Arr(items) => forall x | x in items :: InOrder(x)
    case Obj(fields) => (
      && (forall i, j :: 0 <= i < j < |fields| ==> Precedes(fields[i].key, fields[j].key))
      && forall f | f in fields :: InOrder(f.value))
    case _ => true
  }

  ghost predicate Ordered(fields: seq<Field>) {
    forall i, j :: 0 <= i < j < |fields| ==> Less(fields[i].key, fields[j].key)
  }

  // ---- insertion sort ---------------------------------------------------------

  lemma {:induction false} InsertMembers(f: Field, fields: seq<Field>)
    ensures forall x :: x in Insert(f, fields) <==> x == f || x in fields
    ensures |Insert(f, fields)| == |fields| + 1
  {
    if fields != [] {
      assert fields == [fields[0]] + fields[1..];
      InsertMembers(f, fields[1..]);
    }
  }

  lemma {:induction false} InsertOrdered(f: Field, fields: seq<Field>)
    requires Ordered(fields) && forall x | x in fields :: x.key != f.key
    ensures Ordered(Insert(f, fields))
  {
    if fields == [] {
    } else {
      var tail := fields[1..];
      assert forall x | x in tail :: x in fields && Less(fields[0].key, x.key);
      LessTotal(f.key, fields[0].key);
      if Less(fields[0].key, f.key) {
        InsertOrdered(f, tail);
        InsertMembers(f, tail);
        var r := Insert(f, tail);
        forall j | 0 <= j < |r| ensures Less(fields[0].key, r[j].key) {
          assert r[j] in r;
        }
      } else {
        hide Less;
        forall x | x in fields ensures Less(f.key, x.key) {
          if x != fields[0] {
            LessTransitive(f.key, fields[0].key, x.key);
          }
        }
      }
    }
  }

  function Normal(f: Field): Field {
    Field(f.key, Sorted(f.value))
  }

  lemma {:induction false} SortedFieldsMembers(fields: seq<Field>)
    ensures forall i :: 0 <= i < |fields| ==> Normal(fields[i]) in SortedFields(fields)
    ensures forall x | x in SortedFields(fields) :: exists i :: 0 <= i < |fields| && x == Normal(fields[i])
    ensures |SortedFields(fields)| == |fields|
  {
    if fields != [] {
      SortedFieldsMembers(fields[1..]);
      InsertMembers(Normal(fields[0]), SortedFields(fields[1..]));
      forall i | 0 <= i < |fields| ensures Normal(fields[i]) in SortedFields(fields) {
        assert i > 0 ==> fields[i] == fields[1..][i - 1];
      }
      forall x | x in SortedFields(fields) ensures exists i :: 0 <= i < |fields| && x == Normal(fields[i]) {
        if x != Normal(fields[0]) {
          var j :| 0 <= j < |fields[1..]| && x == Normal(fields[1..][j]);
          assert x == Normal(fields[j + 1]);
        } else {
          assert x == Normal(fields[0]);
        }
      }
    }
  }

  lemma {:induction false} SortedFieldsOrdered(fields: seq<Field>)
    requires DistinctKeys(fields)
    ensures Ordered(SortedFields(fields))
  {
    if fields != [] {
      SortedFieldsOrdered(fields[1..]);
      SortedFieldsMembers(fields[1..]);
      InsertOrdered(Normal(fields[0]), SortedFields(fields[1..]));
    }
  }

  lemma EmptyIfMemberless(a: seq<Field>)
    ensures a == [] || exists x :: x in a
  {
    if a != [] {
      assert a[0] in a;
    }
  }

  lemma {:induction false} OrderedUnique(a: seq<Field>, b: seq<Field>)
    requires Ordered(a) && Ordered(b) && forall x :: x in a <==> x in b
    ensures a == b
  {
    if a == [] {
      EmptyIfMemberless(b);
    } else if b == [] {
      EmptyIfMemberless(a);
    } else {
      assert a[0] in b && b[0] in a;
      LessTotal(a[0].key, b[0].key);
      LessTotal(a[0].key, a[0].key);
      assert a[0] == b[0];
      assert a == [a[0]] + a[1..] && b == [b[0]] + b[1..];
      forall x ensures x in a[1..] <==> x in b[1..] {
        if x in a[1..] || x in b[1..] {
          assert Less(a[0].key, x.key);
          assert x in a && x in b;
        }
      }
      OrderedUnique(a[1..], b[1..]);
    }
  }

  lemma {:induction false} InsertFirst(f: Field, fields: seq<Field>)
    requires Ordered([f] + fields)
    ensures Insert(f, fields) == [f] + fields
  {
    if fields != [] {
      assert Less(([f] + fields)[0].key, ([f] + fields)[1].key);
      LessTotal(f.key, fields[0].key);
    }
  }

  // ---- what sorting keeps -------------------------------------------------------

  lemma {:induction false} SortedItemsAt(items: seq<Json>, i: nat)
    requires i < |items|
    ensures SortedItems(items)[i] == Sorted(items[i])
  {
    if i > 0 {
      SortedItemsAt(items[1..], i - 1);
    }
  }

  lemma SortedItemsMembers(items: seq<Json>)
    ensures forall x | x in SortedItems(items) :: exists i :: 0 <= i < |items| && x == Sorted(items[i])
    ensures forall i :: 0 <= i < |items| ==> SortedItems(items)[i] == Sorted(items[i])
  {
    forall i | 0 <= i < |items| ensures SortedItems(items)[i] == Sorted(items[i]) {
      SortedItemsAt(items, i);
    }
  }

  lemma ItemsKeepCheck(items: seq<Json>, depth: nat)
    requires forall x | x in items :: Check(Sorted(x), depth) == Check(x, depth)
    ensures (forall x | x in SortedItems(items) :: Check(x, depth)) <==> (forall x | x in items :: Check(x, depth))
  {
    hide Check, Sorted, SortedItems;
    SortedItemsMembers(items);
    SortedItemsLength(items);
    if forall x | x in SortedItems(items) :: Check(x, depth) {
      forall x | x in items ensures Check(x, depth) {
        var i :| 0 <= i < |items| && items[i] == x;
        assert SortedItems(items)[i] == Sorted(x) && SortedItems(items)[i] in SortedItems(items);
      }
    }
  }

  lemma {:induction false} SortedItemsLength(items: seq<Json>)
    ensures |SortedItems(items)| == |items|
  {
    if items != [] {
      SortedItemsLength(items[1..]);
    }
  }

  lemma FieldsKeepCheck(fields: seq<Field>, depth: nat)
    requires forall f | f in fields :: Check(Sorted(f.value), depth) == Check(f.value, depth)
    ensures (forall f | f in SortedFields(fields) :: |f.key| <= MAX_STRING_LENGTH && Check(f.value, depth))
      <==> (forall f | f in fields :: |f.key| <= MAX_STRING_LENGTH && Check(f.value, depth))
  {
    hide Check, Sorted, SortedFields;
    SortedFieldsMembers(fields);
    if forall f | f in SortedFields(fields) :: |f.key| <= MAX_STRING_LENGTH && Check(f.value, depth) {
      forall f | f in fields ensures |f.key| <= MAX_STRING_LENGTH && Check(f.value, depth) {
        var i :| 0 <= i < |fields| && fields[i] == f;
        assert Normal(f) in SortedFields(fields);
      }
    }
  }

  lemma CheckInside(items: seq<Json>, fields: seq<Field>, depth: nat)
    ensures Check(Arr(items), depth) <==> depth <= MAX_DEPTH && forall x | x in items :: Check(x, depth + 1)
    ensures Check(Obj(fields), depth)
      <==> depth <= MAX_DEPTH && forall f | f in fields :: |f.key| <= MAX_STRING_LENGTH && Check(f.value, depth + 1)
  {
  }

  lemma {:induction false} SortedKeepsCheck(v: Json, depth: nat)
    ensures Check(Sorted(v), depth) == Check(v, depth)
    decreases v
  {
    hide SortedItems, SortedFields;
    if v.Arr? {
      forall x | x in v.items ensures Check(Sorted(x), depth + 1) == Check(x, depth + 1) {
        SortedKeepsCheck(x, depth + 1);
      }
      ItemsKeepCheck(v.items, depth + 1);
      CheckInside(v.items, [], depth);
      CheckInside(SortedItems(v.items), [], depth);
    } else if v.Obj? {
      forall f | f in v.fields ensures Check(Sorted(f.value), depth + 1) == Check(f.value, depth + 1) {
        SortedKeepsCheck(f.value, depth + 1);
      }
      FieldsKeepCheck(v.fields, depth + 1);
      CheckInside([], v.fields, depth);
      CheckInside([], SortedFields(v.fields), depth);
    }
  }

  lemma {:induction false} CheckedHasNoFloats(v: Json, depth: nat)
    requires Check(v, depth)
    ensures NoFloats(v)
    decreases v
  {
    if v.Arr? {
      forall x | x in v.items ensures NoFloats(x) {
        CheckedHasNoFloats(x, depth + 1);
      }
    } else if v.Obj? {
      forall f | f in v.fields ensures NoFloats(f.value) {
        CheckedHasNoFloats(f.value, depth + 1);
      }
    }
  }

  lemma OrderedDistinct(fields: seq<Field>)
    requires Ordered(fields)
    ensures DistinctKeys(fields)
  {
    forall i, j | 0 <= i < j < |fields| ensures fields[i].key != fields[j].key {
      LessTotal(fields[i].key, fields[j].key);
      LessTotal(fields[i].key, fields[i].key);
    }
  }

  lemma {:induction false} SortedKeepsNoDuplicates(v: Json)
    requires NoDuplicates(v)
    ensures NoDuplicates(Sorted(v))
    decreases v
  {
    if v.Arr? {
      SortedItemsMembers(v.items);
      forall x | x in v.items ensures NoDuplicates(Sorted(x)) {
        SortedKeepsNoDuplicates(x);
      }
    } else if v.Obj? {
      SortedFieldsMembers(v.fields);
      SortedFieldsOrdered(v.fields);
      OrderedDistinct(SortedFields(v.fields));
      forall f | f in v.fields ensures NoDuplicates(Sorted(f.value)) {
        SortedKeepsNoDuplicates(f.value);
      }
    }
  }

  // ---- sorting and equality -----------------------------------------------------

  lemma {:induction false} LookupFinds(fields: seq<Field>, key: string)
    ensures Lookup(fields, key).Some? ==> Field(key, Lookup(fields, key).value) in fields
    ensures forall f | f in fields && f.key == key :: Lookup(fields, key).Some?
  {
    if fields != [] {
      LookupFinds(fields[1..], key);
      assert fields == [fields[0]] + fields[1..];
    }
  }

  lemma {:induction false} LookupDistinct(fields: seq<Field>, f: Field)
    requires DistinctKeys(fields) && f in fields
    ensures Lookup(fields, f.key) == Some(f.value)
  {
    LookupFinds(fields, f.key);
    var i :| 0 <= i < |fields| && fields[i] == f;
    var j :| 0 <= j < |fields| && fields[j] == Field(f.key, Lookup(fields, f.key).value);
    assert i == j;
  }

  // Sorting is a normal form: it identifies exactly the equal values, with no coercion.
  lemma {:induction false} SortedDecidesEquality(v: Json, w: Json)
    requires NoDuplicates(v) && NoDuplicates(w)
    ensures SameValue(v, w) <==> Sorted(v) == Sorted(w)
    decreases v, 1
  {
    if v.Arr? && w.Arr? && |v.items| == |w.items| {
      SortedItemsMembers(v.items);
      SortedItemsMembers(w.items);
      forall i | 0 <= i < |v.items|
        ensures SameValue(v.items[i], w.items[i]) <==> SortedItems(v.items)[i] == SortedItems(w.items)[i]
      {
        SortedDecidesEquality(v.items[i], w.items[i]);
      }
    } else if v.Obj? && w.Obj? {
      forall f, g | f in v.fields && g in w.fields
        ensures SameValue(f.value, g.value) <==> Sorted(f.value) == Sorted(g.value)
      {
        SortedDecidesEquality(f.value, g.value);
      }
      assert Matching(v.fields, w.fields);
      if SameValue(v, w) {
        EqualFieldsSortAlike(v.fields, w.fields);
      }
      if Sorted(v) == Sorted(w) {
        SortedAlikeFieldsMatch(v.fields, w.fields);
      }
    }
  }

  ghost predicate Matching(f: seq<Field>, g: seq<Field>) {
    forall x, y | x in f && y in g :: SameValue(x.value, y.value) <==> Sorted(x.value) == Sorted(y.value)
  }

  lemma EqualFieldsSortAlike(f: seq<Field>, g: seq<Field>)
    requires DistinctKeys(f) && DistinctKeys(g) && Matching(f, g)
    requires SameValue(Obj(f), Obj(g))
    ensures SortedFields(f) == SortedFields(g)
  {
    SortedFieldsMembers(f);
    SortedFieldsMembers(g);
    forall x | x in SortedFields(f) ensures x in SortedFields(g) {
      var i :| 0 <= i < |f| && x == Normal(f[i]);
      LookupFinds(g, f[i].key);
      assert Normal(Field(f[i].key, Lookup(g, f[i].key).value)) == x;
    }
    forall x | x in SortedFields(g) ensures x in SortedFields(f) {
      var j :| 0 <= j < |g| && x == Normal(g[j]);
      LookupDistinct(g, g[j]);
      LookupFinds(f, g[j].key);
      var y := Field(g[j].key, Lookup(f, g[j].key).value);
      assert y in f && Normal(y) == x;
    }
    SortedFieldsOrdered(f);
    SortedFieldsOrdered(g);
    OrderedUnique(SortedFields(f), SortedFields(g));
  }

  lemma SortedPartner(f: seq<Field>, g: seq<Field>, x: Field) returns (y: Field)
    requires SortedFields(f) == SortedFields(g) && x in f
    ensures y in g && y.key == x.key && Sorted(y.value) == Sorted(x.value)
  {
    SortedFieldsMembers(f);
    SortedFieldsMembers(g);
    assert Normal(x) in SortedFields(g);
    var j :| 0 <= j < |g| && Normal(x) == Normal(g[j]);
    y := g[j];
  }

  lemma SortedAlikeFieldsMatch(f: seq<Field>, g: seq<Field>)
    requires DistinctKeys(f) && DistinctKeys(g) && Matching(f, g) && SortedFields(f) == SortedFields(g)
    ensures SameValue(Obj(f), Obj(g))
  {
    forall x | x in f ensures Lookup(g, x.key).Some? && SameValue(x.value, Lookup(g, x.key).value) {
      var y := SortedPartner(f, g, x);
      LookupDistinct(g, y);
    }
    forall y | y in g ensures Lookup(f, y.key).Some? {
      var x := SortedPartner(g, f, y);
      LookupFinds(f, x.key);
    }
  }

  lemma {:induction false} SortedIdempotent(v: Json)
    requires NoDuplicates(v)
    ensures Sorted(Sorted(v)) == Sorted(v)
    decreases v
  {
    if v.Arr? {
      var s := SortedItems(v.items);
      SortedItemsMembers(v.items);
      SortedItemsMembers(s);
      forall i | 0 <= i < |s| ensures SortedItems(s)[i] == s[i] {
        SortedIdempotent(v.items[i]);
      }
      assert SortedItems(s) == s;
    } else if v.Obj? {
      var s := SortedFields(v.fields);
      SortedFieldsMembers(v.fields);
      SortedFieldsOrdered(v.fields);
      forall x | x in s ensures Sorted(x.value) == x.value {
        var i :| 0 <= i < |v.fields| && x == Normal(v.fields[i]);
        SortedIdempotent(v.fields[i].value);
      }
      AlreadySorted(s);
    }
  }

  lemma {:induction false} AlreadySorted(s: seq<Field>)
    requires Ordered(s) && forall x | x in s :: Sorted(x.value) == x.value
    ensures SortedFields(s) == s
  {
    if s != [] {
      assert s == [s[0]] + s[1..];
      AlreadySorted(s[1..]);
      InsertFirst(s[0], s[1..]);
    }
  }

  // ---- canonical text -------------------------------------------------------------

  lemma CanonicalReadsBack(v: Json)
    requires Check(v, 0)
    ensures CanonicalString(v).Some?
    ensures ParseDocument(CanonicalString(v).value) == Some(Sorted(v))
  {
    SortedKeepsCheck(v, 0);
    CheckedHasNoFloats(Sorted(v), 0);
    DocumentRoundTrip(CANONICAL, Sorted(v));
  }

  lemma {:induction false} SortedInOrder(v: Json)
    requires NoDuplicates(v)
    ensures InOrder(Sorted(v))
    decreases v
  {
    hide Precedes;
    if v.Arr? {
      SortedItemsMembers(v.items);
      forall x | x in SortedItems(v.items) ensures InOrder(x) {
        var i :| 0 <= i < |v.items| && x == Sorted(v.items[i]);
        SortedInOrder(v.items[i]);
      }
    } else if v.Obj? {
      var fields := SortedFields(v.fields);
      SortedFieldsOrdered(v.fields);
      SortedFieldsMembers(v.fields);
      forall i, j | 0 <= i < j < |fields| ensures Precedes(fields[i].key, fields[j].key) {
        LessPrecedes(fields[i].key, fields[j].key);
      }
      forall f | f in fields ensures InOrder(f.value) {
        var i :| 0 <= i < |v.fields| && f == Normal(v.fields[i]);
        SortedInOrder(v.fields[i].value);
      }
    }
  }

  // Reading canonical text gives back a value equal to the one printed, its keys in
  // order, and printing that value again gives the very same text.
  lemma CanonicalRoundTrip(v: Json)
    requires Check(v, 0) && NoDuplicates(v)
    ensures CanonicalString(v).Some?
    ensures var r := ParseDocument(CanonicalString(v).value);
      && r.Some? && SameValue(v, r.value) && NoDuplicates(r.value) && InOrder(r.value)
      && CanonicalString(r.value) == CanonicalString(v)
  {
    SortedInOrder(v);
    CanonicalReadsBack(v);
    SortedIdempotent(v);
    SortedKeepsNoDuplicates(v);
    SortedKeepsCheck(v, 0);
    SortedDecidesEquality(v, Sorted(v));
  }

  // Two accepted values have the same canonical text iff they are equal.
  lemma CanonicalInjective(v: Json, w: Json)
    requires Check(v, 0) && Check(w, 0) && NoDuplicates(v) && NoDuplicates(w)
    ensures CanonicalString(v) == CanonicalString(w) <==> SameValue(v, w)
  {
    CanonicalReadsBack(v);
    CanonicalReadsBack(w);
    SortedDecidesEquality(v, w);
  }

  // ---- the characters of printed text ----------------------------------------------

  // Nothing printed holds a control character, so no newline either; the ASCII
  // style prints ASCII only.
  predicate Clean(ascii: bool, s: string) {
    forall i :: 0 <= i < |s| ==> 0x20 <= s[i] as int && (ascii ==> s[i] as int < 0x80)
  }

  lemma UnicodeClean(n: nat)
    requires n < 0x1_0000
    ensures Clean(true, UnicodeEscape(n))
  {
    HexReads(n / 4096);
    HexReads(n / 256 % 16);
    HexReads(n / 16 % 16);
    HexReads(n % 16);
  }

  lemma CharClean(ascii: bool, c: char)
    ensures Clean(ascii, EscapeChar(ascii, c))
  {
    hide UnicodeEscape;
    var n := c as int;
    if Plain(ascii, c) {
      assert EscapeChar(ascii, c) == [c];
    } else if |EscapeChar(ascii, c)| > 2 {
      if n < 0x1_0000 {
        UnicodeClean(n);
      } else {
        var hi, lo := PairArithmetic(n);
        UnicodeClean(hi);
        UnicodeClean(lo);
        CleanConcat(true, UnicodeEscape(hi), UnicodeEscape(lo));
      }
    }
  }

  lemma CleanConcat(ascii: bool, s: string, t: string)
    requires Clean(ascii, s) && Clean(ascii, t)
    ensures Clean(ascii, s + t)
  {
  }

  lemma {:induction false} EscapeClean(ascii: bool, s: string)
    ensures Clean(ascii, Escape(ascii, s))
  {
    if s != [] {
      EscapeClean(ascii, s[1..]);
      CharClean(ascii, s[0]);
      CleanConcat(ascii, EscapeChar(ascii, s[0]), Escape(ascii, s[1..]));
    }
  }

  lemma IntClean(i: int)
    ensures Clean(true, PrintInt(i))
  {
    var d := PrintNat(if i < 0 then -i else i);
    PrintNatReads(if i < 0 then -i else i);
    assert forall k :: 0 <= k < |d| ==> Digit(d[k]);
  }

  lemma {:induction false} PrintClean(st: Style, v: Json)
    requires Usual(st)
    ensures Clean(st.ascii, Print(st, v))
    decreases v, 1
  {
    if v.Int? {
      IntClean(v.i);
    } else if v.Str? {
      EscapeClean(st.ascii, v.s);
    } else if v.Arr? && v.items != [] {
      ItemsClean(st, v.items);
    } else if v.Obj? && v.fields != [] {
      FieldsClean(st, v.fields);
    }
  }

  lemma {:induction false} ItemsClean(st: Style, items: seq<Json>)
    requires Usual(st) && items != []
    ensures Clean(st.ascii, PrintItems(st, items))
    decreases items, 0
  {
    PrintClean(st, items[0]);
    if |items| > 1 {
      ItemsClean(st, items[1..]);
    }
  }

  lemma {:induction false} FieldsClean(st: Style, fields: seq<Field>)
    requires Usual(st) && fields != []
    ensures Clean(st.ascii, PrintFields(st, fields))
    decreases fields, 0
  {
    EscapeClean(st.ascii, fields[0].key);
    PrintClean(st, fields[0].value);
    var head := PrintString(st.ascii, fields[0].key) + st.colon + Print(st, fields[0].value);
    assert Clean(st.ascii, head);
    if |fields| > 1 {
      FieldsClean(st, fields[1..]);
    }
  }

  // ---- what may be canonicalised ----------------------------------------------------

  function Largest(a: nat, b: nat): nat {
    if a < b then b else a
  }

  // How many containers a value lies in, at most.
  function Height(v: Json): nat
    decreases v, 1
  {
    match v
    case Arr(items) => ItemsHeight(items)
    case Obj(fields) => FieldsHeight(fields)
    case _ => 0
  }

  function ItemsHeight(items: seq<Json>): nat
    decreases items, 0
  {
    if items == [] then 0 else Largest(1 + Height(items[0]), ItemsHeight(items[1..]))
  }

  function FieldsHeight(fields: seq<Field>): nat
    decreases fields, 0
  {
    if fields == [] then 0 else Largest(1 + Height(fields[0].value), FieldsHeight(fields[1..]))
  }

  predicate ShortTexts(v: Json)
    decreases v
  {
    match v
    case Str(s) => |s| <= MAX_STRING_LENGTH
    case Arr(items) => forall x | x in items :: ShortTexts(x)
    case Obj(fields) => forall f | f in fields :: |f.key| <= MAX_STRING_LENGTH && ShortTexts(f.value)
    case _ => true
  }

  lemma {:induction false} ItemsHeightIs(items: seq<Json>, n: nat)
    ensures ItemsHeight(items) <= n <==> forall x | x in items :: 1 + Height(x) <= n
    decreases items, 0
  {
    hide Height;
    if items != [] {
      ItemsHeightIs(items[1..], n);
      assert items[0] in items && forall x :: x in items <==> x == items[0] || x in items[1..];
      assert ItemsHeight(items) == Largest(1 + Height(items[0]), ItemsHeight(items[1..]));
    }
  }

  lemma {:induction false} FieldsHeightIs(fields: seq<Field>, n: nat)
    ensures FieldsHeight(fields) <= n <==> forall f | f in fields :: 1 + Height(f.value) <= n
    decreases fields, 0
  {
    hide Height;
    if fields != [] {
      FieldsHeightIs(fields[1..], n);
      assert fields[0] in fields && forall f :: f in fields <==> f == fields[0] || f in fields[1..];
      assert FieldsHeight(fields) == Largest(1 + Height(fields[0].value), FieldsHeight(fields[1..]));
    }
  }

  // A value is accepted exactly when it holds no float, no text of more than 1,000,000
  // characters, and nothing inside more than 32 containers.
  lemma AcceptedMeans(v: Json)
    ensures Check(v, 0) <==> NoFloats(v) && ShortTexts(v) && Height(v) <= MAX_DEPTH
  {
    CheckMeans(v, 0);
  }

  lemma {:induction false} CheckMeans(v: Json, depth: nat)
    ensures Check(v, depth) <==> NoFloats(v) && ShortTexts(v) && depth + Height(v) <= MAX_DEPTH
    decreases v
  {
    hide ItemsHeight, FieldsHeight;
    if v.Arr? {
      forall x | x in v.items
        ensures Check(x, depth + 1) <==> NoFloats(x) && ShortTexts(x) && depth + 1 + Height(x) <= MAX_DEPTH
      {
        CheckMeans(x, depth + 1);
      }
      if depth <= MAX_DEPTH {
        ItemsHeightIs(v.items, MAX_DEPTH - depth);
      }
    } else if v.Obj? {
      forall f | f in v.fields
        ensures Check(f.value, depth + 1)
          <==> NoFloats(f.value) && ShortTexts(f.value) && depth + 1 + Height(f.value) <= MAX_DEPTH
      {
        CheckMeans(f.value, depth + 1);
      }
      if depth <= MAX_DEPTH {
        FieldsHeightIs(v.fields, MAX_DEPTH - depth);
      }
    }
  }
}
