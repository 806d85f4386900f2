/** The DER wrapper around raw public keys: definite lengths (section 8.1.3 of X.690),
    object identifiers (section 8.19), and the SubjectPublicKeyInfo built of them. */
module Der {
  import opened Json
  import opened Utf8
  import opened Models

  // ---- lengths -------------------------------------------------------------------------

  function Power256(k: nat): nat {
    if k == 0 then 1 else 256 * Power256(k - 1)
  }

  // The fewest octets that hold `n`; none for zero.
  function BigEndian(n: nat): seq<byte> {
    if n == 0 then [] else BigEndian(n / 256) + [n % 256]
  }

  function FromBigEndian(b: seq<byte>): nat {
    if b == [] then 0 else FromBigEndian(b[..|b| - 1]) * 256 + b[|b| - 1]
  }

  lemma {:induction false} BigEndianReads(n: nat)
    ensures FromBigEndian(BigEndian(n)) == n
    ensures n > 0 ==> BigEndian(n) != [] && BigEndian(n)[0] != 0
  {
    if n > 0 {
      BigEndianReads(n / 256);
    }
  }

  // Contents of 2^1016 octets or more do not exist.
  predicate Encodable(n: nat) {
    |BigEndian(n)| < 127
  }

  function Length(n: nat): seq<byte>
    requires Encodable(n)
  {
    if n < 0x80 then [n] else [0x80 + |BigEndian(n)|] + BigEndian(n)
  }

  function ReadLength(b: seq<byte>): Option<(nat, seq<byte>)> {
    if b == [] then None
    else if b[0] < 0x80 then Some((b[0], b[1..]))
    else
      var k := b[0] - 0x80;
      if k == 0 || |b| < 1 + k then None else Some((FromBigEndian(b[1..1 + k]), b[1 + k..]))
  }

  // Every length is read back, and what follows it is untouched.
  lemma LengthReads(n: nat, rest: seq<byte>)
    requires Encodable(n)
    ensures ReadLength(Length(n) + rest) == Some((n, rest))
  {
    hide FromBigEndian, BigEndian;
    BigEndianReads(n);
    if n >= 0x80 {
      var e := BigEndian(n);
      assert (Length(n) + rest)[1..1 + |e|] == e && (Length(n) + rest)[1 + |e|..] == rest;
    } else {
      assert (Length(n) + rest)[1..] == rest;
    }
  }

  // ---- elements ---------------------------------------------------------------------------

  function Element(tag: byte, content: seq<byte>): seq<byte>
    requires Encodable(|content|)
  {
    [tag] + Length(|content|) + content
  }

  function ReadElement(tag: byte, b: seq<byte>): Option<(seq<byte>, seq<byte>)> {
    if b == [] || b[0] != tag then None
    else match ReadLength(b[1..])
         case None => None
         case Some((n, rest)) => if |rest| < n then None else Some((rest[..n], rest[n..]))
  }

  lemma ElementReads(tag: byte, content: seq<byte>, rest: seq<byte>)
    requires Encodable(|content|)
    ensures ReadElement(tag, Element(tag, content) + rest) == Some((content, rest))
  {
    hide Length, ReadLength;
    assert (Element(tag, content) + rest)[1..] == Length(|content|) + (content + rest);
    LengthReads(|content|, content + rest);
    assert (content + rest)[..|content|] == content && (content + rest)[|content|..] == rest;
  }

  // ---- object identifiers ---------------------------------------------------------------------

  // Base 128, most significant first; every octet but the last has its high bit set.
  function Leading(v: nat): seq<byte> {
    if v == 0 then [] else Leading(v / 128) + [0x80 + v % 128]
  }

  function Component(v: nat): (b: seq<byte>)
    ensures b != []
  {
    Leading(v / 128) + [v % 128]
  }

  function Components(vs: seq<nat>): seq<byte> {
    if vs == [] then [] else Components(vs[..|vs| - 1]) + Component(vs[|vs| - 1])
  }

  // Reads components until the octets end; `part` is the value of one begun.
  function ReadComponents(b: seq<byte>, part: nat): Option<seq<nat>> {
    if b == [] then (if part == 0 then Some([]) else None)
    else if b[0] >= 0x80 then ReadComponents(b[1..], part * 128 + (b[0] - 0x80))
    else match ReadComponents(b[1..], 0)
         case None => None
         case Some(vs) => Some([part * 128 + b[0]] + vs)
  }

  lemma {:induction false} LeadingReads(v: nat, rest: seq<byte>)
    ensures ReadComponents(Leading(v) + rest, 0) == ReadComponents(rest, v)
  {
    if v == 0 {
      assert Leading(v) + rest == rest;
    } else {
      var more := [0x80 + v % 128] + rest;
      assert Leading(v) + rest == Leading(v / 128) + more;
      LeadingReads(v / 128, more);
      assert more[1..] == rest;
    }
  }

  lemma ComponentReads(v: nat, rest: seq<byte>)
    ensures ReadComponents(Component(v) + rest, 0)
         == match ReadComponents(rest, 0) { case None => None case Some(vs) => Some([v] + vs) }
  {
    var more := [v % 128] + rest;
    assert Component(v) + rest == Leading(v / 128) + more;
    LeadingReads(v / 128, more);
    assert more[1..] == rest;
  }

  lemma {:induction false} ComponentsRead(vs: seq<nat>, rest: seq<byte>)
    ensures ReadComponents(Components(vs) + rest, 0)
         == match ReadComponents(rest, 0) { case None => None case Some(more) => Some(vs + more) }
    decreases |vs|
  {
    if vs == [] {
      assert Components(vs) + rest == rest;
      if ReadComponents(rest, 0).Some? {
        assert vs + ReadComponents(rest, 0).value == ReadComponents(rest, 0).value;
      }
    } else {
      var front, last := vs[..|vs| - 1], vs[|vs| - 1];
      assert Components(vs) + rest == Components(front) + (Component(last) + rest);
      ComponentsRead(front, Component(last) + rest);
      ComponentReads(last, rest);
      if ReadComponents(rest, 0).Some? {
        var more := ReadComponents(rest, 0).value;
        assert front + ([last] + more) == vs + more;
      }
    }
  }

  // An identifier of at least two arcs whose first two share one octet.
  predicate Identifier(oid: seq<nat>) {
    |oid| >= 2 && oid[0] <= 2 && (oid[0] < 2 ==> oid[1] < 40) && oid[0] * 40 + oid[1] < 256
  }

  function IdentifierBody(oid: seq<nat>): seq<byte>
    requires Identifier(oid)
  {
    [oid[0] * 40 + oid[1]] + Components(oid[2..])
  }

  // The standard's reading: components first, then the first one split in two.
  function ReadIdentifier(body: seq<byte>): Option<seq<nat>> {
    match ReadComponents(body, 0)
    case None => None
    case Some(vs) =>
      if vs == [] then None
      else if vs[0] < 80 then Some([vs[0] / 40, vs[0] % 40] + vs[1..])
      else Some([2, vs[0] - 80] + vs[1..])
  }

  // The number of octets that end a component.
  function Ends(b: seq<byte>): nat {
    if b == [] then 0 else (if b[0] < 0x80 then 1 else 0) + Ends(b[1..])
  }

  lemma {:induction false} ReadCount(b: seq<byte>, part: nat)
    ensures ReadComponents(b, part).Some? ==> |ReadComponents(b, part).value| == Ends(b)
  {
    if b != [] {
      ReadCount(b[1..], if b[0] >= 0x80 then part * 128 + (b[0] - 0x80) else 0);
    }
  }

  lemma {:induction false} EndsConcat(a: seq<byte>, b: seq<byte>)
    ensures Ends(a + b) == Ends(a) + Ends(b)
  {
    if a == [] {
      assert a + b == b;
    } else {
      assert (a + b)[1..] == a[1..] + b;
      EndsConcat(a[1..], b);
    }
  }

  lemma {:induction false} LeadingEnds(v: nat)
    ensures Ends(Leading(v)) == 0
  {
    if v > 0 {
      LeadingEnds(v / 128);
      EndsConcat(Leading(v / 128), [0x80 + v % 128]);
      assert [0x80 + v % 128][1..] == [];
    }
  }

  lemma {:induction false} ComponentsEnds(vs: seq<nat>)
    ensures Ends(Components(vs)) == |vs|
  {
    if vs != [] {
      var v := vs[|vs| - 1];
      ComponentsEnds(vs[..|vs| - 1]);
      EndsConcat(Components(vs[..|vs| - 1]), Component(v));
      LeadingEnds(v / 128);
      EndsConcat(Leading(v / 128), [v % 128]);
      assert [v % 128][1..] == [];
    }
  }

  lemma LowIdentifier(oid: seq<nat>)
    requires Identifier(oid) && oid[0] * 40 + oid[1] < 0x80
    ensures ReadIdentifier(IdentifierBody(oid)) == Some(oid)
  {
    hide Components;
    var first, tail := oid[0] * 40 + oid[1], oid[2..];
    ComponentsRead(tail, []);
    assert Components(tail) + [] == Components(tail) && tail + [] == tail;
    var body := IdentifierBody(oid);
    assert body[1..] == Components(tail);
    assert ReadComponents(body, 0) == Some([first] + tail);
    assert ([first] + tail)[1..] == tail;
    assert oid == [oid[0], oid[1]] + tail;
    hide ReadComponents;
    assert first / 40 == oid[0] || oid[0] == 2;
  }

  lemma HighIdentifier(oid: seq<nat>)
    requires Identifier(oid) && oid[0] * 40 + oid[1] >= 0x80
    ensures ReadIdentifier(IdentifierBody(oid)) != Some(oid)
  {
    hide Components, ReadComponents;
    var body := IdentifierBody(oid);
    assert body[1..] == Components(oid[2..]);
    ReadCount(body, 0);
    ComponentsEnds(oid[2..]);
  }

  // An identifier is read back exactly when its first octet is below 128: the code
  // never continues the first octet, as the standard would from there on.
  lemma IdentifierReads(oid: seq<nat>)
    requires Identifier(oid)
    ensures ReadIdentifier(IdentifierBody(oid)) == Some(oid) <==> oid[0] * 40 + oid[1] < 0x80
  {
    hide ReadIdentifier, IdentifierBody;
    if oid[0] * 40 + oid[1] < 0x80 {
      LowIdentifier(oid);
    } else {
      HighIdentifier(oid);
    }
  }

  method ObjectIdentifier(oid: seq<nat>) returns (body: seq<byte>)
    requires Identifier(oid)
    ensures body == IdentifierBody(oid)
  {
    hide Component;
    body := [oid[0] * 40 + oid[1]];
    var i := 2;
    assert oid[2..2] == [];
    while i < |oid|
      invariant 2 <= i <= |oid| && body == [oid[0] * 40 + oid[1]] + Components(oid[2..i])
    {
      var component := oid[i];
      ComponentsStep(oid, i);
      if component < 0x80 {
        ShortComponent(component);
        body := body + [component];
      } else {
        var chunks := Chunks(component);
        body := body + chunks;
      }
      i := i + 1;
    }
    assert oid[2..i] == oid[2..];
  }

  lemma ComponentsStep(oid: seq<nat>, i: nat)
    requires 2 <= i < |oid|
    ensures Components(oid[2..i + 1]) == Components(oid[2..i]) + Component(oid[i])
  {
    hide Component;
    assert oid[2..i + 1][..i - 2] == oid[2..i];
  }

  lemma ShortComponent(v: nat)
    requires v < 0x80
    ensures Component(v) == [v]
  {
  }

  // Seven bits at a time, then the high bits set on all but the last.
  method Chunks(component: nat) returns (chunks: seq<byte>)
    requires component >= 0x80
    ensures chunks == Component(component)
  {
    chunks := [component % 128];
    var value: nat := component / 128;
    while value != 0
      invariant Component(component) == Leading(value) + chunks
    {
      assert Leading(value) + chunks == Leading(value / 128) + ([0x80 + value % 128] + chunks);
      chunks := [0x80 + value % 128] + chunks;
      value := value / 128;
    }
    assert Leading(0) + chunks == chunks;
  }

  // ---- public keys -------------------------------------------------------------------------------

  datatype KeyError = UnsupportedAlgorithm | InvalidPublicKey

  function RawSize(algorithm: string): Option<nat> {
    if algorithm == "ML-DSA-44" then Some(1312)
    else if algorithm == "ML-DSA-65" then Some(1952)
    else if algorithm == "ML-DSA-87" then Some(2592)
    else if algorithm == "ML-KEM-512" then Some(800)
    else if algorithm == "ML-KEM-768" then Some(1184)
    else if algorithm == "ML-KEM-1024" then Some(1568)
    else None
  }

  function AlgorithmOid(algorithm: string): (oid: seq<nat>)
    ensures Identifier(oid) && oid[0] * 40 + oid[1] < 0x80 && |oid| == 9
    ensures forall i :: 0 <= i < |oid| ==> oid[i] < 1024
  {
    if algorithm == "ML-DSA-44" then [2, 16, 840, 1, 101, 3, 4, 3, 17]
    else if algorithm == "ML-DSA-65" then [2, 16, 840, 1, 101, 3, 4, 3, 18]
    else if algorithm == "ML-DSA-87" then [2, 16, 840, 1, 101, 3, 4, 3, 19]
    else if algorithm == "ML-KEM-512" then [2, 16, 840, 1, 101, 3, 4, 4, 1]
    else if algorithm == "ML-KEM-768" then [2, 16, 840, 1, 101, 3, 4, 4, 2]
    else [2, 16, 840, 1, 101, 3, 4, 4, 3]
  }

  lemma {:induction false} OctetsNeeded(n: nat, k: nat)
    requires n < Power256(k)
    ensures |BigEndian(n)| <= k
  {
    if n > 0 && k > 0 {
      OctetsNeeded(n / 256, k - 1);
    }
  }

  lemma SmallEncodable(n: nat)
    requires n < 0x1_0000
    ensures Encodable(n)
  {
    assert Power256(2) == 0x1_0000;
    OctetsNeeded(n, 2);
  }

  lemma ComponentSize(v: nat)
    requires v < 1024
    ensures |Component(v)| <= 2
  {
    var w: nat := v / 128;
    assert w / 128 == 0;
    assert |Leading(w)| <= 1;
  }

  lemma {:induction false} ComponentsSize(vs: seq<nat>)
    requires forall i :: 0 <= i < |vs| ==> vs[i] < 1024
    ensures |Components(vs)| <= 2 * |vs|
  {
    if vs != [] {
      ComponentsSize(vs[..|vs| - 1]);
      ComponentSize(vs[|vs| - 1]);
    }
  }

  lemma WrapFits(algorithm: string, raw: seq<byte>)
    requires |raw| <= 2592
    ensures var body := IdentifierBody(AlgorithmOid(algorithm));
      && Encodable(|body|) && Encodable(|Element(0x06, body)|) && Encodable(|raw| + 1)
      && Encodable(|Element(0x30, Element(0x06, body))| + |Element(0x03, [0] + raw)|)
  {
    hide Encodable, BigEndian, AlgorithmOid;
    var oid := AlgorithmOid(algorithm);
    ComponentsSize(oid[2..]);
    var body := IdentifierBody(oid);
    SmallEncodable(|body|);
    LengthSize(|body|);
    SmallEncodable(|Element(0x06, body)|);
    LengthSize(|Element(0x06, body)|);
    SmallEncodable(|raw| + 1);
    LengthSize(|raw| + 1);
    SmallEncodable(|Element(0x30, Element(0x06, body))| + |Element(0x03, [0] + raw)|);
  }

  lemma LengthSize(n: nat)
    requires n < 0x1_0000 && Encodable(n)
    ensures |Length(n)| <= 3
  {
    assert Power256(2) == 0x1_0000;
    OctetsNeeded(n, 2);
  }

  function DerFromRaw(raw: seq<byte>, algorithm: string): Result<seq<byte>, KeyError> {
    match RawSize(algorithm)
    case None => Err(UnsupportedAlgorithm)
    case Some(size) =>
      if |raw| != size then Err(InvalidPublicKey)
      else
        WrapFits(algorithm, raw);
        var algorithmIdentifier := Element(0x30, Element(0x06, IdentifierBody(AlgorithmOid(algorithm))));
        Ok(Element(0x30, algorithmIdentifier + Element(0x03, [0] + raw)))
  }

  // The key is simply the tail.
  function RawFromDer(der: seq<byte>, algorithm: string): Result<seq<byte>, KeyError> {
    match RawSize(algorithm)
    case None => Err(UnsupportedAlgorithm)
    case Some(size) => if |der| < size then Err(InvalidPublicKey) else Ok(der[|der| - size..])
  }

  // An element with nothing after it.
  function ReadWhole(tag: byte, b: seq<byte>): Option<seq<byte>> {
    var e := ReadElement(tag, b);
    if e.Some? && e.value.1 == [] then Some(e.value.0) else None
  }

  function ReadBits(b: seq<byte>): Option<seq<byte>> {
    var bits := ReadWhole(0x03, b);
    if bits.None? || bits.value == [] || bits.value[0] != 0 then None else Some(bits.value[1..])
  }

  // Reads the wrapper properly, element by element.
  function ReadKey(der: seq<byte>): Option<(seq<nat>, seq<byte>)> {
    var content := ReadWhole(0x30, der);
    if content.None? then None
    else
      var first := ReadElement(0x30, content.value);
      if first.None? then None
      else
        var body, key := ReadWhole(0x06, first.value.0), ReadBits(first.value.1);
        if body.None? || key.None? || ReadIdentifier(body.value).None? then None
        else Some((ReadIdentifier(body.value).value, key.value))
  }

  lemma TailOf(tag: byte, head: seq<byte>, inner: byte, raw: seq<byte>)
    requires Encodable(|raw| + 1) && Encodable(|head| + |Element(inner, [0] + raw)|)
    ensures var der := Element(tag, head + Element(inner, [0] + raw));
      |der| >= |raw| && der[|der| - |raw|..] == raw
  {
    hide Length;
    var before := [tag] + Length(|head + Element(inner, [0] + raw)|) + head + [inner] + Length(|raw| + 1) + [0];
    assert |[0] + raw| == |raw| + 1;
    assert Element(tag, head + Element(inner, [0] + raw)) == before + raw;
  }

  // Unwrapping a wrapped key returns it, for every algorithm known; and a reader of
  // the wrapper finds the algorithm's identifier and the key.
  lemma WrapUnwraps(raw: seq<byte>, algorithm: string)
    requires DerFromRaw(raw, algorithm).Ok?
    ensures RawFromDer(DerFromRaw(raw, algorithm).value, algorithm) == Ok(raw)
    ensures ReadKey(DerFromRaw(raw, algorithm).value) == Some((AlgorithmOid(algorithm), raw))
  {
    hide Element, ReadElement, AlgorithmOid, Encodable, IdentifierBody, ReadIdentifier;
    WrapFits(algorithm, raw);
    var oid := AlgorithmOid(algorithm);
    var body := IdentifierBody(oid);
    var head, bits := Element(0x30, Element(0x06, body)), Element(0x03, [0] + raw);
    TailOf(0x30, head, 0x03, raw);
    IdentifierReads(oid);
    ElementReads(0x30, head + bits, []);
    ElementReads(0x30, Element(0x06, body), bits);
    ElementReads(0x06, body, []);
    ElementReads(0x03, [0] + raw, []);
    assert Element(0x30, head + bits) + [] == Element(0x30, head + bits);
    assert Element(0x06, body) + [] == Element(0x06, body) && bits + [] == bits;
    assert ([0] + raw)[1..] == raw;
  }

  // Both directions refuse the same algorithms, and each its wrong sizes.
  lemma WrapRefuses(raw: seq<byte>, algorithm: string)
    ensures DerFromRaw(raw, algorithm).Ok? <==> RawSize(algorithm) == Some(|raw|)
    ensures DerFromRaw(raw, algorithm) == Err(UnsupportedAlgorithm) <==> RawSize(algorithm).None?
    ensures RawFromDer(raw, algorithm).Ok? <==> RawSize(algorithm).Some? && RawSize(algorithm).value <= |raw|
  {
    hide RawSize, AlgorithmOid, Element;
  }

  // Every length is written in the fewest octets that can hold it.
  lemma LengthShortest(n: nat, b: seq<byte>)
    requires Encodable(n) && ReadLength(b).Some? && ReadLength(b).value.0 == n
    ensures |Length(n)| <= |b| - |ReadLength(b).value.1|
  {
    hide BigEndian, FromBigEndian;
    if n >= 0x80 {
      FewestOctets(n, b[1..1 + (b[0] - 0x80)]);
    }
  }

  lemma {:induction false} FewestOctets(n: nat, b: seq<byte>)
    requires FromBigEndian(b) == n
    ensures |BigEndian(n)| <= |b|
    decreases |b|
  {
    if n > 0 {
      assert FromBigEndian(b[..|b| - 1]) == n / 256;
      FewestOctets(n / 256, b[..|b| - 1]);
    }
  }

  // ---- the header, octet by octet ------------------------------------------------------------

  lemma TwoOctets(n: nat)
    requires 256 <= n < 0x1_0000
    ensures Encodable(n) && Length(n) == [0x82, n / 256, n % 256]
  {
    assert BigEndian(n / 256) == [n / 256] by {
      assert n / 256 / 256 == 0;
      assert BigEndian(0) == [];
    }
  }

  lemma OneOctet(n: nat)
    requires n < 0x80
    ensures Encodable(n) && Length(n) == [n]
  {
    SmallEncodable(n);
  }

  lemma SmallComponent(v: nat)
    requires v < 0x80
    ensures Component(v) == [v]
  {
    assert Leading(0) == [];
  }

  lemma IdentifierOctets(family: nat, member: nat)
    requires family < 0x80 && member < 0x80
    ensures IdentifierBody([2, 16, 840, 1, 101, 3, 4, family, member])
         == [0x60, 0x86, 0x48, 0x01, 0x65, 0x03, 0x04, family, member]
  {
    hide Components, Component;
    assert Components([]) == [] by { ComponentsNone(); }
    assert Component(840) == [0x86, 0x48] by { Wide(); }
    SmallComponent(1);
    SmallComponent(101);
    SmallComponent(3);
    SmallComponent(4);
    SmallComponent(family);
    SmallComponent(member);
    var oid := [2, 16, 840, 1, 101, 3, 4, family, member];
    ComponentsStep(oid, 2);
    ComponentsStep(oid, 3);
    ComponentsStep(oid, 4);
    ComponentsStep(oid, 5);
    ComponentsStep(oid, 6);
    ComponentsStep(oid, 7);
    ComponentsStep(oid, 8);
    assert oid[2..2] == [] && oid[2..9] == oid[2..];
  }

  lemma ComponentsNone()
    ensures Components([]) == []
  {
  }

  lemma Wide()
    ensures Component(840) == [0x86, 0x48]
  {
    assert Leading(6) == [0x86] by {
      assert Leading(0) == [];
    }
  }

  // The last two arcs and the size of the six keys: 2.16.840.1.101.3.4.3.x for ML-DSA,
  // 2.16.840.1.101.3.4.4.x for ML-KEM.
  function Family(algorithm: string): (nat, nat, nat) {
    if algorithm == "ML-DSA-44" then (3, 17, 1312)
    else if algorithm == "ML-DSA-65" then (3, 18, 1952)
    else if algorithm == "ML-DSA-87" then (3, 19, 2592)
    else if algorithm == "ML-KEM-512" then (4, 1, 800)
    else if algorithm == "ML-KEM-768" then (4, 2, 1184)
    else (4, 3, 1568)
  }

  function Header(algorithm: string): seq<byte> {
    var (family, member, size) := Family(algorithm);
    [0x30, 0x82, (size + 18) / 256, (size + 18) % 256,
     0x30, 0x0B, 0x06, 0x09, 0x60, 0x86, 0x48, 0x01, 0x65, 0x03, 0x04, family, member,
     0x03, 0x82, (size + 1) / 256, (size + 1) % 256, 0x00]
  }

  lemma HeaderParts(algorithm: string, raw: seq<byte>)
    ensures var (family, member, size) := Family(algorithm);
      Header(algorithm) + raw
      == [0x30, 0x82, (size + 18) / 256, (size + 18) % 256]
         + ([0x30, 0x0B, 0x06, 0x09] + [0x60, 0x86, 0x48, 0x01, 0x65, 0x03, 0x04, family, member]
            + ([0x03, 0x82, (size + 1) / 256, (size + 1) % 256, 0x00] + raw))
  {
    hide Family;
  }

  lemma Wrapped(raw: seq<byte>, algorithm: string)
    requires algorithm in {"ML-DSA-44", "ML-DSA-65", "ML-DSA-87", "ML-KEM-512", "ML-KEM-768", "ML-KEM-1024"}
    requires |raw| == Family(algorithm).2
    ensures var (family, member, size) := Family(algorithm);
      AlgorithmOid(algorithm) == [2, 16, 840, 1, 101, 3, 4, family, member] && RawSize(algorithm) == Some(|raw|)
  {
  }

  // Every wrapped key is 22 octets of header, all but six of them the same, and the key.
  lemma HeaderOctets(raw: seq<byte>, algorithm: string)
    requires algorithm in {"ML-DSA-44", "ML-DSA-65", "ML-DSA-87", "ML-KEM-512", "ML-KEM-768", "ML-KEM-1024"}
    requires |raw| == Family(algorithm).2
    ensures DerFromRaw(raw, algorithm) == Ok(Header(algorithm) + raw) && |Header(algorithm)| == 22
  {
    hide IdentifierBody, Length, Encodable, BigEndian, AlgorithmOid, RawSize, Family, Header;
    var (family, member, size) := Family(algorithm);
    Wrapped(raw, algorithm);
    Sizes(algorithm);
    WrapFits(algorithm, raw);
    IdentifierOctets(family, member);
    var body := IdentifierBody(AlgorithmOid(algorithm));
    OneOctet(9);
    OneOctet(11);
    TwoOctets(size + 1);
    TwoOctets(size + 18);
    assert Element(0x30, Element(0x06, body)) == [0x30, 0x0B, 0x06, 0x09] + body;
    var bits := [0x03, 0x82, (size + 1) / 256, (size + 1) % 256, 0x00] + raw;
    assert Element(0x03, [0] + raw) == bits;
    HeaderParts(algorithm, raw);
    var content := Element(0x30, Element(0x06, body)) + bits;
    assert |content| == size + 18;
    assert Element(0x30, content) == [0x30, 0x82, (size + 18) / 256, (size + 18) % 256] + content;
    assert DerFromRaw(raw, algorithm) == Ok(Element(0x30, content));
  }

  lemma Sizes(algorithm: string)
    ensures var (family, member, size) := Family(algorithm); family <= 4 && member <= 19 && 800 <= size <= 2592
    ensures |Header(algorithm)| == 22
  {
  }
}
