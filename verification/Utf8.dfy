/** Bytes and the UTF-8 encoding every evidence line goes through on its way to
    disk.  Dafny's `char` is a Unicode scalar value, which is exactly what UTF-8
    can encode: a Python string holding a lone surrogate is not a value here. */
module Utf8 {

  type byte = x: int | 0 <= x < 256

  function EncodeChar(c: char): (b: seq<byte>)
    ensures 1 <= |b| <= 4
  {
    var n := c as int;
    if n < 0x80 then [n]
    else if n < 0x800 then [0xC0 + n / 64, 0x80 + n % 64]
    else if n < 0x1_0000 then [0xE0 + n / 4096, 0x80 + n / 64 % 64, 0x80 + n % 64]
    else [0xF0 + n / 262144, 0x80 + n / 4096 % 64, 0x80 + n / 64 % 64, 0x80 + n % 64]
  }

  function Encode(s: string): (b: seq<byte>)
    ensures |s| <= |b| <= 4 * |s|
  {
    if s == [] then [] else EncodeChar(s[0]) + Encode(s[1..])
  }

  predicate Continuation(b: byte) {
    0x80 <= b < 0xC0
  }

  // A byte less the marker bits that its place in a sequence puts above its payload.
  function Bits(b: byte, marker: int): int {
    b - marker
  }

  // The second bytes that may follow a leading byte: no overlong form, no
  // surrogate, nothing past the last code point.
  predicate SecondFits(lead: byte, b: byte) {
    if lead == 0xE0 then 0xA0 <= b < 0xC0
    else if lead == 0xED then 0x80 <= b < 0xA0
    else if lead == 0xF0 then 0x90 <= b < 0xC0
    else if lead == 0xF4 then 0x80 <= b < 0x90
    else Continuation(b)
  }

  // What one leading code point decodes to and how many bytes it takes; the longest
  // start of a sequence that nothing completes becomes one U+FFFD (`errors="replace"`).
  function DecodeHead(b: seq<byte>): (r: (char, nat))
    requires b != []
    ensures 1 <= r.1 <= |b|
    ensures r.0 as int < 0x80 <==> b[0] < 0x80
  {
    var n: int := b[0];
    if n < 0x80 then (n as char, 1)
    else if !(0xC2 <= n < 0xF5) || |b| < 2 || !SecondFits(b[0], b[1]) then ('\U{FFFD}', 1)
    else if n < 0xE0 then ((Bits(b[0], 0xC0) * 64 + Bits(b[1], 0x80)) as char, 2)
    else if |b| < 3 || !Continuation(b[2]) then ('\U{FFFD}', 2)
    else if n < 0xF0 then
      ((Bits(b[0], 0xE0) * 4096 + Bits(b[1], 0x80) * 64 + Bits(b[2], 0x80)) as char, 3)
    else if |b| < 4 || !Continuation(b[3]) then ('\U{FFFD}', 3)
    else
      ((Bits(b[0], 0xF0) * 262144 + Bits(b[1], 0x80) * 4096 + Bits(b[2], 0x80) * 64 + Bits(b[3], 0x80)) as char, 4)
  }

  function DecodeReplace(b: seq<byte>): (s: string)
    decreases |b|
  {
    if b == [] then [] else
      var (c, n) := DecodeHead(b);
      [c] + DecodeReplace(b[n..])
  }

  lemma DecodeShort(c: char, rest: seq<byte>)
    requires c as int < 0x800
    ensures DecodeHead(EncodeChar(c) + rest) == (c, |EncodeChar(c)|)
  {
  }

  lemma DecodeThree(c: char, rest: seq<byte>)
    requires 0x800 <= c as int < 0x1_0000
    ensures DecodeHead(EncodeChar(c) + rest) == (c, 3)
  {
    var n := c as int;
    assert n / 64 == n / 4096 * 64 + n / 64 % 64;
  }

  lemma DecodeFour(c: char, rest: seq<byte>)
    requires 0x1_0000 <= c as int
    ensures DecodeHead(EncodeChar(c) + rest) == (c, 4)
  {
    var n := c as int;
    assert n / 64 == n / 4096 * 64 + n / 64 % 64;
    assert n / 4096 == n / 262144 * 64 + n / 4096 % 64;
  }

  lemma DecodeHeadOfEncode(c: char, rest: seq<byte>)
    ensures DecodeHead(EncodeChar(c) + rest) == (c, |EncodeChar(c)|)
  {
    hide DecodeHead;
    if c as int < 0x800 {
      DecodeShort(c, rest);
    } else if c as int < 0x1_0000 {
      DecodeThree(c, rest);
    } else {
      DecodeFour(c, rest);
    }
  }

  // Reading a file back gives the text that was written to it.
  lemma {:induction false} DecodeEncode(s: string)
    ensures DecodeReplace(Encode(s)) == s
  {
    if s != [] {
      DecodeHeadOfEncode(s[0], Encode(s[1..]));
      assert Encode(s)[|EncodeChar(s[0])|..] == Encode(s[1..]);
      DecodeEncode(s[1..]);
    }
  }

  lemma EncodeInjective(s: string, t: string)
    requires Encode(s) == Encode(t)
    ensures s == t
  {
    DecodeEncode(s);
    DecodeEncode(t);
  }

  // ---- bytes that are no text ---------------------------------------------------------------

  // What the bytes of an encoded character look like, one after another.
  lemma EncodedShape(c: char)
    ensures var e := EncodeChar(c);
      && (|e| == 1 <==> e[0] < 0x80) && (|e| == 2 <==> 0x80 <= e[0] < 0xE0) && (|e| == 3 <==> 0xE0 <= e[0] < 0xF0)
      && (|e| >= 2 ==> 0xC2 <= e[0] < 0xF5 && SecondFits(e[0], e[1]))
      && (|e| >= 3 ==> Continuation(e[2])) && (|e| == 4 ==> Continuation(e[3]))
  {
  }

  lemma TwoBack(x: byte, y: byte) returns (c: char)
    requires 0xC2 <= x < 0xE0 && Continuation(y)
    ensures EncodeChar(c) == [x, y] && c as int == (x - 0xC0) * 64 + (y - 0x80)
  {
    c := ((x - 0xC0) * 64 + (y - 0x80)) as char;
  }

  lemma ThreeBack(x: byte, y: byte, z: byte) returns (c: char)
    requires 0xE0 <= x < 0xF0 && SecondFits(x, y) && Continuation(z)
    ensures EncodeChar(c) == [x, y, z] && c as int == (x - 0xE0) * 4096 + (y - 0x80) * 64 + (z - 0x80)
  {
    c := ((x - 0xE0) * 4096 + (y - 0x80) * 64 + (z - 0x80)) as char;
    assert c as int / 64 == (x - 0xE0) * 64 + (y - 0x80);
    assert c as int / 4096 == x - 0xE0;
  }

  lemma FourBack(x: byte, y: byte, z: byte, w: byte) returns (c: char)
    requires 0xF0 <= x < 0xF5 && SecondFits(x, y) && Continuation(z) && Continuation(w)
    ensures EncodeChar(c) == [x, y, z, w]
    ensures c as int == (x - 0xF0) * 262144 + (y - 0x80) * 4096 + (z - 0x80) * 64 + (w - 0x80)
  {
    c := ((x - 0xF0) * 262144 + (y - 0x80) * 4096 + (z - 0x80) * 64 + (w - 0x80)) as char;
    assert c as int / 64 == (x - 0xF0) * 4096 + (y - 0x80) * 64 + (z - 0x80);
    assert c as int / 4096 == (x - 0xF0) * 64 + (y - 0x80);
    assert c as int / 262144 == x - 0xF0;
  }

  // These bytes begin a character's encoding, whole or not.
  ghost predicate Begins(b: seq<byte>) {
    exists c :: b <= EncodeChar(c)
  }

  // The head is a character that the bytes encode; or they encode none, and then it is
  // one U+FFFD for the first byte, or for as many more as could still have become one.
  lemma HeadMeans(b: seq<byte>)
    requires b != []
    ensures var (c, n) := DecodeHead(b);
      || b[..n] == EncodeChar(c)
      || (&& c == '\U{FFFD}' && (forall d :: !(EncodeChar(d) <= b))
          && (n == 1 || Begins(b[..n])) && (forall k :: n < k <= |b| ==> !Begins(b[..k])))
  {
    hide EncodeChar;
    var (c, n) := DecodeHead(b);
    Replaced(b);
    forall d | EncodeChar(d) <= b ensures b[..n] == EncodeChar(d) && c == d {
      HeadOf(b, d);
    }
    forall k, d | 1 <= k <= |b| && b[..k] <= EncodeChar(d) ensures k <= n {
      Longest(b, k, d);
    }
  }

  lemma HeadOf(b: seq<byte>, d: char)
    requires EncodeChar(d) <= b
    ensures b != [] && DecodeHead(b) == (d, |EncodeChar(d)|) && b[..|EncodeChar(d)|] == EncodeChar(d)
  {
    hide EncodeChar, DecodeHead;
    DecodeHeadOfEncode(d, b[|EncodeChar(d)|..]);
    assert EncodeChar(d) + b[|EncodeChar(d)|..] == b;
  }

  // Nothing longer than what the head takes begins a character.
  lemma Longest(b: seq<byte>, k: nat, d: char)
    requires 1 <= k <= |b| && b[..k] <= EncodeChar(d)
    ensures k <= DecodeHead(b).1
  {
    hide EncodeChar, SecondFits, Continuation;
    EncodedShape(d);
    assert b[..k][0] == b[0];
    assert k > 1 ==> b[..k][1] == b[1];
    assert k > 2 ==> b[..k][2] == b[2];
    assert k > 3 ==> b[..k][3] == b[3];
  }

  lemma Replaced(b: seq<byte>)
    requires b != []
    ensures var (c, n) := DecodeHead(b); b[..n] == EncodeChar(c) || (c == '\U{FFFD}' && (n == 1 || Begins(b[..n])))
  {
    hide EncodeChar;
    var n: int := b[0];
    if n < 0x80 {
      OneBack(b[0]);
      assert b[..1] == [b[0]];
    } else if 0xC2 <= n < 0xF5 && |b| >= 2 && SecondFits(b[0], b[1]) {
      if n < 0xE0 {
        var c := TwoBack(b[0], b[1]);
        assert b[..2] == [b[0], b[1]];
      } else {
        LongReplaced(b);
      }
    }
  }

  lemma OneBack(x: byte)
    requires x < 0x80
    ensures EncodeChar(x as char) == [x]
  {
  }

  lemma LongReplaced(b: seq<byte>)
    requires |b| >= 2 && 0xE0 <= b[0] < 0xF5 && SecondFits(b[0], b[1])
    ensures var (c, n) := DecodeHead(b); b[..n] == EncodeChar(c) || (c == '\U{FFFD}' && Begins(b[..n]))
  {
    hide EncodeChar;
    if |b| < 3 || !Continuation(b[2]) {
      if b[0] < 0xF0 {
        var c := ThreeBack(b[0], b[1], 0x80);
        assert b[..2] <= EncodeChar(c);
      } else {
        var c := FourBack(b[0], b[1], 0x80, 0x80);
        assert b[..2] <= EncodeChar(c);
      }
    } else if b[0] < 0xF0 {
      var c := ThreeBack(b[0], b[1], b[2]);
      assert b[..3] == [b[0], b[1], b[2]];
    } else if |b| < 4 || !Continuation(b[3]) {
      var c := FourBack(b[0], b[1], b[2], 0x80);
      assert b[..3] <= EncodeChar(c);
    } else {
      var c := FourBack(b[0], b[1], b[2], b[3]);
      assert b[..4] == [b[0], b[1], b[2], b[3]];
    }
  }

  lemma {:induction false} EncodeConcat(s: string, t: string)
    ensures Encode(s + t) == Encode(s) + Encode(t)
  {
    if s == [] {
      assert s + t == t;
    } else {
      assert (s + t)[1..] == s[1..] + t;
      EncodeConcat(s[1..], t);
    }
  }

  // An ASCII byte completes nothing before it.
  lemma HeadBefore(a: seq<byte>, rest: seq<byte>)
    requires a != [] && (rest == [] || rest[0] < 0x80)
    ensures DecodeHead(a + rest) == DecodeHead(a)
  {
    hide Bits;
    assert rest == [] ==> a + rest == a;
  }

  // Where an ASCII byte begins, decoding splits, whatever bytes come before.
  lemma {:induction false} DecodeSplits(a: seq<byte>, rest: seq<byte>)
    requires rest == [] || rest[0] < 0x80
    ensures DecodeReplace(a + rest) == DecodeReplace(a) + DecodeReplace(rest)
    decreases |a|
  {
    hide DecodeHead;
    if a == [] {
      assert a + rest == rest;
    } else {
      HeadBefore(a, rest);
      var n := DecodeHead(a).1;
      assert (a + rest)[n..] == a[n..] + rest;
      DecodeSplits(a[n..], rest);
    }
  }

  predicate Ascii(s: string) {
    forall i :: 0 <= i < |s| ==> s[i] as int < 0x80
  }

  lemma {:induction false} EncodeAsciiLength(s: string)
    requires Ascii(s)
    ensures |Encode(s)| == |s|
  {
    if s != [] {
      EncodeAsciiLength(s[1..]);
    }
  }
}
