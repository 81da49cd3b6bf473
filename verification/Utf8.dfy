// UTF-8 (section 3 of RFC 3629): encoding, and Python's decoding with a replacement for what
// is malformed.
module Utf8 {
  type Byte = b: int | 0 <= b < 256

  function EncodeChar(c: char): (bytes: seq<Byte>)
    ensures 1 <= |bytes| <= 4
  {
    var x := c as int;
    if x < 0x80 then [x]
    else if x < 0x800 then [0xC0 + x / 64, 0x80 + x % 64]
    else if x < 0x10000 then [0xE0 + x / 4096, 0x80 + x / 64 % 64, 0x80 + x % 64]
    else [0xF0 + x / 262144, 0x80 + x / 4096 % 64, 0x80 + x / 64 % 64, 0x80 + x % 64]
  }

  function Encode(s: string): seq<Byte> {
    if s == "" then [] else EncodeChar(s[0]) + Encode(s[1..])
  }

  // How many bytes a character with this first byte takes; 0 for no first byte.
  function Width(lead: Byte): nat {
    if lead < 0x80 then 1
    else if 0xC2 <= lead <= 0xDF then 2
    else if 0xE0 <= lead <= 0xEF then 3
    else if 0xF0 <= lead <= 0xF4 then 4
    else 0
  }

  // The bytes allowed at place j of a character; the second is narrowed after some leads.
  predicate Continues(lead: Byte, j: nat, b: Byte) {
    && 0x80 <= b <= 0xBF
    && (j == 1 ==>
          && (lead == 0xE0 ==> b >= 0xA0)
          && (lead == 0xED ==> b <= 0x9F)
          && (lead == 0xF0 ==> b >= 0x90)
          && (lead == 0xF4 ==> b <= 0x8F))
  }

  // How many bytes from the start could belong to one character.
  function Accepted(bytes: seq<Byte>, j: nat): (n: nat)
    requires 1 <= j <= |bytes|
    ensures j <= n <= |bytes|
    ensures forall i | j <= i < n :: Continues(bytes[0], i, bytes[i])
    ensures n == |bytes| || n >= Width(bytes[0]) || !Continues(bytes[0], n, bytes[n])
    decreases |bytes| - j
  {
    if j >= Width(bytes[0]) || j == |bytes| || !Continues(bytes[0], j, bytes[j]) then j else Accepted(bytes, j + 1)
  }

  function CharOf(bytes: seq<Byte>): char
    requires bytes != [] && |bytes| >= Width(bytes[0]) >= 1
    requires forall i | 1 <= i < Width(bytes[0]) :: Continues(bytes[0], i, bytes[i])
  {
    var b: int := bytes[0];
    if b < 0x80 then b as char
    else
      assert Continues(bytes[0], 1, bytes[1]);
      var b1: int := bytes[1] - 0x80;
      if b < 0xE0 then ((b - 0xC0) * 64 + b1) as char
      else
        assert Continues(bytes[0], 2, bytes[2]);
        var b2: int := bytes[2] - 0x80;
        if b < 0xF0 then ((b - 0xE0) * 4096 + b1 * 64 + b2) as char
        else
          assert Continues(bytes[0], 3, bytes[3]);
          var b3: int := bytes[3] - 0x80;
          ((b - 0xF0) * 262144 + b1 * 4096 + b2 * 64 + b3) as char
  }

  // Decoding, with `bad` put in for every maximal piece that is no character.
  function Decode(bytes: seq<Byte>, bad: string): string {
    if bytes == [] then ""
    else
      var n := Accepted(bytes, 1);
      if n == Width(bytes[0]) then [CharOf(bytes)] + Decode(bytes[n..], bad) else bad + Decode(bytes[n..], bad)
  }

  // ---- Decoding the beginning of an encoded text -----------------------------------------

  // The digits of a code point in base 64.
  lemma Digits(x: nat)
    ensures x == x / 64 * 64 + x % 64
    ensures x / 64 == x / 4096 * 64 + x / 64 % 64
    ensures x / 4096 == x / 262144 * 64 + x / 4096 % 64
  {
  }

  predicate IsCharacter(e: seq<Byte>) {
    e != [] && |e| == Width(e[0]) && forall i | 1 <= i < |e| :: Continues(e[0], i, e[i])
  }

  lemma EncodedIsCharacter(c: char)
    ensures IsCharacter(EncodeChar(c))
  {
    Digits(c as int);
  }

  lemma EncodedCharIsRead(c: char)
    ensures IsCharacter(EncodeChar(c)) && CharOf(EncodeChar(c)) == c
  {
    EncodedIsCharacter(c);
    Digits(c as int);
  }

  lemma {:induction false} AcceptedIs(bytes: seq<Byte>, j: nat, n: nat)
    requires 1 <= j <= n <= |bytes| && n <= Width(bytes[0])
    requires forall i | j <= i < n :: Continues(bytes[0], i, bytes[i])
    requires n == |bytes| || n == Width(bytes[0])
    ensures Accepted(bytes, j) == n
    decreases n - j
  {
    if j < n {
      AcceptedIs(bytes, j + 1, n);
    }
  }

  // A whole character at the front is read as that character.
  lemma DecodeChar(c: char, rest: seq<Byte>, bad: string)
    ensures Decode(EncodeChar(c) + rest, bad) == [c] + Decode(rest, bad)
  {
    var e := EncodeChar(c);
    EncodedCharIsRead(c);
    var bytes := e + rest;
    forall i | 1 <= i < |e|
      ensures Continues(bytes[0], i, bytes[i])
    {
      assert bytes[i] == e[i];
    }
    AcceptedIs(bytes, 1, |e|);
    assert bytes[|e|..] == rest;
    CharOfFront(e, rest);
  }

  lemma CharOfFront(e: seq<Byte>, rest: seq<Byte>)
    requires IsCharacter(e)
    requires forall i | 1 <= i < |e| :: Continues((e + rest)[0], i, (e + rest)[i])
    ensures CharOf(e + rest) == CharOf(e)
  {
    var bytes := e + rest;
    assert bytes[0] == e[0];
    assert |e| >= 2 ==> bytes[1] == e[1];
    assert |e| >= 3 ==> bytes[2] == e[2];
    assert |e| >= 4 ==> bytes[3] == e[3];
  }

  // A character cut short is one malformed piece.
  lemma DecodeTornChar(c: char, n: nat, bad: string)
    requires 0 < n < |EncodeChar(c)|
    ensures Decode(EncodeChar(c)[..n], bad) == bad
  {
    var e := EncodeChar(c);
    EncodedIsCharacter(c);
    AcceptedIs(e[..n], 1, n);
    assert e[..n][n..] == [];
  }

  // The whole characters in the first n bytes of an encoded text.
  function WholeChars(s: string, n: nat): (k: nat)
    ensures k <= |s|
  {
    if s == "" || n < |EncodeChar(s[0])| then 0 else 1 + WholeChars(s[1..], n - |EncodeChar(s[0])|)
  }

  predicate Torn(s: string, n: nat) {
    n != |Encode(s[..WholeChars(s, n)])|
  }

  lemma EncodeFront(s: string, k: nat)
    requires 0 < k <= |s|
    ensures Encode(s[..k]) == EncodeChar(s[0]) + Encode(s[1..][..k - 1])
  {
    assert s[..k][1..] == s[1..][..k - 1];
  }

  // WholeChars is the largest number of characters whose encoding fits into n bytes.
  lemma {:induction false} WholeCharsIsLargest(s: string, n: nat)
    ensures |Encode(s[..WholeChars(s, n)])| <= n
    ensures WholeChars(s, n) < |s| ==> |Encode(s[..WholeChars(s, n) + 1])| > n
  {
    var k := WholeChars(s, n);
    if s != "" && n >= |EncodeChar(s[0])| {
      WholeCharsIsLargest(s[1..], n - |EncodeChar(s[0])|);
      EncodeFront(s, k);
      if k < |s| {
        EncodeFront(s, k + 1);
      }
    } else if s != "" {
      EncodeFront(s, 1);
    }
  }

  lemma DecodeTornFirst(s: string, n: nat, bad: string)
    requires s != "" && n < |EncodeChar(s[0])|
    ensures WholeChars(s, n) == 0 && (Torn(s, n) <==> n > 0)
    ensures Decode(Encode(s)[..n], bad) == if n > 0 then bad else ""
  {
    assert s[..0] == "";
    assert Encode(s)[..n] == EncodeChar(s[0])[..n];
    if n > 0 {
      DecodeTornChar(s[0], n, bad);
    }
  }

  lemma WholeFirst(s: string, n: nat)
    requires s != "" && n >= |EncodeChar(s[0])|
    ensures var m := n - |EncodeChar(s[0])|;
      WholeChars(s, n) == 1 + WholeChars(s[1..], m) && (Torn(s, n) <==> Torn(s[1..], m))
  {
    EncodeFront(s, WholeChars(s, n));
  }

  // The beginning of an encoded text decodes to its whole characters, and to one replacement
  // when the cut falls inside a character.
  lemma {:induction false} DecodeCut(s: string, n: nat, bad: string)
    requires n <= |Encode(s)|
    ensures Decode(Encode(s)[..n], bad) == s[..WholeChars(s, n)] + if Torn(s, n) then bad else ""
    ensures Torn(s, n) ==> WholeChars(s, n) < |s|
  {
    if s == "" {
      assert Encode(s)[..n] == [];
    } else if n < |EncodeChar(s[0])| {
      DecodeTornFirst(s, n, bad);
      assert s[..0] + bad == bad;
    } else {
      var e, rest := EncodeChar(s[0]), s[1..];
      var m := n - |e|;
      DecodeCut(rest, m, bad);
      WholeFirst(s, n);
      assert Encode(s)[..n] == e + Encode(rest)[..m];
      DecodeChar(s[0], Encode(rest)[..m], bad);
      assert [s[0]] + rest[..WholeChars(rest, m)] == s[..WholeChars(s, n)];
    }
  }

  // Decoding undoes encoding.
  lemma DecodeEncoded(s: string, bad: string)
    ensures Decode(Encode(s), bad) == s && WholeChars(s, |Encode(s)|) == |s| && !Torn(s, |Encode(s)|)
  {
    var n := |Encode(s)|;
    DecodeCut(s, n, bad);
    WholeCharsIsLargest(s, n);
    assert Encode(s)[..n] == Encode(s);
    var k := WholeChars(s, n);
    if k < |s| {
      EncodeGrows(s, k + 1);
    }
    assert s[..|s|] == s;
  }

  lemma {:induction false} EncodeGrows(s: string, k: nat)
    requires k <= |s|
    ensures Encode(s[..k]) <= Encode(s)
  {
    if k > 0 {
      EncodeFront(s, k);
      EncodeGrows(s[1..], k - 1);
    }
  }

  lemma {:induction false} EncodeConcat(a: string, b: string)
    ensures Encode(a + b) == Encode(a) + Encode(b)
  {
    if a == "" {
      assert a + b == b;
    } else {
      assert (a + b)[1..] == a[1..] + b;
      EncodeConcat(a[1..], b);
    }
  }
}
