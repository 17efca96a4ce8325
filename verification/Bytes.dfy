/** Go strings as bytes: UTF-8 and the byte view of strings.TrimSpace. */
module Bytes {
  import opened Text

  newtype Byte = b: int | 0 <= b < 0x100

  type Text8 = seq<Byte>

  function EncodeRune(c: char): Text8 {
    var n := c as int;
    if n < 0x80 then [n as Byte]
    else if n < 0x800 then [(0xC0 + n / 0x40) as Byte, (0x80 + n % 0x40) as Byte]
    else if n < 0x10000 then
      [(0xE0 + n / 0x1000) as Byte, (0x80 + n / 0x40 % 0x40) as Byte, (0x80 + n % 0x40) as Byte]
    else
      [(0xF0 + n / 0x40000) as Byte, (0x80 + n / 0x1000 % 0x40) as Byte,
       (0x80 + n / 0x40 % 0x40) as Byte, (0x80 + n % 0x40) as Byte]
  }

  function Utf8(s: string): Text8 {
    if s == "" then [] else EncodeRune(s[0]) + Utf8(s[1..])
  }

  predicate Space1(a: Byte) {
    9 <= a <= 13 || a == 32
  }

  predicate Space2(a: Byte, b: Byte) {
    a == 0xC2 && (b == 0x85 || b == 0xA0)
  }

  predicate Space3(a: Byte, b: Byte, c: Byte) {
    || (a == 0xE1 && b == 0x9A && c == 0x80)
    || (a == 0xE2 && b == 0x80 && (0x80 <= c <= 0x8A || c == 0xA8 || c == 0xA9 || c == 0xAF))
    || (a == 0xE2 && b == 0x81 && c == 0x9F)
    || (a == 0xE3 && b == 0x80 && c == 0x80)
  }

  /** The width of the white space rune that `s` starts with, or 0. */
  function SpaceAtStart(s: Text8): (w: nat)
    ensures w <= |s|
  {
    if |s| >= 1 && Space1(s[0]) then 1
    else if |s| >= 2 && Space2(s[0], s[1]) then 2
    else if |s| >= 3 && Space3(s[0], s[1], s[2]) then 3
    else 0
  }

  /** The width of the white space rune that `s` ends with, or 0. */
  function SpaceAtEnd(s: Text8): (w: nat)
    ensures w <= |s|
  {
    var n := |s|;
    if n >= 1 && Space1(s[n - 1]) then 1
    else if n >= 2 && Space2(s[n - 2], s[n - 1]) then 2
    else if n >= 3 && Space3(s[n - 3], s[n - 2], s[n - 1]) then 3
    else 0
  }

  function TrimStart(s: Text8): Text8
    decreases |s|
  {
    if SpaceAtStart(s) > 0 then TrimStart(s[SpaceAtStart(s)..]) else s
  }

  function TrimEnd(s: Text8): Text8
    decreases |s|
  {
    if SpaceAtEnd(s) > 0 then TrimEnd(s[..|s| - SpaceAtEnd(s)]) else s
  }

  function TrimSpace(s: Text8): Text8 {
    TrimEnd(TrimStart(s))
  }

  predicate Trimmed8(s: Text8) {
    SpaceAtStart(s) == 0 && SpaceAtEnd(s) == 0
  }

  lemma {:induction false} TrimStartResult(s: Text8)
    ensures SpaceAtStart(TrimStart(s)) == 0
    decreases |s|
  {
    if SpaceAtStart(s) > 0 {
      TrimStartResult(s[SpaceAtStart(s)..]);
    }
  }

  lemma {:induction false} TrimEndResult(s: Text8)
    ensures SpaceAtEnd(TrimEnd(s)) == 0
    ensures TrimEnd(s) <= s
    decreases |s|
  {
    if SpaceAtEnd(s) > 0 {
      TrimEndResult(s[..|s| - SpaceAtEnd(s)]);
    }
  }

  /** Trimming leaves no white space at either end. */
  lemma TrimSpaceResult(s: Text8)
    ensures Trimmed8(TrimSpace(s))
  {
    TrimStartResult(s);
    TrimEndResult(TrimStart(s));
  }

  lemma TrimSpaceFixed(s: Text8)
    requires Trimmed8(s)
    ensures TrimSpace(s) == s
  {
  }

  // ---------------------------------------------------------------------------------------------
  // Bytes and runes agree on white space
  // ---------------------------------------------------------------------------------------------

  lemma {:induction false} Utf8Append(a: string, b: string)
    ensures Utf8(a + b) == Utf8(a) + Utf8(b)
  {
    if a == "" {
      assert a + b == b;
    } else {
      assert (a + b)[1..] == a[1..] + b;
      Utf8Append(a[1..], b);
    }
  }

  lemma Utf8Front(s: string)
    requires s != ""
    ensures Utf8(s) == EncodeRune(s[0]) + Utf8(s[1..])
  {
  }

  lemma Utf8One(c: char)
    ensures Utf8([c]) == EncodeRune(c)
  {
    assert [c][1..] == "" && EncodeRune(c) + [] == EncodeRune(c);
  }

  lemma Utf8Back(s: string)
    requires s != ""
    ensures Utf8(s) == Utf8(s[..|s| - 1]) + EncodeRune(s[|s| - 1])
  {
    var front, c := s[..|s| - 1], s[|s| - 1];
    assert s == front + [c];
    Utf8Append(front, [c]);
    Utf8One(c);
  }

  /** The byte patterns at the start of a text are those of the runes that are white space. */
  lemma SpaceInFront(c: char, rest: Text8)
    ensures SpaceAtStart(EncodeRune(c) + rest) == if IsSpace(c) then |EncodeRune(c)| else 0
  {
  }

  /** The same at the end, where a pattern might begin inside a rune but never does. */
  lemma SpaceBehind(rest: Text8, c: char)
    ensures SpaceAtEnd(rest + EncodeRune(c)) == if IsSpace(c) then |EncodeRune(c)| else 0
  {
    var e, s := EncodeRune(c), rest + EncodeRune(c);
    var n := |s|;
    assert s[n - 1] == e[|e| - 1];
    if |e| >= 2 {
      assert s[n - 2] == e[|e| - 2];
    }
    if |e| >= 3 {
      assert s[n - 3] == e[|e| - 3];
    }
  }

  lemma {:induction false} TrimStartByRune(s: string)
    ensures TrimStart(Utf8(s)) == Utf8(TrimLeft(s))
  {
    if s != "" {
      Utf8Front(s);
      SpaceInFront(s[0], Utf8(s[1..]));
      if IsSpace(s[0]) {
        assert Utf8(s)[|EncodeRune(s[0])|..] == Utf8(s[1..]);
        TrimStartByRune(s[1..]);
      }
    }
  }

  lemma {:induction false} TrimEndByRune(s: string)
    ensures TrimEnd(Utf8(s)) == Utf8(TrimRight(s))
  {
    if s != "" {
      var front, c := s[..|s| - 1], s[|s| - 1];
      Utf8Back(s);
      SpaceBehind(Utf8(front), c);
      if IsSpace(c) {
        assert Utf8(s)[..|Utf8(s)| - |EncodeRune(c)|] == Utf8(front);
        TrimEndByRune(front);
      }
    }
  }

  /** Trimming the bytes of a text is trimming its runes. */
  lemma TrimByRune(s: string)
    ensures TrimSpace(Utf8(s)) == Utf8(Trim(s))
    ensures TrimSpace(Utf8(s)) == [] <==> Trim(s) == ""
  {
    TrimStartByRune(s);
    TrimEndByRune(TrimLeft(s));
    if Trim(s) != "" {
      Utf8Front(Trim(s));
    }
  }
}
