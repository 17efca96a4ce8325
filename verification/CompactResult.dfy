/** Long tool results are cut down to a head, a note with the number of dropped bytes, and a tail. */
module CompactResult {
  import opened Bytes

  /** The length of a Go string fits in an int. */
  const GO_SIZE := 0x8000_0000_0000_0000

  function Decimal(n: nat): Text8 {
    if n < 10 then [(48 + n) as Byte] else Decimal(n / 10) + [(48 + n % 10) as Byte]
  }

  /** "\n... [truncated " and " bytes] ...\n" */
  const NOTE_START: Text8 := [10, 46, 46, 46, 32, 91, 116, 114, 117, 110, 99, 97, 116, 101, 100, 32]
  const NOTE_END: Text8 := [32, 98, 121, 116, 101, 115, 93, 32, 46, 46, 46, 10]

  function Note(dropped: nat): Text8 {
    NOTE_START + Decimal(dropped) + NOTE_END
  }

  function Limit(limit: int): int {
    if limit < 200 then 200 else limit
  }

  function Head(limit: int): int {
    Limit(limit) / 3
  }

  function Tail(limit: int): int {
    var tail := Limit(limit) - Head(limit) - 80;
    if tail < 80 then 80 else tail
  }

  function Compact(s: Text8, limit: int): Text8 {
    Cut(TrimSpace(s), limit)
  }

  function Cut(t: Text8, limit: int): Text8 {
    if |t| <= Limit(limit) then t
    else
      var head, tail := Head(limit), Tail(limit);
      t[..head] + Note(|t| - head - tail) + t[|t| - tail..]
  }

  function Pow10(k: nat): nat {
    if k == 0 then 1 else 10 * Pow10(k - 1)
  }

  lemma {:induction false} DecimalLength(n: nat, k: nat)
    requires n < Pow10(k)
    ensures |Decimal(n)| <= if k == 0 then 1 else k
  {
    if n >= 10 {
      assert k > 1 by { assert Pow10(1) == 10 * Pow10(0) == 10; }
      DecimalLength(n / 10, k - 1);
    }
  }

  lemma GoSizeDigits(n: nat)
    requires n < GO_SIZE
    ensures |Decimal(n)| <= 19
  {
    assert Pow10(19) == 10000000000000000000 by {
      assert Pow10(5) == 100000;
      assert Pow10(10) == 10000000000;
      assert Pow10(15) == 1000000000000000;
    }
    DecimalLength(n, 19);
  }

  /** The slices that are kept do not overlap, and the note accounts for every byte between them. */
  lemma KeepsHeadAndTail(s: Text8, limit: int)
    requires |TrimSpace(s)| > Limit(limit)
    ensures var t, head, tail := TrimSpace(s), Head(limit), Tail(limit);
            var dropped := |t| - head - tail;
            && 0 < dropped
            && (limit <= 200 ==> head == 66 && tail == 80)
            && (limit >= 200 ==> head == limit / 3 && tail == if limit - head >= 160 then limit - head - 80 else 80)
            && Compact(s, limit) == t[..head] + Note(dropped) + t[head + dropped..]
  {
    var t, head, tail := TrimSpace(s), Head(limit), Tail(limit);
    assert t[head + (|t| - head - tail)..] == t[|t| - tail..];
  }

  function ReadDecimal(d: Text8): int {
    if d == [] then 0 else 10 * ReadDecimal(d[..|d| - 1]) + (d[|d| - 1] as int - 48)
  }

  /** The number in the note reads back as the number of dropped bytes. */
  lemma {:induction false} DecimalReads(n: nat)
    ensures ReadDecimal(Decimal(n)) == n
  {
    if n >= 10 {
      DecimalReads(n / 10);
      assert Decimal(n)[..|Decimal(n)| - 1] == Decimal(n / 10);
    } else {
      assert Decimal(n)[..0] == [];
    }
  }

  /** The note reads "\n... [truncated n bytes] ...\n" with the number of dropped bytes. */
  lemma NoteTells(n: nat)
    ensures |Note(n)| > 28 && ReadDecimal(Note(n)[16..|Note(n)| - 12]) == n
    ensures Note(n)[..16] == [10, 46, 46, 46, 32, 91, 116, 114, 117, 110, 99, 97, 116, 101, 100, 32]
    ensures Note(n)[|Note(n)| - 12..] == [32, 98, 121, 116, 101, 115, 93, 32, 46, 46, 46, 10]
  {
    DecimalReads(n);
    var d := Decimal(n);
    assert Note(n) == NOTE_START + d + NOTE_END;
    assert Note(n)[16..|Note(n)| - 12] == d;
    assert Note(n)[..16] == NOTE_START && Note(n)[|Note(n)| - 12..] == NOTE_END;
  }

  /** No result is longer than the limit, or than 200 bytes where the limit is smaller. */
  lemma CompactBounded(s: Text8, limit: int)
    requires |s| < GO_SIZE
    ensures |Compact(s, limit)| <= if limit < 200 then 200 else limit
  {
    TrimShorter(s);
    CutBounded(TrimSpace(s), limit);
  }

  lemma CutBounded(t: Text8, limit: int)
    requires |t| < GO_SIZE
    ensures |Cut(t, limit)| <= Limit(limit)
  {
    if |t| > Limit(limit) {
      NoteLength(|t| - Head(limit) - Tail(limit));
      NoteFits(limit);
    }
  }

  lemma NoteLength(dropped: nat)
    requires dropped < GO_SIZE
    ensures |Note(dropped)| <= 47
  {
    GoSizeDigits(dropped);
  }

  lemma NoteFits(limit: int)
    ensures Head(limit) + Tail(limit) + 47 <= Limit(limit)
  {
  }

  lemma TrimShorter(s: Text8)
    ensures |TrimSpace(s)| <= |s|
  {
    TrimStartShorter(s);
    TrimEndResult(TrimStart(s));
  }

  lemma {:induction false} TrimStartShorter(s: Text8)
    ensures |TrimStart(s)| <= |s|
    decreases |s|
  {
    if SpaceAtStart(s) > 0 {
      TrimStartShorter(s[SpaceAtStart(s)..]);
    }
  }

  /** Compacting keeps the outer bytes, so its result needs no trimming. */
  lemma CompactTrimmed(s: Text8, limit: int)
    ensures Trimmed8(Compact(s, limit))
  {
    TrimSpaceResult(s);
    var t := TrimSpace(s);
    if |t| > Limit(limit) {
      var r := Compact(s, limit);
      assert r[0] == t[0] && r[1] == t[1] && r[2] == t[2];
      assert r[|r| - 1] == t[|t| - 1] && r[|r| - 2] == t[|t| - 2] && r[|r| - 3] == t[|t| - 3];
    }
  }

  /** Compacting a compacted result changes nothing. */
  lemma CompactIdempotent(s: Text8, limit: int)
    requires |s| < GO_SIZE
    ensures Compact(Compact(s, limit), limit) == Compact(s, limit)
  {
    CompactBounded(s, limit);
    CompactTrimmed(s, limit);
    TrimSpaceFixed(Compact(s, limit));
  }

  /** Only a blank result compacts to nothing. */
  lemma CompactBlank(s: Text8, limit: int)
    ensures Compact(s, limit) == [] <==> TrimSpace(s) == []
  {
    if |TrimSpace(s)| > Limit(limit) {
      KeepsHeadAndTail(s, limit);
    }
  }
}
