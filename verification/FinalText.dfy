/** The choice between the streamed text and the completion message when a stream ends. */
module FinalText {
  import opened Text
  import opened Bytes
  import opened SnapshotMerge

  function Sample(size: nat): nat {
    if size < 4 then 1 else 2
  }

  /** The sampled pieces of `short` from position `i` on. */
  function Pieces(short: Text8, step: nat, i: nat): seq<Text8>
    requires step > 0
    decreases |short| - i
  {
    if i + step > |short| then [] else [short[i..i + step]] + Pieces(short, step, i + step)
  }

  function Hits(pieces: seq<Text8>, long: Text8): nat {
    if pieces == [] then 0 else (if Contains(long, pieces[0]) then 1 else 0) + Hits(pieces[1..], long)
  }

  function Shorter(a: Text8, b: Text8): Text8 { if |a| > |b| then b else a }

  function Longer(a: Text8, b: Text8): Text8 { if |a| > |b| then a else b }

  function Sampled(a: Text8, b: Text8): seq<Text8> {
    Pieces(Shorter(a, b), Sample(|Shorter(a, b)|), 0)
  }

  /** The fraction of sampled pieces of the shorter text that occur in the longer one. */
  function Overlap(a: Text8, b: Text8): real {
    var pieces := Sampled(a, b);
    if a == [] || b == [] || pieces == [] then 0.0
    else Hits(pieces, Longer(a, b)) as real / |pieces| as real
  }

  lemma {:induction false} HitsBounded(pieces: seq<Text8>, long: Text8)
    ensures Hits(pieces, long) <= |pieces|
    ensures Hits(pieces, long) == |pieces| <==> forall p | p in pieces :: Contains(long, p)
    ensures Hits(pieces, long) == 0 <==> forall p | p in pieces :: !Contains(long, p)
  {
    if pieces != [] {
      HitsBounded(pieces[1..], long);
      assert pieces == [pieces[0]] + pieces[1..];
    }
  }

  lemma SameSign(x: real, y: real)
    requires y > 0.0
    ensures x * y >= 0.0 <==> x >= 0.0
  {
    if x < 0.0 {
      assert (-x) * y > 0.0;
      assert (-x) * y == -(x * y);
    }
  }

  lemma Fraction(m: nat, n: nat)
    requires 0 < n && m <= n
    ensures 0.0 <= m as real / n as real <= 1.0
    ensures m as real / n as real == 1.0 <==> m == n
    ensures m as real / n as real >= 0.7 <==> 10 * m >= 7 * n
  {
    var q := m as real / n as real;
    assert q * n as real == m as real;
    assert (1.0 - q) * n as real == (n - m) as real >= 0.0;
    if q == 1.0 {
      assert m as real == n as real;
    }
    SameSign(q - 0.7, n as real);
    assert (q - 0.7) * n as real == m as real - 0.7 * n as real;
    assert 10.0 * (m as real - 0.7 * n as real) == (10 * m - 7 * n) as real;
  }

  /** The ratio lies between 0 and 1, and is 1 exactly when every sampled piece occurs. */
  lemma OverlapRange(a: Text8, b: Text8)
    ensures 0.0 <= Overlap(a, b) <= 1.0
    ensures if |a| <= |b| then Shorter(a, b) == a && Longer(a, b) == b else Shorter(a, b) == b && Longer(a, b) == a
    ensures a != [] && b != [] ==>
              (Overlap(a, b) == 1.0 <==> forall p | p in Sampled(a, b) :: Contains(Longer(a, b), p))
  {
    var pieces := Sampled(a, b);
    HitsBounded(pieces, Longer(a, b));
    if a != [] && b != [] {
      assert pieces != [];
      Fraction(Hits(pieces, Longer(a, b)), |pieces|);
    }
  }

  lemma {:induction false} PiecesFrom(short: Text8, step: nat, i: nat, n: nat)
    requires step > 0 && i + step * n <= |short| < i + step * n + step
    ensures |Pieces(short, step, i)| == n
    ensures forall k | 0 <= k < n :: i <= i + step * k <= i + step * k + step <= |short|
                                     && Pieces(short, step, i)[k] == short[i + step * k..i + step * k + step]
    decreases n
  {
    if n > 0 {
      assert step * n == step + step * (n - 1);
      PiecesFrom(short, step, i + step, n - 1);
      var pieces := Pieces(short, step, i);
      forall k | 0 <= k < n
        ensures i <= i + step * k <= i + step * k + step <= |short|
        ensures pieces[k] == short[i + step * k..i + step * k + step]
      {
        if k > 0 {
          assert i + step + step * (k - 1) == i + step * k;
        }
      }
    }
  }

  /** What is sampled of the shorter signature: every byte of a very short one, and otherwise its pairs
      of bytes one after the other, without a last odd byte. */
  lemma SampledExactly(a: Text8, b: Text8)
    ensures var s := Shorter(a, b);
            if |s| < 4 then |Sampled(a, b)| == |s| && forall k | 0 <= k < |s| :: Sampled(a, b)[k] == [s[k]]
            else
              |Sampled(a, b)| == |s| / 2
              && forall k | 0 <= k < |s| / 2 :: Sampled(a, b)[k] == [s[2 * k], s[2 * k + 1]]
  {
    var s := Shorter(a, b);
    if |s| < 4 {
      PiecesFrom(s, 1, 0, |s|);
    } else {
      PiecesFrom(s, 2, 0, |s| / 2);
    }
  }

  /** It reaches seven tenths exactly when at least seven in ten sampled pieces occur. */
  lemma OverlapReached(a: Text8, b: Text8)
    requires a != [] && b != []
    ensures Overlap(a, b) >= 0.7 <==> 10 * Hits(Sampled(a, b), Longer(a, b)) >= 7 * |Sampled(a, b)|
  {
    var pieces := Sampled(a, b);
    HitsBounded(pieces, Longer(a, b));
    assert pieces != [];
    Fraction(Hits(pieces, Longer(a, b)), |pieces|);
  }

  lemma {:induction false} PiecesOccur(short: Text8, step: nat, i: nat)
    requires step > 0
    ensures forall p | p in Pieces(short, step, i) :: Contains(short, p)
    decreases |short| - i
  {
    if i + step <= |short| {
      PiecesOccur(short, step, i + step);
      assert At(short, i, short[i..i + step]);
    }
  }

  lemma ContainsTransitive(long: Text8, mid: Text8, p: Text8)
    requires Contains(long, mid) && Contains(mid, p)
    ensures Contains(long, p)
  {
    var i :| 0 <= i <= |long| && At(long, i, mid);
    var j :| 0 <= j <= |mid| && At(mid, j, p);
    forall k | 0 <= k < |p| ensures long[i + j..i + j + |p|][k] == p[k] {
      assert long[i + j + k] == long[i..i + |mid|][j + k] == mid[j..j + |p|][k];
    }
    assert long[i + j..i + j + |p|] == p;
    assert At(long, i + j, p);
  }

  /** A signature that occurs in the other one overlaps completely. */
  lemma OverlapOfPart(a: Text8, b: Text8)
    requires a != [] && b != [] && Contains(Longer(a, b), Shorter(a, b))
    ensures Overlap(a, b) == 1.0
  {
    OverlapRange(a, b);
    PiecesOccur(Shorter(a, b), Sample(|Shorter(a, b)|), 0);
    forall p | p in Sampled(a, b) ensures Contains(Longer(a, b), p) {
      ContainsTransitive(Longer(a, b), Shorter(a, b), p);
    }
  }

  method OverlapRatio(a: Text8, b: Text8) returns (r: real)
    ensures r == Overlap(a, b)
    ensures 0.0 <= r <= 1.0
  {
    OverlapRange(a, b);
    if a == [] || b == [] {
      return 0.0;
    }
    var short, long := a, b;
    if |short| > |long| {
      short, long := long, short;
    }
    var step := if |short| < 4 then 1 else 2;
    var matched, total := CountPieces(short, long, step);
    if total == 0 {
      return 0.0;
    }
    r := matched as real / total as real;
  }

  /** The sampling loop. */
  method CountPieces(short: Text8, long: Text8, step: nat) returns (matched: nat, total: nat)
    requires step > 0
    ensures total == |Pieces(short, step, 0)| && matched == Hits(Pieces(short, step, 0), long)
  {
    matched, total := 0, 0;
    var i := 0;
    ghost var pieces := Pieces(short, step, 0);
    while i + step <= |short|
      invariant 0 <= i <= |short|
      invariant |pieces| == total + |Pieces(short, step, i)|
      invariant Hits(pieces, long) == matched + Hits(Pieces(short, step, i), long)
    {
      var piece := short[i..i + step];
      assert Pieces(short, step, i)[0] == piece && Pieces(short, step, i)[1..] == Pieces(short, step, i + step);
      total := total + 1;
      if Contains(long, piece) {
        matched := matched + 1;
      }
      i := i + step;
    }
  }

  function Reconcile(strip: string -> string, streamed: string, final: string): string {
    var s, f := Clean(strip, Trim(streamed)), Clean(strip, Trim(final));
    if s == "" then f
    else if f == "" || f == s then s
    else if s <= f then f
    else if f <= s then s
    else
      var sSig, fSig := Signature(strip, s), Signature(strip, f);
      if fSig == "" || sSig == "" then s
      else if Contains(fSig, sSig) && |f| >= |s| * 3 / 4 then f
      else if Overlap(Utf8(sSig), Utf8(fSig)) >= 0.7 && |f| > |s| then f
      else s
  }

  /** The result is one of the two cleaned texts, never shorter than three quarters of the streamed
      one, empty only when both are, and the longer one when they agree as far as they go. */
  lemma ReconcileChoosesWell(strip: string -> string, streamed: string, final: string)
    ensures var s, f := Clean(strip, Trim(streamed)), Clean(strip, Trim(final));
            var r := Reconcile(strip, streamed, final);
            && (r == s || r == f)
            && (r == "" <==> s == "" && f == "")
            && (s <= f ==> r == f) && (f <= s ==> r == s)
            && |r| >= 3 * |s| / 4
            && (r != s ==> s <= f || |f| > |s| || Contains(Signature(strip, f), Signature(strip, s)))
  {
  }

  /** Texts that do not simply continue each other, and that have something to compare. */
  predicate Differ(strip: string -> string, s: string, f: string) {
    !(s <= f) && !(f <= s) && Signature(strip, s) != "" && Signature(strip, f) != ""
  }

  /** At least three quarters of the runes, rounded down. */
  predicate NotMuchShorter(f: string, s: string) {
    4 * |f| + 3 >= 3 * |s|
  }

  /** At least seven in ten of the sampled pieces of the shorter signature occur in the longer one. */
  predicate MostlyCovered(sSig: string, fSig: string) {
    var a, b := Utf8(sSig), Utf8(fSig);
    a != [] && b != [] && 10 * Hits(Sampled(a, b), Longer(a, b)) >= 7 * |Sampled(a, b)|
  }

  /** Such texts: the final one is taken if and only if its signature contains the streamed one and it
      is not much shorter, or the streamed one is mostly covered and it is longer. */
  lemma ReconcileExactly(strip: string -> string, streamed: string, final: string)
    requires Differ(strip, Clean(strip, Trim(streamed)), Clean(strip, Trim(final)))
    ensures var s, f := Clean(strip, Trim(streamed)), Clean(strip, Trim(final));
            var sSig, fSig := Signature(strip, s), Signature(strip, f);
            var takes := (Contains(fSig, sSig) && NotMuchShorter(f, s)) || (MostlyCovered(sSig, fSig) && |f| > |s|);
            && s != f
            && Reconcile(strip, streamed, final) == if takes then f else s
  {
    var s, f := Clean(strip, Trim(streamed)), Clean(strip, Trim(final));
    var a, b := Utf8(Signature(strip, s)), Utf8(Signature(strip, f));
    if a != [] && b != [] {
      OverlapReached(a, b);
    }
  }

  /** Without something to compare the streamed text stays, unless the final one continues it. */
  lemma ReconcileElsewhere(strip: string -> string, streamed: string, final: string)
    ensures var s, f := Clean(strip, Trim(streamed)), Clean(strip, Trim(final));
            !Differ(strip, s, f) ==> Reconcile(strip, streamed, final) == if s <= f then f else s
  {
  }

  /** A final text that shares no sampled piece with the streamed one and does not contain it is not
      taken, however long it is. */
  lemma UnrelatedIsNotTaken(strip: string -> string, streamed: string, final: string)
    requires var s, f := Clean(strip, Trim(streamed)), Clean(strip, Trim(final));
             var sSig, fSig := Signature(strip, s), Signature(strip, f);
             && Differ(strip, s, f) && !Contains(fSig, sSig)
             && forall p | p in Sampled(Utf8(sSig), Utf8(fSig)) :: !Contains(Longer(Utf8(sSig), Utf8(fSig)), p)
    ensures Reconcile(strip, streamed, final) == Clean(strip, Trim(streamed))
  {
    var s, f := Clean(strip, Trim(streamed)), Clean(strip, Trim(final));
    var a, b := Utf8(Signature(strip, s)), Utf8(Signature(strip, f));
    HitsBounded(Sampled(a, b), Longer(a, b));
    ReconcileExactly(strip, streamed, final);
    assert a != [] && b != [] ==> Sampled(a, b) != [];
  }

  method FinalTextReconcile(strip: string -> string, streamed: string, final: string) returns (r: string)
    ensures r == Reconcile(strip, streamed, final)
  {
    var s, f := Clean(strip, Trim(streamed)), Clean(strip, Trim(final));
    if s == "" {
      return f;
    }
    if f == "" || f == s {
      return s;
    }
    if s <= f {
      return f;
    }
    if f <= s {
      return s;
    }
    var sSig, fSig := Signature(strip, s), Signature(strip, f);
    if fSig == "" || sSig == "" {
      return s;
    }
    if Contains(fSig, sSig) && |f| >= |s| * 3 / 4 {
      return f;
    }
    var overlap := OverlapRatio(Utf8(sSig), Utf8(fSig));
    if overlap >= 0.7 && |f| > |s| {
      return f;
    }
    r := s;
  }
}
