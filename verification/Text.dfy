/** Runes, prefixes, suffixes and substring search, as the Go `strings` package has them. */
module Text {

  datatype Option<+T> = None | Some(value: T)

  /** Three backticks, which open and close a fenced block. */
  const FENCE := "```"

  /** The white space that Go's unicode.IsSpace accepts. */
  predicate IsSpace(c: char) {
    || '\t' <= c <= '\r'
    || c == ' ' || c == '\U{85}' || c == '\U{A0}' || c == '\U{1680}'
    || '\U{2000}' <= c <= '\U{200A}'
    || c == '\U{2028}' || c == '\U{2029}' || c == '\U{202F}' || c == '\U{205F}' || c == '\U{3000}'
  }

  function TrimLeft(s: string): string {
    if s != "" && IsSpace(s[0]) then TrimLeft(s[1..]) else s
  }

  function TrimRight(s: string): string {
    if s != "" && IsSpace(s[|s| - 1]) then TrimRight(s[..|s| - 1]) else s
  }

  function Trim(s: string): string {
    TrimRight(TrimLeft(s))
  }

  /** Neither end of `s` is white space. */
  predicate Trimmed(s: string) {
    s == "" || (!IsSpace(s[0]) && !IsSpace(s[|s| - 1]))
  }

  /** The word `p` stands in `s` at position `i`. */
  predicate At<T(==)>(s: seq<T>, i: int, p: seq<T>) {
    0 <= i && i + |p| <= |s| && s[i..i + |p|] == p
  }

  predicate HasPrefix<T(==)>(s: seq<T>, p: seq<T>) {
    At(s, 0, p)
  }

  predicate HasSuffix<T(==)>(s: seq<T>, p: seq<T>) {
    At(s, |s| - |p|, p)
  }

  predicate Contains<T(==)>(s: seq<T>, p: seq<T>) {
    exists i :: 0 <= i <= |s| && At(s, i, p)
  }

  /** The first position at or after `from` where `p` stands in `s`, or -1. */
  function IndexFrom<T(==)>(s: seq<T>, p: seq<T>, from: nat): (i: int)
    requires from <= |s|
    ensures i == -1 || (from <= i && At(s, i, p))
    ensures forall j {:trigger At(s, j, p)} :: from <= j <= |s| && At(s, j, p) ==> 0 <= i <= j
    decreases |s| - from
  {
    if At(s, from, p) then from
    else if from == |s| then -1
    else IndexFrom(s, p, from + 1)
  }

  function Index<T(==)>(s: seq<T>, p: seq<T>): (i: int)
    ensures i == -1 || At(s, i, p)
    ensures forall j {:trigger At(s, j, p)} :: At(s, j, p) ==> 0 <= i <= j
    ensures i >= 0 <==> Contains(s, p)
  {
    IndexFrom(s, p, 0)
  }

  /** Where a text splits at the first occurrence of a word. */
  lemma SplitAtFirst(s: string, p: string)
    requires Index(s, p) >= 0
    ensures var i := Index(s, p);
            s == s[..i] + p + s[i + |p|..] && Index(s[..i] + p, p) == i
  {
    var i := Index(s, p);
    assert s[i..i + |p|] == p;
    var w := s[..i] + p;
    assert w == s[..i + |p|] && w[i..i + |p|] == p;
    assert At(w, i, p);
    forall k | 0 <= k < i ensures !At(w, k, p) {
      assert !At(s, k, p);
      if k + |p| <= |w| {
        assert w[k..k + |p|] == s[k..k + |p|];
      }
    }
  }

  /** Trimming leaves text alone exactly when the text has no outer white space. */
  lemma TrimFixed(s: string)
    ensures Trim(s) == s <==> Trimmed(s)
  {
    TrimLeftLength(s);
    TrimRightLength(TrimLeft(s));
  }

  lemma {:induction false} TrimLeftStops(s: string)
    ensures TrimLeft(s) == "" <==> forall k | 0 <= k < |s| :: IsSpace(s[k])
    ensures TrimLeft(s) != "" ==> !IsSpace(TrimLeft(s)[0])
  {
    if s != "" && IsSpace(s[0]) {
      TrimLeftStops(s[1..]);
      assert forall k | 1 <= k < |s| :: s[k] == s[1..][k - 1];
    }
  }

  lemma {:induction false} TrimRightKeepsFront(s: string)
    requires s != "" && !IsSpace(s[0])
    ensures TrimRight(s) != ""
  {
    if IsSpace(s[|s| - 1]) {
      TrimRightKeepsFront(s[..|s| - 1]);
    }
  }

  /** Text trims to nothing exactly when all of it is white space. */
  lemma TrimsToNothing(s: string)
    ensures Trim(s) == "" <==> forall k | 0 <= k < |s| :: IsSpace(s[k])
  {
    TrimLeftStops(s);
    if TrimLeft(s) != "" {
      TrimRightKeepsFront(TrimLeft(s));
    }
  }

  lemma {:induction false} TrimLeftLength(s: string)
    ensures |TrimLeft(s)| <= |s|
    ensures s != "" && IsSpace(s[0]) ==> |TrimLeft(s)| < |s|
  {
    if s != "" && IsSpace(s[0]) {
      TrimLeftLength(s[1..]);
    }
  }

  lemma {:induction false} TrimRightLength(s: string)
    ensures |TrimRight(s)| <= |s|
    ensures s != "" && IsSpace(s[|s| - 1]) ==> |TrimRight(s)| < |s|
  {
    if s != "" && IsSpace(s[|s| - 1]) {
      TrimRightLength(s[..|s| - 1]);
    }
  }
}
