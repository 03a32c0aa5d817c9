/**
 * The two JavaScript string built-ins the session hook relies on:
 * `String.prototype.split` with a non-empty string separator, and
 * `String.prototype.toLowerCase` (on ASCII letters).
 */
module JsStrings {

  import opened Wrappers

  /** `sep` occurs in `s` starting at index `k`. */
  predicate OccursAt(s: string, sep: string, k: nat) {
    k + |sep| <= |s| && s[k..k + |sep|] == sep
  }

  /** `sep` occurs somewhere in `s`. */
  predicate Contains(s: string, sep: string) {
    exists k: nat :: k < |s| && OccursAt(s, sep, k)
  }

  /** The first index at or after `from` where `sep` occurs, as the search inside `split` finds it. */
  function IndexOf(s: string, sep: string, from: nat): (r: Option<nat>)
    requires |sep| > 0
    decreases |s| - from
    ensures r.Some? ==> from <= r.value && OccursAt(s, sep, r.value)
    ensures r.Some? ==> forall k: nat :: from <= k < r.value ==> !OccursAt(s, sep, k)
    ensures r.None? ==> forall k: nat :: from <= k ==> !OccursAt(s, sep, k)
  {
    if |s| < from + |sep| then None
    else if s[from..from + |sep|] == sep then Some(from)
    else IndexOf(s, sep, from + 1)
  }

  /**
   * `s.split(sep)`: the pieces between the non-overlapping occurrences of `sep`,
   * scanning from the left. There is always at least one piece.
   */
  function Split(s: string, sep: string): (pieces: seq<string>)
    requires |sep| > 0
    decreases |s|
    ensures |pieces| >= 1
    ensures pieces[0] <= s
  {
    match IndexOf(s, sep, 0)
    case None => [s]
    case Some(i) => [s[..i]] + Split(s[i + |sep|..], sep)
  }

  /** `pieces.join(sep)`. */
  function Join(pieces: seq<string>, sep: string): string
    requires |pieces| >= 1
  {
    if |pieces| == 1 then pieces[0] else pieces[0] + sep + Join(pieces[1..], sep)
  }

  /** The text before the first occurrence of `sep` does not contain `sep`. */
  lemma PrefixBeforeFirstHasNone(s: string, sep: string, i: nat)
    requires |sep| > 0
    requires OccursAt(s, sep, i)
    requires forall k: nat :: k < i ==> !OccursAt(s, sep, k)
    ensures !Contains(s[..i], sep)
  {
    if Contains(s[..i], sep) {
      var p := s[..i];
      var k: nat :| k < |p| && OccursAt(p, sep, k);
      assert k + |sep| <= i;
      assert p[k..k + |sep|] == s[k..k + |sep|];
      assert OccursAt(s, sep, k);
    }
  }

  /** Splitting and joining back with the same separator gives the original string. */
  lemma {:induction false} JoinSplit(s: string, sep: string)
    requires |sep| > 0
    decreases |s|
    ensures Join(Split(s, sep), sep) == s
  {
    var found := IndexOf(s, sep, 0);
    if found.Some? {
      var i := found.value;
      var rest := s[i + |sep|..];
      var tail := Split(rest, sep);
      SplitAtFirst(s, sep, i);
      JoinSplit(rest, sep);
      assert Join(Split(s, sep), sep) == s[..i] + sep + Join(tail, sep);
      assert s[i..i + |sep|] == sep;
      assert s == s[..i] + sep + rest;
    }
  }

  /** No piece of a split contains the separator. */
  lemma {:induction false} SplitPiecesHaveNoSeparator(s: string, sep: string)
    requires |sep| > 0
    decreases |s|
    ensures forall i :: 0 <= i < |Split(s, sep)| ==> !Contains(Split(s, sep)[i], sep)
  {
    var found := IndexOf(s, sep, 0);
    if found.Some? {
      var i := found.value;
      var rest := s[i + |sep|..];
      SplitAtFirst(s, sep, i);
      PrefixBeforeFirstHasNone(s, sep, i);
      SplitPiecesHaveNoSeparator(rest, sep);
    }
  }

  /** A split has more than one piece exactly when the separator occurs. */
  lemma SplitHasOnePieceIff(s: string, sep: string)
    requires |sep| > 0
    ensures |Split(s, sep)| == 1 <==> !Contains(s, sep)
  {
    var found := IndexOf(s, sep, 0);
    if found.Some? {
      var i := found.value;
      SplitAtFirst(s, sep, i);
      assert |Split(s, sep)| >= 2;
      assert i < |s| && OccursAt(s, sep, i);
    } else {
      assert Split(s, sep) == [s];
    }
  }

  /** No piece of a split contains the separator, and there is more than one piece exactly when the separator occurs. */
  lemma SplitPieces(s: string, sep: string)
    requires |sep| > 0
    ensures forall i :: 0 <= i < |Split(s, sep)| ==> !Contains(Split(s, sep)[i], sep)
    ensures |Split(s, sep)| == 1 <==> !Contains(s, sep)
  {
    SplitPiecesHaveNoSeparator(s, sep);
    SplitHasOnePieceIff(s, sep);
  }

  /** Splitting `sep + x`, where `x` holds no `sep`, gives exactly `["", x]`. */
  lemma SplitAfterLeadingSeparator(sep: string, x: string)
    requires |sep| > 0
    requires !Contains(x, sep)
    ensures Split(sep + x, sep) == ["", x]
  {
    var s := sep + x;
    assert OccursAt(s, sep, 0) by { assert s[0..|sep|] == sep; }
    assert s[|sep|..] == x;
    assert Split(x, sep) == [x];
  }

  /** No proper suffix of `sep` is also a prefix of it, so two occurrences of `sep` can never overlap. */
  predicate Unbordered(sep: string) {
    forall d :: 0 < d < |sep| ==> sep[d..] != sep[..|sep| - d]
  }

  /** Two occurrences of `sep` less than `|sep|` apart make a suffix of `sep` equal to a prefix of it. */
  lemma OverlapIsBorder(s: string, sep: string, k: nat, i: nat)
    requires k < i < k + |sep|
    ensures OccursAt(s, sep, k) && OccursAt(s, sep, i) ==> sep[i - k..] == sep[..|sep| - (i - k)]
  {
    if OccursAt(s, sep, k) && OccursAt(s, sep, i) {
      var d := i - k;
      forall j | 0 <= j < |sep| - d
        ensures sep[d..][j] == sep[..|sep| - d][j]
      {
        assert s[k..k + |sep|][d + j] == s[i + j];
        assert s[i..i + |sep|][j] == s[i + j];
      }
    }
  }

  /**
   * In `x + sep + y`, where `x` holds no `sep` and `sep` cannot overlap itself,
   * the first occurrence of `sep` is the one right after `x`.
   */
  lemma FirstOccurrenceAfter(x: string, sep: string, y: string)
    requires |sep| > 0 && Unbordered(sep)
    requires !Contains(x, sep)
    ensures IndexOf(x + sep + y, sep, 0) == Some(|x|)
  {
    var s := x + sep + y;
    assert s[|x|..|x| + |sep|] == sep;
    assert OccursAt(s, sep, |x|);
    forall k: nat | k < |x|
      ensures !OccursAt(s, sep, k)
    {
      if k + |sep| <= |x| {
        // An occurrence inside `x` would be one of `x`.
        assert x[k..k + |sep|] == s[k..k + |sep|];
        assert !OccursAt(x, sep, k);
      } else {
        // One straddling the end of `x` would make a border of `sep`.
        OverlapIsBorder(s, sep, k, |x|);
      }
    }
  }

  /** Splitting at the first occurrence of `sep`, found at `i`. */
  lemma SplitAtFirst(s: string, sep: string, i: nat)
    requires |sep| > 0
    requires IndexOf(s, sep, 0) == Some(i)
    ensures Split(s, sep) == [s[..i]] + Split(s[i + |sep|..], sep)
  {
  }

  /** A string without `sep` splits into itself alone. */
  lemma SplitWithoutSeparator(s: string, sep: string)
    requires |sep| > 0
    requires !Contains(s, sep)
    ensures Split(s, sep) == [s]
  {
  }

  /** Splitting `p + sep + rest`, where `p` holds no `sep`, gives `p` and then the pieces of `rest`. */
  lemma SplitAfterFirstPiece(p: string, sep: string, rest: string)
    requires |sep| > 0 && Unbordered(sep)
    requires !Contains(p, sep)
    ensures Split(p + sep + rest, sep) == [p] + Split(rest, sep)
  {
    var s := p + sep + rest;
    FirstOccurrenceAfter(p, sep, rest);
    assert s[..|p|] == p && s[|p| + |sep|..] == rest;
    SplitAtFirst(s, sep, |p|);
  }

  /** The first piece of `a + q` is `a` when `a` holds no `sep` and `q` is empty or starts with `sep`. */
  lemma SplitFirstPiece(a: string, sep: string, q: string)
    requires |sep| > 0 && Unbordered(sep)
    requires !Contains(a, sep)
    requires q == [] || OccursAt(q, sep, 0)
    ensures Split(a + q, sep)[0] == a
  {
    if q == [] {
      assert a + q == a;
      SplitWithoutSeparator(a, sep);
    } else {
      var tail := q[|sep|..];
      assert q == sep + tail;
      assert a + q == a + sep + tail;
      SplitAfterFirstPiece(a, sep, tail);
    }
  }

  /**
   * The second piece of a split: `(p + sep + a + q).split(sep)[1] == a` when neither `p`
   * nor `a` holds `sep` and `q` is empty or starts with `sep`.
   */
  lemma SplitSecondPiece(sep: string, p: string, a: string, q: string)
    requires |sep| > 0 && Unbordered(sep)
    requires !Contains(p, sep) && !Contains(a, sep)
    requires q == [] || OccursAt(q, sep, 0)
    ensures |Split(p + sep + a + q, sep)| >= 2
    ensures Split(p + sep + a + q, sep)[1] == a
  {
    var s := p + sep + a + q;
    assert s == p + sep + (a + q);
    SplitAfterFirstPiece(p, sep, a + q);
    assert Split(s, sep) == [p] + Split(a + q, sep);
    SplitFirstPiece(a, sep, q);
    assert Split(s, sep)[1] == Split(a + q, sep)[0];
  }

  /** An ASCII upper-case letter. */
  predicate IsUpper(c: char) {
    'A' <= c <= 'Z'
  }

  /** `toLowerCase` on one character: ASCII upper-case letters become lower-case, everything else stays. */
  function LowerChar(c: char): (r: char)
    ensures !IsUpper(r)
    ensures IsUpper(c) ==> r as int == c as int + 32
    ensures !IsUpper(c) ==> r == c
  {
    if IsUpper(c) then (c as int + 32) as char else c
  }

  /** `s.toLowerCase()`, character by character. */
  function Lower(s: string): (r: string)
    decreases |s|
    ensures |r| == |s|
    ensures forall i :: 0 <= i < |s| ==> r[i] == LowerChar(s[i])
  {
    if s == [] then [] else [LowerChar(s[0])] + Lower(s[1..])
  }

  /** The result of `toLowerCase` holds no upper-case letter, and lowering it again changes nothing. */
  lemma LowerIsIdempotent(s: string)
    ensures forall i :: 0 <= i < |Lower(s)| ==> !IsUpper(Lower(s)[i])
    ensures Lower(Lower(s)) == Lower(s)
  {
  }
}
