/**
 * The Python `str` and list operations the assistant's core relies on, each with
 * the contract that pins down what it means: `strip`, `lstrip(ch)`, `strip(ch)`,
 * `in`, `split(sep)`, `sep.join`, `split(sep)[-1]`, `split(sep)[0]`, slices with
 * Python's clamping of negative and out-of-range bounds, and `str(n)`.
 */
module Text {

  datatype Option<+T> = None | Some(value: T)

  /** A value, or the message of the exception raised instead. */
  datatype Result<+T> = Ok(value: T) | Err(error: string)

  function Min(a: int, b: int): int { if a <= b then a else b }
  function Max(a: int, b: int): int { if a <= b then b else a }

  /** The characters for which Python's `str.isspace()` holds; `str.strip()` removes exactly these. */
  predicate IsSpace(c: char)
  {
    || c == ' '
    || '\t' <= c <= '\r'
    || '\U{1c}' <= c <= '\U{1f}'
    || c == '\U{85}'
    || c == '\U{a0}'
    || c == '\U{1680}'
    || '\U{2000}' <= c <= '\U{200a}'
    || c == '\U{2028}'
    || c == '\U{2029}'
    || c == '\U{202f}'
    || c == '\U{205f}'
    || c == '\U{3000}'
  }

  /**
   * Whether `strip(chars)` removes `c`: with no argument (`None`) Python strips whitespace, with a
   * one-character argument it strips that character.
   */
  predicate Strippable(c: char, chars: Option<char>)
  {
    match chars
    case None => IsSpace(c)
    case Some(ch) => c == ch
  }

  /** `s.lstrip(chars)`: drops the longest prefix of strippable characters. */
  function LStrip(s: string, chars: Option<char>): (r: string)
    ensures |r| <= |s| && r == s[|s| - |r|..]
    ensures r != [] ==> !Strippable(r[0], chars)
    ensures forall i :: 0 <= i < |s| - |r| ==> Strippable(s[i], chars)
    decreases |s|
  {
    if s != [] && Strippable(s[0], chars) then LStrip(s[1..], chars) else s
  }

  /** `s.rstrip(chars)`: drops the longest suffix of strippable characters. */
  function RStrip(s: string, chars: Option<char>): (r: string)
    ensures |r| <= |s| && r == s[..|r|]
    ensures r != [] ==> !Strippable(r[|r| - 1], chars)
    ensures forall i :: |r| <= i < |s| ==> Strippable(s[i], chars)
    decreases |s|
  {
    if s != [] && Strippable(s[|s| - 1], chars) then RStrip(s[..|s| - 1], chars) else s
  }

  /**
   * `r` is what is left of `s` once a run of strippable characters is dropped in front and
   * another behind: a contiguous middle part of `s` with only strippable characters around it.
   */
  ghost predicate TrimmedOf(s: string, r: string, chars: Option<char>)
  {
    exists i :: TrimmedAt(s, r, chars, i)
  }

  /** `r` is `s[i..i + |r|]`, and every character of `s` outside that range is strippable. */
  predicate TrimmedAt(s: string, r: string, chars: Option<char>, i: int)
  {
    && 0 <= i <= |s| - |r| && r == s[i..i + |r|]
    && (forall k :: 0 <= k < i ==> Strippable(s[k], chars))
    && (forall k :: i + |r| <= k < |s| ==> Strippable(s[k], chars))
  }

  /**
   * `s.strip(chars)`: the middle of `s` left after dropping its strippable end runs, neither of
   * whose ends is strippable; it only keeps characters of `s`.
   */
  function StripBy(s: string, chars: Option<char>): (r: string)
    ensures |r| <= |s|
    ensures TrimmedOf(s, r, chars)
    ensures r != [] ==> !Strippable(r[0], chars) && !Strippable(r[|r| - 1], chars)
    ensures forall c :: c in r ==> c in s
  {
    var t := LStrip(s, chars);
    DropKeepsElements(s, |s| - |t|);
    var r := RStrip(t, chars);
    TakeKeepsElements(t, |r|);
    StripWitness(s, t, r, chars);
    r
  }

  /** Dropping the front run of `s` to get `t`, then the back run of `t` to get `r`, trims `s` to `r`. */
  lemma StripWitness(s: string, t: string, r: string, chars: Option<char>)
    requires |t| <= |s| && t == s[|s| - |t|..]
    requires forall k :: 0 <= k < |s| - |t| ==> Strippable(s[k], chars)
    requires |r| <= |t| && r == t[..|r|]
    requires forall k :: |r| <= k < |t| ==> Strippable(t[k], chars)
    ensures TrimmedOf(s, r, chars)
  {
    var i := |s| - |t|;
    assert r == s[i..i + |r|];
    forall k | i + |r| <= k < |s| ensures Strippable(s[k], chars) {
      assert s[k] == t[k - i];
    }
    assert TrimmedAt(s, r, chars, i);
  }

  /** Every element of a suffix is an element of the whole. */
  lemma DropKeepsElements<T>(s: seq<T>, n: nat)
    requires n <= |s|
    ensures forall c :: c in s[n..] ==> c in s
  {
    forall c | c in s[n..] ensures c in s {
      var k :| 0 <= k < |s| - n && s[n..][k] == c;
      assert s[n + k] == c;
    }
  }

  /** Every element of a prefix is an element of the whole. */
  lemma TakeKeepsElements<T>(s: seq<T>, n: nat)
    requires n <= |s|
    ensures forall c :: c in s[..n] ==> c in s
  {
    forall c | c in s[..n] ensures c in s {
      var k :| 0 <= k < n && s[..n][k] == c;
      assert s[k] == c;
    }
  }

  /** `s.strip()`: `s` without its leading and trailing whitespace runs. */
  function Strip(s: string): (r: string)
    ensures |r| <= |s|
    ensures TrimmedOf(s, r, None)
    ensures r != [] ==> !IsSpace(r[0]) && !IsSpace(r[|r| - 1])
    ensures forall c :: c in r ==> c in s
  {
    StripBy(s, None)
  }

  /** `t` occurs in `s` starting at index `i`. */
  predicate OccursAt(s: string, t: string, i: int)
  {
    0 <= i && i + |t| <= |s| && s[i..i + |t|] == t
  }

  /** Index of the first occurrence of `t` in `s` (Python's `str.find`, with None for -1). */
  function Find(s: string, t: string): (r: Option<nat>)
    ensures r.Some? ==> OccursAt(s, t, r.value)
    ensures r.Some? ==> forall j :: 0 <= j < r.value ==> !OccursAt(s, t, j)
    ensures r.None? ==> forall j :: !OccursAt(s, t, j)
  {
    FindFrom(s, t, 0)
  }

  /** `s.find(t, k)`: the first occurrence of `t` in `s` at index `k` or later. */
  function FindFrom(s: string, t: string, k: nat): (r: Option<nat>)
    ensures r.Some? ==> k <= r.value && r.value + |t| <= |s| && OccursAt(s, t, r.value)
    ensures r.Some? ==> forall j :: k <= j < r.value ==> !OccursAt(s, t, j)
    ensures r.None? ==> forall j :: k <= j ==> !OccursAt(s, t, j)
    decreases |s| - k
  {
    if |s| < k + |t| then None
    else if s[k..k + |t|] == t then Some(k)
    else FindFrom(s, t, k + 1)
  }

  /** Python's `t in s`. */
  predicate Contains(s: string, t: string)
  {
    Find(s, t).Some?
  }

  /** For a one-character needle, `[ch] in s` is plain membership. */
  lemma ContainsChar(s: string, ch: char)
    ensures Contains(s, [ch]) <==> ch in s
  {
    if ch in s {
      var i :| 0 <= i < |s| && s[i] == ch;
      assert OccursAt(s, [ch], i);
    }
    if Contains(s, [ch]) {
      var j := Find(s, [ch]).value;
      assert s[j] == s[j..j + 1][0];
    }
  }

  /** `s.split(sep)` for a non-empty separator: the pieces between the occurrences found left to right. */
  function Split(s: string, sep: string): (r: seq<string>)
    requires sep != []
    ensures |r| >= 1
  {
    SplitFrom(s, sep, 0)
  }

  /** The pieces of `s[k..]`, cut at the occurrences found scanning `s` from `k` on. */
  function SplitFrom(s: string, sep: string, k: nat): (r: seq<string>)
    requires sep != [] && k <= |s|
    ensures |r| >= 1
    decreases |s| - k
  {
    match FindFrom(s, sep, k)
    case None => [s[k..]]
    case Some(i) => [s[k..i]] + SplitFrom(s, sep, i + |sep|)
  }

  /** `sep.join(xs)`. */
  function Join(xs: seq<string>, sep: string): string
  {
    if |xs| == 0 then "" else if |xs| == 1 then xs[0] else xs[0] + sep + Join(xs[1..], sep)
  }

  /** Joining the pieces of a split with the same separator gives back the original text. */
  lemma JoinCons(x: string, xs: seq<string>, sep: string)
    requires xs != []
    ensures Join([x] + xs, sep) == x + sep + Join(xs, sep)
  {
    assert ([x] + xs)[1..] == xs;
  }

  lemma JoinSplit(s: string, sep: string)
    requires sep != []
    ensures Join(Split(s, sep), sep) == s
  {
    JoinSplitFrom(s, sep, 0);
    assert s[0..] == s;
  }

  lemma {:induction false} JoinSplitFrom(s: string, sep: string, k: nat)
    requires sep != [] && k <= |s|
    ensures Join(SplitFrom(s, sep, k), sep) == s[k..]
    decreases |s| - k
  {
    match FindFrom(s, sep, k)
    case None =>
      JoinSplitLast(s, sep, k);
    case Some(i) =>
      JoinSplitFrom(s, sep, i + |sep|);
      JoinSplitStep(s, sep, k, i);
  }

  /** The last step of `JoinSplitFrom`: with no separator left, the one piece is the rest of `s`. */
  lemma JoinSplitLast(s: string, sep: string, k: nat)
    requires sep != [] && k <= |s| && FindFrom(s, sep, k).None?
    ensures Join(SplitFrom(s, sep, k), sep) == s[k..]
  {
    assert SplitFrom(s, sep, k) == [s[k..]];
  }

  /** One step of `JoinSplitFrom`: the piece before `i`, the separator, then the join behind it. */
  lemma JoinSplitStep(s: string, sep: string, k: nat, i: nat)
    requires sep != [] && k <= |s| && FindFrom(s, sep, k) == Some(i)
    requires Join(SplitFrom(s, sep, i + |sep|), sep) == s[i + |sep|..]
    ensures Join(SplitFrom(s, sep, k), sep) == s[k..]
  {
    var j := i + |sep|;
    var tail := SplitFrom(s, sep, j);
    assert SplitFrom(s, sep, k) == [s[k..i]] + tail;
    JoinCons(s[k..i], tail, sep);
    assert s[i..j] == sep;
    SliceConcat(s, k, i, j);
    SliceConcat(s, k, j, |s|);
  }

  /** Adjacent slices concatenate. */
  lemma SliceConcat<T>(s: seq<T>, a: nat, b: nat, c: nat)
    requires a <= b <= c <= |s|
    ensures s[a..c] == s[a..b] + s[b..c]
  {
  }

  /** No piece of a split contains the separator. */
  lemma SplitPiecesFree(s: string, sep: string)
    requires sep != []
    ensures forall k :: 0 <= k < |Split(s, sep)| ==> !Contains(Split(s, sep)[k], sep)
  {
    SplitFromPiecesFree(s, sep, 0);
  }

  lemma {:induction false} SplitFromPiecesFree(s: string, sep: string, k: nat)
    requires sep != [] && k <= |s|
    ensures forall p :: 0 <= p < |SplitFrom(s, sep, k)| ==> !Contains(SplitFrom(s, sep, k)[p], sep)
    decreases |s| - k
  {
    var r := SplitFrom(s, sep, k);
    match FindFrom(s, sep, k)
    case None =>
      SuffixFree(s, sep, k);
    case Some(i) =>
      var tail := SplitFrom(s, sep, i + |sep|);
      assert r == [s[k..i]] + tail;
      SplitFromPiecesFree(s, sep, i + |sep|);
      PieceFree(s, sep, k, i);
      forall p | 0 <= p < |r| ensures !Contains(r[p], sep) {
        if p > 0 { assert r[p] == tail[p - 1]; }
      }
  }

  /** A piece `s[k..i]` holds no `t` when `t` occurs nowhere in `s` between `k` and `i`. */
  lemma PieceFree(s: string, t: string, k: nat, i: nat)
    requires t != [] && k <= i <= |s|
    requires forall j :: k <= j < i ==> !OccursAt(s, t, j)
    ensures !Contains(s[k..i], t)
  {
    if Contains(s[k..i], t) {
      var j := Find(s[k..i], t).value;
      assert OccursAt(s[k..i], t, j);
      assert k <= k + j < i;
      forall m | 0 <= m < |t| ensures s[k + j + m] == t[m] {
        assert s[k..i][j..j + |t|][m] == t[m];
      }
      assert s[k + j..k + j + |t|] == t;
      assert OccursAt(s, t, k + j);
    }
  }

  function Last<T>(xs: seq<T>): T
    requires xs != []
  {
    xs[|xs| - 1]
  }

  /** A non-empty sequence is its front followed by its last element. */
  lemma FrontLast<T>(xs: seq<T>)
    requires xs != []
    ensures xs[..|xs| - 1] + [xs[|xs| - 1]] == xs
  {
  }

  /** `[f(x) for x in xs]`. */
  function Map<A, B>(f: A -> B, xs: seq<A>): (r: seq<B>)
    ensures |r| == |xs|
    ensures forall k :: 0 <= k < |xs| ==> r[k] == f(xs[k])
  {
    seq(|xs|, k requires 0 <= k < |xs| => f(xs[k]))
  }

  lemma MapCons<A, B>(f: A -> B, x: A, xs: seq<A>)
    ensures Map(f, [x] + xs) == [f(x)] + Map(f, xs)
  {
    var l := Map(f, [x] + xs);
    forall k | 1 <= k < |l| ensures l[k] == Map(f, xs)[k - 1] {
      assert ([x] + xs)[k] == xs[k - 1];
    }
  }

  lemma ConcatAssoc<T>(a: seq<T>, b: seq<T>, c: seq<T>)
    ensures a + b + c == a + (b + c)
  {
  }

  /** Dropping the first element of a concatenation drops it from the left part. */
  lemma TailConcat<T>(a: seq<T>, b: seq<T>)
    requires a != []
    ensures (a + b)[1..] == a[1..] + b
  {
  }

  /** A prefix one element longer. */
  lemma TakeSnoc<T>(xs: seq<T>, i: nat)
    requires i < |xs|
    ensures xs[..i + 1] == xs[..i] + [xs[i]]
  {
  }

  /** Extending a prefix of `ys` by one element, behind a fixed front `xs`. */
  lemma SnocPrefix<T>(xs: seq<T>, ys: seq<T>, j: nat)
    requires j < |ys|
    ensures xs + ys[..j + 1] == (xs + ys[..j]) + [ys[j]]
  {
    assert ys[..j + 1] == ys[..j] + [ys[j]];
  }

  /** Appending an element commutes with dropping a prefix, and keeps every prefix. */
  lemma DropSnoc<T>(xs: seq<T>, x: T, n: nat)
    requires n <= |xs|
    ensures (xs + [x])[n..] == xs[n..] + [x]
    ensures xs[..n] <= xs + [x]
  {
  }

  /**
   * Where `s.split(sep)[-1]` starts: just behind the last separator found scanning left to right,
   * or 0 when `sep` does not occur. No separator is found from there on, and one ends right there.
   */
  function LastCut(s: string, sep: string): (n: nat)
    requires sep != []
    ensures n <= |s|
    ensures FindFrom(s, sep, n).None?
    ensures !Contains(s, sep) ==> n == 0
    ensures Contains(s, sep) ==> n >= |sep| && OccursAt(s, sep, n - |sep|)
  {
    LastCutFrom(s, sep, 0)
  }

  /** `LastCut`, scanning from index `k` on: `k` itself when no separator occurs from `k` on. */
  function LastCutFrom(s: string, sep: string, k: nat): (n: nat)
    requires sep != [] && k <= |s|
    ensures k <= n <= |s|
    ensures FindFrom(s, sep, n).None?
    ensures FindFrom(s, sep, k).None? ==> n == k
    ensures FindFrom(s, sep, k).Some? ==> n >= k + |sep| && OccursAt(s, sep, n - |sep|)
    decreases |s| - k
  {
    match FindFrom(s, sep, k)
    case None => k
    case Some(i) => LastCutFrom(s, sep, i + |sep|)
  }

  /** An occurrence in a suffix `s[n..]` is an occurrence in `s`, `n` further on. */
  lemma OccursInDrop(s: string, t: string, n: nat, j: int)
    requires n <= |s| && OccursAt(s[n..], t, j)
    ensures OccursAt(s, t, n + j)
  {
    assert s[n + j..n + j + |t|] == s[n..][j..j + |t|];
  }

  /**
   * `s.split(sep)[-1]`: the text after the last separator found, a suffix of `s` that holds no
   * separator and, when `sep` occurs, starts right behind an occurrence of it; the whole of `s`
   * when `sep` does not occur.
   */
  function AfterLast(s: string, sep: string): (r: string)
    requires sep != []
    ensures !Contains(r, sep)
    ensures |r| <= |s| && r == s[|s| - |r|..]
    ensures Contains(s, sep) ==> OccursAt(s, sep, |s| - |r| - |sep|)
    ensures !Contains(s, sep) ==> r == s
  {
    var n := LastCut(s, sep);
    assert forall j :: n <= j ==> !OccursAt(s, sep, j);
    SuffixFree(s, sep, n);
    assert n == |s| - |s[n..]|;
    s[n..]
  }

  /** A suffix `s[n..]` holds no `t` when `t` occurs nowhere in `s` from `n` on. */
  lemma SuffixFree(s: string, t: string, n: nat)
    requires n <= |s|
    requires forall j :: n <= j ==> !OccursAt(s, t, j)
    ensures !Contains(s[n..], t)
  {
    if Contains(s[n..], t) {
      OccursInDrop(s, t, n, Find(s[n..], t).value);
    }
  }

  /** `s.split(sep)[0]`: the text before the first separator, or the whole of `s`. */
  function BeforeFirst(s: string, sep: string): (r: string)
    requires sep != []
    ensures !Contains(r, sep)
    ensures |r| <= |s| && r == s[..|r|]
    ensures Contains(s, sep) ==> OccursAt(s, sep, |r|)
    ensures !Contains(s, sep) ==> r == s
  {
    match Find(s, sep)
    case None => assert s[|s| - |s|..] == s; s
    case Some(i) =>
      forall j | OccursAt(s[..i], sep, j) ensures false {
        assert s[j..j + |sep|] == s[..i][j..j + |sep|];
        assert OccursAt(s, sep, j);
      }
      s[..i]
  }

  /** Python's `xs[start:]`: a suffix of `xs`; a negative `start` counts from the end. */
  function SliceFrom<T>(xs: seq<T>, start: int): (r: seq<T>)
    ensures |r| <= |xs| && r == xs[|xs| - |r|..]
    ensures start >= 0 ==> |r| == Max(|xs| - start, 0)
    ensures start < 0 ==> |r| == Min(-start, |xs|)
  {
    if start < 0 then xs[Max(|xs| + start, 0)..] else xs[Min(start, |xs|)..]
  }

  /** Python's `xs[:stop]`: a prefix of `xs`; a negative `stop` drops elements from the end. */
  function SliceTo<T>(xs: seq<T>, stop: int): (r: seq<T>)
    ensures |r| <= |xs| && r == xs[..|r|]
    ensures stop >= 0 ==> |r| == Min(stop, |xs|)
    ensures stop < 0 ==> |r| == Max(|xs| + stop, 0)
  {
    if stop < 0 then xs[..Max(|xs| + stop, 0)] else xs[..Min(stop, |xs|)]
  }

  function Digit(d: nat): char
    requires d < 10
  {
    "0123456789"[d]
  }

  /** Python's `str(n)` for a natural number: decimal digits, no leading zero. */
  function NatToString(n: nat): (r: string)
    ensures |r| >= 1
    ensures forall c :: c in r ==> '0' <= c <= '9'
    ensures n > 0 ==> r[0] != '0'
  {
    if n < 10 then [Digit(n)] else NatToString(n / 10) + [Digit(n % 10)]
  }

  /** Python's `str(i)`. */
  function IntToString(i: int): string
  {
    if i < 0 then "-" + NatToString(-i) else NatToString(i)
  }

  /** `s.replace(from, to)` for one-character `from` and `to`. */
  function ReplaceChar(s: string, from: char, to: char): (r: string)
    ensures |r| == |s|
    ensures forall i :: 0 <= i < |s| ==> r[i] == (if s[i] == from then to else s[i])
  {
    seq(|s|, i requires 0 <= i < |s| => if s[i] == from then to else s[i])
  }
}
