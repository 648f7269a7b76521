/** Result wrapper used for the exceptions the program raises or catches. */
module Wrappers {
  datatype Option<+T> = None | Some(value: T)

  datatype Result<+T, +E> = Ok(value: T) | Err(error: E)
}

/**
 * The string primitives the program leans on: `str.lower`, `str.strip`,
 * `str.split()`, `in` on strings, `str.isalpha`, `str.isdigit`, and
 * `sep.join`. Whitespace, letters and case mapping are given for ASCII and
 * the Cyrillic block, which is what the program's Russian-language data uses.
 */
module Text {

  /** Python's whitespace for `strip()`/`split()` and the regex `\s` (ASCII part). */
  predicate IsSpace(c: char) {
    c == ' ' || c == '\t' || c == '\n' || c == '\r' || c == '\U{000B}' || c == '\U{000C}'
  }

  predicate IsDigit(c: char) {
    '0' <= c <= '9'
  }

  predicate IsLetter(c: char) {
    ('a' <= c <= 'z') || ('A' <= c <= 'Z') || ('А' <= c <= 'я') || c == 'Ё' || c == 'ё'
  }

  /** `s.isalpha()`: non-empty and every character a letter. */
  predicate IsAlpha(s: string) {
    |s| > 0 && forall i :: 0 <= i < |s| ==> IsLetter(s[i])
  }

  function LowerChar(c: char): char {
    if 'A' <= c <= 'Z' then (c as int + 32) as char
    else if 'А' <= c <= 'Я' then (c as int + 32) as char
    else if c == 'Ё' then 'ё'
    else c
  }

  /** `s.lower()`, character by character. */
  function Lower(s: string): (r: string)
    ensures |r| == |s|
    ensures forall i :: 0 <= i < |s| ==> r[i] == LowerChar(s[i])
  {
    if s == [] then [] else [LowerChar(s[0])] + Lower(s[1..])
  }

  function TrimLeft(s: string): (r: string)
    ensures |r| <= |s|
    ensures r == s[|s| - |r|..]
    ensures r == [] || !IsSpace(r[0])
    ensures forall i :: 0 <= i < |s| - |r| ==> IsSpace(s[i])
  {
    if s != [] && IsSpace(s[0]) then TrimLeft(s[1..]) else s
  }

  function TrimRight(s: string): (r: string)
    ensures |r| <= |s|
    ensures r == s[..|r|]
    ensures r == [] || !IsSpace(r[|r| - 1])
    ensures forall i :: |r| <= i < |s| ==> IsSpace(s[i])
  {
    if s != [] && IsSpace(s[|s| - 1]) then TrimRight(s[..|s| - 1]) else s
  }

  /** `r` occurs in `s` starting at index `i`. */
  predicate InfixAt(s: string, r: string, i: int) {
    0 <= i && i + |r| <= |s| && s[i..i + |r|] == r
  }

  /** `r` occurs in `s` at `i` with only whitespace around it. */
  predicate StrippedAt(s: string, r: string, i: int) {
    InfixAt(s, r, i)
    && (forall k :: 0 <= k < i ==> IsSpace(s[k]))
    && (forall k :: i + |r| <= k < |s| ==> IsSpace(s[k]))
  }

  /** The number of whitespace characters `s.lstrip()` removes. */
  function LeadingSpaces(s: string): nat {
    |s| - |TrimLeft(s)|
  }

  /** `s.strip()`: drops leading and trailing whitespace and nothing else. */
  function Strip(s: string): (r: string)
    ensures r == [] || (!IsSpace(r[0]) && !IsSpace(r[|r| - 1]))
    ensures StrippedAt(s, r, LeadingSpaces(s))
  {
    TrimRight(TrimLeft(s))
  }

  /** The first whitespace-free run of `s`, which must not start with whitespace. */
  function TakeWord(s: string): (w: string)
    ensures |w| <= |s|
    ensures s != [] && !IsSpace(s[0]) ==> w != []
    ensures w == s[..|w|]
    ensures forall i :: 0 <= i < |w| ==> !IsSpace(w[i])
    ensures |w| < |s| ==> IsSpace(s[|w|])
  {
    if s == [] || IsSpace(s[0]) then [] else [s[0]] + TakeWord(s[1..])
  }

  predicate NoSpace(w: string) {
    forall i :: 0 <= i < |w| ==> !IsSpace(w[i])
  }

  /** `s.split()` with no separator: maximal runs of non-whitespace. */
  function Words(s: string): (ws: seq<string>)
    ensures forall w :: w in ws ==> w != [] && NoSpace(w)
    decreases |s|
  {
    var t := TrimLeft(s);
    if t == [] then []
    else
      var w := TakeWord(t);
      [w] + Words(t[|w|..])
  }

  /** A string made of whitespace only has no words, and conversely. */
  lemma WordsEmptyIff(s: string)
    ensures Words(s) == [] <==> forall i :: 0 <= i < |s| ==> IsSpace(s[i])
  {
    var t := TrimLeft(s);
    if t != [] {
      assert !IsSpace(s[|s| - |t|]);
    }
  }

  /** `p` is a prefix of `s` (`s.startswith(p)`). */
  predicate StartsWith(s: string, p: string) {
    |p| <= |s| && s[..|p|] == p
  }

  predicate EndsWith(s: string, p: string) {
    |p| <= |s| && s[|s| - |p|..] == p
  }

  /** `sub in s` for strings. */
  predicate Contains(s: string, sub: string)
    decreases |s|
  {
    StartsWith(s, sub) || (s != [] && Contains(s[1..], sub))
  }

  lemma {:induction false} ContainsAt(s: string, sub: string, i: nat)
    requires i + |sub| <= |s| && s[i..i + |sub|] == sub
    ensures Contains(s, sub)
    decreases i
  {
    if i > 0 {
      assert s[1..][i - 1..i - 1 + |sub|] == sub;
      ContainsAt(s[1..], sub, i - 1);
    }
  }

  /** The index of the first occurrence of `c` in `s`. */
  function IndexOf(s: string, c: char): (i: nat)
    requires c in s
    ensures i < |s| && s[i] == c && c !in s[..i]
  {
    if s[0] == c then 0 else 1 + IndexOf(s[1..], c)
  }

  /** `sep.join(xs)`. */
  function Join(sep: string, xs: seq<string>): string {
    if xs == [] then ""
    else if |xs| == 1 then xs[0]
    else Join(sep, xs[..|xs| - 1]) + sep + xs[|xs| - 1]
  }

  /** The elements of `xs` are pairwise distinct. */
  predicate Distinct<T(==)>(xs: seq<T>) {
    forall i, j :: 0 <= i < j < |xs| ==> xs[i] != xs[j]
  }

  /**
   * `list(set(xs))`: the distinct elements of `xs`. Python leaves the order
   * unspecified; this model keeps first occurrences in order.
   */
  function Dedup<T(==,!new)>(xs: seq<T>): (r: seq<T>)
    ensures Distinct(r)
    ensures forall x :: x in r <==> x in xs
  {
    if xs == [] then []
    else
      var d := Dedup(xs[..|xs| - 1]);
      if xs[|xs| - 1] in d then d else d + [xs[|xs| - 1]]
  }

  /**
   * `xs[-n:]` for a positive `n`: the last `n` elements, or all of them
   * when there are fewer.
   */
  function LastN<T>(xs: seq<T>, n: nat): (r: seq<T>)
    ensures |r| <= n && |r| <= |xs|
    ensures r == xs[|xs| - |r|..]
    ensures |xs| <= n ==> r == xs
    ensures |xs| >= n ==> |r| == n
  {
    if |xs| <= n then xs else xs[|xs| - n..]
  }

  /** A sequence of distinct elements has as many elements as its set. */
  lemma {:induction false} DistinctCard(xs: seq<string>)
    requires Distinct(xs)
    ensures |set x | x in xs| == |xs|
  {
    if xs != [] {
      var init := xs[..|xs| - 1];
      var last := xs[|xs| - 1];
      DistinctCard(init);
      assert (set x | x in xs) == (set x | x in init) + {last};
      assert last !in init;
    }
  }

  /** The elements of `xs` that satisfy `p`, in order (a list comprehension with a filter). */
  function Select(p: string -> bool, xs: seq<string>): seq<string> {
    if xs == [] then []
    else Select(p, xs[..|xs| - 1]) + (if p(xs[|xs| - 1]) then [xs[|xs| - 1]] else [])
  }

  /** The elements of `xs` that fail `p`, in order. */
  function Reject(p: string -> bool, xs: seq<string>): seq<string> {
    if xs == [] then []
    else Reject(p, xs[..|xs| - 1]) + (if p(xs[|xs| - 1]) then [] else [xs[|xs| - 1]])
  }

  /** One more element: Select and Reject each grow by at most that element. */
  lemma SelectRejectStep(p: string -> bool, xs: seq<string>, i: nat)
    requires i < |xs|
    ensures Select(p, xs[..i + 1]) == Select(p, xs[..i]) + (if p(xs[i]) then [xs[i]] else [])
    ensures Reject(p, xs[..i + 1]) == Reject(p, xs[..i]) + (if p(xs[i]) then [] else [xs[i]])
  {
    assert xs[..i + 1][..i] == xs[..i];
  }

  /**
   * Select and Reject split a list: together they are the list as a
   * multiset, so every occurrence goes to exactly one side.
   */
  lemma {:induction false} SelectRejectPartition(p: string -> bool, xs: seq<string>)
    ensures multiset(Select(p, xs)) + multiset(Reject(p, xs)) == multiset(xs)
    ensures |Select(p, xs)| + |Reject(p, xs)| == |xs|
  {
    if xs != [] {
      var init, last := xs[..|xs| - 1], xs[|xs| - 1];
      SelectRejectPartition(p, init);
      assert xs == init + [last];
      assert multiset(xs) == multiset(init) + multiset{last};
      if p(last) {
        assert Select(p, xs) == Select(p, init) + [last];
        assert Reject(p, xs) == Reject(p, init);
      } else {
        assert Select(p, xs) == Select(p, init);
        assert Reject(p, xs) == Reject(p, init) + [last];
      }
    }
  }

  /** Select keeps exactly the elements satisfying `p`; Reject exactly the others. */
  lemma {:induction false} SelectRejectMembers(p: string -> bool, xs: seq<string>, x: string)
    ensures x in Select(p, xs) <==> x in xs && p(x)
    ensures x in Reject(p, xs) <==> x in xs && !p(x)
  {
    if xs != [] {
      var init := xs[..|xs| - 1];
      SelectRejectMembers(p, init, x);
      assert xs == init + [xs[|xs| - 1]];
    }
  }

  /** Selecting with a test every element passes keeps the whole list. */
  lemma {:induction false} SelectAll(p: string -> bool, xs: seq<string>)
    requires forall x :: x in xs ==> p(x)
    ensures Select(p, xs) == xs
  {
    if xs != [] {
      var init, last := xs[..|xs| - 1], xs[|xs| - 1];
      assert xs == init + [last];
      assert p(last) by { assert last in xs; }
      forall x | x in init ensures p(x) {
        assert x in xs;
      }
      SelectAll(p, init);
    }
  }

  /** `r` is `xs` with some elements left out and the others in their order. */
  predicate IsSubseq<T(==)>(r: seq<T>, xs: seq<T>)
    decreases |xs|
  {
    r == []
    || (xs != []
        && ((r[|r| - 1] == xs[|xs| - 1] && IsSubseq(r[..|r| - 1], xs[..|xs| - 1]))
            || IsSubseq(r, xs[..|xs| - 1])))
  }

  /** One more element of `xs`, kept or left out, keeps `r` a subsequence. */
  lemma SubseqSnoc<T>(r: seq<T>, xs: seq<T>, x: T, keep: bool)
    requires IsSubseq(r, xs)
    ensures IsSubseq(r + (if keep then [x] else []), xs + [x])
  {
    var ys := xs + [x];
    assert ys[..|ys| - 1] == xs;
    if keep {
      var r' := r + [x];
      assert r'[..|r'| - 1] == r;
      assert r'[|r'| - 1] == ys[|ys| - 1];
    } else {
      assert r + [] == r;
    }
  }

  /** Select and Reject keep the order of the list. */
  lemma {:induction false} SelectRejectOrder(p: string -> bool, xs: seq<string>)
    ensures IsSubseq(Select(p, xs), xs) && IsSubseq(Reject(p, xs), xs)
  {
    if xs != [] {
      var init, last := xs[..|xs| - 1], xs[|xs| - 1];
      SelectRejectOrder(p, init);
      SubseqSnoc(Select(p, init), init, last, p(last));
      SubseqSnoc(Reject(p, init), init, last, !p(last));
      assert init + [last] == xs;
    }
  }

  /** Select keeps every occurrence of an element that passes and none of one that fails. */
  lemma {:induction false} SelectCount(p: string -> bool, xs: seq<string>, x: string)
    ensures multiset(Select(p, xs))[x] == if p(x) then multiset(xs)[x] else 0
  {
    if xs != [] {
      var init, last := xs[..|xs| - 1], xs[|xs| - 1];
      SelectCount(p, init, x);
      assert xs == init + [last];
      assert multiset(xs) == multiset(init) + multiset{last};
    }
  }

  /** Dropping the first element of a concatenation drops it from the first part (a proof helper). */
  lemma DropFirst<T>(a: seq<T>, b: seq<T>)
    requires a != []
    ensures (a + b)[1..] == a[1..] + b
  {
  }

  /** Some element of `xs` satisfies `p`. */
  predicate Any<T>(xs: seq<T>, p: T -> bool) {
    exists i :: 0 <= i < |xs| && p(xs[i])
  }

  /** `Any` over a non-empty sequence, split at its last element. */
  lemma AnySnoc<T>(xs: seq<T>, p: T -> bool)
    requires xs != []
    ensures Any(xs, p) <==> Any(xs[..|xs| - 1], p) || p(xs[|xs| - 1])
  {
    var init := xs[..|xs| - 1];
    if Any(xs, p) {
      var i :| 0 <= i < |xs| && p(xs[i]);
      if i < |init| { assert init[i] == xs[i]; }
    }
    if Any(init, p) {
      var i :| 0 <= i < |init| && p(init[i]);
      assert init[i] == xs[i];
    }
  }

  /**
   * Three-element lists built from one and two, or two and one. A proof
   * helper that keeps sequence display reasoning cheap; it states nothing
   * about the program.
   */
  lemma Triple<T>(a: T, b: T, c: T)
    ensures [a] + [b, c] == [a, b, c] && [a, b] + [c] == [a, b, c]
  {
  }
}
