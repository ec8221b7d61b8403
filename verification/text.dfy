/** The parts of Go's `strings` and `bytes` packages that the feed handlers use,
    on `string` = `seq<char>` (bytes are treated as characters). */
module Text {
  import opened Common

  /** `strings.HasPrefix(s, prefix)`. */
  predicate HasPrefix(s: string, prefix: string) {
    prefix <= s
  }

  /** `pat` occurs in `s` starting at index `k`. */
  predicate OccursAt(s: string, pat: string, k: int) {
    0 <= k && k + |pat| <= |s| && s[k..k + |pat|] == pat
  }

  predicate Occurs(s: string, pat: string) {
    exists k :: 0 <= k <= |s| && OccursAt(s, pat, k)
  }

  /** A token absent from a text is absent from each of its suffixes. */
  lemma SuffixKeepsAbsent(s: string, pat: string, n: nat)
    requires n <= |s| && !Occurs(s, pat)
    ensures !Occurs(s[n..], pat)
  {
    forall k | 0 <= k <= |s[n..]|
      ensures !OccursAt(s[n..], pat, k)
    {
      if k + |pat| <= |s[n..]| {
        assert s[n..][k..k + |pat|] == s[n + k..n + k + |pat|];
        assert !OccursAt(s, pat, n + k);
      }
    }
  }

  /** `k` is the first index at which `pat` occurs in `s`. */
  predicate FirstAt(s: string, pat: string, k: int) {
    OccursAt(s, pat, k) && forall j :: 0 <= j < k ==> !OccursAt(s, pat, j)
  }

  /** The first occurrence of `pat` in `s` at or after `from`. */
  function IndexFrom(s: string, pat: string, from: nat): (r: Option<nat>)
    ensures r.Some? ==> from <= r.value && OccursAt(s, pat, r.value)
    ensures r.Some? ==> forall j :: from <= j < r.value ==> !OccursAt(s, pat, j)
    ensures r.None? ==> forall j :: from <= j ==> !OccursAt(s, pat, j)
    decreases |s| - from
  {
    if from + |pat| > |s| then None
    else if s[from..from + |pat|] == pat then Some(from)
    else IndexFrom(s, pat, from + 1)
  }

  /** `strings.Index(s, pat)`, with `None` for Go's -1. */
  function IndexOf(s: string, pat: string): (r: Option<nat>)
    ensures r.Some? <==> Occurs(s, pat)
    ensures r.Some? ==> FirstAt(s, pat, r.value)
  {
    IndexFrom(s, pat, 0)
  }

  lemma FirstAtUnique(s: string, pat: string, i: int, k: int)
    requires FirstAt(s, pat, i) && FirstAt(s, pat, k)
    ensures i == k
  {
  }

  /** `strings.Replace(s, pat, repl, 1)`: the first occurrence only. */
  function ReplaceFirst(s: string, pat: string, repl: string): (r: string)
    ensures !Occurs(s, pat) ==> r == s
    ensures forall i :: FirstAt(s, pat, i) ==> r == s[..i] + repl + s[i + |pat|..]
  {
    match IndexOf(s, pat)
    case None => s
    case Some(i) =>
      assert forall k :: FirstAt(s, pat, k) ==> k == i;
      s[..i] + repl + s[i + |pat|..]
  }

  /** Removing the first occurrence of a token removes exactly that many characters,
      and an input without the token keeps its length. */
  lemma RemoveFirstLength(s: string, pat: string)
    ensures |ReplaceFirst(s, pat, "")| == if Occurs(s, pat) then |s| - |pat| else |s|
  {
    if Occurs(s, pat) {
      var i := IndexOf(s, pat).value;
      assert FirstAt(s, pat, i);
    }
  }

  /** `s == a + pat + b` where `pat` does not occur earlier: removing the first
      occurrence gives back `a + b`. */
  lemma {:induction false} RemoveFirstOf(a: string, pat: string, b: string)
    requires forall k :: 0 <= k < |a| ==> !OccursAt(a + pat + b, pat, k)
    ensures ReplaceFirst(a + pat + b, pat, "") == a + b
  {
    var s := a + pat + b;
    assert s[|a|..|a| + |pat|] == pat;
    assert FirstAt(s, pat, |a|);
    assert s[..|a|] == a && s[|a| + |pat|..] == b;
  }

  /** The same when the text before the token lacks the token's first character. */
  lemma RemoveFirstAfter(a: string, pat: string, b: string)
    requires pat != [] && pat[0] !in a
    ensures ReplaceFirst(a + pat + b, pat, "") == a + b
  {
    forall k | 0 <= k < |a|
      ensures !OccursAt(a + pat + b, pat, k)
    {
      var s := a + pat + b;
      assert s[k] == a[k] != pat[0];
      assert k + |pat| <= |s| ==> s[k..k + |pat|][0] == s[k];
    }
    RemoveFirstOf(a, pat, b);
  }

  /** A token whose first character does not recur in it cannot overlap the end of
      the text before it: placed after text free of the token, it is the first
      occurrence. */
  lemma FirstAfterClean(a: string, pat: string, b: string)
    requires pat != [] && pat[0] !in pat[1..]
    requires !Occurs(a, pat)
    ensures FirstAt(a + pat + b, pat, |a|)
  {
    var s := a + pat + b;
    assert s[|a|..|a| + |pat|] == pat;
    forall k | 0 <= k < |a|
      ensures !OccursAt(s, pat, k)
    {
      if k + |pat| <= |a| {
        assert s[k..k + |pat|] == a[k..k + |pat|];
        assert !OccursAt(a, pat, k);
      } else {
        var m := |a| - k;
        assert pat[1..][m - 1] == pat[m];
        assert pat[m] != pat[0] == s[|a|];
        assert k + |pat| <= |s| ==> s[k..k + |pat|][m] == s[|a|];
      }
    }
  }

  /** `strings.Replace(s, pat, repl, -1)` / `bytes.Replace`: every occurrence, scanning
      left to right, never rescanning replaced text. */
  function ReplaceAll(s: string, pat: string, repl: string): (r: string)
    requires |pat| > 0
    ensures !Occurs(s, pat) ==> r == s
    decreases |s|
  {
    match IndexOf(s, pat)
    case None => s
    case Some(i) => s[..i] + (repl + ReplaceAll(s[i + |pat|..], pat, repl))
  }

  /** `ReplaceAll` at the first occurrence `i`: the text before it, the replacement,
      and the rest replaced in turn. */
  lemma ReplaceAllStep(s: string, pat: string, repl: string, i: nat)
    requires |pat| > 0 && FirstAt(s, pat, i)
    ensures ReplaceAll(s, pat, repl) == s[..i] + (repl + ReplaceAll(s[i + |pat|..], pat, repl))
  {
    FirstAtIndex(s, pat, i);
  }

  /** The first occurrence is what `IndexOf` finds. */
  lemma FirstAtIndex(s: string, pat: string, i: nat)
    requires FirstAt(s, pat, i)
    ensures IndexOf(s, pat) == Some(i)
  {
    var j := IndexOf(s, pat).value;
    FirstAtUnique(s, pat, j, i);
  }

  /** Every character of a `ReplaceAll` result comes from the input or from the
      replacement. */
  lemma {:induction false} ReplaceAllChars(s: string, pat: string, repl: string, c: char)
    requires |pat| > 0
    requires c in ReplaceAll(s, pat, repl)
    ensures c in s || c in repl
    decreases |s|
  {
    match IndexOf(s, pat)
    case None =>
    case Some(i) =>
      var t := s[i + |pat|..];
      ReplaceAllStep(s, pat, repl, i);
      if c in s[..i] {
        InPrefix(s, i, c);
      } else if c in ReplaceAll(t, pat, repl) {
        ReplaceAllChars(t, pat, repl, c);
        if c in t {
          InSuffix(s, i + |pat|, c);
        }
      }
  }

  lemma InPrefix(s: string, i: nat, c: char)
    requires i <= |s| && c in s[..i]
    ensures c in s
  {
    var k :| 0 <= k < i && s[..i][k] == c;
    assert s[k] == c;
  }

  lemma InSuffix(s: string, i: nat, c: char)
    requires i <= |s| && c in s[i..]
    ensures c in s
  {
    var k :| 0 <= k < |s| - i && s[i..][k] == c;
    assert s[i + k] == c;
  }

  /** A one-character token occurs exactly when the character is in the text. */
  lemma CharOccurs(s: string, c: char)
    ensures Occurs(s, [c]) <==> c in s
  {
    if c in s {
      var k :| 0 <= k < |s| && s[k] == c;
      assert s[k..k + 1] == [c];
      assert OccursAt(s, [c], k);
    }
    if Occurs(s, [c]) {
      var k :| 0 <= k <= |s| && OccursAt(s, [c], k);
      assert s[k..k + 1][0] == s[k];
    }
  }

  /** The first occurrence of a one-character token is the character, with none of
      it before. */
  lemma CharFirst(s: string, c: char, i: nat)
    requires FirstAt(s, [c], i)
    ensures i < |s| && s[i] == c && c !in s[..i]
  {
    assert s[i..i + 1][0] == s[i];
    CutAtFirst(s, [c], i);
    CharOccurs(s[..i], c);
  }

  /** Replacing every occurrence of a one-character token by text without that
      character leaves none of it. */
  lemma {:induction false} ReplaceAllRemovesChar(s: string, c: char, repl: string)
    requires c !in repl
    ensures c !in ReplaceAll(s, [c], repl)
    decreases |s|
  {
    match IndexOf(s, [c])
    case None =>
      CharOccurs(s, c);
    case Some(i) =>
      ReplaceAllStep(s, [c], repl, i);
      CharFirst(s, c, i);
      ReplaceAllRemovesChar(s[i + 1..], c, repl);
  }

  /** Replacing one character by another maps the text character by character. */
  lemma {:induction false} ReplaceCharMap(s: string, c: char, d: char)
    ensures |ReplaceAll(s, [c], [d])| == |s|
    ensures forall k :: 0 <= k < |s| ==> ReplaceAll(s, [c], [d])[k] == if s[k] == c then d else s[k]
    decreases |s|
  {
    match IndexOf(s, [c])
    case None =>
      CharOccurs(s, c);
    case Some(i) =>
      var t := s[i + 1..];
      var r := ReplaceAll(s, [c], [d]);
      ReplaceAllStep(s, [c], [d], i);
      CharFirst(s, c, i);
      ReplaceCharMap(t, c, d);
      forall k | 0 <= k < |s|
        ensures r[k] == if s[k] == c then d else s[k]
      {
        if k < i {
          assert s[..i][k] == s[k];
        } else if k > i {
          assert t[k - i - 1] == s[k];
        }
      }
  }

  /** Replacing one character by another keeps out any token that holds neither. */
  lemma ReplaceCharKeepsAbsent(s: string, c: char, d: char, pat: string)
    requires d !in pat && !Occurs(s, pat)
    ensures !Occurs(ReplaceAll(s, [c], [d]), pat)
  {
    var r := ReplaceAll(s, [c], [d]);
    ReplaceCharMap(s, c, d);
    forall k | 0 <= k <= |r|
      ensures !OccursAt(r, pat, k)
    {
      if k + |pat| <= |r| {
        assert !OccursAt(s, pat, k);
        var j :| 0 <= j < |pat| && s[k..k + |pat|][j] != pat[j];
        assert pat[j] != d;
        assert r[k..k + |pat|][j] == r[k + j];
      }
    }
  }

  /** `strings.TrimPrefix(s, prefix)`. */
  function TrimPrefix(s: string, prefix: string): (r: string)
    ensures HasPrefix(s, prefix) ==> prefix + r == s
    ensures !HasPrefix(s, prefix) ==> r == s
  {
    if HasPrefix(s, prefix) then s[|prefix|..] else s
  }

  /** `strings.TrimLeft(s, [c])`. */
  function TrimLeft(s: string, c: char): (r: string)
    ensures |r| <= |s| && r == s[|s| - |r|..]
    ensures forall k :: 0 <= k < |s| - |r| ==> s[k] == c
    ensures r == [] || r[0] != c
  {
    if s != [] && s[0] == c then TrimLeft(s[1..], c) else s
  }

  /** `strings.TrimRight(s, [c])`. */
  function TrimRight(s: string, c: char): (r: string)
    ensures |r| <= |s| && r == s[..|r|]
    ensures forall k :: |r| <= k < |s| ==> s[k] == c
    ensures r == [] || r[|r| - 1] != c
  {
    if s != [] && s[|s| - 1] == c then TrimRight(s[..|s| - 1], c) else s
  }

  /** `strings.Trim(s, [c])`: both ends. The result is a slice of the text that
      neither starts nor ends with `c`, and everything cut off on either side is `c`. */
  function Trim(s: string, c: char): (r: string)
    ensures r == [] || (r[0] != c && r[|r| - 1] != c)
    ensures exists i :: TrimmedAt(s, c, i, r)
  {
    TrimIsSlice(s, c);
    TrimRight(TrimLeft(s, c), c)
  }

  lemma TrimIsSlice(s: string, c: char)
    ensures TrimmedAt(s, c, |s| - |TrimLeft(s, c)|, TrimRight(TrimLeft(s, c), c))
  {
    TrimmedSlice(s, c, TrimLeft(s, c), TrimRight(TrimLeft(s, c), c));
  }

  lemma TrimmedSlice(s: string, c: char, left: string, r: string)
    requires |left| <= |s| && left == s[|s| - |left|..]
    requires forall k :: 0 <= k < |s| - |left| ==> s[k] == c
    requires |r| <= |left| && r == left[..|r|]
    requires forall k :: |r| <= k < |left| ==> left[k] == c
    ensures TrimmedAt(s, c, |s| - |left|, r)
  {
    var i := |s| - |left|;
    assert s[i..][..|r|] == s[i..i + |r|];
    forall k | i + |r| <= k < |s|
      ensures s[k] == c
    {
      assert s[k] == left[k - i];
    }
  }

  /** `r` sits at index `i` of `s`, and every character of `s` outside it is `c`. */
  predicate TrimmedAt(s: string, c: char, i: int, r: string) {
    0 <= i && i + |r| <= |s| && r == s[i..i + |r|] &&
    (forall k :: 0 <= k < i ==> s[k] == c) &&
    (forall k :: i + |r| <= k < |s| ==> s[k] == c)
  }

  /** The concatenation of `f` applied to each element, in order. */
  function ConcatMap<T>(xs: seq<T>, f: T -> string): string {
    if xs == [] then "" else ConcatMap(xs[..|xs| - 1], f) + f(xs[|xs| - 1])
  }

  /** `ConcatMap` of two runs is the concatenation of their `ConcatMap`s. */
  lemma {:induction false} ConcatMapConcat<T>(a: seq<T>, b: seq<T>, f: T -> string)
    ensures ConcatMap(a + b, f) == ConcatMap(a, f) + ConcatMap(b, f)
    decreases |b|
  {
    if b == [] {
      assert a + b == a;
    } else {
      var init := b[..|b| - 1];
      assert (a + b)[..|a + b| - 1] == a + init;
      assert (a + b)[|a + b| - 1] == b[|b| - 1];
      ConcatMapConcat(a, init, f);
    }
  }

  /** An element between two runs contributes `f` of itself in its place; one that
      maps to "" contributes nothing. */
  lemma ConcatMapMiddle<T>(a: seq<T>, x: T, b: seq<T>, f: T -> string)
    ensures ConcatMap(a + [x] + b, f) == ConcatMap(a, f) + f(x) + ConcatMap(b, f)
    ensures f(x) == "" ==> ConcatMap(a + [x] + b, f) == ConcatMap(a + b, f)
  {
    ConcatMapConcat(a + [x], b, f);
    ConcatMapConcat(a, [x], f);
    ConcatMapConcat(a, b, f);
    ConcatMapSingle(x, f);
    var ca, cb := ConcatMap(a, f), ConcatMap(b, f);
    assert ca + "" + cb == ca + cb;
  }

  /** Elements that all map to "" concatenate to "". */
  lemma {:induction false} ConcatMapEmpty<T>(xs: seq<T>, f: T -> string)
    requires forall i :: 0 <= i < |xs| ==> f(xs[i]) == ""
    ensures ConcatMap(xs, f) == ""
    decreases |xs|
  {
    if xs != [] {
      var init := xs[..|xs| - 1];
      assert forall i :: 0 <= i < |init| ==> init[i] == xs[i];
      ConcatMapEmpty(init, f);
    }
  }

  /** `ConcatMap` of a single element is `f` of that element. */
  lemma ConcatMapSingle<T>(x: T, f: T -> string)
    ensures ConcatMap([x], f) == f(x)
  {
    assert [x][..0] == [];
  }

  /** `strings.Join(pieces, sep)`. */
  function Join(pieces: seq<string>, sep: string): string {
    if pieces == [] then ""
    else if |pieces| == 1 then pieces[0]
    else pieces[0] + sep + Join(pieces[1..], sep)
  }

  /** The text before the first occurrence of `sep`, and the text after it. */
  lemma CutAtFirst(s: string, sep: string, i: nat)
    requires |sep| > 0 && FirstAt(s, sep, i)
    ensures s[..i] + sep + s[i + |sep|..] == s
    ensures !Occurs(s[..i], sep)
  {
    assert s[i..i + |sep|] == sep;
    assert s == s[..i] + s[i..i + |sep|] + s[i + |sep|..];
    forall k | 0 <= k <= i
      ensures !OccursAt(s[..i], sep, k)
    {
      if k + |sep| <= i {
        assert s[..i][k..k + |sep|] == s[k..k + |sep|];
        assert !OccursAt(s, sep, k);
      }
    }
  }

  /** `strings.SplitN(s, sep, n)` for `n > 0` and a non-empty separator: at most `n`
      pieces, the last one holding the unsplit remainder. */
  function SplitN(s: string, sep: string, n: nat): (pieces: seq<string>)
    requires |sep| > 0 && n > 0
    ensures 1 <= |pieces| <= n
    decreases n
  {
    if n == 1 then [s]
    else
      match IndexOf(s, sep)
      case None => [s]
      case Some(i) => [s[..i]] + SplitN(s[i + |sep|..], sep, n - 1)
  }

  /** `SplitN` at the first occurrence `i`: the text before it, then the rest split
      into one piece fewer. */
  lemma SplitNStep(s: string, sep: string, n: nat, i: nat)
    requires |sep| > 0 && n > 1 && FirstAt(s, sep, i)
    ensures SplitN(s, sep, n) == [s[..i]] + SplitN(s[i + |sep|..], sep, n - 1)
  {
    FirstAtIndex(s, sep, i);
    var rest := SplitN(s[i + |sep|..], sep, n - 1);
    assert SplitN(s, sep, n) == [s[..i]] + rest;
  }

  lemma SplitNNone(s: string, sep: string, n: nat)
    requires |sep| > 0 && n > 0 && (n == 1 || !Occurs(s, sep))
    ensures SplitN(s, sep, n) == [s]
  {
    if n > 1 {
      assert IndexOf(s, sep).None?;
    }
  }

  /** A text is what comes before an occurrence, the token, and what comes after. */
  lemma CutAt(s: string, sep: string, i: nat)
    requires OccursAt(s, sep, i)
    ensures s[..i] + sep + s[i + |sep|..] == s
  {
    assert s == s[..i] + s[i..i + |sep|] + s[i + |sep|..];
  }

  lemma JoinCons(head: string, rest: seq<string>, sep: string)
    requires |rest| > 0
    ensures Join([head] + rest, sep) == head + sep + Join(rest, sep)
  {
    assert ([head] + rest)[1..] == rest;
  }

  /** The pieces of `SplitN` joined with the separator give back the input. */
  lemma {:induction false} SplitNJoin(s: string, sep: string, n: nat)
    requires |sep| > 0 && n > 0
    ensures Join(SplitN(s, sep, n), sep) == s
    decreases n
  {
    if n > 1 {
      match IndexOf(s, sep)
      case None =>
      case Some(i) =>
        var t := s[i + |sep|..];
        SplitNStep(s, sep, n, i);
        SplitNJoin(t, sep, n - 1);
        JoinCons(s[..i], SplitN(t, sep, n - 1), sep);
        CutAt(s, sep, i);
    }
  }

  /** No piece of `SplitN` but the last holds the separator. */
  lemma {:induction false} SplitNPieces(s: string, sep: string, n: nat)
    requires |sep| > 0 && n > 0
    ensures forall j :: 0 <= j < |SplitN(s, sep, n)| - 1 ==> !Occurs(SplitN(s, sep, n)[j], sep)
    decreases n
  {
    if n > 1 {
      match IndexOf(s, sep)
      case None =>
      case Some(i) =>
        var rest := SplitN(s[i + |sep|..], sep, n - 1);
        SplitNStep(s, sep, n, i);
        SplitNPieces(s[i + |sep|..], sep, n - 1);
        CutAtFirst(s, sep, i);
        ConsPieces(s[..i], rest, sep);
    }
  }

  /** A separator-free piece in front of pieces free of it but for the last keeps
      them so. */
  lemma ConsPieces(head: string, rest: seq<string>, sep: string)
    requires !Occurs(head, sep)
    requires forall j :: 0 <= j < |rest| - 1 ==> !Occurs(rest[j], sep)
    ensures forall j :: 0 <= j < |rest| ==> !Occurs(([head] + rest)[j], sep)
  {
    forall j | 0 < j < |rest|
      ensures !Occurs(([head] + rest)[j], sep)
    {
      assert ([head] + rest)[j] == rest[j - 1];
    }
  }

  /** The last piece of `SplitN` holds the separator only when the limit `n` was
      reached. */
  lemma {:induction false} SplitNLast(s: string, sep: string, n: nat)
    requires |sep| > 0 && n > 0
    ensures |SplitN(s, sep, n)| < n ==> !Occurs(SplitN(s, sep, n)[|SplitN(s, sep, n)| - 1], sep)
    decreases n
  {
    if n > 1 && Occurs(s, sep) {
      var i := IndexOf(s, sep).value;
      var rest := SplitN(s[i + |sep|..], sep, n - 1);
      SplitNStep(s, sep, n, i);
      SplitNLast(s[i + |sep|..], sep, n - 1);
      assert ([s[..i]] + rest)[|rest|] == rest[|rest| - 1];
    } else {
      SplitNNone(s, sep, n);
    }
  }

  /** `strings.Split(s, sep)` for a non-empty separator: every piece. */
  function Split(s: string, sep: string): (pieces: seq<string>)
    requires |sep| > 0
    ensures 1 <= |pieces|
    decreases |s|
  {
    match IndexOf(s, sep)
    case None => [s]
    case Some(i) => [s[..i]] + Split(s[i + |sep|..], sep)
  }

  /** The pieces of `Split` joined with the separator give back the input, and none
      of them holds the separator. */
  lemma {:induction false} SplitParts(s: string, sep: string)
    requires |sep| > 0
    ensures Join(Split(s, sep), sep) == s
    ensures forall j :: 0 <= j < |Split(s, sep)| ==> !Occurs(Split(s, sep)[j], sep)
    decreases |s|
  {
    match IndexOf(s, sep)
    case None =>
    case Some(i) =>
      CutAtFirst(s, sep, i);
      SplitParts(s[i + |sep|..], sep);
  }

  /** `ReplaceAll` is `Split` followed by `Join` with the replacement: every
      non-overlapping occurrence, from the left, becomes the replacement, and the text
      between occurrences is kept as it is. */
  lemma {:induction false} ReplaceAllIsJoinSplit(s: string, pat: string, repl: string)
    requires |pat| > 0
    ensures ReplaceAll(s, pat, repl) == Join(Split(s, pat), repl)
    decreases |s|
  {
    match IndexOf(s, pat)
    case None =>
    case Some(i) =>
      var rest := s[i + |pat|..];
      ReplaceAllStep(s, pat, repl, i);
      SplitStep(s, pat, i);
      ReplaceAllIsJoinSplit(rest, pat, repl);
      JoinCons(s[..i], Split(rest, pat), repl);
  }

  /** `Split` yields a second piece exactly when the separator occurs; it is the
      text after the first occurrence, up to the next one. */
  lemma SplitSecond(s: string, sep: string)
    requires |sep| > 0
    ensures |Split(s, sep)| >= 2 <==> Occurs(s, sep)
    ensures forall i :: FirstAt(s, sep, i) ==> Split(s, sep)[1] == Split(s[i + |sep|..], sep)[0]
  {
    match IndexOf(s, sep)
    case None =>
    case Some(i) =>
      SplitStep(s, sep, i);
      forall k | FirstAt(s, sep, k)
        ensures Split(s, sep)[1] == Split(s[k + |sep|..], sep)[0]
      {
        SplitStep(s, sep, k);
      }
  }

  /** `Split` at the first occurrence `i`: the text before it, then the rest split. */
  lemma SplitStep(s: string, sep: string, i: nat)
    requires |sep| > 0 && FirstAt(s, sep, i)
    ensures Split(s, sep) == [s[..i]] + Split(s[i + |sep|..], sep)
  {
    FirstAtIndex(s, sep, i);
  }

  /** The first piece of `SplitN(s, sep, 2)` never holds the separator. */
  lemma SplitNTwoHead(s: string, sep: string)
    requires |sep| > 0
    ensures !Occurs(SplitN(s, sep, 2)[0], sep)
  {
    SplitNPieces(s, sep, 2);
    SplitNLast(s, sep, 2);
  }

  /** `SplitN(s, sep, 2)` has two pieces exactly when the separator occurs: the text
      before its first occurrence and all the text after it. */
  lemma SplitNTwo(s: string, sep: string)
    requires |sep| > 0
    ensures |SplitN(s, sep, 2)| == 2 <==> Occurs(s, sep)
    ensures forall i :: FirstAt(s, sep, i) ==> SplitN(s, sep, 2) == [s[..i], s[i + |sep|..]]
    ensures !Occurs(s, sep) ==> SplitN(s, sep, 2) == [s]
  {
    match IndexOf(s, sep)
    case None =>
    case Some(i) =>
      assert SplitN(s, sep, 2) == [s[..i]] + SplitN(s[i + |sep|..], sep, 1);
      assert forall k :: FirstAt(s, sep, k) ==> k == i;
  }

  /** A separator whose first character does not recur in it, placed after text
      free of it, splits in two exactly there. */
  lemma SplitNTwoOf(a: string, sep: string, b: string)
    requires |sep| > 0 && sep[0] !in sep[1..] && !Occurs(a, sep)
    ensures SplitN(a + sep + b, sep, 2) == [a, b]
  {
    var s := a + sep + b;
    FirstAfterClean(a, sep, b);
    SplitNTwo(s, sep);
    assert s[..|a|] == a && s[|a| + |sep|..] == b;
  }

  /** A character that is not in the text does not occur as a token. */
  lemma NotInNotOccurs(s: string, c: char)
    requires c !in s
    ensures !Occurs(s, [c])
  {
    forall k | 0 <= k < |s|
      ensures !OccursAt(s, [c], k)
    {
      assert s[k..k + 1] == [s[k]];
    }
  }

  /** A character that does not occur is counted zero times. */
  lemma AbsentCharCount(s: string, c: char)
    requires !Occurs(s, [c])
    ensures multiset(s)[c] == 0
  {
    if c in s {
      var k :| 0 <= k < |s| && s[k] == c;
      assert s[k..k + 1] == [c];
      assert OccursAt(s, [c], k);
    }
  }

  /** Counting a character splits at its first occurrence. */
  lemma FirstCharCount(s: string, c: char, i: nat)
    requires FirstAt(s, [c], i)
    ensures multiset(s)[c] == 1 + multiset(s[i + 1..])[c]
  {
    CutAtFirst(s, [c], i);
    AbsentCharCount(s[..i], c);
    assert s == s[..i] + [c] + s[i + 1..];
    assert multiset(s) == multiset(s[..i]) + multiset{c} + multiset(s[i + 1..]);
  }

  /** With a one-character separator, `SplitN` gives `n` pieces exactly when the
      separator occurs at least `n - 1` times. */
  lemma {:induction false} SplitNCharCount(s: string, c: char, n: nat)
    requires n > 0
    ensures |SplitN(s, [c], n)| == if multiset(s)[c] + 1 < n then multiset(s)[c] + 1 else n
    decreases n
  {
    if n > 1 {
      match IndexOf(s, [c])
      case None =>
        AbsentCharCount(s, c);
      case Some(i) =>
        FirstCharCount(s, c, i);
        assert SplitN(s, [c], n) == [s[..i]] + SplitN(s[i + 1..], [c], n - 1);
        SplitNCharCount(s[i + 1..], c, n - 1);
    }
  }
}
