/** The path filter feeds (`getFilterFeedHandler`, `contains`): converted items are
    kept or dropped by the path segment of their link, against a whitelist of
    prefixes that acts as an allow-list (keepMatches = true) or a block-list. */
module Filter {
  import opened Common
  import opened Text
  import opened Feeds

  /** Some whitelist entry is a prefix of `value`. */
  predicate HasPrefixIn(list: seq<string>, value: string) {
    exists i :: 0 <= i < |list| && HasPrefix(value, list[i])
  }

  /** `contains` (feedproxy.go:119-126): scan the list, stop at the first entry that
      is a prefix of `value`. */
  method Contains(list: seq<string>, value: string) returns (found: bool)
    ensures found <==> HasPrefixIn(list, value)
  {
    for i := 0 to |list|
      invariant forall j :: 0 <= j < i ==> !HasPrefix(value, list[j])
    {
      if HasPrefix(value, list[i]) {
        return true;
      }
    }
    return false;
  }

  /** The answer of `contains` depends only on which entries the list holds, not on
      their order or repetition; an empty list matches nothing. */
  lemma {:induction false} HasPrefixInOrderFree(l1: seq<string>, l2: seq<string>, value: string)
    requires forall w :: w in l1 <==> w in l2
    ensures HasPrefixIn(l1, value) <==> HasPrefixIn(l2, value)
    ensures l1 == [] ==> !HasPrefixIn(l1, value)
  {
    if HasPrefixIn(l1, value) {
      var i :| 0 <= i < |l1| && HasPrefix(value, l1[i]);
      assert l1[i] in l2;
      var j :| 0 <= j < |l2| && l2[j] == l1[i];
    }
    if HasPrefixIn(l2, value) {
      var j :| 0 <= j < |l2| && HasPrefix(value, l2[j]);
      assert l2[j] in l1;
      var i :| 0 <= i < |l1| && l1[i] == l2[j];
    }
  }

  /** The segment a filter feed tests: piece 3 of `strings.SplitN(link, "/", 4)`,
      i.e. everything after the third '/'; `None` where Go's indexing panics. */
  function Area(link: string): Option<string> {
    var pieces := SplitN(link, "/", 4);
    if |pieces| == 4 then Some(pieces[3]) else None
  }

  /** A link has a segment 3 exactly when it holds at least three '/'. */
  lemma AreaExists(link: string)
    ensures Area(link).Some? <==> multiset(link)['/'] >= 3
  {
    SplitNCharCount(link, '/', 4);
  }

  predicate AllHaveArea(items: seq<ItemRecord>) {
    forall i :: 0 <= i < |items| ==> Area(items[i].link).Some?
  }

  /** An item passes the filter when it has a segment and the prefix test on that
      segment equals `keepMatches` (Go's `include`). */
  predicate Selected(keepMatches: bool, whitelist: seq<string>, it: ItemRecord) {
    Area(it.link).Some? && HasPrefixIn(whitelist, Area(it.link).value) == keepMatches
  }

  function Passes(keepMatches: bool, whitelist: seq<string>): ItemRecord -> bool {
    it => Selected(keepMatches, whitelist, it)
  }

  /** The elements that `keep` accepts, in their original order. */
  function Filtered<T>(xs: seq<T>, keep: T -> bool): seq<T> {
    if xs == [] then []
    else Filtered(xs[..|xs| - 1], keep) + (if keep(xs[|xs| - 1]) then [xs[|xs| - 1]] else [])
  }

  /** What a filter feed produces for a parse result: the parse error, a panic when
      some link has no segment 3, or the serialized feed of the kept items. */
  function FilterResult(fetched: Result<SourceFeed, Error>, keepMatches: bool, whitelist: seq<string>,
                        toRss: Serializer): Result<string, Error>
  {
    match fetched
    case Failure(e) => Failure(e)
    case Success(f) =>
      var items := Converted(f.items);
      if !AllHaveArea(items) then Failure(Panicked(IndexOutOfRange))
      else toRss(Republish(f, Filtered(items, Passes(keepMatches, whitelist))))
  }

  /** The handler built by `getFilterFeedHandler` (feedproxy.go:128-168), given the
      parsed upstream feed and the serializer. */
  method FilterFeed(fetched: Result<SourceFeed, Error>, keepMatches: bool, whitelist: seq<string>,
                    toRss: Serializer) returns (r: Result<string, Error>)
    ensures r == FilterResult(fetched, keepMatches, whitelist, toRss)
  {
    if fetched.Failure? {
      return Failure(fetched.error);
    }
    var f := fetched.value;
    var kept: seq<ItemRecord> := [];
    for i := 0 to |f.items|
      invariant AllHaveArea(Converted(f.items[..i]))
      invariant kept == Filtered(Converted(f.items[..i]), Passes(keepMatches, whitelist))
    {
      var item := ConvertItem(f.items[i]);
      var pieces := SplitN(item.link, "/", 4);
      ConvertedSnoc(f.items, i);
      if |pieces| < 4 {
        assert Area(item.link) == None;
        assert Converted(f.items)[i] == item;
        assert !AllHaveArea(Converted(f.items));
        return Failure(Panicked(IndexOutOfRange));
      }
      var found := Contains(whitelist, pieces[3]);
      FilteredSnoc(Converted(f.items[..i]), item, Passes(keepMatches, whitelist));
      if found == keepMatches {
        kept := kept + [item];
      }
    }
    assert f.items[..|f.items|] == f.items;
    return toRss(Republish(f, kept));
  }

  lemma ConvertedSnoc(src: seq<SourceItem>, i: nat)
    requires i < |src|
    ensures Converted(src[..i + 1]) == Converted(src[..i]) + [ConvertItem(src[i])]
  {
  }

  lemma FilteredSnoc<T>(xs: seq<T>, x: T, keep: T -> bool)
    ensures Filtered(xs + [x], keep) == Filtered(xs, keep) + (if keep(x) then [x] else [])
  {
    assert (xs + [x])[..|xs|] == xs;
  }

  /** An element is kept exactly when it is one of the inputs and `keep` accepts it. */
  lemma {:induction false} FilteredMembers<T>(xs: seq<T>, keep: T -> bool, x: T)
    ensures x in Filtered(xs, keep) <==> x in xs && keep(x)
  {
    if xs != [] {
      var init := xs[..|xs| - 1];
      assert xs == init + [xs[|xs| - 1]];
      FilteredMembers(init, keep, x);
    }
  }

  /** Filtering commutes with concatenation, so kept elements stay in input order. */
  lemma {:induction false} FilteredConcat<T>(a: seq<T>, b: seq<T>, keep: T -> bool)
    ensures Filtered(a + b, keep) == Filtered(a, keep) + Filtered(b, keep)
    decreases |b|
  {
    if b == [] {
      assert a + b == a;
    } else {
      var init := b[..|b| - 1];
      assert (a + b)[..|a + b| - 1] == a + init;
      assert (a + b)[|a + b| - 1] == b[|b| - 1];
      FilteredConcat(a, init, keep);
    }
  }

  /** Two filters that disagree on every element split the input into two parts. */
  lemma {:induction false} FilteredComplement<T>(xs: seq<T>, keep: T -> bool, drop: T -> bool)
    requires forall i :: 0 <= i < |xs| ==> keep(xs[i]) != drop(xs[i])
    ensures multiset(Filtered(xs, keep)) + multiset(Filtered(xs, drop)) == multiset(xs)
  {
    if xs != [] {
      var init := xs[..|xs| - 1];
      assert xs == init + [xs[|xs| - 1]];
      FilteredComplement(init, keep, drop);
    }
  }

  /** Running a feed's items through the include filter and through the exclude
      filter with the same whitelist puts each item in exactly one of the outputs. */
  lemma IncludeExcludeSplit(items: seq<ItemRecord>, whitelist: seq<string>)
    requires AllHaveArea(items)
    ensures multiset(Filtered(items, Passes(true, whitelist))) +
            multiset(Filtered(items, Passes(false, whitelist))) == multiset(items)
    ensures |Filtered(items, Passes(true, whitelist))| + |Filtered(items, Passes(false, whitelist))| == |items|
  {
    FilteredComplement(items, Passes(true, whitelist), Passes(false, whitelist));
    assert |multiset(items)| == |items|;
  }
}
