/**
 * The affirmation record and the search filter of `SearchableAffirmationsApp`:
 * the visible list is the affirmation list restricted, in its own order, to
 * the affirmations whose display text contains the search text, ignoring case.
 */
module Search {
  import opened TextMatch

  /** An Android resource id (`@StringRes`, `@DrawableRes`, `@RawRes` Int); opaque here. */
  type ResId = int

  /** One card's data: its text, image, play icon, pause icon and sound. */
  datatype Affirmation = Affirmation(
    stringResourceId: ResId,
    imageResourceId: ResId,
    iconResourceId: ResId,
    iconPause: ResId,
    soundRes: ResId)

  /**
   * The filter's predicate: the text `getString` resolves for the
   * affirmation's string resource contains `searchText`, ignoring case.
   */
  predicate Shown(a: Affirmation, searchText: string, getString: ResId -> string)
    ensures searchText == "" ==> Shown(a, searchText, getString)
    ensures |searchText| > |getString(a.stringResourceId)| ==> !Shown(a, searchText, getString)
  {
    ContainsEmpty(getString(a.stringResourceId));
    ContainsIgnoreCase(getString(a.stringResourceId), searchText)
  }

  /** `affirmationList.filter { getString(it.stringResourceId).contains(searchText, ignoreCase = true) }`. */
  function Filter(list: seq<Affirmation>, searchText: string, getString: ResId -> string): (r: seq<Affirmation>)
    ensures |r| <= |list|
    ensures forall a :: a in r <==> a in list && Shown(a, searchText, getString)
  {
    if list == [] then []
    else
      var rest := Filter(list[1..], searchText, getString);
      if Shown(list[0], searchText, getString) then [list[0]] + rest else rest
  }

  /** `idx` lists, in increasing order, positions of `s` that spell out `r`. */
  ghost predicate Embeds<T>(r: seq<T>, s: seq<T>, idx: seq<nat>)
  {
    |idx| == |r|
    && (forall k :: 0 <= k < |idx| ==> idx[k] < |s| && r[k] == s[idx[k]])
    && (forall j, k :: 0 <= j < k < |idx| ==> idx[j] < idx[k])
  }

  /** `r` is obtained from `s` by deleting elements, keeping the order of the rest. */
  ghost predicate IsSubsequence<T>(r: seq<T>, s: seq<T>)
  {
    exists idx :: Embeds(r, s, idx)
  }

  /** Positions into `s[1..]` read as positions into `s`. */
  function Shift(idx: seq<nat>): seq<nat>
  {
    seq(|idx|, k requires 0 <= k < |idx| => idx[k] + 1)
  }

  /** An embedding into the tail of `s` extends to `s`, with or without its head. */
  lemma EmbedsInTail<T>(r: seq<T>, s: seq<T>, idx: seq<nat>)
    requires s != [] && Embeds(r, s[1..], idx)
    ensures Embeds(r, s, Shift(idx))
    ensures Embeds([s[0]] + r, s, [0] + Shift(idx))
  {
    var shifted := Shift(idx);
    assert forall k :: 0 <= k < |shifted| ==> shifted[k] == idx[k] + 1 && r[k] == s[1..][idx[k]];
    var cons := [0] + shifted;
    assert forall k :: 1 <= k < |cons| ==> cons[k] == shifted[k - 1] && ([s[0]] + r)[k] == r[k - 1];
  }

  /** The positions in `list` that the filtered list came from. */
  lemma {:induction false} FilterPositions(list: seq<Affirmation>, searchText: string, getString: ResId -> string)
    returns (idx: seq<nat>)
    ensures Embeds(Filter(list, searchText, getString), list, idx)
  {
    if list == [] {
      idx := [];
    } else {
      var tail := FilterPositions(list[1..], searchText, getString);
      EmbedsInTail(Filter(list[1..], searchText, getString), list, tail);
      if Shown(list[0], searchText, getString) {
        idx := [0] + Shift(tail);
      } else {
        idx := Shift(tail);
      }
    }
  }

  /** The filtered list is a subsequence of the affirmation list: order kept, nothing added. */
  lemma FilterIsSubsequence(list: seq<Affirmation>, searchText: string, getString: ResId -> string)
    ensures IsSubsequence(Filter(list, searchText, getString), list)
  {
    var idx := FilterPositions(list, searchText, getString);
  }

  /**
   * Each affirmation occurs in the filtered list exactly as often as in the
   * affirmation list when it is shown, and not at all otherwise: no element is
   * duplicated and no shown element is dropped.
   */
  lemma {:induction false} FilterCount(list: seq<Affirmation>, searchText: string, getString: ResId -> string, a: Affirmation)
    ensures multiset(Filter(list, searchText, getString))[a]
            == if Shown(a, searchText, getString) then multiset(list)[a] else 0
  {
    if list != [] {
      FilterCount(list[1..], searchText, getString, a);
      assert list == [list[0]] + list[1..];
    }
  }

  /** When every affirmation is shown, the filter returns the list unchanged. */
  lemma {:induction false} FilterAllShown(list: seq<Affirmation>, searchText: string, getString: ResId -> string)
    requires forall a :: a in list ==> Shown(a, searchText, getString)
    ensures Filter(list, searchText, getString) == list
  {
    if list != [] {
      FilterAllShown(list[1..], searchText, getString);
    }
  }

  /** With the initial empty search text, every affirmation is visible, in its original order. */
  lemma FilterEmptyQuery(list: seq<Affirmation>, getString: ResId -> string)
    ensures Filter(list, "", getString) == list
  {
    forall a | a in list
      ensures Shown(a, "", getString)
    {
      ContainsEmpty(getString(a.stringResourceId));
    }
    FilterAllShown(list, "", getString);
  }

  /** When no display text is as long as the search text, nothing is visible. */
  lemma FilterLongQuery(list: seq<Affirmation>, searchText: string, getString: ResId -> string)
    requires forall a :: a in list ==> |getString(a.stringResourceId)| < |searchText|
    ensures Filter(list, searchText, getString) == []
  {
    var r := Filter(list, searchText, getString);
    if r != [] {
      assert r[0] in list;
      NotContainsLonger(getString(r[0].stringResourceId), searchText);
      assert false;
    }
  }

  /** Upper- or lower-casing the search text does not change the visible list. */
  lemma {:induction false} FilterCaseInsensitive(list: seq<Affirmation>, searchText: string, getString: ResId -> string)
    ensures Filter(list, UpperString(searchText), getString) == Filter(list, searchText, getString)
    ensures Filter(list, LowerString(searchText), getString) == Filter(list, searchText, getString)
  {
    if list != [] {
      FilterCaseInsensitive(list[1..], searchText, getString);
      ContainsCasedQuery(getString(list[0].stringResourceId), searchText);
    }
  }

  /** Filtering the visible list again with the same search text changes nothing. */
  lemma {:induction false} FilterIdempotent(list: seq<Affirmation>, searchText: string, getString: ResId -> string)
    ensures Filter(Filter(list, searchText, getString), searchText, getString) == Filter(list, searchText, getString)
  {
    if list != [] {
      FilterIdempotent(list[1..], searchText, getString);
    }
  }

  /** Filtering a concatenation filters each part. */
  lemma {:induction false} FilterAppend(xs: seq<Affirmation>, ys: seq<Affirmation>, searchText: string, getString: ResId -> string)
    ensures Filter(xs + ys, searchText, getString) == Filter(xs, searchText, getString) + Filter(ys, searchText, getString)
  {
    if xs != [] {
      assert (xs + ys)[1..] == xs[1..] + ys;
      FilterAppend(xs[1..], ys, searchText, getString);
    } else {
      assert xs + ys == ys;
    }
  }

  /** The display texts of the three-card example below. */
  function ExampleText(id: ResId): string
  {
    if id == 1 then "hello" else if id == 2 then "world" else "Hello there"
  }

  /** Which of the example texts contain "hel", ignoring case. */
  lemma ExampleContains()
    ensures ContainsIgnoreCase(ExampleText(1), "hel")
    ensures !ContainsIgnoreCase(ExampleText(2), "hel")
    ensures ContainsIgnoreCase(ExampleText(3), "hel")
  {
    assert MatchesAt("hello", 0, "hel");
    assert MatchesAt("Hello there", 0, "hel") by {
      assert CharEqualsIgnoreCase('h', 'H');
    }
    forall i | 0 <= i <= 5
      ensures !MatchesAt("world", i, "hel")
    {
      if i <= 2 {
        assert "hel"[0] == 'h';
        assert !CharEqualsIgnoreCase("hel"[0], "world"[i + 0]);
      }
    }
  }

  /** Which of three cards with the example texts are shown for "hel". */
  lemma ExampleShown(a: Affirmation, b: Affirmation, c: Affirmation)
    requires a.stringResourceId == 1 && b.stringResourceId == 2 && c.stringResourceId == 3
    ensures Shown(a, "hel", ExampleText) && !Shown(b, "hel", ExampleText) && Shown(c, "hel", ExampleText)
  {
    ExampleContains();
  }

  /** Three cards "hello", "world" and "Hello there" searched for "hel": the first and the third remain. */
  lemma FilterExample(a: Affirmation, b: Affirmation, c: Affirmation)
    requires a.stringResourceId == 1 && b.stringResourceId == 2 && c.stringResourceId == 3
    ensures Filter([a, b, c], "hel", ExampleText) == [a, c]
  {
    ExampleShown(a, b, c);
    assert Filter([c], "hel", ExampleText) == [c] by {
      assert [c][1..] == [];
    }
    assert Filter([b, c], "hel", ExampleText) == [c] by {
      assert [b, c][1..] == [c];
    }
    assert [a, b, c][1..] == [b, c];
  }
}
