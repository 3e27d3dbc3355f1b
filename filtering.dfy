/**
  The pure part of the picker: which triples a query shows and in what order
  (`update_listbox`, lines 115-134), which row is highlighted, how Up and Down move the
  highlight (`move_selection`, lines 194-210) and which command Enter launches
  (`launch_bookmark`, lines 136-165).
 */
module Filtering {
  import opened Wrappers
  import opened Text
  import opened Registry
  import opened Ordering

  /** `entry_var.get().strip().lower()`. */
  function Query(text: string): string {
    Lower(Strip(text))
  }

  /** The filter test of lines 121 and 159. */
  predicate Matches(item: Item, query: string) {
    Contains(Lower(item.key), query) || Contains(Lower(item.display), query)
  }

  /** The triples of `items` that match `query`, in the order of `items` (the
      comprehension of lines 156-160). */
  function Visible(items: seq<Item>, query: string): (r: seq<Item>)
    ensures |r| <= |items|
  {
    if items == [] then []
    else
      var init, last := items[..|items| - 1], items[|items| - 1];
      Visible(init, query) + (if Matches(last, query) then [last] else [])
  }

  /** Each triple is kept as many times as the bookmarks hold it when it matches, and
      dropped otherwise. */
  lemma {:induction false} VisibleCounts(items: seq<Item>, query: string)
    ensures forall x :: multiset(Visible(items, query))[x] == if Matches(x, query) then multiset(items)[x] else 0
  {
    if items != [] {
      var init, last := items[..|items| - 1], items[|items| - 1];
      VisibleCounts(init, query);
      assert items == init + [last];
    }
  }

  /** Soundness and completeness: a triple is shown exactly when it is a bookmark that
      matches, and as many times as the bookmarks hold it. */
  lemma VisibleIsExactlyTheMatches(items: seq<Item>, query: string, x: Item)
    ensures x in Visible(items, query) <==> x in items && Matches(x, query)
    ensures Matches(x, query) ==> multiset(Visible(items, query))[x] == multiset(items)[x]
  {
    VisibleCounts(items, query);
    assert x in Visible(items, query) <==> multiset(Visible(items, query))[x] > 0;
  }

  /** Filtering keeps the order of its input, so it keeps a key-sorted list sorted. */
  lemma {:induction false} VisibleKeepsSorted(items: seq<Item>, query: string)
    requires SortedByKey(items)
    ensures SortedByKey(Visible(items, query))
  {
    if items != [] {
      var init, last := items[..|items| - 1], items[|items| - 1];
      assert SortedByKey(init);
      VisibleKeepsSorted(init, query);
      VisibleCounts(init, query);
      var v := Visible(init, query);
      forall i | 0 <= i < |v|
        ensures StrLe(v[i].key, last.key)
      {
        assert v[i] in multiset(v);
        assert v[i] in init;
        var k :| 0 <= k < |init| && init[k] == v[i];
      }
    }
  }

  /** An empty query keeps every bookmark. */
  lemma {:induction false} EmptyQueryKeepsAll(items: seq<Item>)
    ensures Visible(items, "") == items
  {
    if items != [] {
      var init, last := items[..|items| - 1], items[|items| - 1];
      EmptyQueryKeepsAll(init);
      MatchesEmpty(last);
      assert items == init + [last];
    }
  }

  lemma MatchesEmpty(item: Item)
    ensures Matches(item, "")
  {
    ContainsEmpty(Lower(item.key));
  }

  /** The rows `update_listbox` shows for the entry text `text`: the matches, re-sorted by key. */
  function Displayed(items: seq<Item>, text: string): (r: seq<Item>)
    ensures multiset(r) == multiset(Visible(items, Query(text)))
  {
    SortByKey(Visible(items, Query(text)))
  }

  /** The rows are in key order. */
  lemma DisplayedIsSorted(items: seq<Item>, text: string)
    ensures SortedByKey(Displayed(items, text))
  {
    SortByKeySorts(Visible(items, Query(text)));
  }

  /** What is shown and what is launched agree: for key-sorted bookmarks, the rows of
      `update_listbox` are exactly the list `launch_bookmark` rebuilds. */
  lemma DisplayedIsVisible(items: seq<Item>, text: string)
    requires SortedByKey(items)
    ensures Displayed(items, text) == Visible(items, Query(text))
  {
    VisibleKeepsSorted(items, Query(text));
    SortSortedIsIdentity(Visible(items, Query(text)));
  }

  /** With an empty entry every bookmark is shown, in the order of `bookmark_items`. */
  lemma EmptyTextShowsAll(items: seq<Item>)
    requires SortedByKey(items)
    ensures Displayed(items, "") == items
    ensures Query("") == ""
  {
    assert Strip("") == "";
    EmptyQueryKeepsAll(items);
    SortSortedIsIdentity(items);
  }

  predicate IsExact(item: Item, query: string) {
    Lower(item.key) == query
  }

  /** `exact_match_index` after the loop of lines 125-128: the last row whose key,
      lower-cased, equals the query. */
  function LastExact(rows: seq<Item>, query: string): Option<nat> {
    if rows == [] then None
    else if IsExact(rows[|rows| - 1], query) then Some(|rows| - 1)
    else LastExact(rows[..|rows| - 1], query)
  }

  lemma {:induction false} LastExactIsLast(rows: seq<Item>, query: string)
    ensures LastExact(rows, query).None? <==> forall j :: 0 <= j < |rows| ==> !IsExact(rows[j], query)
    ensures LastExact(rows, query).Some? ==>
              && LastExact(rows, query).value < |rows|
              && IsExact(rows[LastExact(rows, query).value], query)
              && forall j :: LastExact(rows, query).value < j < |rows| ==> !IsExact(rows[j], query)
  {
    if rows != [] && !IsExact(rows[|rows| - 1], query) {
      LastExactIsLast(rows[..|rows| - 1], query);
    }
  }

  /** The row lines 129-134 highlight. */
  function InitialSelection(rows: seq<Item>, query: string): Option<nat> {
    if rows == [] then None
    else match LastExact(rows, query)
      case Some(i) => Some(i)
      case None => Some(0)
  }

  /** After filtering, the highlight is the last row whose key is the query, ignoring
      case; failing that the first row; and nothing only when there are no rows. */
  lemma InitialSelectionIsExactOrFirst(rows: seq<Item>, query: string)
    ensures var r := InitialSelection(rows, query);
      && (r.None? <==> rows == [])
      && (r.Some? ==> r.value < |rows|)
      && ((exists j :: 0 <= j < |rows| && IsExact(rows[j], query)) ==>
            && r.Some?
            && IsExact(rows[r.value], query)
            && forall j :: r.value < j < |rows| ==> !IsExact(rows[j], query))
      && (rows != [] && (forall j :: 0 <= j < |rows| ==> !IsExact(rows[j], query)) ==> r == Some(0))
  {
    LastExactIsLast(rows, query);
  }

  predicate InBounds(selection: Option<nat>, size: nat) {
    selection.None? || selection.value < size
  }

  datatype Arrow = Up | Down

  /** One press of Up or Down in a list of `size` rows. */
  function Step(selection: Option<nat>, size: nat, arrow: Arrow): (r: Option<nat>)
    ensures InBounds(selection, size) ==> InBounds(r, size)
    ensures size > 0 ==> r.Some?
    ensures selection.None? ==> r == (if size > 0 then Some(0) else None)
    ensures selection.Some? && r.Some? ==> selection.value - 1 <= r.value <= selection.value + 1
  {
    match selection
    case None => if size > 0 then Some(0) else None
    case Some(index) =>
      if arrow == Up && index > 0 then Some(index - 1)
      else if arrow == Down && index < size - 1 then Some(index + 1)
      else selection
  }

  /** `n` presses of the same arrow. */
  function Steps(selection: Option<nat>, size: nat, arrow: Arrow, n: nat): Option<nat>
    decreases n
  {
    if n == 0 then selection else Steps(Step(selection, size, arrow), size, arrow, n - 1)
  }

  /** Holding Down walks to the last row and stays there: no wrap-around. */
  lemma {:induction false} DownStopsAtLastRow(index: nat, size: nat, n: nat)
    requires index < size
    ensures Steps(Some(index), size, Down, n) == Some(if index + n < size then index + n else size - 1)
    decreases n
  {
    if n > 0 {
      DownStopsAtLastRow(if index < size - 1 then index + 1 else index, size, n - 1);
    }
  }

  /** Holding Up walks to the first row and stays there: no wrap-around. */
  lemma {:induction false} UpStopsAtFirstRow(index: nat, size: nat, n: nat)
    requires index < size
    ensures Steps(Some(index), size, Up, n) == Some(if index >= n then index - n else 0)
    decreases n
  {
    if n > 0 {
      UpStopsAtFirstRow(if index > 0 then index - 1 else 0, size, n - 1);
    }
  }

  /** The command of lines 147-165 for the highlighted row, or nothing when no row is
      highlighted or the row is past the end of the rebuilt list. */
  function LaunchCommand(items: seq<Item>, handler: string, text: string, selection: Option<nat>,
                         normpath: string -> string): (r: Option<seq<string>>)
    ensures r.Some? ==> |r.value| == 2 && r.value[0] == handler
    ensures r.None? <==> selection.None? || selection.value >= |Visible(items, Query(text))|
  {
    match selection
    case None => None
    case Some(index) =>
      var visible := Visible(items, Query(text));
      if index >= |visible| then None
      else Some([handler, normpath(visible[index].url)])
  }

  /** Enter launches the highlighted row as shown: for every highlight `update_listbox` or
      `move_selection` can leave, the command carries that row's url. */
  lemma LaunchMatchesDisplayedRow(items: seq<Item>, handler: string, text: string, index: nat,
                                  normpath: string -> string)
    requires SortedByKey(items)
    requires index < |Displayed(items, text)|
    ensures LaunchCommand(items, handler, text, Some(index), normpath)
              == Some([handler, normpath(Displayed(items, text)[index].url)])
  {
    DisplayedIsVisible(items, text);
  }
}
