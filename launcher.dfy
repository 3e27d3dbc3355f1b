/**
  The launcher window as state: the entry text, the listbox rows and the highlighted row,
  with the handlers bound to typing, Up/Down and Enter.
 */
module Launcher {
  import opened Wrappers
  import opened Text
  import opened Registry
  import opened Ordering
  import opened Matching
  import opened Bookmarks
  import opened Filtering

  /** What start-up hands to the window: the handler's path and `bookmark_items`. */
  datatype Prepared = Prepared(handler: string, items: seq<Item>)

  /** Lines 50-85: the root must be a dict, a category must match, its "bookmarks" must be
      a dict and every bookmark must be a dict with a "url". */
  function Prepare(root: Node, exe: string): (r: Result<Prepared, Failure>)
    ensures r.Success? ==> SortedByKey(r.value.items)
    ensures r.Success? ==> && root.Mapping? && FindContext(root.entries, exe).Success?
                           && r.value.handler == FindContext(root.entries, exe).value.handler
    ensures !root.Mapping? ==> r == Failure(RootNotMapping)
    ensures root.Mapping? && FindContext(root.entries, exe).Failure? ==> r == FindContext(root.entries, exe).PropagateFailure()
    ensures root.Mapping? && FindContext(root.entries, exe).Success? ==>
              var ctx := FindContext(root.entries, exe).value;
              && (BookmarksOf(ctx).Failure? ==> r == Failure(BookmarksNotMapping(ctx.category)))
              && (BookmarksOf(ctx).Success? ==>
                    var items := BookmarkItems(ctx.category, BookmarksOf(ctx).value);
                    && (items.Failure? ==> r == Failure(items.error))
                    && (items.Success? ==> r == Success(Prepared(ctx.handler, items.value))))
  {
    if !root.Mapping? then Failure(RootNotMapping)
    else
      var ctx :- FindContext(root.entries, exe);
      var bookmarks :- BookmarksOf(ctx);
      var items :- BookmarkItems(ctx.category, bookmarks);
      Success(Prepared(ctx.handler, items))
  }

  /** The loop of lines 120-122: keep, in order, the triples whose lower-cased key or
      display name contains the query. */
  method PotentialMatches(items: seq<Item>, typed: string) returns (matches: seq<Item>)
    ensures matches == Visible(items, typed)
  {
    matches := [];
    var i := 0;
    while i < |items|
      invariant 0 <= i <= |items|
      invariant matches == Visible(items[..i], typed)
    {
      var item := items[i];
      if Matches(item, typed) {
        matches := matches + [item];
      }
      assert items[..i + 1][..i] == items[..i];
      i := i + 1;
    }
    assert items[..i] == items;
  }

  class Session {
    /** `bookmark_items`, sorted by key. */
    const items: seq<Item>
    /** `handler_path`. */
    const handler: string
    /** The entry's text, `entry_var`. */
    var text: string
    /** The listbox rows, in order. */
    var rows: seq<Item>
    /** `listbox.curselection()`: at most one row is ever highlighted. */
    var selection: Option<nat>
    /** False once `root.destroy()` has run. */
    var open: bool

    /** The listbox always shows the filtered view of the current text, and the highlight,
        if any, is one of its rows. */
    ghost predicate Valid()
      reads this
    {
      && SortedByKey(items)
      && rows == Displayed(items, text)
      && InBounds(selection, |rows|)
    }

    /** The window opens with an empty entry and the first `update_listbox()` (line 220). */
    constructor (items: seq<Item>, handler: string)
      requires SortedByKey(items)
      ensures Valid() && open
      ensures this.items == items && this.handler == handler && text == ""
      ensures rows == items
      ensures selection == InitialSelection(items, "")
    {
      this.items := items;
      this.handler := handler;
      text := "";
      rows := [];
      selection := None;
      open := true;
      new;
      UpdateListbox();
      assert rows == items && Query(text) == "" by { EmptyTextShowsAll(items); }
    }

    /** `update_listbox` (lines 115-134): refill the listbox with the matches of the
        trimmed, lower-cased text, sorted by key, and highlight the last row whose key is
        the text, else the first row. */
    method UpdateListbox()
      modifies this`rows, this`selection
      ensures rows == Displayed(items, text)
      ensures selection == InitialSelection(rows, Query(text))
      ensures InBounds(selection, |rows|)
    {
      var typed := Query(text);
      rows, selection := [], None;
      var matches := PotentialMatches(items, typed);
      if matches != [] {
        FillListbox(SortByKey(matches), typed);
      }
    }

    /** Lines 125-134: insert the rows one by one, noting the last whose key is the query,
        then highlight it, or the first row when there is none. */
    method FillListbox(sorted: seq<Item>, typed: string)
      requires sorted != [] && rows == []
      modifies this`rows, this`selection
      ensures rows == sorted
      ensures selection == InitialSelection(sorted, typed)
      ensures InBounds(selection, |rows|)
    {
      var exact := -1;
      var k := 0;
      while k < |sorted|
        invariant 0 <= k <= |sorted|
        invariant rows == sorted[..k]
        invariant exact == match LastExact(sorted[..k], typed) case Some(j) => j case None => -1
      {
        rows := rows + [sorted[k]];
        if typed == Lower(sorted[k].key) {
          exact := k;
        }
        assert sorted[..k + 1][..k] == sorted[..k];
        k := k + 1;
      }
      assert rows == sorted;
      if exact >= 0 {
        selection := Some(exact);
      } else {
        selection := Some(0);
      }
      InitialSelectionIsExactOrFirst(sorted, typed);
    }

    /** The `entry_var.trace("w", update_listbox)` binding: typing replaces the text and
        refreshes the list. */
    method Type(newText: string)
      requires Valid() && open
      modifies this`text, this`rows, this`selection
      ensures Valid() && text == newText
      ensures selection == InitialSelection(rows, Query(newText))
    {
      text := newText;
      UpdateListbox();
    }

    /** `move_selection` (lines 194-210). */
    method MoveSelection(arrow: Arrow)
      requires Valid() && open
      modifies this`selection
      ensures Valid()
      ensures selection == Step(old(selection), |rows|, arrow)
    {
      match selection
      case None =>
        if |rows| > 0 {
          selection := Some(0);
        }
      case Some(index) =>
        if arrow == Up && index > 0 {
          selection := Some(index - 1);
        } else if arrow == Down && index < |rows| - 1 {
          selection := Some(index + 1);
        }
    }

    /** `launch_bookmark` (lines 136-177): rebuild the visible list, check the highlighted
        index against it, and hand `[handler_path, normpath(url)]` to the process spawner,
        closing the window. `normpath` stands for `os.path.normpath`. */
    method LaunchBookmark(normpath: string -> string) returns (cmd: Option<seq<string>>)
      requires Valid() && open
      modifies this`open
      ensures cmd == LaunchCommand(items, handler, text, selection, normpath)
      ensures cmd.Some? <==> selection.Some?
      ensures selection.Some? ==> cmd.value == [handler, normpath(rows[selection.value].url)]
      ensures open == cmd.None?
    {
      var typed := Query(text);
      if selection.None? {
        return None;
      }
      var index := selection.value;
      var visible := Visible(items, typed);
      DisplayedIsVisible(items, text);
      if index >= |visible| {
        return None;
      }
      var item := visible[index];
      cmd := Some([handler, normpath(item.url)]);
      open := false;
    }
  }

  /** Start-up (lines 50-85 and 220): load the registry, match the context, flatten the
      bookmarks and open the window, or stop with the reason. */
  method Start(root: Node, exe: string) returns (r: Result<Session, Failure>)
    ensures r.Failure? <==> Prepare(root, exe).Failure?
    ensures r.Failure? ==> r.error == Prepare(root, exe).error
    ensures r.Success? ==>
              && fresh(r.value) && r.value.Valid() && r.value.open && r.value.text == ""
              && r.value.rows == r.value.items && r.value.selection == InitialSelection(r.value.items, "")
              && r.value.handler == Prepare(root, exe).value.handler
              && r.value.items == Prepare(root, exe).value.items
  {
    if !root.Mapping? {
      return Failure(RootNotMapping);
    }
    var matched := MatchContext(root.entries, exe);
    if matched.Failure? {
      return Failure(matched.error);
    }
    var ctx := matched.value;
    var bookmarks := BookmarksOf(ctx);
    if bookmarks.Failure? {
      return Failure(bookmarks.error);
    }
    var items := FlattenBookmarks(ctx.category, bookmarks.value);
    if items.Failure? {
      return Failure(items.error);
    }
    var session := new Session(items.value, ctx.handler);
    return Success(session);
  }
}
