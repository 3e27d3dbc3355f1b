/**
  Lines 73-85: read the matched category's "bookmarks" dict and flatten it into
  `(key, display_name, url)` triples sorted by key.
 */
module Bookmarks {
  import opened Wrappers
  import opened Text
  import opened Registry
  import opened Ordering
  import opened Matching

  /** `data[matched_category].get("bookmarks", {})`, read from the matched category's own dict. */
  function BookmarksOf(ctx: Context): (r: Result<seq<(Key, Node)>, Failure>)
    ensures r.Failure? <==>
              Get(ctx.fields, Text("bookmarks")).Some? && !Get(ctx.fields, Text("bookmarks")).value.Mapping?
    ensures r.Failure? ==> r.error == BookmarksNotMapping(ctx.category)
    ensures Get(ctx.fields, Text("bookmarks")).None? ==> r == Success([])
    ensures (Get(ctx.fields, Text("bookmarks")).Some? && Get(ctx.fields, Text("bookmarks")).value.Mapping?)
              ==> r == Success(Get(ctx.fields, Text("bookmarks")).value.entries)
  {
    match Get(ctx.fields, Text("bookmarks"))
    case None => Success([])
    case Some(b) => if b.Mapping? then Success(b.entries) else Failure(BookmarksNotMapping(ctx.category))
  }

  /** A bookmark value is usable when it is a dict with a "url" key. */
  predicate WellFormed(bookmark: (Key, Node)) {
    bookmark.1.Mapping? && Get(bookmark.1.entries, Text("url")).Some?
  }

  /** `(key, str(props.get("dsp", key)), str(props["url"]))` for one bookmark. */
  function ToItem(bookmark: (Key, Node)): Item
    requires WellFormed(bookmark)
  {
    var key := KeyStr(bookmark.0);
    var props := bookmark.1.entries;
    var display := match Get(props, Text("dsp")) case Some(d) => d.shown case None => key;
    Item(key, display, Get(props, Text("url")).value.shown)
  }

  /** A bookmark's triple: its key; its "dsp" value, or the key again when there is none;
      and its "url" value. */
  lemma ItemOfBookmark(bookmark: (Key, Node), dsp: Node, url: Node)
    requires WellFormed(bookmark) && DistinctKeys(bookmark.1.entries)
    ensures ToItem(bookmark).key == KeyStr(bookmark.0)
    ensures (Text("url"), url) in bookmark.1.entries ==> ToItem(bookmark).url == url.shown
    ensures (Text("dsp"), dsp) in bookmark.1.entries ==> ToItem(bookmark).display == dsp.shown
    ensures (forall i :: 0 <= i < |bookmark.1.entries| ==> bookmark.1.entries[i].0 != Text("dsp"))
              ==> ToItem(bookmark).display == ToItem(bookmark).key
  {
    if (Text("url"), url) in bookmark.1.entries {
      GetFinds(bookmark.1.entries, Text("url"), url);
    }
    if (Text("dsp"), dsp) in bookmark.1.entries {
      GetFinds(bookmark.1.entries, Text("dsp"), dsp);
    }
  }

  /** The loop of lines 78-84, before the sort: the triples of the bookmarks in file
      order, or the error for the first malformed one. */
  function Collect(category: string, bookmarks: seq<(Key, Node)>): Result<seq<Item>, Failure> {
    if bookmarks == [] then Success([])
    else if !WellFormed(bookmarks[0]) then Failure(BookmarkMalformed(category, KeyStr(bookmarks[0].0)))
    else
      var rest :- Collect(category, bookmarks[1..]);
      Success([ToItem(bookmarks[0])] + rest)
  }

  /** Flattening succeeds exactly when every bookmark is a dict with a "url", and then
      yields one triple per bookmark, in file order. */
  lemma {:induction false} CollectOnePerBookmark(category: string, bookmarks: seq<(Key, Node)>)
    ensures Collect(category, bookmarks).Success? <==> forall i :: 0 <= i < |bookmarks| ==> WellFormed(bookmarks[i])
    ensures Collect(category, bookmarks).Success? ==>
              && |Collect(category, bookmarks).value| == |bookmarks|
              && forall i :: 0 <= i < |bookmarks| ==> Collect(category, bookmarks).value[i] == ToItem(bookmarks[i])
  {
    if bookmarks != [] {
      CollectOnePerBookmark(category, bookmarks[1..]);
      if WellFormed(bookmarks[0]) && Collect(category, bookmarks[1..]).Success? {
        var rest := Collect(category, bookmarks[1..]).value;
        assert Collect(category, bookmarks).value == [ToItem(bookmarks[0])] + rest;
        forall i | 0 < i < |bookmarks|
          ensures Collect(category, bookmarks).value[i] == ToItem(bookmarks[i])
        {
          assert bookmarks[i] == bookmarks[1..][i - 1];
        }
      }
      if !(forall i :: 0 <= i < |bookmarks[1..]| ==> WellFormed(bookmarks[1..][i])) {
        var i :| 0 <= i < |bookmarks[1..]| && !WellFormed(bookmarks[1..][i]);
        assert !WellFormed(bookmarks[i + 1]);
      }
    }
  }

  /** The first malformed bookmark, in file order, is the one reported. */
  lemma {:induction false} CollectReportsFirstMalformed(category: string, bookmarks: seq<(Key, Node)>, i: nat)
    requires i < |bookmarks| && !WellFormed(bookmarks[i])
    requires forall j :: 0 <= j < i ==> WellFormed(bookmarks[j])
    ensures Collect(category, bookmarks) == Failure(BookmarkMalformed(category, KeyStr(bookmarks[i].0)))
  {
    if i > 0 {
      CollectReportsFirstMalformed(category, bookmarks[1..], i - 1);
    }
  }

  /** `bookmark_items` after line 85. */
  function BookmarkItems(category: string, bookmarks: seq<(Key, Node)>): (r: Result<seq<Item>, Failure>)
    ensures r.Failure? ==> r == Collect(category, bookmarks)
    ensures r.Success? ==>
              && Collect(category, bookmarks).Success?
              && SortedByKey(r.value)
              && multiset(r.value) == multiset(Collect(category, bookmarks).value)
  {
    var items :- Collect(category, bookmarks);
    SortByKeySorts(items);
    Success(SortByKey(items))
  }

  /** Lines 77-85: append one triple per bookmark, raising on the first malformed one,
      then sort the list by key. */
  method FlattenBookmarks(category: string, bookmarks: seq<(Key, Node)>)
    returns (r: Result<seq<Item>, Failure>)
    ensures r == BookmarkItems(category, bookmarks)
  {
    var items: seq<Item> := [];
    var i := 0;
    while i < |bookmarks|
      invariant 0 <= i <= |bookmarks|
      invariant |items| == i
      invariant forall k :: 0 <= k < i ==> WellFormed(bookmarks[k]) && items[k] == ToItem(bookmarks[k])
    {
      var (key, props) := bookmarks[i];
      if !props.Mapping? || Get(props.entries, Text("url")).None? {
        CollectReportsFirstMalformed(category, bookmarks, i);
        return Failure(BookmarkMalformed(category, KeyStr(key)));
      }
      items := items + [ToItem(bookmarks[i])];
      i := i + 1;
    }
    CollectOnePerBookmark(category, bookmarks);
    assert items == Collect(category, bookmarks).value;
    SortByKeySorts(items);
    return Success(SortByKey(items));
  }

  // ---------------------------------------------------------------------------
  // Line 73 as written looks the category up again by its `str()` name, `data[matched_category]`,
  // which misses a category whose name in the file is not a string.

  function BookmarksAsWritten(data: seq<(Key, Node)>, category: string): Result<seq<(Key, Node)>, Failure> {
    match Get(data, Text(category))
    case None => Failure(CategoryNotFound(category))
    case Some(cd) =>
      if !cd.Mapping? then Failure(CategoryNotMapping(category))
      else match Get(cd.entries, Text("bookmarks"))
        case None => Success([])
        case Some(b) => if b.Mapping? then Success(b.entries) else Failure(BookmarksNotMapping(category))
  }

  /** When every category name is a string, looking the category up again finds the
      dict that matched. */
  lemma LookupAgreesForTextNames(data: seq<(Key, Node)>, exe: string)
    requires DistinctKeys(data)
    requires forall i :: 0 <= i < |data| ==> data[i].0.Text?
    requires FindContext(data, exe).Success?
    ensures BookmarksAsWritten(data, FindContext(data, exe).value.category)
              == BookmarksOf(FindContext(data, exe).value)
  {
    var ctx := FindContext(data, exe).value;
    FindContextIsAHit(data, exe);
    var i :| 0 <= i < |data| && Judge(data[i], exe) == Hit(ctx.handler)
      && ctx.category == KeyStr(data[i].0) && data[i].1.Mapping? && ctx.fields == data[i].1.entries;
    assert data[i].0 == Text(ctx.category);
    var cd := Get(data, Text(ctx.category)).value;
    var k :| 0 <= k < |data| && data[k] == (Text(ctx.category), cd);
    assert k == i;
  }

  /** A category named 123 in the file matches, then `data["123"]` raises. */
  lemma NumericCategoryNameIsLost()
    ensures var fields := [(Text("handlers"), Mapping([(Text("app.exe"), Plain("/a"))], ""))];
            var data := [(NonText("123"), Mapping(fields, ""))];
            && FindContext(data, "app.exe") == Success(Context("123", "/a", fields))
            && BookmarksOf(FindContext(data, "app.exe").value) == Success([])
            && BookmarksAsWritten(data, "123") == Failure(CategoryNotFound("123"))
  {
    var fields := [(Text("handlers"), Mapping([(Text("app.exe"), Plain("/a"))], ""))];
    var data := [(NonText("123"), Mapping(fields, ""))];
    assert Judge(data[0], "app.exe") == Hit("/a");
  }
}
