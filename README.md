# Bookmark launcher, modelled in Dafny

`launcher.py` is a typeahead bookmark picker. It starts with the name of the foreground
executable. It reads `bookmarks.yml`, a dict of categories. Each category has a
`handlers` dict, mapping executable names to a handler program, and a `bookmarks`
dict, mapping bookmark keys to a `url` and an optional display name `dsp`.

The launcher picks the first category whose handlers name the executable, ignoring
case. It flattens that category's bookmarks into `(key, display, url)` triples sorted
by key and opens a window. The window has an entry and a list. Typing filters the list
by substring, ignoring case, and re-highlights a row. Up and Down move the highlight.
Enter runs `[handler, normpath(url)]` for the highlighted row.

The model is split into these modules:

- `Wrappers`: `Option` and `Result`.
- `Text`: Python's `str.lower`, `str.strip`, `in` on strings and `<=` on strings.
- `Registry`: the parsed YAML tree (`Node`, `Key`), the `Item` triple and the start-up
  failures.
- `Ordering`: the stable sort by key that `list.sort(key=...)` performs.
- `Matching`: context matching (lines 53-71). It holds:
  - the function `FindContext`, which specifies the search;
  - the nested-loop methods `MatchContext` and `ScanHandlers`, proved against it;
  - the search as written, for the first finding below.
- `Bookmarks`: reading and flattening the bookmarks (lines 73-85). The loop is the
  method `FlattenBookmarks`, proved against `BookmarkItems`.
- `Filtering`: what the window shows, highlights and launches, as functions. These are
  the query, the filter, the rows, the initial highlight, an arrow press and the launch
  command.
- `Launcher`: start-up as a whole (`Prepare`, `Start`) and the window as a class
  `Session`. Its fields `text`, `rows`, `selection` and `open` are updated in place by
  `UpdateListbox`, `Type`, `MoveSelection` and `LaunchBookmark`. Its invariant `Valid`
  says three things: the bookmarks are sorted by key, the rows are always the filtered,
  sorted view of the text, and the highlight is in range.

## Model

| member | source | states |
|---|---|---|
| Text.LowerPointwise | launcher.py:116 | `Lower` keeps the length and lower-cases each character on its own |
| Text.LowerIdempotent | launcher.py:116 | lower-casing an already lower-cased query changes nothing |
| Text.Lower | launcher.py:116 | `s.lower()`: every letter A to Z replaced by its lower-case form; its properties are in `Text.LowerPointwise` and `Text.LowerIdempotent` |
| Text.TrimStartCuts | launcher.py:116 | `lstrip()` yields a suffix that does not start with whitespace, and it removes only whitespace |
| Text.TrimEndCuts | launcher.py:116 | `rstrip()` yields a prefix that does not end with whitespace, and it removes only whitespace |
| Text.TrimStart | launcher.py:116 | `s.lstrip()`: drops leading characters of Python's whitespace set; `Text.TrimStartCuts` states what it keeps |
| Text.TrimEnd | launcher.py:116 | `s.rstrip()`: drops trailing whitespace; `Text.TrimEndCuts` states what it keeps |
| Text.Strip | launcher.py:116 | `s.strip()`, as `rstrip` after `lstrip`; `Text.StripTrims` states what it keeps |
| Text.StripTrims | launcher.py:116 | `strip()` yields a slice of the text with no whitespace at either end, and only whitespace around it |
| Text.Contains | launcher.py:121 | `needle in hay`: some suffix of the hay starts with the needle; `Text.ContainsAt` proves it equal to an occurrence at an index |
| Text.ContainsAt | launcher.py:121 | `needle in hay` holds exactly when the needle occurs at some index of the hay |
| Text.ContainsEmpty | launcher.py:121 | the empty query is contained in every string |
| Text.StrLe | launcher.py:85 | `a <= b` on `str`: lexicographic order on code points, with a proper prefix first |
| Text.StrLeTotal | launcher.py:85 | any two keys are comparable, which the sort relies on |
| Text.StrLeTrans | launcher.py:85 | the key order is transitive |
| Text.StrLeAntisym | launcher.py:85 | two keys that are each `<=` the other are equal |
| Registry.Get | launcher.py:57-59 | a dict lookup misses exactly when no entry has the key; a hit is an entry of the dict |
| Registry.KeyStr | launcher.py:56 | `str(key)` of a dict key: the string itself, or the `str()` form of another scalar |
| Registry.GetFinds | launcher.py:82-83 | in a dict with distinct keys, the lookup returns the value stored under the key |
| Ordering.Insert | launcher.py:85 | inserting one triple adds exactly that triple to the multiset |
| Ordering.InsertSorted | launcher.py:85 | inserting into a key-sorted list keeps it key-sorted |
| Ordering.SortByKey | launcher.py:85 | the sort returns a permutation of its input |
| Ordering.SortByKeySorts | launcher.py:85 | the sort's result is sorted by key |
| Ordering.SortSortedIsIdentity | launcher.py:124 | re-sorting an already sorted list changes nothing |
| Ordering.InsertKeepsRuns | launcher.py:85 | insertion keeps the order of the triples that share a key |
| Ordering.SortIsStable | launcher.py:85 | the sort is stable: triples with equal keys keep their file order |
| Matching.HandlerFor | launcher.py:59-65 | the inner loop's result: the path of the first handler whose key, lower-cased, equals the executable's name, lower-cased; `Matching.HandlerForIsFirstMatch` states it |
| Matching.KeyMatches | launcher.py:62 | a handler key matches when its `str()`, lower-cased, equals the executable's name, lower-cased |
| Matching.Judge | launcher.py:57-65 | what the outer loop makes of one category: skipped when it is not a dict or has no "handlers", an error when "handlers" is not a dict, else a miss or the first matching handler's path |
| Matching.FindContext | launcher.py:53-71 | the search, stopping at the first category with a matching handler; an error stops it; running off the end is "no matching category" |
| Matching.HandlerForIsFirstMatch | launcher.py:59-65 | no handler is found iff no handler key matches the executable, ignoring case; otherwise the path is that of the first matching key |
| Matching.ScanHandlers | launcher.py:59-65 | the inner loop returns the first matching handler's path, or nothing |
| Matching.FindContextIsAHit | launcher.py:53-71 | a found context is a category of the file whose handlers match, with that category's name, handler path and own entries |
| Matching.FirstMatchWins | launcher.py:53-67 | if every earlier category is skipped or misses, the first category with a matching handler is chosen, with its first matching handler |
| Matching.BadHandlersFail | launcher.py:59 | a "handlers" value that is not a dict, reached before any match, stops start-up with an error naming that category |
| Matching.NoMatchAnywhere | launcher.py:69-71 | with no matching handler in any category, start-up stops with "no matching category" |
| Matching.MatchContext | launcher.py:53-71 | the nested loops with `continue` and `break` compute exactly `FindContext` |
| Matching.AsWrittenIsPendingOrAHit | launcher.py:53-71 | the search as written returns either a match it recorded under the name "" or the category that matched |
| Matching.FindContextAsWritten | launcher.py:53-71 | the search as written: a match in a category named "" is recorded but does not stop the loop, and a later match replaces it |
| Matching.AsWrittenAgreesWithoutEmptyNames | launcher.py:66-67 | when no category is named "", the search as written is first-match-wins |
| Matching.EmptyNameMatchIsOverridden | launcher.py:66-67 | a concrete file in which a matching category named "" is overridden by a later match |
| Bookmarks.BookmarksOf | launcher.py:73-75 | the matched category's "bookmarks" entries are read: none when the key is missing, the dict's entries when it is a dict, and an error naming the category exactly when it is not a dict |
| Bookmarks.WellFormed | launcher.py:80 | a bookmark is usable when its value is a dict with a "url" key |
| Bookmarks.ToItem | launcher.py:79-84 | one bookmark's triple; `Bookmarks.ItemOfBookmark` states its fields |
| Bookmarks.Collect | launcher.py:77-84 | the append loop before the sort: the triples in file order, or the error for the first malformed bookmark; `Bookmarks.CollectOnePerBookmark` and `Bookmarks.CollectReportsFirstMalformed` state it |
| Bookmarks.ItemOfBookmark | launcher.py:79-84 | a triple holds the key, the "dsp" value or else the key again, and the "url" value |
| Bookmarks.CollectOnePerBookmark | launcher.py:77-84 | flattening succeeds iff every bookmark is a dict with a "url", and then yields one triple per bookmark, in file order |
| Bookmarks.CollectReportsFirstMalformed | launcher.py:80-81 | the error names the first malformed bookmark in file order, and its category |
| Bookmarks.BookmarkItems | launcher.py:77-85 | `bookmark_items` is a key-sorted permutation of the flattened triples, or the flattening error |
| Bookmarks.FlattenBookmarks | launcher.py:77-85 | the append loop, followed by the sort, computes exactly `BookmarkItems` |
| Bookmarks.LookupAgreesForTextNames | launcher.py:56-75 | when every category name is a string, the lookup as written reads the bookmarks of the category that matched |
| Bookmarks.BookmarksAsWritten | launcher.py:73-75 | the lookup as written: the category is found again by its `str()` name, then "bookmarks" is read from it |
| Bookmarks.NumericCategoryNameIsLost | launcher.py:56-73 | a concrete file in which a category named 123 matches, and then looking up `"123"` fails |
| Filtering.Visible | launcher.py:156-160 | the comprehension never returns more triples than it was given |
| Filtering.Query | launcher.py:116 | the typed text, stripped and lower-cased, as at lines 116 and 147 |
| Filtering.Matches | launcher.py:121 | a triple matches when its lower-cased key or lower-cased display name contains the query, as at lines 121 and 159 |
| Filtering.VisibleCounts | launcher.py:118-122 | each triple is kept as often as it occurs if it matches, and dropped otherwise |
| Filtering.VisibleIsExactlyTheMatches | launcher.py:156-160 | soundness and completeness: a triple is listed iff it is a bookmark whose lower-cased key or display contains the query |
| Filtering.VisibleKeepsSorted | launcher.py:120-124 | filtering keeps a key-sorted list key-sorted |
| Filtering.EmptyQueryKeepsAll | launcher.py:118-122 | an empty query keeps every bookmark, in order |
| Filtering.MatchesEmpty | launcher.py:121 | every triple matches the empty query |
| Filtering.Displayed | launcher.py:118-126 | the listbox rows are the matches of the query, each as often as it occurs |
| Filtering.DisplayedIsSorted | launcher.py:123-126 | the listbox rows are in key order |
| Filtering.DisplayedIsVisible | launcher.py:140-160 | the rows shown equal the list that `launch_bookmark` rebuilds |
| Filtering.EmptyTextShowsAll | launcher.py:115-124 | with an empty entry every bookmark is shown, in the order of `bookmark_items` |
| Filtering.LastExactIsLast | launcher.py:125-128 | `exact_match_index` is the last row whose lower-cased key equals the query, or none |
| Filtering.IsExact | launcher.py:127 | a row is an exact match when its lower-cased key equals the query |
| Filtering.LastExact | launcher.py:125-128 | `exact_match_index`: the index of the last row whose lower-cased key equals the query; `Filtering.LastExactIsLast` states it |
| Filtering.InitialSelectionIsExactOrFirst | launcher.py:129-134 | the highlight is the last exact match, else row 0; it is absent only with no rows, and always in range |
| Filtering.InitialSelection | launcher.py:129-134 | the highlighted row after a refill: the last exact match, else row 0, and none for an empty list; `Filtering.InitialSelectionIsExactOrFirst` states it |
| Filtering.Step | launcher.py:194-210 | an arrow press keeps the highlight in range; with nothing highlighted it highlights row 0 of a non-empty list and nothing otherwise; it moves by at most one row |
| Filtering.DownStopsAtLastRow | launcher.py:206-209 | repeated Down presses stop at the last row and do not wrap around |
| Filtering.UpStopsAtFirstRow | launcher.py:202-205 | repeated Up presses stop at row 0 and do not wrap around |
| Filtering.LaunchCommand | launcher.py:147-165 | no command is produced iff nothing is highlighted or the index is past the rebuilt list; a command is `[handler, ...]` with two elements |
| Filtering.LaunchMatchesDisplayedRow | launcher.py:155-165 | for an index into the shown rows, the command is `[handler, normpath(url)]` of that shown row |
| Launcher.Prepare | launcher.py:50-85 | start-up fails on a root that is not a dict, then with the search's error, then when the category's "bookmarks" is not a dict, then with the flattening error; otherwise it yields the matched handler and exactly `BookmarkItems` of the matched category's bookmarks, key-sorted |
| Launcher.PotentialMatches | launcher.py:118-122 | the filter loop computes exactly `Visible` of the query |
| Launcher.Session.constructor | launcher.py:212-220 | the window opens valid, with an empty entry, every bookmark listed and the initial highlight |
| Launcher.Session.UpdateListbox | launcher.py:115-134 | the rows become the displayed view of the text, and the highlight becomes the initial selection, in range |
| Launcher.Session.FillListbox | launcher.py:125-134 | the insert loop lists the sorted matches and tracks the last exact match, then highlights it or row 0 |
| Launcher.Session.Type | launcher.py:212 | a change of the entry text refreshes the rows and keeps the window valid |
| Launcher.Session.MoveSelection | launcher.py:194-210 | an arrow press makes the highlight `Step` of the old highlight and keeps the window valid |
| Launcher.Session.LaunchBookmark | launcher.py:136-177 | in an open window, Enter launches `[handler, normpath(url)]` of the highlighted shown row exactly when a row is highlighted, and the window is closed exactly then |
| Launcher.Start | launcher.py:50-220 | start-up fails iff `Prepare` fails, with the same error; otherwise it opens a valid session over the prepared handler and bookmarks, listing every bookmark with `InitialSelection(items, "")` highlighted, as the `update_listbox()` at line 220 leaves it |

## Left out

- Reading `sys.argv` and the window geometry (lines 27-37) is left out. The executable name is a parameter of `Start`.
- Loading and parsing `bookmarks.yml` (lines 39-48) is left out. `Start` receives the parsed tree. The YAML errors and the missing-file error are not modelled.
- The Tkinter window, its colours and fonts, and the focus-loss polling (`check_focus`, `on_focus_out`, `on_focus_in`) are left out. So are `close_window` and the Escape key.
- Each listbox row's label text (line 126) is left out. Rows are modelled as the triples themselves.
- Message boxes, `show_detailed_error` and `sys.exit(1)` are left out. Each start-up error is a `Failure` value instead.
- `subprocess.Popen` and its launch errors (lines 166-175) are left out. `LaunchBookmark` returns the command, and the window closes whether or not the launch succeeds, as the `finally` at line 177 does.
- `os.path.normpath` is a function parameter of `LaunchCommand` and `LaunchBookmark`. Its behaviour is not modelled.
- Text.Lower: only the letters A to Z are lower-cased. Python's full Unicode `lower()` is not modelled, because it needs the Unicode tables.
- `str()` of a non-string YAML value or key is not computed. Each `Node` and `NonText` key carries its `str()` form as `shown`.
- Ordering.SortByKey is a stable insertion sort, not Python's Timsort. Both are stable sorts by the same key, so they give the same list.
- Matching.BadHandlersFail: the source's `.items()` on a "handlers" value that is not a dict raises `AttributeError`, which names no category and is reported as "Unexpected Error" (lines 234-236). The model's `HandlersNotMapping(category)` adds the category name as a label. The point at which start-up stops is the same.
- Launcher.Session.Type, Launcher.Session.MoveSelection and Launcher.Session.LaunchBookmark require an open window. After `root.destroy()` the source has no event loop to deliver more events, and the model does not describe events after the close.
- Launcher.Session.LaunchBookmark: the stale-index branch is modelled, but `Valid` keeps it from being reached. The contract says a command is produced exactly when a row is highlighted.

## Findings

| source | as written | input that shows it | evidently intended | confidence | as-written member | corrected member |
|---|---|---|---|---|---|---|
| launcher.py:66-67 | the outer loop stops only when `matched_category` is truthy, so a match in a category named "" does not stop the search | categories `""` and `b`, both with a handler `app.exe`, and the executable `App.exe`: category `b` is chosen | the first category with a matching handler is chosen | not executed | Matching.EmptyNameMatchIsOverridden | Matching.FirstMatchWins |
| launcher.py:56-73 | the category is looked up again as `data[str(name)]`, which misses a category whose YAML name is not a string | a category `123` (an integer key) with a handler `app.exe`: matching succeeds, then the lookup of `"123"` raises `KeyError` | the bookmarks of the category that matched are read | not executed | Bookmarks.NumericCategoryNameIsLost | Bookmarks.BookmarksOf |

The model uses the corrected behaviour. `Matching.FindContext` stops at the first
match and keeps that category's own entries in the context's `fields`.
`Bookmarks.BookmarksOf` then reads "bookmarks" from those entries, not through a second
lookup by name.
The as-written functions `Matching.FindContextAsWritten` and
`Bookmarks.BookmarksAsWritten` are kept alongside them for comparison.
