/**
  The already-parsed contents of bookmarks.yml, the bookmark triple the launcher
  shows and launches, and the ways loading it can fail.
 */
module Registry {
  import opened Wrappers

  /** A dict key as YAML produces it: a string, or another scalar (a number, a boolean,
      null) together with its `str()` form. Only a string key equals a string. */
  datatype Key = Text(s: string) | NonText(shown: string)

  /** `str(key)`. */
  function KeyStr(k: Key): string {
    match k
    case Text(s) => s
    case NonText(shown) => shown
  }

  /** A YAML value: a dict with its entries in file order, or anything else. Each carries
      `shown`, the value's `str()` form. */
  datatype Node =
    | Mapping(entries: seq<(Key, Node)>, shown: string)
    | Plain(shown: string)

  /** `d.get(k)`: the value stored under `k`, if any. */
  function Get(entries: seq<(Key, Node)>, k: Key): (r: Option<Node>)
    ensures r.None? <==> forall i :: 0 <= i < |entries| ==> entries[i].0 != k
    ensures r.Some? ==> (k, r.value) in entries
  {
    if entries == [] then None
    else if entries[0].0 == k then Some(entries[0].1)
    else Get(entries[1..], k)
  }

  /** A Python dict never holds one key twice. */
  predicate DistinctKeys(entries: seq<(Key, Node)>) {
    forall i, j :: 0 <= i < j < |entries| ==> entries[i].0 != entries[j].0
  }

  /** In a dict, looking a key up yields the value paired with it. */
  lemma GetFinds(entries: seq<(Key, Node)>, k: Key, v: Node)
    requires DistinctKeys(entries) && (k, v) in entries
    ensures Get(entries, k) == Some(v)
  {
    var i :| 0 <= i < |entries| && entries[i] == (k, v);
    var found := Get(entries, k).value;
    var j :| 0 <= j < |entries| && entries[j] == (k, found);
    assert i == j;
  }

  /** One row of the launcher: `(key, display_name, url)`. */
  datatype Item = Item(key: string, display: string, url: string)

  /** Why start-up stops before the window opens; the launcher exits with status 1 on each. */
  datatype Failure =
    | RootNotMapping
    | HandlersNotMapping(category: string)
    | NoMatchingCategory(exe: string)
    | CategoryNotFound(category: string)
    | CategoryNotMapping(category: string)
    | BookmarksNotMapping(category: string)
    | BookmarkMalformed(category: string, key: string)
}
