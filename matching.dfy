/**
  Context matching: find, among the categories of bookmarks.yml in file order, the
  handler whose key equals the foreground executable's name, ignoring case.
 */
module Matching {
  import opened Wrappers
  import opened Text
  import opened Registry

  /** The matched category: its name as `str()` gives it, the handler's path, and the
      entries of the category's own dict. */
  datatype Context = Context(category: string, handler: string, fields: seq<(Key, Node)>)

  predicate KeyMatches(handler: (Key, Node), exe: string) {
    Lower(KeyStr(handler.0)) == Lower(exe)
  }

  /** The inner loop: the path of the first handler whose key matches `exe`. */
  function HandlerFor(handlers: seq<(Key, Node)>, exe: string): Option<string> {
    if handlers == [] then None
    else if KeyMatches(handlers[0], exe) then Some(handlers[0].1.shown)
    else HandlerFor(handlers[1..], exe)
  }

  /** No handler is found exactly when no key matches; otherwise the path found is that of
      the first key that matches. */
  lemma {:induction false} HandlerForIsFirstMatch(handlers: seq<(Key, Node)>, exe: string)
    ensures HandlerFor(handlers, exe).None? <==> forall j :: 0 <= j < |handlers| ==> !KeyMatches(handlers[j], exe)
    ensures HandlerFor(handlers, exe).Some? ==>
              exists j :: (0 <= j < |handlers| && KeyMatches(handlers[j], exe)
                           && HandlerFor(handlers, exe).value == handlers[j].1.shown
                           && forall k :: 0 <= k < j ==> !KeyMatches(handlers[k], exe))
  {
    if handlers != [] && !KeyMatches(handlers[0], exe) {
      HandlerForIsFirstMatch(handlers[1..], exe);
      var r := HandlerFor(handlers, exe);
      if r.Some? {
        var j :| 0 <= j < |handlers[1..]| && KeyMatches(handlers[1..][j], exe)
          && r.value == handlers[1..][j].1.shown
          && forall k :: 0 <= k < j ==> !KeyMatches(handlers[1..][k], exe);
        forall k | 0 < k < j + 1
          ensures !KeyMatches(handlers[k], exe)
        {
          assert handlers[k] == handlers[1..][k - 1];
        }
        assert KeyMatches(handlers[j + 1], exe) && r.value == handlers[j + 1].1.shown;
      }
      if forall j :: 0 <= j < |handlers[1..]| ==> !KeyMatches(handlers[1..][j], exe) {
        forall j | 0 < j < |handlers|
          ensures !KeyMatches(handlers[j], exe)
        {
          assert handlers[j] == handlers[1..][j - 1];
        }
      }
    }
  }

  /** What the outer loop makes of one category. */
  datatype Verdict =
    | Skip              // not a dict, or no "handlers" key: `continue`
    | Bad               // "handlers" is not a dict: `.items()` raises
    | Miss              // no handler key matches
    | Hit(path: string) // the first matching handler's path

  function Judge(category: (Key, Node), exe: string): Verdict {
    var cd := category.1;
    if !cd.Mapping? then Skip
    else match Get(cd.entries, Text("handlers"))
      case None => Skip
      case Some(h) =>
        if !h.Mapping? then Bad
        else match HandlerFor(h.entries, exe)
          case None => Miss
          case Some(p) => Hit(p)
  }

  /** Lines 53-71 with the search stopping at the first match. */
  function FindContext(data: seq<(Key, Node)>, exe: string): Result<Context, Failure> {
    if data == [] then Failure(NoMatchingCategory(exe))
    else match Judge(data[0], exe)
      case Skip => FindContext(data[1..], exe)
      case Miss => FindContext(data[1..], exe)
      case Bad => Failure(HandlersNotMapping(KeyStr(data[0].0)))
      case Hit(p) => Success(Context(KeyStr(data[0].0), p, data[0].1.entries))
  }

  /** A context that is found is a category of the file whose handlers match `exe`, with
      that category's name, handler path and own entries. */
  lemma {:induction false} FindContextIsAHit(data: seq<(Key, Node)>, exe: string)
    requires FindContext(data, exe).Success?
    ensures var c := FindContext(data, exe).value;
            exists i :: (0 <= i < |data| && Judge(data[i], exe) == Hit(c.handler)
                         && c.category == KeyStr(data[i].0) && data[i].1.Mapping? && c.fields == data[i].1.entries)
  {
    var c := FindContext(data, exe).value;
    if !Judge(data[0], exe).Hit? {
      FindContextIsAHit(data[1..], exe);
      var i :| 0 <= i < |data[1..]| && Judge(data[1..][i], exe) == Hit(c.handler)
        && c.category == KeyStr(data[1..][i].0) && data[1..][i].1.Mapping? && c.fields == data[1..][i].1.entries;
      assert data[1..][i] == data[i + 1];
    } else {
      assert Judge(data[0], exe) == Hit(c.handler);
    }
  }

  /** First match wins: the first category, in file order, that has a matching handler is
      chosen, provided every category before it is skipped or has no matching handler. */
  lemma {:induction false} FirstMatchWins(data: seq<(Key, Node)>, exe: string, i: nat)
    requires i < |data| && Judge(data[i], exe).Hit?
    requires forall j :: 0 <= j < i ==> Judge(data[j], exe) in {Skip, Miss}
    ensures data[i].1.Mapping?
    ensures FindContext(data, exe)
              == Success(Context(KeyStr(data[i].0), Judge(data[i], exe).path, data[i].1.entries))
  {
    if i > 0 {
      assert Judge(data[0], exe) in {Skip, Miss};
      FirstMatchWins(data[1..], exe, i - 1);
    }
  }

  /** A category whose "handlers" is not a dict stops the search with an error, when every
      category before it is skipped or has no matching handler. */
  lemma {:induction false} BadHandlersFail(data: seq<(Key, Node)>, exe: string, i: nat)
    requires i < |data| && Judge(data[i], exe) == Bad
    requires forall j :: 0 <= j < i ==> Judge(data[j], exe) in {Skip, Miss}
    ensures FindContext(data, exe) == Failure(HandlersNotMapping(KeyStr(data[i].0)))
  {
    if i > 0 {
      assert Judge(data[0], exe) in {Skip, Miss};
      BadHandlersFail(data[1..], exe, i - 1);
    }
  }

  /** With no matching handler anywhere, the outcome is "no matching category". */
  lemma {:induction false} NoMatchAnywhere(data: seq<(Key, Node)>, exe: string)
    requires forall j :: 0 <= j < |data| ==> Judge(data[j], exe) in {Skip, Miss}
    ensures FindContext(data, exe) == Failure(NoMatchingCategory(exe))
  {
    if data != [] {
      assert Judge(data[0], exe) in {Skip, Miss};
      NoMatchAnywhere(data[1..], exe);
    }
  }

  /** The inner loop of lines 59-65: scan the handlers and stop at the first whose key,
      lower-cased, equals the executable's name, lower-cased. */
  method ScanHandlers(handlers: seq<(Key, Node)>, exe: string) returns (path: Option<string>)
    ensures path == HandlerFor(handlers, exe)
  {
    var j := 0;
    while j < |handlers|
      invariant 0 <= j <= |handlers|
      invariant HandlerFor(handlers, exe) == HandlerFor(handlers[j..], exe)
    {
      var (key, fullPath) := handlers[j];
      assert handlers[j..][0] == handlers[j] && handlers[j..][1..] == handlers[j + 1..];
      if Lower(KeyStr(key)) == Lower(exe) {
        return Some(fullPath.shown);
      }
      j := j + 1;
    }
    return None;
  }

  /** The outer loop of lines 53-71: skip categories that are not dicts or have no
      "handlers", and stop at the first category with a matching handler. */
  method MatchContext(data: seq<(Key, Node)>, exe: string) returns (r: Result<Context, Failure>)
    ensures r == FindContext(data, exe)
  {
    var i := 0;
    while i < |data|
      invariant 0 <= i <= |data|
      invariant FindContext(data, exe) == FindContext(data[i..], exe)
    {
      assert data[i..][0] == data[i] && data[i..][1..] == data[i + 1..];
      var (name, cd) := data[i];
      if !cd.Mapping? || Get(cd.entries, Text("handlers")).None? {
        i := i + 1;
        continue;
      }
      var handlers := Get(cd.entries, Text("handlers")).value;
      if !handlers.Mapping? {
        return Failure(HandlersNotMapping(KeyStr(name)));
      }
      var path := ScanHandlers(handlers.entries, exe);
      if path.Some? {
        return Success(Context(KeyStr(name), path.value, cd.entries));
      }
      i := i + 1;
    }
    return Failure(NoMatchingCategory(exe));
  }

  // ---------------------------------------------------------------------------
  // Lines 53-71 as written: the outer loop stops on `if matched_category:`, which is
  // false for a category whose name is the empty string.

  /** The search as written; `pending` is a match already recorded under the name "". */
  function FindContextAsWritten(data: seq<(Key, Node)>, exe: string, pending: Option<Context>)
    : Result<Context, Failure>
  {
    if data == [] then
      if pending.Some? then Success(pending.value) else Failure(NoMatchingCategory(exe))
    else match Judge(data[0], exe)
      case Skip => FindContextAsWritten(data[1..], exe, pending)
      case Miss => FindContextAsWritten(data[1..], exe, pending)
      case Bad => Failure(HandlersNotMapping(KeyStr(data[0].0)))
      case Hit(p) =>
        var c := Context(KeyStr(data[0].0), p, data[0].1.entries);
        if c.category != "" then Success(c) else FindContextAsWritten(data[1..], exe, Some(c))
  }

  /** The search as written returns the match it recorded under the name "", or a
      category whose handlers match `exe`. */
  lemma {:induction false} AsWrittenIsPendingOrAHit(data: seq<(Key, Node)>, exe: string, pending: Option<Context>)
    requires FindContextAsWritten(data, exe, pending).Success?
    ensures var c := FindContextAsWritten(data, exe, pending).value;
            || (pending.Some? && c == pending.value)
            || exists i :: (0 <= i < |data| && Judge(data[i], exe) == Hit(c.handler) && c.category == KeyStr(data[i].0))
  {
    var c := FindContextAsWritten(data, exe, pending).value;
    if data != [] {
      var v := Judge(data[0], exe);
      if v.Hit? && KeyStr(data[0].0) != "" {
        assert Judge(data[0], exe) == Hit(c.handler);
      } else if !v.Bad? {
        var next := if v.Hit? then Some(Context(KeyStr(data[0].0), v.path, data[0].1.entries)) else pending;
        AsWrittenIsPendingOrAHit(data[1..], exe, next);
        if exists i :: (0 <= i < |data[1..]| && Judge(data[1..][i], exe) == Hit(c.handler)
                        && c.category == KeyStr(data[1..][i].0)) {
          var i :| 0 <= i < |data[1..]| && Judge(data[1..][i], exe) == Hit(c.handler) && c.category == KeyStr(data[1..][i].0);
          assert data[1..][i] == data[i + 1];
        } else if v.Hit? && !(pending.Some? && c == pending.value) {
          assert Judge(data[0], exe) == Hit(c.handler);
        }
      }
    }
  }

  /** When no category is named "", the search as written is first-match-wins. */
  lemma {:induction false} AsWrittenAgreesWithoutEmptyNames(data: seq<(Key, Node)>, exe: string)
    requires forall i :: 0 <= i < |data| ==> KeyStr(data[i].0) != ""
    ensures FindContextAsWritten(data, exe, None) == FindContext(data, exe)
  {
    if data != [] {
      AsWrittenAgreesWithoutEmptyNames(data[1..], exe);
    }
  }

  /** A category named "" that matches is overridden by a later category that matches too. */
  lemma EmptyNameMatchIsOverridden()
    ensures var handlers := Mapping([(Text("app.exe"), Plain("/a"))], "");
            var later := Mapping([(Text("APP.EXE"), Plain("/b"))], "");
            var first := [(Text("handlers"), handlers)];
            var second := [(Text("handlers"), later)];
            var data := [(Text(""), Mapping(first, "")), (Text("b"), Mapping(second, ""))];
            && FindContextAsWritten(data, "App.exe", None) == Success(Context("b", "/b", second))
            && FindContext(data, "App.exe") == Success(Context("", "/a", first))
  {
    var handlers := Mapping([(Text("app.exe"), Plain("/a"))], "");
    var later := Mapping([(Text("APP.EXE"), Plain("/b"))], "");
    var first := [(Text("handlers"), handlers)];
    var second := [(Text("handlers"), later)];
    var data := [(Text(""), Mapping(first, "")), (Text("b"), Mapping(second, ""))];
    assert Lower("app.exe") == Lower("App.exe") == Lower("APP.EXE") == "app.exe";
    assert Judge(data[0], "App.exe") == Hit("/a");
    assert Judge(data[1], "App.exe") == Hit("/b");
    assert data[1..][1..] == [];
  }
}
