/** The recent-searches history: at most five distinct queries, most recent first,
    kept under one key of the browser's local storage. */
module Storage {

  /** How many queries the history keeps. */
  const MaxRecentSearches: nat := 5
  const RetrieveWarning := "Could not retrieve recent searches. Please check your browser settings."
  const SaveWarning := "Could not save recent searches. Please check your browser settings."
  const RecentSearchesHeading := "Recent Searches"

  /** What reading the history's storage key finds: nothing (no item, or an empty
      string), something that cannot be read (the read throws, or the text is not
      valid JSON), or a saved list of queries. */
  datatype Stored = Absent | Unreadable | Saved(searches: seq<string>)

  /** What `getRecentSearches` returns for a stored value. */
  function RecentOf(s: Stored): seq<string> {
    if s.Saved? then s.searches else []
  }

  function Min(a: int, b: int): int {
    if a <= b then a else b
  }

  /** `searches.unshift(query)` followed by `searches.slice(0, 5)`. */
  function Prepended(searches: seq<string>, query: string): seq<string> {
    ([query] + searches)[..Min(|searches| + 1, MaxRecentSearches)]
  }

  /** The stored value after `saveSearch(query)`: unchanged when the query is already in
      the list or the write throws, and otherwise the list with the query prepended and
      cut to five. */
  function AfterSave(s: Stored, writable: bool, query: string): Stored {
    var searches := RecentOf(s);
    if query in searches || !writable then s else Saved(Prepended(searches, query))
  }

  predicate Distinct(searches: seq<string>) {
    forall i, j :: 0 <= i < j < |searches| ==> searches[i] != searches[j]
  }

  /** The invariant of every list the history writes: at most five queries, no repeats. */
  predicate WellFormed(s: Stored) {
    s.Saved? ==> |s.searches| <= MaxRecentSearches && Distinct(s.searches)
  }

  /** A new query goes to the front; the earlier entries follow in their order, the
      oldest beyond the fourth dropped. */
  lemma PrependedShape(searches: seq<string>, query: string)
    ensures Prepended(searches, query) == [query] + searches[..Min(|searches|, MaxRecentSearches - 1)]
    ensures |Prepended(searches, query)| <= MaxRecentSearches
    ensures Prepended(searches, query)[0] == query
  {
  }

  /** Saving a query already in the list changes nothing: no reordering, no write. */
  lemma SaveDuplicateIsNoOp(s: Stored, writable: bool, query: string)
    requires query in RecentOf(s)
    ensures AfterSave(s, writable, query) == s
  {
  }

  /** Saving a new query puts it at index 0, keeps the earlier entries in order and
      leaves at most five. */
  lemma SaveNewQuery(s: Stored, query: string)
    requires query !in RecentOf(s)
    ensures var after := RecentOf(AfterSave(s, true, query));
            && after == [query] + RecentOf(s)[..Min(|RecentOf(s)|, MaxRecentSearches - 1)]
            && after[0] == query
            && |after| <= MaxRecentSearches
  {
    PrependedShape(RecentOf(s), query);
  }

  /** With five queries stored, a new one evicts the oldest. */
  lemma SaveEvictsOldest(s: Stored, query: string)
    requires WellFormed(s) && |RecentOf(s)| == MaxRecentSearches && query !in RecentOf(s)
    ensures RecentOf(s)[MaxRecentSearches - 1] !in RecentOf(AfterSave(s, true, query))
    ensures |RecentOf(AfterSave(s, true, query))| == MaxRecentSearches
  {
    var before := RecentOf(s);
    var after := RecentOf(AfterSave(s, true, query));
    PrependedShape(before, query);
    assert after == [query] + before[..4];
    forall k | 0 <= k < |after|
      ensures after[k] != before[4]
    {
      if k > 0 {
        assert after[k] == before[k - 1];
      }
    }
  }

  /** Prepending a new query to a list without repeats keeps it without repeats. */
  lemma PrependedDistinct(searches: seq<string>, query: string)
    requires Distinct(searches) && query !in searches
    ensures Distinct(Prepended(searches, query))
  {
    var r := Prepended(searches, query);
    PrependedShape(searches, query);
    forall i, j | 0 <= i < j < |r|
      ensures r[i] != r[j]
    {
      assert r[j] == searches[j - 1];
      if i > 0 {
        assert r[i] == searches[i - 1];
      }
    }
  }

  /** Saving keeps the history's invariant. */
  lemma SavePreservesWellFormed(s: Stored, writable: bool, query: string)
    requires WellFormed(s)
    ensures WellFormed(AfterSave(s, writable, query))
  {
    var searches := RecentOf(s);
    if query !in searches && writable {
      PrependedShape(searches, query);
      PrependedDistinct(searches, query);
    }
  }

  /** Saving the same query twice is the same as saving it once. */
  lemma SaveIdempotent(s: Stored, writable: bool, query: string)
    ensures AfterSave(AfterSave(s, writable, query), writable, query) == AfterSave(s, writable, query)
  {
    var searches := RecentOf(s);
    if query !in searches && writable {
      PrependedShape(searches, query);
      assert query in RecentOf(AfterSave(s, writable, query));
    }
  }

  /** History: save "Dune", then "Matrix", then "Dune" again into empty storage. The
      second "Dune" is already present and so does not move to the front. */
  lemma DuneMatrixDune()
    ensures var s := AfterSave(AfterSave(AfterSave(Absent, true, "Dune"), true, "Matrix"), true, "Dune");
            RecentOf(s) == ["Matrix", "Dune"]
  {
    var s1 := AfterSave(Absent, true, "Dune");
    assert s1 == Saved(["Dune"]);
    var s2 := AfterSave(s1, true, "Matrix");
    assert "Matrix" != "Dune";
    assert s2 == Saved(["Matrix", "Dune"]);
  }

  /** One entry of the recent-searches panel. */
  datatype RecentNode = Heading(text: string) | SearchItem(text: string)

  /** The recent-searches container of the page. */
  class RecentSearchesPanel {
    var children: seq<RecentNode>

    constructor ()
      ensures children == []
    {
      children := [];
    }
  }

  /** The browser storage that holds the history. */
  class RecentSearchStore {
    /** The value under the history's key. */
    var stored: Stored
    /** Whether `localStorage.setItem` succeeds (it throws when storage is full or disabled). */
    var writable: bool

    constructor (initial: Stored, writable: bool)
      ensures stored == initial && this.writable == writable
    {
      stored := initial;
      this.writable := writable;
    }

    /** The list a read of the history yields. */
    function Recent(): seq<string>
      reads this
    {
      RecentOf(stored)
    }

    /** `getRecentSearches`: the saved list, or the empty list when nothing is stored, or
        the empty list with a warning when the stored value cannot be read. */
    method GetRecentSearches() returns (searches: seq<string>, warnings: seq<string>)
      ensures searches == Recent()
      ensures !stored.Saved? ==> searches == []
      ensures stored.Saved? ==> searches == stored.searches
      ensures warnings == if stored.Unreadable? then [RetrieveWarning] else []
    {
      match stored
      case Absent =>
        searches, warnings := [], [];
      case Unreadable =>
        searches, warnings := [], [RetrieveWarning];
      case Saved(list) =>
        searches, warnings := list, [];
    }

    /** `saveSearch`: read the list, and when the query is new, put it in front, keep
        five and write the list back; a failed write leaves the storage as it was and
        adds a warning. */
    method SaveSearch(query: string) returns (warnings: seq<string>)
      modifies this`stored
      ensures stored == AfterSave(old(stored), writable, query)
      ensures query in old(Recent()) ==> stored == old(stored)
      ensures query !in old(Recent()) && writable ==> Recent()[0] == query && |Recent()| <= MaxRecentSearches
      ensures WellFormed(old(stored)) ==> WellFormed(stored)
      ensures warnings ==
                (if old(stored).Unreadable? then [RetrieveWarning] else []) +
                (if query !in old(Recent()) && !writable then [SaveWarning] else [])
    {
      var searches, readWarnings := GetRecentSearches();
      warnings := readWarnings;
      if query !in searches {
        searches := [query] + searches;
        searches := searches[..Min(|searches|, MaxRecentSearches)];
        if writable {
          stored := Saved(searches);
        } else {
          warnings := warnings + [SaveWarning];
        }
      }
      if query !in old(Recent()) && writable {
        SaveNewQuery(old(stored), query);
      }
      if WellFormed(old(stored)) {
        SavePreservesWellFormed(old(stored), writable, query);
      }
    }

    /** `renderRecentSearches`: clear the panel and, when the history is not empty, add
        the heading and one item per query in stored order. */
    method RenderRecentSearches(panel: RecentSearchesPanel) returns (warnings: seq<string>)
      modifies panel
      ensures Recent() == [] ==> panel.children == []
      ensures Recent() != [] ==>
                && |panel.children| == |Recent()| + 1
                && panel.children[0] == Heading(RecentSearchesHeading)
                && forall k :: 0 <= k < |Recent()| ==> panel.children[k + 1] == SearchItem(Recent()[k])
      ensures warnings == if stored.Unreadable? then [RetrieveWarning] else []
    {
      var searches;
      searches, warnings := GetRecentSearches();
      panel.children := [];
      if |searches| > 0 {
        panel.children := panel.children + [Heading(RecentSearchesHeading)];
        for i := 0 to |searches|
          invariant |panel.children| == i + 1
          invariant panel.children[0] == Heading(RecentSearchesHeading)
          invariant forall k :: 0 <= k < i ==> panel.children[k + 1] == SearchItem(searches[k])
        {
          panel.children := panel.children + [SearchItem(searches[i])];
        }
      }
    }
  }
}
