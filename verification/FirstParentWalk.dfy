// The paged first-parent walk (`_first_parent_history`, `_require_first_parent`).
module FirstParentWalk {

  // One listed commit; a root has the parent "".
  datatype Commit = Commit(sha: string, parent: string)

  // First parents by commit.
  type Parents = map<string, string>

  // A measure that falls along every first-parent edge: there is no cycle.
  type Rank = string -> nat

  const FULL_PAGE := 100

  ghost predicate Acyclic(history: Parents, rank: Rank) { forall sha :: sha in history ==> rank(history[sha]) < rank(sha) }

  // A page shows the history as it is, whatever it lists.
  ghost predicate Shows(history: Parents, page: seq<Commit>) {
    forall i :: 0 <= i < |page| ==> page[i].sha in history && history[page[i].sha] == page[i].parent
  }

  ghost predicate Within(some: Parents, history: Parents) { forall sha :: sha in some ==> sha in history && some[sha] == history[sha] }

  function Listed(page: seq<Commit>): Parents {
    if page == [] then map[] else Listed(page[..|page| - 1])[page[|page| - 1].sha := page[|page| - 1].parent]
  }

  function ListedPages(pages: nat -> seq<Commit>, n: nat): Parents { if n == 0 then map[] else ListedPages(pages, n - 1) + Listed(pages(n)) }

  // The tip is the first commit that is named at all.
  function Tip(page: seq<Commit>): string { if page == [] then "" else if page[0].sha != "" then page[0].sha else Tip(page[1..]) }

  // The chain of first parents, as far as it is known.
  ghost function Chain(known: Parents, rank: Rank, sha: string): seq<string>
    requires Acyclic(known, rank)
    decreases rank(sha)
  {
    if sha in known then [sha] + Chain(known, rank, known[sha]) else []
  }

  // Where the known chain ends.
  ghost function End(known: Parents, rank: Rank, sha: string): string
    requires Acyclic(known, rank)
    decreases rank(sha)
  {
    if sha in known then End(known, rank, known[sha]) else sha
  }

  // ----- the chain -----

  lemma {:induction false} ListedShows(history: Parents, page: seq<Commit>)
    requires Shows(history, page)
    ensures Within(Listed(page), history)
    ensures forall i :: 0 <= i < |page| ==> page[i].sha in Listed(page)
  {
    if page != [] {
      ListedShows(history, page[..|page| - 1]);
    }
  }

  lemma {:induction false} PagesShow(history: Parents, pages: nat -> seq<Commit>, n: nat)
    requires ShowsAll(history, pages)
    ensures Within(ListedPages(pages, n), history)
  {
    if n > 0 {
      PagesShow(history, pages, n - 1);
      ListedShows(history, pages(n));
    }
  }

  lemma WithinAcyclic(known: Parents, history: Parents, rank: Rank)
    ensures Within(known, history) && Acyclic(history, rank) ==> Acyclic(known, rank)
  {}

  // Knowing more extends a chain where it ended.
  lemma {:induction false} ChainExtends(known: Parents, more: Parents, rank: Rank, sha: string)
    requires Within(known, more) && Acyclic(more, rank) && Acyclic(known, rank)
    ensures Chain(more, rank, sha) == Chain(known, rank, sha) + Chain(more, rank, End(known, rank, sha))
    ensures End(more, rank, sha) == End(more, rank, End(known, rank, sha))
    decreases rank(sha)
  {
    if sha in known {
      ChainExtends(known, more, rank, known[sha]);
    }
  }

  lemma {:induction false} EndIsUnknown(known: Parents, rank: Rank, sha: string)
    requires Acyclic(known, rank)
    ensures End(known, rank, sha) !in known
    decreases rank(sha)
  {
    if sha in known {
      EndIsUnknown(known, rank, known[sha]);
    }
  }

  lemma {:induction false} ChainFalls(known: Parents, rank: Rank, sha: string, i: nat)
    requires Acyclic(known, rank) && i < |Chain(known, rank, sha)|
    ensures Chain(known, rank, sha)[i] in known && rank(Chain(known, rank, sha)[i]) + i <= rank(sha)
    decreases rank(sha)
  {
    if i > 0 {
      ChainFalls(known, rank, known[sha], i - 1);
    }
  }

  // No commit appears twice on a chain.
  lemma {:induction false} ChainHasNoRepeats(known: Parents, rank: Rank, sha: string, i: nat, j: nat)
    requires Acyclic(known, rank) && i < j < |Chain(known, rank, sha)|
    ensures Chain(known, rank, sha)[i] != Chain(known, rank, sha)[j]
    decreases rank(sha)
  {
    if i > 0 {
      ChainHasNoRepeats(known, rank, known[sha], i - 1, j - 1);
    } else {
      ChainFalls(known, rank, sha, j);
    }
  }

  // What was read of a chain is its longest prefix among the commits read.
  lemma ReadChainIsMaximalPrefix(history: Parents, known: Parents, rank: Rank, tip: string)
    requires Within(known, history) && Acyclic(history, rank)
    ensures Acyclic(known, rank)
    ensures Chain(known, rank, tip) <= Chain(history, rank, tip)
    ensures |Chain(known, rank, tip)| < |Chain(history, rank, tip)| ==> Chain(history, rank, tip)[|Chain(known, rank, tip)|] !in known
  {
    WithinAcyclic(known, history, rank);
    ChainExtends(known, history, rank, tip);
    EndIsUnknown(known, rank, tip);
  }

  // A chain that ended at a root is the whole chain: reading on adds nothing.
  lemma RootedChainIsWhole(history: Parents, known: Parents, rank: Rank, tip: string)
    requires Within(known, history) && Acyclic(history, rank) && Acyclic(known, rank) && "" !in history
    requires End(known, rank, tip) == ""
    ensures Chain(known, rank, tip) == Chain(history, rank, tip)
  {
    ChainExtends(known, history, rank, tip);
  }

  // ----- the walk -----

  // The pages up to `read`, then nothing more: the walk ended at a root, saw a
  // short page, or used up its pages.
  predicate StopsAfter(pages: nat -> seq<Commit>, maxPages: nat, read: nat, end: string) {
    read == maxPages || (1 <= read < maxPages && (end == "" || |pages(read)| < FULL_PAGE))
  }

  method FirstParentHistory(pages: nat -> seq<Commit>, maxPages: nat, ghost history: Parents, ghost rank: Rank)
    returns (yielded: seq<string>, read: nat, cursor: string)
    requires Acyclic(history, rank) && ShowsAll(history, pages)
    ensures read <= maxPages && Within(ListedPages(pages, read), history) && Acyclic(ListedPages(pages, read), rank)
    ensures read > 0 ==> yielded == Chain(ListedPages(pages, read), rank, Tip(pages(1)))
    ensures read > 0 ==> cursor == End(ListedPages(pages, read), rank, Tip(pages(1)))
    ensures read == 0 ==> yielded == []
    ensures StopsAfter(pages, maxPages, read, cursor)
  {
    hide Acyclic, Within, ListedPages, Listed, Chain, End, ShowsAll, Tip;
    var parents: Parents := map[];
    cursor, yielded, read := "", [], 0;
    NoPages(history, pages, rank);
    while read < maxPages
      invariant read <= maxPages && parents == ListedPages(pages, read)
      invariant Within(parents, history) && Acyclic(parents, rank)
      invariant read == 0 ==> cursor == "" && yielded == []
      invariant read > 0 ==> cursor == End(parents, rank, Tip(pages(1))) && cursor != ""
      invariant read > 0 ==> yielded == Chain(parents, rank, Tip(pages(1)))
      decreases maxPages - read
    {
      ghost var before, tip := parents, Tip(pages(1));
      OnePage(history, pages, rank, read);
      read := read + 1;
      var commits := pages(read);
      parents, cursor := ReadPage(parents, cursor, commits);
      if read > 1 {
        ChainExtends(before, parents, rank, tip);
      }
      var more, end := Follow(parents, cursor, rank);
      yielded, cursor := yielded + more, end;
      if cursor == "" || |commits| < FULL_PAGE {
        return;
      }
    }
  }

  ghost predicate ShowsAll(history: Parents, pages: nat -> seq<Commit>) { forall k :: Shows(history, pages(k)) }

  lemma NoPages(history: Parents, pages: nat -> seq<Commit>, rank: Rank)
    ensures ListedPages(pages, 0) == map[] && Within(map[], history) && Acyclic(map[], rank)
  {}

  // What one more page adds is still part of the history.
  lemma OnePage(history: Parents, pages: nat -> seq<Commit>, rank: Rank, read: nat)
    requires Acyclic(history, rank) && ShowsAll(history, pages)
    ensures ListedPages(pages, read + 1) == ListedPages(pages, read) + Listed(pages(read + 1))
    ensures Within(ListedPages(pages, read + 1), history) && Acyclic(ListedPages(pages, read + 1), rank)
    ensures Within(ListedPages(pages, read), ListedPages(pages, read + 1))
  {
    PagesShow(history, pages, read);
    PagesShow(history, pages, read + 1);
    WithinAcyclic(ListedPages(pages, read + 1), history, rank);
    ListedShows(history, pages(read + 1));
  }

  method Follow(parents: Parents, start: string, ghost rank: Rank) returns (yielded: seq<string>, cursor: string)
    requires Acyclic(parents, rank)
    ensures yielded == Chain(parents, rank, start) && cursor == End(parents, rank, start)
  {
    yielded, cursor := [], start;
    while cursor in parents
      invariant Chain(parents, rank, start) == yielded + Chain(parents, rank, cursor)
      invariant End(parents, rank, start) == End(parents, rank, cursor)
      decreases rank(cursor)
    {
      yielded := yielded + [cursor];
      cursor := parents[cursor];
    }
  }

  method ReadPage(parents: Parents, cursor: string, commits: seq<Commit>) returns (parents': Parents, cursor': string)
    ensures parents' == parents + Listed(commits)
    ensures cursor' == if cursor == "" then Tip(commits) else cursor
  {
    parents', cursor' := parents, cursor;
    for i := 0 to |commits|
      invariant parents' == parents + Listed(commits[..i])
      invariant cursor' != "" ==> cursor' == if cursor == "" then Tip(commits) else cursor
      invariant cursor' == "" ==> cursor == "" && Tip(commits) == Tip(commits[i..])
    {
      assert commits[..i + 1][..i] == commits[..i];
      parents' := parents'[commits[i].sha := commits[i].parent];
      if cursor' == "" {
        cursor' := commits[i].sha;
      }
    }
    assert commits[..|commits|] == commits;
  }

  // Accepted exactly when the commit is on the part of the chain that was
  // read; so an accepted commit is on the tip's first-parent chain.
  method RequireFirstParent(pages: nat -> seq<Commit>, maxPages: nat, commit: string, ghost history: Parents, ghost rank: Rank)
    returns (accepted: bool, ghost read: nat)
    requires Acyclic(history, rank) && maxPages > 0 && ShowsAll(history, pages)
    ensures 0 < read <= maxPages && Acyclic(ListedPages(pages, read), rank)
    ensures accepted <==> commit in Chain(ListedPages(pages, read), rank, Tip(pages(1)))
    ensures accepted ==> commit in Chain(history, rank, Tip(pages(1)))
  {
    hide Acyclic, Within, ListedPages, Chain, End, ShowsAll, Tip;
    var yielded, n, end := FirstParentHistory(pages, maxPages, history, rank);
    read := n;
    accepted := false;
    for i := 0 to |yielded|
      invariant accepted <==> commit in yielded[..i]
    {
      if yielded[i] == commit {
        accepted := true;
      }
    }
    assert yielded[..|yielded|] == yielded;
    ReadChainIsMaximalPrefix(history, ListedPages(pages, read), rank, Tip(pages(1)));
  }
}
