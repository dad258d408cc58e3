/**
 * `forEach` of the clone-space example script: the paged walk over a
 * collection of a space (its entries or its assets), handing each item to a
 * callback. The server is a function from the query of a page to the items it
 * returns.
 */
module Paging {
  import opened Wrappers

  const PageLimit := 10
  const PageOrder := "sys.createdAt"

  /** The query object a page is requested with. */
  datatype PageQuery = PageQuery(order: string, limit: nat, skip: nat)

  /** The query of every page request: creation order, pages of `PageLimit`, from `skip`. */
  function PageRequest(skip: nat): (q: PageQuery)
    ensures q.order == "sys.createdAt" && q.limit == 10 && q.skip == skip
  {
    PageQuery(PageOrder, PageLimit, skip)
  }

  /** A collection method of a space (`getEntries`, `getAssets`): the items a query returns. */
  type Fetch<T> = PageQuery -> seq<T>

  /** The function-valued members of a space, by name. */
  type Space<T> = map<string, Fetch<T>>

  /** A request and the items it returned. */
  datatype Page<T> = Page(query: PageQuery, items: seq<T>)

  /** What the walk does, in order: fetch a page, or hand one item to the callback. */
  datatype Event<T> = Fetched(page: Page<T>) | Mapped(item: T)

  /** A page that could have come from offset `skip` of `all`: the next items, at least one while any remain. */
  ghost predicate PageAt<T>(items: seq<T>, all: seq<T>, skip: nat)
    requires skip <= |all|
  {
    |items| <= |all| - skip && items == all[skip..skip + |items|] && (skip < |all| ==> |items| > 0)
  }

  /**
   * The server assumption under which the walk is studied: whatever the offset up
   * to the end of the collection `all`, the server returns the next items from it.
   */
  ghost predicate ServesSlices<T>(fetch: Fetch<T>, all: seq<T>) {
    forall skip: nat {:trigger Within(all, skip)} :: Within(all, skip) ==> PageAt(fetch(PageRequest(skip)), all, skip)
  }

  /** An offset inside the collection or at its end. */
  ghost predicate Within<T>(all: seq<T>, skip: nat) {
    skip <= |all|
  }

  /** The server assumption at one offset. */
  lemma Serve<T>(fetch: Fetch<T>, all: seq<T>, skip: nat)
    requires ServesSlices(fetch, all) && skip <= |all|
    ensures PageAt(fetch(PageRequest(skip)), all, skip)
  {
    assert Within(all, skip);
  }

  /**
   * The pages the walk requests from offset `skip` on: the page at `skip`, then,
   * unless it was empty, those from `skip` plus its length.
   */
  ghost function Pages<T>(fetch: Fetch<T>, all: seq<T>, skip: nat): (ps: seq<Page<T>>)
    requires ServesSlices(fetch, all) && skip <= |all|
    ensures |ps| >= 1
    decreases |all| - skip
  {
    var items := fetch(PageRequest(skip));
    Serve(fetch, all, skip);
    [Page(PageRequest(skip), items)] + (if |items| == 0 then [] else Pages(fetch, all, skip + |items|))
  }

  /** The callback invoked on each item of a page, in page order. */
  function Handed<T>(items: seq<T>): (log: seq<Event<T>>)
    ensures |log| == |items|
    ensures forall i :: 0 <= i < |items| ==> log[i] == Mapped(items[i])
  {
    seq(|items|, i requires 0 <= i < |items| => Mapped(items[i]))
  }

  /** The events of a walk over the pages `ps`: each fetch followed by its items. */
  function Replay<T>(ps: seq<Page<T>>): seq<Event<T>> {
    if |ps| == 0 then [] else [Fetched(ps[0])] + Handed(ps[0].items) + Replay(ps[1..])
  }

  /** A replay has one event per fetch and one per item handed over. */
  lemma {:induction false} ReplayLength<T>(ps: seq<Page<T>>)
    ensures |Replay(ps)| == |ps| + |Flatten(ps)|
  {
    if |ps| > 0 {
      ReplayLength(ps[1..]);
    }
  }

  /** One step of `Pages`: the page at `skip`, then the rest unless it was empty. */
  lemma {:induction false} PagesStep<T>(fetch: Fetch<T>, all: seq<T>, skip: nat)
    requires ServesSlices(fetch, all) && skip <= |all|
    ensures var items := fetch(PageRequest(skip));
      var ps := Pages(fetch, all, skip);
      && PageAt(items, all, skip)
      && ps[0] == Page(PageRequest(skip), items)
      && (|items| == 0 ==> skip == |all| && ps == [ps[0]])
      && (|items| > 0 ==> ps[1..] == Pages(fetch, all, skip + |items|))
  {
    var items := fetch(PageRequest(skip));
    Serve(fetch, all, skip);
  }

  /** One step of the walk's events: the fetch of the page at `skip`, its items, then the rest. */
  lemma {:induction false} ReplayStep<T>(fetch: Fetch<T>, all: seq<T>, skip: nat)
    requires ServesSlices(fetch, all) && skip <= |all|
    ensures var items := fetch(PageRequest(skip));
      && (|items| > 0 ==> skip + |items| <= |all|)
      && Replay(Pages(fetch, all, skip))
         == [Fetched(Page(PageRequest(skip), items))] + Handed(items)
            + (if |items| == 0 then [] else Replay(Pages(fetch, all, skip + |items|)))
  {
    PagesStep(fetch, all, skip);
    var items := fetch(PageRequest(skip));
    var ps := Pages(fetch, all, skip);
    if |items| == 0 {
      assert ps[1..] == [];
    }
  }

  /**
   * One step of the walk after the events `before`: the page at `skip` and its
   * items extend `before` towards the walk from `skip`, and complete it when
   * the page is empty.
   */
  lemma {:induction false} WalkStep<T>(fetch: Fetch<T>, all: seq<T>, skip: nat, before: seq<Event<T>>)
    requires ServesSlices(fetch, all) && skip <= |all|
    ensures var items := fetch(PageRequest(skip));
      var log := before + [Fetched(Page(PageRequest(skip), items))] + Handed(items);
      && (|items| == 0 ==> log == before + Replay(Pages(fetch, all, skip)))
      && (|items| > 0 ==> skip + |items| <= |all|)
      && (|items| > 0 ==>
            log + Replay(Pages(fetch, all, skip + |items|)) == before + Replay(Pages(fetch, all, skip)))
  {
    ReplayStep(fetch, all, skip);
    var items := fetch(PageRequest(skip));
    var head := [Fetched(Page(PageRequest(skip), items))] + Handed(items);
    assert before + [Fetched(Page(PageRequest(skip), items))] + Handed(items) == before + head;
    if |items| == 0 {
      assert head + [] == head;
    } else {
      var rest := Replay(Pages(fetch, all, skip + |items|));
      assert before + head + rest == before + (head + rest);
    }
  }

  /** `Promise.reduce(items, (memo, item) => map(item))`: the items go to the callback one at a time, in order. */
  method HandOver<T>(items: seq<T>) returns (log: seq<Event<T>>)
    ensures log == Handed(items)
  {
    log := [];
    var i := 0;
    while i < |items|
      invariant 0 <= i <= |items|
      invariant log == Handed(items[..i])
    {
      log := log + [Mapped(items[i])];
      i := i + 1;
      assert Handed(items[..i]) == Handed(items[..i - 1]) + [Mapped(items[i - 1])];
    }
    assert items[..i] == items;
  }

  /**
   * `forEach(methodName, space, map)`: an unknown method name throws before any
   * fetch; otherwise the walk from offset 0, which ends at the first empty page.
   */
  method ForEach<T>(methodName: string, space: Space<T>, ghost all: seq<T>)
    returns (outcome: Result<()>, log: seq<Event<T>>)
    requires methodName in space ==> ServesSlices(space[methodName], all)
    ensures methodName !in space ==> outcome == Err(Error("Invalid Space method name: " + methodName)) && log == []
    ensures methodName in space ==> outcome == Ok(()) && log == Replay(Pages(space[methodName], all, 0))
  {
    if methodName !in space {
      return Err(Error("Invalid Space method name: " + methodName)), [];
    }
    var fetch := space[methodName];
    var skip: nat := 0;
    log := [];
    while true
      invariant skip <= |all|
      invariant log + Replay(Pages(fetch, all, skip)) == Replay(Pages(fetch, all, 0))
      decreases |all| - skip
    {
      var query := PageRequest(skip);
      var items := fetch(query);
      WalkStep(fetch, all, skip, log);
      var handed := HandOver(items);
      log := log + [Fetched(Page(query, items))] + handed;
      if |items| == 0 {
        return Ok(()), log;
      }
      skip := skip + |items|;
    }
  }

  /** The items handed to the callback, in order. */
  function Items<T>(log: seq<Event<T>>): seq<T> {
    if |log| == 0 then []
    else
      match log[0]
      case Mapped(item) => [item] + Items(log[1..])
      case Fetched(_) => Items(log[1..])
  }

  /** The pages fetched, in order. */
  function Fetches<T>(log: seq<Event<T>>): seq<Page<T>> {
    if |log| == 0 then []
    else
      match log[0]
      case Fetched(page) => [page] + Fetches(log[1..])
      case Mapped(_) => Fetches(log[1..])
  }

  /** The pages' items, page after page. */
  function Flatten<T>(ps: seq<Page<T>>): seq<T> {
    if |ps| == 0 then [] else ps[0].items + Flatten(ps[1..])
  }

  lemma {:induction false} ItemsAppend<T>(a: seq<Event<T>>, b: seq<Event<T>>)
    ensures Items(a + b) == Items(a) + Items(b)
  {
    if |a| == 0 {
      assert a + b == b;
    } else {
      assert (a + b)[0] == a[0];
      assert (a + b)[1..] == a[1..] + b;
      ItemsAppend(a[1..], b);
      if a[0].Mapped? {
        assert Items(a + b) == [a[0].item] + Items(a[1..] + b);
      } else {
        assert Items(a + b) == Items(a[1..] + b);
      }
    }
  }

  lemma {:induction false} FetchesAppend<T>(a: seq<Event<T>>, b: seq<Event<T>>)
    ensures Fetches(a + b) == Fetches(a) + Fetches(b)
  {
    if |a| == 0 {
      assert a + b == b;
    } else {
      assert (a + b)[0] == a[0];
      assert (a + b)[1..] == a[1..] + b;
      FetchesAppend(a[1..], b);
      if a[0].Fetched? {
        assert Fetches(a + b) == [a[0].page] + Fetches(a[1..] + b);
      } else {
        assert Fetches(a + b) == Fetches(a[1..] + b);
      }
    }
  }

  lemma {:induction false} HandedItems<T>(items: seq<T>)
    ensures Items(Handed(items)) == items
    ensures Fetches(Handed(items)) == []
  {
    if |items| > 0 {
      assert Handed(items)[1..] == Handed(items[1..]);
      HandedItems(items[1..]);
      assert [items[0]] + items[1..] == items;
    }
  }

  /** Replaying pages hands over exactly their items, page after page. */
  lemma {:induction false} ReplayItems<T>(ps: seq<Page<T>>)
    ensures Items(Replay(ps)) == Flatten(ps)
  {
    if |ps| > 0 {
      ItemsAppend([Fetched(ps[0])] + Handed(ps[0].items), Replay(ps[1..]));
      ItemsAppend([Fetched(ps[0])], Handed(ps[0].items));
      HandedItems(ps[0].items);
      assert Items([Fetched(ps[0])]) == [];
      ReplayItems(ps[1..]);
    }
  }

  /** The fetches of a replay are the pages replayed: between two fetches come only the first one's items. */
  lemma {:induction false} ReplayFetches<T>(ps: seq<Page<T>>)
    ensures Fetches(Replay(ps)) == ps
  {
    if |ps| > 0 {
      FetchesAppend([Fetched(ps[0])] + Handed(ps[0].items), Replay(ps[1..]));
      FetchesAppend([Fetched(ps[0])], Handed(ps[0].items));
      HandedItems(ps[0].items);
      assert Fetches([Fetched(ps[0])]) == [ps[0]];
      ReplayFetches(ps[1..]);
      assert [ps[0]] + ps[1..] == ps;
    }
  }

  /** The pages from offset `skip` on hold the collection's items from `skip` on, in order. */
  lemma {:induction false} PagesCover<T>(fetch: Fetch<T>, all: seq<T>, skip: nat)
    requires ServesSlices(fetch, all) && skip <= |all|
    ensures Flatten(Pages(fetch, all, skip)) == all[skip..]
    decreases |all| - skip
  {
    PagesStep(fetch, all, skip);
    var items := fetch(PageRequest(skip));
    var ps := Pages(fetch, all, skip);
    assert Flatten(ps) == items + Flatten(ps[1..]);
    if |items| == 0 {
      assert Flatten(ps[1..]) == [];
    } else {
      PagesCover(fetch, all, skip + |items|);
      assert all[skip..] == all[skip..skip + |items|] + all[skip + |items|..];
    }
  }

  /** Each request has the fixed order and limit, and its items are what the server returns for it. */
  ghost predicate Answered<T>(fetch: Fetch<T>, ps: seq<Page<T>>) {
    forall k :: 0 <= k < |ps| ==> ps[k].query == PageRequest(ps[k].query.skip) && ps[k].items == fetch(ps[k].query)
  }

  /** Each request asks from the number of items already delivered, counted from `skip`. */
  ghost predicate Offsets<T>(skip: nat, ps: seq<Page<T>>) {
    forall k :: 0 <= k < |ps| ==> ps[k].query.skip == skip + |Flatten(ps[..k])|
  }

  /** Only the last page is empty, and it is requested at the end of the collection. */
  ghost predicate EndsAtEmptyPage<T>(all: seq<T>, ps: seq<Page<T>>) {
    && |ps| >= 1
    && (forall k :: 0 <= k < |ps| - 1 ==> |ps[k].items| > 0)
    && ps[|ps| - 1].items == [] && ps[|ps| - 1].query.skip == |all|
  }

  lemma {:induction false} PagesAnswered<T>(fetch: Fetch<T>, all: seq<T>, skip: nat)
    requires ServesSlices(fetch, all) && skip <= |all|
    ensures Answered(fetch, Pages(fetch, all, skip))
    decreases |all| - skip
  {
    PagesStep(fetch, all, skip);
    var items := fetch(PageRequest(skip));
    var ps := Pages(fetch, all, skip);
    if |items| > 0 {
      var rest := Pages(fetch, all, skip + |items|);
      PagesAnswered(fetch, all, skip + |items|);
      forall k | 1 <= k < |ps|
        ensures ps[k].query == PageRequest(ps[k].query.skip) && ps[k].items == fetch(ps[k].query)
      {
        assert ps[k] == rest[k - 1];
      }
    }
  }

  lemma {:induction false} FlattenCons<T>(ps: seq<Page<T>>, k: nat)
    requires 1 <= k <= |ps|
    ensures Flatten(ps[..k]) == ps[0].items + Flatten(ps[1..][..k - 1])
  {
    assert ps[..k][1..] == ps[1..][..k - 1];
  }

  lemma {:induction false} PagesOffsets<T>(fetch: Fetch<T>, all: seq<T>, skip: nat)
    requires ServesSlices(fetch, all) && skip <= |all|
    ensures Offsets(skip, Pages(fetch, all, skip))
    decreases |all| - skip
  {
    PagesStep(fetch, all, skip);
    var items := fetch(PageRequest(skip));
    var ps := Pages(fetch, all, skip);
    assert Flatten(ps[..0]) == [];
    if |items| > 0 {
      var next := skip + |items|;
      var rest := Pages(fetch, all, next);
      PagesOffsets(fetch, all, next);
      forall k | 1 <= k < |ps| ensures ps[k].query.skip == skip + |Flatten(ps[..k])| {
        assert ps[k] == rest[k - 1];
        FlattenCons(ps, k);
      }
    }
  }

  /** A nonempty page in front of a walk that ends at an empty page. */
  lemma EndsCons<T>(all: seq<T>, p: Page<T>, rest: seq<Page<T>>)
    requires |p.items| > 0 && EndsAtEmptyPage(all, rest)
    ensures EndsAtEmptyPage(all, [p] + rest)
  {
    var ps := [p] + rest;
    forall k | 1 <= k < |ps| - 1 ensures |ps[k].items| > 0 {
      assert ps[k] == rest[k - 1];
    }
    assert ps[|ps| - 1] == rest[|rest| - 1];
  }

  /** An empty page requested at the end of the collection. */
  lemma EndsSingle<T>(all: seq<T>, p: Page<T>)
    requires p.items == [] && p.query.skip == |all|
    ensures EndsAtEmptyPage(all, [p])
  {
  }

  lemma {:induction false} PagesEnd<T>(fetch: Fetch<T>, all: seq<T>, skip: nat)
    requires ServesSlices(fetch, all) && skip <= |all|
    ensures EndsAtEmptyPage(all, Pages(fetch, all, skip))
    decreases |all| - skip
  {
    PagesStep(fetch, all, skip);
    var items := fetch(PageRequest(skip));
    var ps := Pages(fetch, all, skip);
    if |items| > 0 {
      var rest := Pages(fetch, all, skip + |items|);
      PagesEnd(fetch, all, skip + |items|);
      EndsCons(all, ps[0], rest);
      assert ps == [ps[0]] + rest;
    } else {
      EndsSingle(all, ps[0]);
    }
  }

  /**
   * Under the server assumption, `forEach` hands every item of the collection to
   * the callback exactly once, in order; its requests are the walk's pages: each
   * answered by the server with the fixed order and limit, each asking from the
   * number of items already delivered, and only the last one, at the end, empty.
   */
  lemma ForEachVisitsEachItemOnce<T>(fetch: Fetch<T>, all: seq<T>)
    requires ServesSlices(fetch, all)
    ensures Items(Replay(Pages(fetch, all, 0))) == all
    ensures Fetches(Replay(Pages(fetch, all, 0))) == Pages(fetch, all, 0)
    ensures Answered(fetch, Pages(fetch, all, 0))
    ensures Offsets(0, Pages(fetch, all, 0))
    ensures EndsAtEmptyPage(all, Pages(fetch, all, 0))
  {
    ReplayItems(Pages(fetch, all, 0));
    PagesCover(fetch, all, 0);
    ReplayFetches(Pages(fetch, all, 0));
    PagesAnswered(fetch, all, 0);
    PagesOffsets(fetch, all, 0);
    PagesEnd(fetch, all, 0);
  }
}
