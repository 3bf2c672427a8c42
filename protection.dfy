/**
 * The public protection list: every page after the first is merged into the
 * list after dropping the incoming cases whose id is already listed.
 */
module Protection {
  import opened Listing

  /** The ids of a list, in list order (`prev.map(animal => animal.animalCaseId)`). */
  function Ids(s: seq<AnimalCase>): (r: seq<CaseId>)
    ensures |r| == |s|
    ensures forall i :: 0 <= i < |s| ==> r[i] == s[i].animalCaseId
  {
    if s == [] then [] else [s[0].animalCaseId] + Ids(s[1..])
  }

  /** No two entries of `s` share an id. */
  predicate DistinctIds(s: seq<AnimalCase>) {
    forall i, j :: 0 <= i < j < |s| ==> s[i].animalCaseId != s[j].animalCaseId
  }

  /** `a` is `b` with some entries dropped and the rest kept in order. */
  predicate IsSubsequence(a: seq<AnimalCase>, b: seq<AnimalCase>)
    decreases |b|
  {
    if a == [] then true
    else if b == [] then false
    else (a[0] == b[0] && IsSubsequence(a[1..], b[1..])) || IsSubsequence(a, b[1..])
  }

  /**
   * The incoming cases whose id is not among `existingIds`, in server order.
   * Every occurrence of such a case is kept, and no other case.
   */
  function FreshItems(existingIds: seq<CaseId>, incoming: seq<AnimalCase>): (r: seq<AnimalCase>)
    ensures |r| <= |incoming|
    ensures forall x :: x in r <==> x in incoming && x.animalCaseId !in existingIds
  {
    if incoming == [] then []
    else
      var rest := FreshItems(existingIds, incoming[1..]);
      if incoming[0].animalCaseId in existingIds then rest else [incoming[0]] + rest
  }

  /** Every occurrence of a case with an unlisted id is kept, and no other case. */
  lemma {:induction false} FreshItemsMultiplicity(existingIds: seq<CaseId>, incoming: seq<AnimalCase>, x: AnimalCase)
    ensures multiset(FreshItems(existingIds, incoming))[x] ==
      if x.animalCaseId in existingIds then 0 else multiset(incoming)[x]
    decreases |incoming|
  {
    if incoming != [] {
      FreshItemsMultiplicity(existingIds, incoming[1..], x);
      assert incoming == [incoming[0]] + incoming[1..];
    }
  }

  /** The positions of the incoming page that hold a case with an unlisted id. */
  function NewIdPositions(existingIds: seq<CaseId>, incoming: seq<AnimalCase>): set<int> {
    set i | 0 <= i < |incoming| && incoming[i].animalCaseId !in existingIds
  }

  /** Filtering a page split in two is filtering each part. */
  lemma {:induction false} FreshItemsSplit(existingIds: seq<CaseId>, a: seq<AnimalCase>, b: seq<AnimalCase>)
    ensures FreshItems(existingIds, a + b) == FreshItems(existingIds, a) + FreshItems(existingIds, b)
    decreases |a|
  {
    if a == [] {
      assert a + b == b;
    } else {
      assert (a + b)[0] == a[0];
      assert (a + b)[1..] == a[1..] + b;
      FreshItemsSplit(existingIds, a[1..], b);
    }
  }

  /** The filter keeps exactly as many cases as the page has positions with unlisted ids. */
  lemma {:induction false} FreshItemsCount(existingIds: seq<CaseId>, incoming: seq<AnimalCase>)
    ensures |FreshItems(existingIds, incoming)| == |NewIdPositions(existingIds, incoming)|
    decreases |incoming|
  {
    if incoming == [] {
      assert NewIdPositions(existingIds, incoming) == {};
    } else {
      var init, x := incoming[..|incoming| - 1], incoming[|incoming| - 1];
      assert incoming == init + [x];
      FreshItemsCount(existingIds, init);
      FreshItemsSplit(existingIds, init, [x]);
      assert [x][1..] == [];
      var before := NewIdPositions(existingIds, init);
      var tail := if x.animalCaseId in existingIds then {} else {|init|};
      assert NewIdPositions(existingIds, incoming) == before + tail;
      assert |init| !in before;
    }
  }

  /** The list after a page other than the first: the old list, then the new cases. */
  function MergePage(prev: seq<AnimalCase>, incoming: seq<AnimalCase>): (r: seq<AnimalCase>)
    ensures |prev| <= |r| <= |prev| + |incoming|
    ensures |r| == |prev| + |NewIdPositions(Ids(prev), incoming)|
    ensures r[..|prev|] == prev
    ensures forall x :: x in r[|prev|..] <==> x in incoming && x.animalCaseId !in Ids(prev)
  {
    FreshItemsCount(Ids(prev), incoming);
    var r := prev + FreshItems(Ids(prev), incoming);
    assert r[|prev|..] == FreshItems(Ids(prev), incoming);
    r
  }

  /** The appended suffix holds every occurrence of each case with an unlisted id, and no other case. */
  lemma MergeSuffixMultiplicity(prev: seq<AnimalCase>, incoming: seq<AnimalCase>, x: AnimalCase)
    ensures multiset(MergePage(prev, incoming)[|prev|..])[x] ==
      if x.animalCaseId in Ids(prev) then 0 else multiset(incoming)[x]
  {
    assert MergePage(prev, incoming)[|prev|..] == FreshItems(Ids(prev), incoming);
    FreshItemsMultiplicity(Ids(prev), incoming, x);
  }

  /** The appended suffix keeps the server's relative order. */
  lemma {:induction false} FreshItemsInOrder(existingIds: seq<CaseId>, incoming: seq<AnimalCase>)
    ensures IsSubsequence(FreshItems(existingIds, incoming), incoming)
    decreases |incoming|
  {
    if incoming != [] {
      var rest := FreshItems(existingIds, incoming[1..]);
      FreshItemsInOrder(existingIds, incoming[1..]);
      if incoming[0].animalCaseId in existingIds {
        SubsequenceOfTail(rest, incoming);
      } else {
        assert ([incoming[0]] + rest)[1..] == rest;
      }
    }
  }

  lemma {:induction false} SubsequenceOfTail(a: seq<AnimalCase>, b: seq<AnimalCase>)
    requires b != [] && IsSubsequence(a, b[1..])
    ensures IsSubsequence(a, b)
  {
  }

  /** The suffix that MergePage appends is exactly the fresh cases, in server order. */
  lemma MergeAppendsFreshInOrder(prev: seq<AnimalCase>, incoming: seq<AnimalCase>)
    ensures MergePage(prev, incoming) == prev + FreshItems(Ids(prev), incoming)
    ensures IsSubsequence(MergePage(prev, incoming)[|prev|..], incoming)
  {
    var r := MergePage(prev, incoming);
    assert r[|prev|..] == FreshItems(Ids(prev), incoming);
    FreshItemsInOrder(Ids(prev), incoming);
  }

  /** A page without internal duplicates contributes no duplicates. */
  lemma {:induction false} FreshItemsDistinct(existingIds: seq<CaseId>, incoming: seq<AnimalCase>)
    requires DistinctIds(incoming)
    ensures DistinctIds(FreshItems(existingIds, incoming))
    decreases |incoming|
  {
    if incoming != [] {
      var rest := FreshItems(existingIds, incoming[1..]);
      assert DistinctIds(incoming[1..]) by {
        forall i, j | 0 <= i < j < |incoming[1..]|
          ensures incoming[1..][i].animalCaseId != incoming[1..][j].animalCaseId
        {
          assert incoming[1..][i] == incoming[i + 1] && incoming[1..][j] == incoming[j + 1];
        }
      }
      FreshItemsDistinct(existingIds, incoming[1..]);
      if incoming[0].animalCaseId !in existingIds {
        var r := [incoming[0]] + rest;
        forall i, j | 0 <= i < j < |r| ensures r[i].animalCaseId != r[j].animalCaseId {
          if i == 0 {
            assert r[j] in rest;
            assert r[j] in incoming[1..];
            var k :| 0 <= k < |incoming[1..]| && incoming[1..][k] == r[j];
            assert incoming[k + 1] == r[j];
          } else {
            assert r[i] == rest[i - 1] && r[j] == rest[j - 1];
          }
        }
      }
    }
  }

  /**
   * Merging keeps the ids distinct, provided the list and the incoming page
   * each have distinct ids: the filter compares only against the old list.
   */
  lemma MergeKeepsIdsDistinct(prev: seq<AnimalCase>, incoming: seq<AnimalCase>)
    requires DistinctIds(prev) && DistinctIds(incoming)
    ensures DistinctIds(MergePage(prev, incoming))
  {
    var newOnes := FreshItems(Ids(prev), incoming);
    FreshItemsDistinct(Ids(prev), incoming);
    var r := prev + newOnes;
    assert r == MergePage(prev, incoming);
    forall i, j | 0 <= i < j < |r| ensures r[i].animalCaseId != r[j].animalCaseId {
      if j >= |prev| {
        if i < |prev| {
          assert r[j] == newOnes[j - |prev|];
          assert r[j] in newOnes;
          assert Ids(prev)[i] == r[i].animalCaseId;
        } else {
          assert r[i] == newOnes[i - |prev|] && r[j] == newOnes[j - |prev|];
        }
      }
    }
  }

  /** Duplicates inside one incoming page are not filtered out. */
  lemma DuplicatesWithinOnePageSurvive(a: AnimalCase, b: AnimalCase)
    requires a.animalCaseId == b.animalCaseId
    ensures MergePage([], [a, b]) == [a, b]
    ensures !DistinctIds(MergePage([], [a, b]))
  {
    assert [a, b][1..] == [b];
    assert FreshItems([], [b]) == [b];
  }

  /** When no incoming id is already listed, the page is appended whole. */
  lemma {:induction false} FreshItemsAllNew(existingIds: seq<CaseId>, incoming: seq<AnimalCase>)
    requires forall x :: x in incoming ==> x.animalCaseId !in existingIds
    ensures FreshItems(existingIds, incoming) == incoming
    decreases |incoming|
  {
    if incoming != [] {
      assert incoming[0] in incoming;
      forall x | x in incoming[1..] ensures x.animalCaseId !in existingIds {
        assert x in incoming;
      }
      FreshItemsAllNew(existingIds, incoming[1..]);
      assert [incoming[0]] + incoming[1..] == incoming;
    }
  }

  /** With disjoint ids the merged length is the sum of the two lengths. */
  lemma MergeDisjointAppends(prev: seq<AnimalCase>, incoming: seq<AnimalCase>)
    requires forall x :: x in incoming ==> x.animalCaseId !in Ids(prev)
    ensures MergePage(prev, incoming) == prev + incoming
    ensures |MergePage(prev, incoming)| == |prev| + |incoming|
  {
    FreshItemsAllNew(Ids(prev), incoming);
  }

  /** When every incoming id is already listed, nothing is fresh. */
  lemma {:induction false} FreshItemsAllKnown(existingIds: seq<CaseId>, incoming: seq<AnimalCase>)
    requires forall x :: x in incoming ==> x.animalCaseId in existingIds
    ensures FreshItems(existingIds, incoming) == []
    decreases |incoming|
  {
    if incoming != [] {
      assert incoming[0] in incoming;
      forall x | x in incoming[1..] ensures x.animalCaseId in existingIds {
        assert x in incoming;
      }
      FreshItemsAllKnown(existingIds, incoming[1..]);
    }
  }

  /** A page whose cases are all listed already leaves the list unchanged. */
  lemma MergeKnownIsIdentity(prev: seq<AnimalCase>, incoming: seq<AnimalCase>)
    requires forall x :: x in incoming ==> x.animalCaseId in Ids(prev)
    ensures MergePage(prev, incoming) == prev
  {
    FreshItemsAllKnown(Ids(prev), incoming);
  }

  /** The list after merging a run of later pages, one after another. */
  function MergeAll(prev: seq<AnimalCase>, pages: seq<seq<AnimalCase>>): (r: seq<AnimalCase>)
    ensures |prev| <= |r|
    decreases |pages|
  {
    if pages == [] then prev else MergeAll(MergePage(prev, pages[0]), pages[1..])
  }

  /** All the pages' items, one page after another. */
  function Concat(pages: seq<seq<AnimalCase>>): seq<AnimalCase>
    decreases |pages|
  {
    if pages == [] then [] else pages[0] + Concat(pages[1..])
  }

  /** The sum of the pages' lengths. */
  function TotalLength(pages: seq<seq<AnimalCase>>): nat
    decreases |pages|
  {
    if pages == [] then 0 else |pages[0]| + TotalLength(pages[1..])
  }

  /** Helper: the concatenated pages have as many items as their lengths add up to. */
  lemma {:induction false} ConcatLength(pages: seq<seq<AnimalCase>>)
    ensures |Concat(pages)| == TotalLength(pages)
    decreases |pages|
  {
    if pages != [] {
      ConcatLength(pages[1..]);
    }
  }

  /** No id of a page is listed already or was brought by an earlier page. */
  predicate PagesStayNew(prev: seq<AnimalCase>, pages: seq<seq<AnimalCase>>)
    decreases |pages|
  {
    pages == [] ||
    ((forall x :: x in pages[0] ==> x.animalCaseId !in Ids(prev)) && PagesStayNew(prev + pages[0], pages[1..]))
  }

  /** Helper: a page with only unlisted ids is appended whole before the rest are merged. */
  lemma MergeAllStep(prev: seq<AnimalCase>, pages: seq<seq<AnimalCase>>)
    requires pages != []
    requires forall x :: x in pages[0] ==> x.animalCaseId !in Ids(prev)
    ensures MergeAll(prev, pages) == MergeAll(prev + pages[0], pages[1..])
  {
    MergeDisjointAppends(prev, pages[0]);
  }

  /** Helper: the list grown by the first page, then the other pages, is the list then all pages. */
  lemma ConcatStep(prev: seq<AnimalCase>, pages: seq<seq<AnimalCase>>)
    requires pages != []
    ensures (prev + pages[0]) + Concat(pages[1..]) == prev + Concat(pages)
  {
  }

  /**
   * Pages none of whose ids is listed already or was brought by an earlier
   * page are all kept whole (repeats inside one page included): after N pages
   * the list has grown by the sum of their lengths.
   */
  lemma {:induction false} DisjointPagesAccumulate(prev: seq<AnimalCase>, pages: seq<seq<AnimalCase>>)
    requires PagesStayNew(prev, pages)
    ensures MergeAll(prev, pages) == prev + Concat(pages)
    ensures |MergeAll(prev, pages)| == |prev| + TotalLength(pages)
    decreases |pages|
  {
    ConcatLength(pages);
    if pages != [] {
      var grown := prev + pages[0];
      MergeAllStep(prev, pages);
      DisjointPagesAccumulate(grown, pages[1..]);
      ConcatStep(prev, pages);
    }
  }


  /**
   * The state of the protection list page.  `loading` is true only while a
   * request is awaited; the model applies each reply in one step, so it is
   * false between steps.
   */
  class ProtectionPage {
    var animals: seq<AnimalCase>
    var page: nat
    var loading: bool
    var totalElements: Option<int>
    var hasMore: bool

    constructor ()
      ensures animals == [] && page == 0 && !loading
      ensures totalElements == Some(0) && hasMore
    {
      animals := [];
      page := 0;
      loading := false;
      totalElements := Some(0);
      hasMore := true;
    }

    /**
     * Requests the current page and applies `response`, the outcome of that
     * request.  Returns the query that was sent.
     */
    method FetchAnimals(response: ListResponse) returns (query: ListQuery)
      modifies this
      ensures query == ListQuery(old(page), PageSize)
      ensures page == old(page) && !loading
      // an error reply, an exception, or a body without content (reading it throws)
      ensures !Delivered(response) || response.data.content.None? ==>
        animals == old(animals) && hasMore == old(hasMore) && totalElements == old(totalElements)
      // an empty page stops pagination and changes nothing else
      ensures Delivered(response) && response.data.content == Some([]) ==>
        !hasMore && animals == old(animals) && totalElements == old(totalElements)
      ensures Delivered(response) && response.data.content.Some? && response.data.content.value != [] ==>
        var incoming := response.data.content.value;
        && animals == (if old(page) == 0 then incoming else MergePage(old(animals), incoming))
        && totalElements == response.data.totalElements
        && hasMore == HasMoreAfter(|incoming|, response.data.last)
      // pagination stops exactly when the page is marked last, is short, or is empty
      ensures Delivered(response) && response.data.content.Some? ==>
        (hasMore <==> !response.data.last && |response.data.content.value| >= PageSize)
    {
      query := ListQuery(page, PageSize);
      loading := true;
      if response.Reply? && response.status == 200 && response.resultCode == "200" {
        match response.data.content
        case None =>
          // logging `newAnimals[0]` throws; the catch block swallows it
        case Some(newAnimals) =>
          if |newAnimals| == 0 {
            hasMore := false;
          } else {
            if page == 0 {
              animals := newAnimals;
            } else {
              animals := MergePage(animals, newAnimals);
            }
            totalElements := response.data.totalElements;
            hasMore := HasMoreAfter(|newAnimals|, response.data.last);
          }
      }
      loading := false;
    }

    /** The infinite scroller asks for the next page. */
    method LoadMore()
      modifies this`page
      ensures page == old(page) + 1
    {
      page := page + 1;
    }
  }

  /**
   * Two pages of distinct cases, ten then three with the second marked last,
   * leave thirteen cases listed and pagination stopped.
   */
  method TwoPageScenario(first: seq<AnimalCase>, second: seq<AnimalCase>) returns (listed: nat, more: bool)
    requires |first| == PageSize && |second| == 3
    requires forall x :: x in second ==> x.animalCaseId !in Ids(first)
    ensures listed == 13 && !more
  {
    var view := new ProtectionPage();
    var _ := view.FetchAnimals(Reply(200, "200", ListingPage(Some(first), false, Some(13))));
    view.LoadMore();
    var _ := view.FetchAnimals(Reply(200, "200", ListingPage(Some(second), true, Some(13))));
    MergeDisjointAppends(first, second);
    listed, more := |view.animals|, view.hasMore;
  }
}
