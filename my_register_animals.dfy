/**
 * The "my registered animals" page: the owner's own cases, paged without
 * deduplication, with per-status counts and the approve / reject decisions on
 * pending applications.
 */
module MyRegisterAnimals {
  import opened Listing

  const ProtectWaiting: string := "PROTECT_WAITING"
  const TempProtecting: string := "TEMP_PROTECTING"

  /** How many cases of `s` have the given status (`filter(...).length`). */
  function CountStatus(s: seq<AnimalCase>, status: string): (n: nat)
    ensures n <= |s|
  {
    if s == [] then 0
    else (if s[0].caseStatus == status then 1 else 0) + CountStatus(s[1..], status)
  }

  /** The statuses of a list, in list order. */
  function Statuses(s: seq<AnimalCase>): seq<string> {
    seq(|s|, i requires 0 <= i < |s| => s[i].caseStatus)
  }

  /** CountStatus agrees with the multiplicity of the status among the list's statuses. */
  lemma {:induction false} CountStatusIsMultiplicity(s: seq<AnimalCase>, status: string)
    ensures CountStatus(s, status) == multiset(Statuses(s))[status]
    decreases |s|
  {
    if s != [] {
      CountStatusIsMultiplicity(s[1..], status);
      assert Statuses(s) == [s[0].caseStatus] + Statuses(s[1..]);
    }
  }

  /** Counting over an appended page adds the page's own count. */
  lemma {:induction false} CountStatusAppend(a: seq<AnimalCase>, b: seq<AnimalCase>, status: string)
    ensures CountStatus(a + b, status) == CountStatus(a, status) + CountStatus(b, status)
    decreases |a|
  {
    if a != [] {
      assert (a + b)[1..] == a[1..] + b;
      CountStatusAppend(a[1..], b, status);
    } else {
      assert a + b == b;
    }
  }

  /** Counts of two different statuses never add up to more than the list. */
  lemma {:induction false} TwoStatusesFit(s: seq<AnimalCase>, st1: string, st2: string)
    requires st1 != st2
    ensures CountStatus(s, st1) + CountStatus(s, st2) <= |s|
    decreases |s|
  {
    if s != [] {
      TwoStatusesFit(s[1..], st1, st2);
    }
  }

  /** The waiting and protecting counts together never exceed the list length. */
  lemma WaitingAndProtectingFit(s: seq<AnimalCase>)
    ensures CountStatus(s, ProtectWaiting) + CountStatus(s, TempProtecting) <= |s|
  {
    assert ProtectWaiting[0] != TempProtecting[0];
    TwoStatusesFit(s, ProtectWaiting, TempProtecting);
  }

  /** What awaiting an accept or reject request yields. */
  datatype ActionResponse =
    | ActionReply(status: int, resultCode: string)
    | ActionThrown

  /** A decision succeeded when both the HTTP status and the business code say 200. */
  predicate Succeeded(r: ActionResponse) {
    r.ActionReply? && r.status == 200 && r.resultCode == "200"
  }

  /** The decision requests sent to the server. */
  datatype DecisionRequest =
    | Accept(protectionId: int)
    | Reject(protectionId: int, rejectReason: string)

  /**
   * The state of the page.  `fetchPending` says that the effect keyed on
   * `page` will fetch the current page: React re-runs it when the component
   * mounts and whenever `page` takes a new value.
   */
  class MyRegisteredAnimalsPage {
    var animals: seq<AnimalCase>
    var loading: bool
    var page: nat
    var hasMore: bool
    var selectedAnimal: Option<AnimalCase>
    var isModalOpen: bool
    var totalCount: int
    var waitingCount: nat
    var protectingCount: nat
    var fetchPending: bool

    /** The status counts describe the current list. */
    ghost predicate CountsMatch()
      reads this
    {
      waitingCount == CountStatus(animals, ProtectWaiting) &&
      protectingCount == CountStatus(animals, TempProtecting)
    }

    constructor ()
      ensures animals == [] && loading && page == 0 && hasMore
      ensures selectedAnimal == None && !isModalOpen
      ensures totalCount == 0 && waitingCount == 0 && protectingCount == 0
      ensures fetchPending && CountsMatch()
    {
      animals := [];
      loading := true;
      page := 0;
      hasMore := true;
      selectedAnimal := None;
      isModalOpen := false;
      totalCount := 0;
      waitingCount := 0;
      protectingCount := 0;
      fetchPending := true;
    }

    /** Recounts the two statuses over `animalData`. */
    method CalculateStatusCounts(animalData: seq<AnimalCase>)
      modifies this`waitingCount, this`protectingCount
      ensures waitingCount == CountStatus(animalData, ProtectWaiting)
      ensures protectingCount == CountStatus(animalData, TempProtecting)
      ensures waitingCount + protectingCount <= |animalData|
    {
      WaitingAndProtectingFit(animalData);
      waitingCount := CountStatus(animalData, ProtectWaiting);
      protectingCount := CountStatus(animalData, TempProtecting);
    }

    /**
     * The fetch effect: requests the current page and applies `response`, the
     * outcome of that request.  Returns the query that was sent.  The counts
     * of a later page are taken over the current list followed by the page.
     */
    method FetchMyRegisteredAnimals(response: ListResponse) returns (query: ListQuery)
      modifies this
      ensures query == ListQuery(old(page), PageSize)
      ensures page == old(page) && !loading && !fetchPending
      ensures selectedAnimal == old(selectedAnimal) && isModalOpen == old(isModalOpen)
      // an error reply or an exception: nothing but `loading` changes
      ensures !Delivered(response) ==>
        && animals == old(animals) && hasMore == old(hasMore) && totalCount == old(totalCount)
        && waitingCount == old(waitingCount) && protectingCount == old(protectingCount)
      // an empty (or absent) page stops pagination and changes nothing else
      ensures Delivered(response) && response.data.content.GetOr([]) == [] ==>
        && !hasMore && animals == old(animals) && totalCount == old(totalCount)
        && waitingCount == old(waitingCount) && protectingCount == old(protectingCount)
      ensures Delivered(response) && response.data.content.GetOr([]) != [] ==>
        var incoming := response.data.content.GetOr([]);
        && animals == (if old(page) == 0 then incoming else old(animals) + incoming)
        && hasMore == HasMoreAfter(|incoming|, response.data.last)
        && totalCount == response.data.totalElements.GetOr(0)
        && CountsMatch()
      // pagination stops exactly when the page is marked last, is short, or is empty
      ensures Delivered(response) ==>
        (hasMore <==> !response.data.last && |response.data.content.GetOr([])| >= PageSize)
      // a later page adds its own cases to counts that described the old list
      ensures old(CountsMatch()) && old(page) != 0 && Delivered(response) ==>
        var incoming := response.data.content.GetOr([]);
        && waitingCount == old(waitingCount) + CountStatus(incoming, ProtectWaiting)
        && protectingCount == old(protectingCount) + CountStatus(incoming, TempProtecting)
      ensures old(CountsMatch()) ==> CountsMatch()
      ensures CountsMatch() ==> waitingCount + protectingCount <= |animals|
    {
      fetchPending := false;
      query := ListQuery(page, PageSize);
      loading := true;
      if response.Reply? && response.status == 200 {
        if response.resultCode == "200" {
          var newAnimals := response.data.content.GetOr([]);
          if |newAnimals| > 0 {
            var all := if page == 0 then newAnimals else animals + newAnimals;
            CountStatusAppend(animals, newAnimals, ProtectWaiting);
            CountStatusAppend(animals, newAnimals, TempProtecting);
            animals := all;
            hasMore := HasMoreAfter(|newAnimals|, response.data.last);
            totalCount := response.data.totalElements.GetOr(0);
            CalculateStatusCounts(all);
          } else {
            hasMore := false;
          }
        }
      }
      loading := false;
      WaitingAndProtectingFit(animals);
    }

    /** The infinite scroller asks for the next page; the fetch effect will run. */
    method LoadMore()
      modifies this`page, this`fetchPending
      ensures page == old(page) + 1 && fetchPending
    {
      page := page + 1;
      fetchPending := true;
    }

    /**
     * A click on a case's application badge: the modal opens for that case
     * only when it has pending applications.
     */
    method OpenApplicationsModal(animal: AnimalCase) returns (shown: bool)
      modifies this`selectedAnimal, this`isModalOpen
      ensures shown == (animal.pendingApplicationsCount > 0)
      ensures shown ==> selectedAnimal == Some(animal) && isModalOpen
      ensures !shown ==> selectedAnimal == old(selectedAnimal) && isModalOpen == old(isModalOpen)
    {
      shown := animal.pendingApplicationsCount > 0;
      if shown {
        selectedAnimal := Some(animal);
        isModalOpen := true;
      }
    }

    /** The modal's close button. */
    method CloseApplicationsModal()
      modifies this`isModalOpen
      ensures !isModalOpen
    {
      isModalOpen := false;
    }

    /**
     * The reset after a successful decision, as the page writes it: page 0,
     * empty list, more to load, modal closed.  The fetch effect re-runs only
     * if `page` was not already 0.
     */
    method ResetPaginationAsWritten()
      modifies this
      ensures page == 0 && animals == [] && hasMore && !isModalOpen
      ensures fetchPending == (old(fetchPending) || old(page) != 0)
      ensures loading == old(loading) && selectedAnimal == old(selectedAnimal)
      ensures totalCount == old(totalCount)
      ensures waitingCount == old(waitingCount) && protectingCount == old(protectingCount)
    {
      fetchPending := fetchPending || page != 0;
      page := 0;
      animals := [];
      hasMore := true;
      isModalOpen := false;
    }

    /**
     * The reset after a successful decision, with the first page always
     * fetched again, whatever page was showing.
     */
    method ResetPagination()
      modifies this
      ensures page == 0 && animals == [] && hasMore && !isModalOpen
      ensures fetchPending
      ensures loading == old(loading) && selectedAnimal == old(selectedAnimal)
      ensures totalCount == old(totalCount)
      ensures waitingCount == old(waitingCount) && protectingCount == old(protectingCount)
    {
      page := 0;
      animals := [];
      hasMore := true;
      isModalOpen := false;
      fetchPending := true;
    }

    /** Approves an application; `response` is the outcome of the accept request. */
    method HandleApproveProtection(protectionId: int, response: ActionResponse)
      returns (request: DecisionRequest, ok: bool)
      modifies this
      ensures request == Accept(protectionId)
      ensures ok == Succeeded(response)
      ensures ok ==> page == 0 && animals == [] && hasMore && !isModalOpen && fetchPending
      ensures ok ==>
        && loading == old(loading) && selectedAnimal == old(selectedAnimal) && totalCount == old(totalCount)
        && waitingCount == old(waitingCount) && protectingCount == old(protectingCount)
      ensures !ok ==> unchanged(this)
    {
      request := Accept(protectionId);
      ok := false;
      if response.ActionReply? && response.status == 200 {
        if response.resultCode == "200" {
          ResetPagination();
          ok := true;
        }
      }
    }

    /**
     * Rejects an application.  `reason` is what the prompt returned (None when
     * it was cancelled); `response` is the outcome of the reject request, if
     * one is sent.
     */
    method HandleRejectProtection(protectionId: int, reason: Option<string>, response: ActionResponse)
      returns (request: Option<DecisionRequest>, ok: bool)
      modifies this
      ensures reason == None ==> request == None && !ok
      ensures reason != None ==> request == Some(Reject(protectionId, reason.value))
      ensures ok == (reason != None && Succeeded(response))
      ensures ok ==> page == 0 && animals == [] && hasMore && !isModalOpen && fetchPending
      ensures ok ==>
        && loading == old(loading) && selectedAnimal == old(selectedAnimal) && totalCount == old(totalCount)
        && waitingCount == old(waitingCount) && protectingCount == old(protectingCount)
      ensures !ok ==> unchanged(this)
    {
      ok := false;
      if reason == None {
        request := None;
        return;
      }
      request := Some(Reject(protectionId, reason.value));
      if response.ActionReply? && response.status == 200 {
        if response.resultCode == "200" {
          ResetPagination();
          ok := true;
        }
      }
    }
  }

  /**
   * As written, approving while the first page is showing clears the list
   * and schedules no fetch of page 0: the case that was listed is gone.
   */
  method ApproveOnFirstPageStrandsEmptyList(a: AnimalCase) returns (view: MyRegisteredAnimalsPage)
    ensures view.page == 0 && view.animals == [] && view.hasMore
    ensures !view.fetchPending && view.totalCount == 1
  {
    view := new MyRegisteredAnimalsPage();
    var _ := view.FetchMyRegisteredAnimals(Reply(200, "200", ListingPage(Some([a]), true, Some(1))));
    assert view.animals == [a] && view.page == 0 && !view.fetchPending;
    view.ResetPaginationAsWritten();
  }

  /** With the corrected reset, the same approval schedules a fetch of page 0. */
  method ApproveOnFirstPageRefetches(a: AnimalCase) returns (view: MyRegisteredAnimalsPage)
    ensures view.page == 0 && view.animals == [] && view.hasMore
    ensures view.fetchPending
  {
    view := new MyRegisteredAnimalsPage();
    var _ := view.FetchMyRegisteredAnimals(Reply(200, "200", ListingPage(Some([a]), true, Some(1))));
    var _, ok := view.HandleApproveProtection(7, ActionReply(200, "200"));
    assert ok;
  }
}
