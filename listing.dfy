/**
 * Values shared by the two paginated listing pages: the animal case records,
 * the listing response envelope and the rule that decides whether more pages
 * remain.  The network call itself is not modelled; its outcome is an input.
 */
module Listing {

  datatype Option<T> = None | Some(value: T) {
    /** The wrapped value, or `default` when absent (JavaScript's `x || default` on a missing field). */
    function GetOr(default: T): T {
      match this
      case Some(v) => v
      case None => default
    }
  }

  type CaseId = int

  /** One animal case as the listing endpoints return it (fields used only for display left out). */
  datatype AnimalCase = AnimalCase(animalCaseId: CaseId, caseStatus: string, pendingApplicationsCount: int)

  /** Both pages request pages of this many items. */
  const PageSize: nat := 10

  /**
   * The `data` object of a listing reply.  `content` is absent when the server
   * omits it; an absent `last` flag reads as false.
   */
  datatype ListingPage = ListingPage(content: Option<seq<AnimalCase>>, last: bool, totalElements: Option<int>)

  /** What awaiting a listing request yields: an HTTP reply, or an exception. */
  datatype ListResponse =
    | Reply(status: int, resultCode: string, data: ListingPage)
    | Thrown

  /** The query string a fetch sends: `page={page}&size={size}`. */
  datatype ListQuery = ListQuery(page: nat, size: nat)

  /** A reply is acted on only when both the HTTP status and the business code say 200. */
  predicate Delivered(r: ListResponse) {
    r.Reply? && r.status == 200 && r.resultCode == "200"
  }

  /**
   * `hasMore` after a non-empty page: the page is the last one when the server
   * says so or when it is short.
   */
  function HasMoreAfter(received: nat, last: bool): bool {
    !(last || received < PageSize)
  }

  /** A full page that is not marked last keeps pagination going; a short last page stops it. */
  lemma HasMoreExamples()
    ensures HasMoreAfter(10, false)
    ensures !HasMoreAfter(3, true)
    ensures !HasMoreAfter(3, false) && !HasMoreAfter(10, true)
  {
  }
}
