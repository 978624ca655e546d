/** Cleaning one package: list page 1, 2, ... and clean each page, until
    the first empty page; a failed list call ends the package with an
    error. The page counter is a `u32`: incrementing it past its maximum
    panics, which the model reports as `PageOverflow`.

    The proofs see the list call as a function `list` from page numbers to
    answers; `Lister` is that function for a given transport, owner and
    package. */
module Pagination {
  import opened Wrappers
  import Text
  import opened Api
  import opened Owner
  import opened Client
  import opened Trace
  import opened Cleanup

  /** The answers to the list calls of one package, by page number. */
  type Listing = U32 -> Result<seq<PackageVersion>, ListError>

  /** The list call of `owner`'s package `pkg` as a function of the page. */
  function Lister(http: Http, owner: PackageOwner, pkg: string): Listing
  {
    (page: U32) => GetPackageVersion(http, owner, pkg, Some(page))
  }

  /** The record of cleaning one package and how it ended. */
  datatype Cleaned = Cleaned(events: seq<Event>, result: Outcome<CleanError>)

  /** Page `page` lists successfully and is not empty, so the loop goes on
      past it. */
  predicate Continues(list: Listing, page: U32) {
    list(page).Success? && |list(page).value| > 0
  }

  /** The versions of page `page`, none if listing it fails. */
  function PageVersions(list: Listing, page: U32): seq<PackageVersion>
  {
    match list(page)
    case Success(versions) => versions
    case Failure(_) => []
  }

  /** The versions of pages `from` up to, not including, `to`, concatenated
      in page order. */
  function VersionsIn(list: Listing, from: nat, to: nat): seq<PackageVersion>
    requires to <= U32_MAX + 1
    decreases if from <= to then to - from else 0
  {
    if from >= to then []
    else PageVersions(list, from) + VersionsIn(list, from + 1, to)
  }

  /** The numbers `from`, `from + 1`, ..., `to - 1`. */
  function Span(from: nat, to: nat): seq<nat>
    decreases if from <= to then to - from else 0
  {
    if from >= to then [] else [from] + Span(from + 1, to)
  }

  /** Reference definition of the pagination loop, from page `page` on. */
  function PackageFrom(http: Http, owner: PackageOwner, pkg: string, dryRun: bool,
                       list: Listing, page: nat): Cleaned
    requires 1 <= page <= U32_MAX
    decreases U32_MAX - page
  {
    var call := [ListCall(owner, pkg, page)];
    match list(page)
    case Failure(e) => Cleaned(call, Fail(ListFailed(e)))
    case Success(versions) =>
      if |versions| == 0 then Cleaned(call, Pass)
      else
        var here := call + PageTrace(http, owner, pkg, versions, dryRun);
        if page == U32_MAX then Cleaned(here, Fail(PageOverflow))
        else
          var rest := PackageFrom(http, owner, pkg, dryRun, list, page + 1);
          Cleaned(here + rest.events, rest.result)
  }

  /** Reference definition of cleaning a package: the loop from page 1. */
  function PackageRun(http: Http, owner: PackageOwner, pkg: string, dryRun: bool): Cleaned
  {
    PackageFrom(http, owner, pkg, dryRun, Lister(http, owner, pkg), 1)
  }

  /** The shape of a pagination run that starts at page `first`: with
      `last` the highest page it lists,
      - it lists pages first, first + 1, ..., last, each once, in order;
      - every page before `last` listed successfully and was not empty;
      - it ends well exactly when page `last` came back empty, and with the
        list error exactly when listing page `last` failed;
      - it ends with `PageOverflow` exactly when page `last` was not empty,
        which happens only at the largest u32 page;
      - leaving out its list calls, it is the page cleanup policy applied to
        the versions of pages first..last concatenated in page order. */
  ghost predicate Paginated(http: Http, owner: PackageOwner, pkg: string, dryRun: bool,
                            list: Listing, first: nat, r: Cleaned)
    requires 1 <= first <= U32_MAX
  {
    var last := first + |ListedPages(r.events)| - 1;
    && first <= last <= U32_MAX
    && ListedPages(r.events) == Span(first, last + 1)
    && AllContinue(list, first, last)
    && EndsAt(list, last, r.result)
    && WithoutListCalls(r.events) == PageTrace(http, owner, pkg, VersionsIn(list, first, last + 1), dryRun)
  }

  /** Every page from `first` up to, not including, `last` listed
      successfully and was not empty. */
  ghost predicate AllContinue(list: Listing, first: nat, last: U32) {
    forall j: nat :: first <= j < last ==> Continues(list, j)
  }

  /** How a run whose last listed page is `last` ends: well exactly when
      that page came back empty; with the list error exactly when listing
      it failed; with `PageOverflow` exactly when it was not empty, which
      happens only at the largest u32 page. */
  ghost predicate EndsAt(list: Listing, last: U32, result: Outcome<CleanError>) {
    && (result == Pass <==> list(last) == Success([]))
    && (list(last).Failure? <==> result.Fail? && result.error.ListFailed?)
    && (list(last).Failure? ==> result == Fail(ListFailed(list(last).error)))
    && (result == Fail(PageOverflow) <==> Continues(list, last))
    && (Continues(list, last) ==> last == U32_MAX)
  }

  lemma SpanOne(page: nat)
    ensures Span(page, page + 1) == [page]
  {
  }

  /** A run that lists page `page` and stops there is `Paginated`. */
  lemma StopPaginated(http: Http, owner: PackageOwner, pkg: string, dryRun: bool,
                      list: Listing, page: nat, r: Cleaned)
    requires 1 <= page <= U32_MAX
    requires !Continues(list, page)
    requires r.events == [ListCall(owner, pkg, page)]
    requires r.result == match list(page)
                         case Failure(e) => Fail(ListFailed(e))
                         case Success(_) => Pass
    ensures Paginated(http, owner, pkg, dryRun, list, page, r)
  {
    SingleProjections(ListCall(owner, pkg, page));
    SpanOne(page);
    assert VersionsIn(list, page, page + 1) == [];
  }

  /** A run that cleans the last u32 page and then overflows is `Paginated`. */
  lemma OverflowPaginated(http: Http, owner: PackageOwner, pkg: string, dryRun: bool,
                          list: Listing, r: Cleaned)
    requires Continues(list, U32_MAX)
    requires r.events == [ListCall(owner, pkg, U32_MAX)]
                         + PageTrace(http, owner, pkg, list(U32_MAX).value, dryRun)
    requires r.result == Fail(PageOverflow)
    ensures Paginated(http, owner, pkg, dryRun, list, U32_MAX, r)
  {
    var versions := list(U32_MAX).value;
    var pt := PageTrace(http, owner, pkg, versions, dryRun);
    assert ListedPages(r.events) == [U32_MAX] && WithoutListCalls(r.events) == pt by {
      PageHasNoListCalls(http, owner, pkg, versions, dryRun);
      CallThenRest(ListCall(owner, pkg, U32_MAX), pt, []);
      assert r.events == [ListCall(owner, pkg, U32_MAX)] + pt + [];
      assert ListedPages([]) == [] && WithoutListCalls([]) == [];
    }
    SpanOne(U32_MAX);
    assert VersionsIn(list, U32_MAX, U32_MAX + 1) == versions by {
      assert versions + [] == versions;
    }
  }

  /** Prefixing a `Paginated` run from page `page + 1` with the list call
      and the cleanup of a non-empty page `page` gives a `Paginated` run
      from page `page`. */
  lemma {:induction false} NextPaginated(http: Http, owner: PackageOwner, pkg: string, dryRun: bool,
                      list: Listing, page: nat, rest: Cleaned, r: Cleaned)
    requires 1 <= page < U32_MAX
    requires Continues(list, page)
    requires Paginated(http, owner, pkg, dryRun, list, page + 1, rest)
    requires r.events == [ListCall(owner, pkg, page)]
                         + PageTrace(http, owner, pkg, list(page).value, dryRun)
                         + rest.events
    requires r.result == rest.result
    ensures Paginated(http, owner, pkg, dryRun, list, page, r)
  {
    var last := page + |ListedPages(r.events)| - 1;
    NextListed(http, owner, pkg, dryRun, list, page, rest.events, r.events);
    assert AllContinue(list, page, last) by {
      assert AllContinue(list, page + 1, last);
    }
    assert EndsAt(list, last, r.result) by {
      assert EndsAt(list, last, rest.result);
    }
    NextUnlisted(http, owner, pkg, dryRun, list, page, last, rest.events, r.events);
  }

  /** The list calls of a page followed by a run from the next page. */
  lemma NextListed(http: Http, owner: PackageOwner, pkg: string, dryRun: bool,
                   list: Listing, page: nat, rest: seq<Event>, events: seq<Event>)
    requires 1 <= page < U32_MAX && Continues(list, page)
    requires ListedPages(rest) == Span(page + 1, page + 1 + |ListedPages(rest)|)
    requires events == [ListCall(owner, pkg, page)]
                       + PageTrace(http, owner, pkg, list(page).value, dryRun) + rest
    ensures ListedPages(events) == Span(page, page + |ListedPages(events)|)
    ensures |ListedPages(events)| == 1 + |ListedPages(rest)|
  {
    PageThenRest(http, owner, pkg, dryRun, page, list(page).value, rest);
  }

  /** The events other than list calls of a page followed by a run from the
      next page. */
  lemma NextUnlisted(http: Http, owner: PackageOwner, pkg: string, dryRun: bool,
                     list: Listing, page: nat, last: nat, rest: seq<Event>, events: seq<Event>)
    requires 1 <= page <= last <= U32_MAX && Continues(list, page)
    requires WithoutListCalls(rest)
          == PageTrace(http, owner, pkg, VersionsIn(list, page + 1, last + 1), dryRun)
    requires events == [ListCall(owner, pkg, page)]
                       + PageTrace(http, owner, pkg, list(page).value, dryRun) + rest
    ensures WithoutListCalls(events)
         == PageTrace(http, owner, pkg, VersionsIn(list, page, last + 1), dryRun)
  {
    PageThenRest(http, owner, pkg, dryRun, page, list(page).value, rest);
    VersionsInCons(http, owner, pkg, dryRun, list, page, last + 1);
    assert PageVersions(list, page) == list(page).value;
  }

  /** The list call and cleanup of one page, followed by more events. */
  lemma PageThenRest(http: Http, owner: PackageOwner, pkg: string, dryRun: bool,
                     page: nat, versions: seq<PackageVersion>, rest: seq<Event>)
    ensures ListedPages([ListCall(owner, pkg, page)] + PageTrace(http, owner, pkg, versions, dryRun) + rest)
         == [page] + ListedPages(rest)
    ensures WithoutListCalls([ListCall(owner, pkg, page)] + PageTrace(http, owner, pkg, versions, dryRun) + rest)
         == PageTrace(http, owner, pkg, versions, dryRun) + WithoutListCalls(rest)
  {
    PageHasNoListCalls(http, owner, pkg, versions, dryRun);
    CallThenRest(ListCall(owner, pkg, page), PageTrace(http, owner, pkg, versions, dryRun), rest);
  }

  lemma PageHasNoListCalls(http: Http, owner: PackageOwner, pkg: string,
                           versions: seq<PackageVersion>, dryRun: bool)
    ensures ListedPages(PageTrace(http, owner, pkg, versions, dryRun)) == []
    ensures WithoutListCalls(PageTrace(http, owner, pkg, versions, dryRun))
         == PageTrace(http, owner, pkg, versions, dryRun)
  {
    PageEffects(http, owner, pkg, versions, dryRun);
  }

  /** A list call, events without list calls, then more events. */
  lemma CallThenRest(call: Event, pt: seq<Event>, rest: seq<Event>)
    requires call.ListCall?
    requires ListedPages(pt) == [] && WithoutListCalls(pt) == pt
    ensures ListedPages([call] + pt + rest) == [call.page] + ListedPages(rest)
    ensures WithoutListCalls([call] + pt + rest) == pt + WithoutListCalls(rest)
  {
    var head := [call] + pt;
    assert ListedPages(head) == [call.page] && WithoutListCalls(head) == pt by {
      SingleProjections(call);
      ProjectionsAppend([call], pt);
      assert [call.page] + [] == [call.page];
      assert [] + pt == pt;
    }
    ProjectionsAppend(head, rest);
  }

  /** Cleaning pages `page` to `to` is cleaning page `page`, then the rest. */
  lemma VersionsInCons(http: Http, owner: PackageOwner, pkg: string, dryRun: bool,
                       list: Listing, page: nat, to: nat)
    requires page < to <= U32_MAX + 1
    ensures PageTrace(http, owner, pkg, VersionsIn(list, page, to), dryRun)
         == PageTrace(http, owner, pkg, PageVersions(list, page), dryRun)
            + PageTrace(http, owner, pkg, VersionsIn(list, page + 1, to), dryRun)
  {
    PageTraceAppend(http, owner, pkg, PageVersions(list, page), VersionsIn(list, page + 1, to), dryRun);
  }

  /** The pagination loop from any page has the shape `Paginated` states. */
  lemma {:induction false} PackageFromPaginated(http: Http, owner: PackageOwner, pkg: string, dryRun: bool,
                                               list: Listing, page: nat)
    requires 1 <= page <= U32_MAX
    ensures Paginated(http, owner, pkg, dryRun, list, page, PackageFrom(http, owner, pkg, dryRun, list, page))
    decreases U32_MAX - page
  {
    var r := PackageFrom(http, owner, pkg, dryRun, list, page);
    if !Continues(list, page) {
      StopPaginated(http, owner, pkg, dryRun, list, page, r);
    } else if page == U32_MAX {
      OverflowPaginated(http, owner, pkg, dryRun, list, r);
    } else {
      PackageFromPaginated(http, owner, pkg, dryRun, list, page + 1);
      NextPaginated(http, owner, pkg, dryRun, list, page,
                    PackageFrom(http, owner, pkg, dryRun, list, page + 1), r);
    }
  }

  /** Every event concerns `owner` and `pkg`, every intent record carries
      the flag `dryRun`, and with `dryRun` set nothing is deleted and no
      delete fails. */
  predicate Conforms(events: seq<Event>, owner: PackageOwner, pkg: string, dryRun: bool) {
    && Scoped(events, owner, pkg)
    && IntentsFlagged(events, dryRun)
    && (dryRun ==> DeletedIds(events) == [] && FailedIds(events) == [])
  }

  lemma ConformsCons(owner: PackageOwner, pkg: string, dryRun: bool, page: nat,
                     pt: seq<Event>, rest: seq<Event>)
    requires Conforms(pt, owner, pkg, dryRun) && Conforms(rest, owner, pkg, dryRun)
    ensures Conforms([ListCall(owner, pkg, page)] + pt + rest, owner, pkg, dryRun)
  {
    var call := ListCall(owner, pkg, page);
    SingleProjections(call);
    PropertiesAppend([call], pt, owner, pkg, dryRun);
    ProjectionsAppend([call], pt);
    PropertiesAppend([call] + pt, rest, owner, pkg, dryRun);
    ProjectionsAppend([call] + pt, rest);
  }

  lemma PageConforms(http: Http, owner: PackageOwner, pkg: string, versions: seq<PackageVersion>, dryRun: bool)
    ensures Conforms(PageTrace(http, owner, pkg, versions, dryRun), owner, pkg, dryRun)
  {
    PageEffects(http, owner, pkg, versions, dryRun);
  }

  /** Every event of cleaning a package concerns that package, every intent
      record carries the run's dry-run flag, and a dry run neither deletes
      nor warns. */
  lemma {:induction false} PackageFromConforms(http: Http, owner: PackageOwner, pkg: string, dryRun: bool,
                                              list: Listing, page: nat)
    requires 1 <= page <= U32_MAX
    ensures Conforms(PackageFrom(http, owner, pkg, dryRun, list, page).events, owner, pkg, dryRun)
    decreases U32_MAX - page
  {
    if !Continues(list, page) || page == U32_MAX {
      LastPageConforms(http, owner, pkg, dryRun, list, page);
    } else {
      PackageFromConforms(http, owner, pkg, dryRun, list, page + 1);
      NextConforms(http, owner, pkg, dryRun, list, page);
    }
  }

  /** The pagination loop conforms from page `page` on when it goes on to
      the next page and conforms from there. */
  lemma NextConforms(http: Http, owner: PackageOwner, pkg: string, dryRun: bool,
                     list: Listing, page: nat)
    requires 1 <= page < U32_MAX && Continues(list, page)
    requires Conforms(PackageFrom(http, owner, pkg, dryRun, list, page + 1).events, owner, pkg, dryRun)
    ensures Conforms(PackageFrom(http, owner, pkg, dryRun, list, page).events, owner, pkg, dryRun)
  {
    StepNext(http, owner, pkg, dryRun, list, page);
    PageConforms(http, owner, pkg, list(page).value, dryRun);
    ConformsCons(owner, pkg, dryRun, page, PageTrace(http, owner, pkg, list(page).value, dryRun),
                 PackageFrom(http, owner, pkg, dryRun, list, page + 1).events);
  }

  /** The pagination loop conforms when it stops at page `page`. */
  lemma LastPageConforms(http: Http, owner: PackageOwner, pkg: string, dryRun: bool,
                         list: Listing, page: nat)
    requires 1 <= page <= U32_MAX
    requires !Continues(list, page) || page == U32_MAX
    ensures Conforms(PackageFrom(http, owner, pkg, dryRun, list, page).events, owner, pkg, dryRun)
  {
    assert Conforms([], owner, pkg, dryRun);
    if list(page).Failure? {
      StepFailure(http, owner, pkg, dryRun, list, page);
      ConformsCons(owner, pkg, dryRun, page, [], []);
      assert [ListCall(owner, pkg, page)] + [] + [] == [ListCall(owner, pkg, page)];
    } else if |list(page).value| == 0 {
      StepEmpty(http, owner, pkg, dryRun, list, page);
      ConformsCons(owner, pkg, dryRun, page, [], []);
      assert [ListCall(owner, pkg, page)] + [] + [] == [ListCall(owner, pkg, page)];
    } else {
      var pt := PageTrace(http, owner, pkg, list(page).value, dryRun);
      StepOverflow(http, owner, pkg, dryRun, list, page);
      PageConforms(http, owner, pkg, list(page).value, dryRun);
      ConformsCons(owner, pkg, dryRun, page, pt, []);
      assert [ListCall(owner, pkg, page)] + pt + [] == [ListCall(owner, pkg, page)] + pt;
    }
  }

  /** Cleans one package: pages 1, 2, ... until the first empty page. */
  method CleanPackage(http: Http, owner: PackageOwner, pkg: string, dryRun: bool)
    returns (trace: seq<Event>, result: Outcome<CleanError>)
    ensures Cleaned(trace, result) == PackageRun(http, owner, pkg, dryRun)
    ensures Paginated(http, owner, pkg, dryRun, Lister(http, owner, pkg), 1, Cleaned(trace, result))
    ensures Conforms(trace, owner, pkg, dryRun)
  {
    trace, result := PageLoop(http, owner, pkg, dryRun);
    PackageFromPaginated(http, owner, pkg, dryRun, Lister(http, owner, pkg), 1);
    PackageFromConforms(http, owner, pkg, dryRun, Lister(http, owner, pkg), 1);
  }

  /** The page loop itself: list page 1, 2, ... and clean each, until the
      first empty page, a failed list call or the last u32 page. */
  method PageLoop(http: Http, owner: PackageOwner, pkg: string, dryRun: bool)
    returns (trace: seq<Event>, result: Outcome<CleanError>)
    ensures Cleaned(trace, result) == PackageRun(http, owner, pkg, dryRun)
  {
    ghost var list := Lister(http, owner, pkg);
    trace := [];
    var page: nat := 1;
    while true
      invariant 1 <= page <= U32_MAX
      invariant PackageRun(http, owner, pkg, dryRun)
             == Cleaned(trace + PackageFrom(http, owner, pkg, dryRun, list, page).events,
                        PackageFrom(http, owner, pkg, dryRun, list, page).result)
      decreases U32_MAX - page
    {
      ghost var before := trace;
      var call := ListCall(owner, pkg, page);
      var listed := GetPackageVersion(http, owner, pkg, Some(page));
      assert listed == list(page);
      if listed.Failure? {
        StepFailure(http, owner, pkg, dryRun, list, page);
        return trace + [call], Fail(ListFailed(listed.error));
      }
      if |listed.value| == 0 {
        StepEmpty(http, owner, pkg, dryRun, list, page);
        return trace + [call], Pass;
      }
      // Cleaning a page never fails, so its outcome needs no check.
      var pageTrace, _ := CleanPackageVersions(http, owner, pkg, listed.value, dryRun);
      if page == U32_MAX {
        StepOverflow(http, owner, pkg, dryRun, list, page);
        return trace + ([call] + pageTrace), Fail(PageOverflow);
      }
      StepNext(http, owner, pkg, dryRun, list, page);
      Text.Assoc(before, [call] + pageTrace, PackageFrom(http, owner, pkg, dryRun, list, page + 1).events);
      trace := trace + ([call] + pageTrace);
      page := page + 1;
    }
  }

  /** One step of the loop when listing the page fails. */
  lemma StepFailure(http: Http, owner: PackageOwner, pkg: string, dryRun: bool,
                    list: Listing, page: nat)
    requires 1 <= page <= U32_MAX && list(page).Failure?
    ensures PackageFrom(http, owner, pkg, dryRun, list, page)
         == Cleaned([ListCall(owner, pkg, page)], Fail(ListFailed(list(page).error)))
  {
  }

  /** One step of the loop when the page is empty. */
  lemma StepEmpty(http: Http, owner: PackageOwner, pkg: string, dryRun: bool,
                  list: Listing, page: nat)
    requires 1 <= page <= U32_MAX && list(page).Success? && |list(page).value| == 0
    ensures PackageFrom(http, owner, pkg, dryRun, list, page)
         == Cleaned([ListCall(owner, pkg, page)], Pass)
  {
  }

  /** One step of the loop at the last page a `u32` counter can hold. */
  lemma StepOverflow(http: Http, owner: PackageOwner, pkg: string, dryRun: bool,
                     list: Listing, page: nat)
    requires page == U32_MAX && list(page).Success? && |list(page).value| > 0
    ensures PackageFrom(http, owner, pkg, dryRun, list, page)
         == Cleaned([ListCall(owner, pkg, page)] + PageTrace(http, owner, pkg, list(page).value, dryRun),
                    Fail(PageOverflow))
  {
  }

  /** One step of the loop that goes on to the next page. */
  lemma StepNext(http: Http, owner: PackageOwner, pkg: string, dryRun: bool,
                 list: Listing, page: nat)
    requires 1 <= page < U32_MAX && list(page).Success? && |list(page).value| > 0
    ensures PackageFrom(http, owner, pkg, dryRun, list, page).events
         == [ListCall(owner, pkg, page)] + PageTrace(http, owner, pkg, list(page).value, dryRun)
            + PackageFrom(http, owner, pkg, dryRun, list, page + 1).events
    ensures PackageFrom(http, owner, pkg, dryRun, list, page).result
         == PackageFrom(http, owner, pkg, dryRun, list, page + 1).result
  {
  }
}
