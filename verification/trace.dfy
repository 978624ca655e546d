/** What the cleanup workflow does, as a record of events: the client calls
    it makes, the intent-to-delete records it logs and the warnings it logs
    for failed deletes. Every event names the owner and package it concerns. */
module Trace {
  import opened Wrappers
  import opened Owner
  import opened Client

  datatype Event =
    | ListCall(owner: PackageOwner, pkg: string, page: nat)
    | Intent(owner: PackageOwner, pkg: string, versionName: string, dryRun: bool)
    | DeleteCall(owner: PackageOwner, pkg: string, versionId: string)
    | Warning(owner: PackageOwner, pkg: string, versionId: string, error: DeleteError)

  /** The values `select` picks out of a trace, in trace order. */
  function Pick<T>(trace: seq<Event>, select: Event -> Option<T>): seq<T>
  {
    if |trace| == 0 then []
    else
      (match select(trace[0]) case Some(x) => [x] case None => [])
        + Pick(trace[1..], select)
  }

  lemma {:induction false} PickAppend<T>(a: seq<Event>, b: seq<Event>, select: Event -> Option<T>)
    ensures Pick(a + b, select) == Pick(a, select) + Pick(b, select)
    decreases |a|
  {
    if |a| > 0 {
      assert (a + b)[0] == a[0];
      assert (a + b)[1..] == a[1..] + b;
      PickAppend(a[1..], b, select);
    } else {
      assert a + b == b;
    }
  }

  lemma PickSingle<T>(e: Event, select: Event -> Option<T>)
    ensures Pick([e], select) == match select(e) case Some(x) => [x] case None => []
  {
    assert [e][1..] == [];
  }

  /** What each projection picks out of one event. */
  function PageOf(e: Event): Option<nat> {
    if e.ListCall? then Some(e.page) else None
  }

  function DeletedIdOf(e: Event): Option<string> {
    if e.DeleteCall? then Some(e.versionId) else None
  }

  function IntentNameOf(e: Event): Option<string> {
    if e.Intent? then Some(e.versionName) else None
  }

  function FailedIdOf(e: Event): Option<string> {
    if e.Warning? then Some(e.versionId) else None
  }

  function UnlessListCall(e: Event): Option<Event> {
    if e.ListCall? then None else Some(e)
  }

  function UnlessWarning(e: Event): Option<Event> {
    if e.Warning? then None else Some(e)
  }

  /** The page numbers of the list calls. */
  function ListedPages(trace: seq<Event>): seq<nat> {
    Pick(trace, PageOf)
  }

  /** The version ids of the delete calls. */
  function DeletedIds(trace: seq<Event>): seq<string> {
    Pick(trace, DeletedIdOf)
  }

  /** The version names of the intent-to-delete records. */
  function IntentNames(trace: seq<Event>): seq<string> {
    Pick(trace, IntentNameOf)
  }

  /** The version ids whose delete call failed. */
  function FailedIds(trace: seq<Event>): seq<string> {
    Pick(trace, FailedIdOf)
  }

  /** Everything but the list calls. */
  function WithoutListCalls(trace: seq<Event>): seq<Event> {
    Pick(trace, UnlessListCall)
  }

  /** Everything but the warnings. */
  function WithoutWarnings(trace: seq<Event>): seq<Event> {
    Pick(trace, UnlessWarning)
  }

  lemma ProjectionsAppend(a: seq<Event>, b: seq<Event>)
    ensures ListedPages(a + b) == ListedPages(a) + ListedPages(b)
    ensures DeletedIds(a + b) == DeletedIds(a) + DeletedIds(b)
    ensures IntentNames(a + b) == IntentNames(a) + IntentNames(b)
    ensures FailedIds(a + b) == FailedIds(a) + FailedIds(b)
    ensures WithoutListCalls(a + b) == WithoutListCalls(a) + WithoutListCalls(b)
    ensures WithoutWarnings(a + b) == WithoutWarnings(a) + WithoutWarnings(b)
  {
    PickAppend(a, b, PageOf);
    PickAppend(a, b, DeletedIdOf);
    PickAppend(a, b, IntentNameOf);
    PickAppend(a, b, FailedIdOf);
    PickAppend(a, b, UnlessListCall);
    PickAppend(a, b, UnlessWarning);
  }

  lemma SingleProjections(e: Event)
    ensures ListedPages([e]) == (if e.ListCall? then [e.page] else [])
    ensures DeletedIds([e]) == (if e.DeleteCall? then [e.versionId] else [])
    ensures IntentNames([e]) == (if e.Intent? then [e.versionName] else [])
    ensures FailedIds([e]) == (if e.Warning? then [e.versionId] else [])
    ensures WithoutListCalls([e]) == (if e.ListCall? then [] else [e])
    ensures WithoutWarnings([e]) == (if e.Warning? then [] else [e])
  {
    PickSingle(e, PageOf);
    PickSingle(e, DeletedIdOf);
    PickSingle(e, IntentNameOf);
    PickSingle(e, FailedIdOf);
    PickSingle(e, UnlessListCall);
    PickSingle(e, UnlessWarning);
  }

  /** Every event concerns `owner` and `pkg`. */
  predicate Scoped(trace: seq<Event>, owner: PackageOwner, pkg: string) {
    forall i :: 0 <= i < |trace| ==> trace[i].owner == owner && trace[i].pkg == pkg
  }

  /** Every intent record carries the dry-run flag `dryRun`. */
  predicate IntentsFlagged(trace: seq<Event>, dryRun: bool) {
    forall i :: 0 <= i < |trace| && trace[i].Intent? ==> trace[i].dryRun == dryRun
  }

  lemma PropertiesAppend(a: seq<Event>, b: seq<Event>, owner: PackageOwner, pkg: string, dryRun: bool)
    ensures Scoped(a, owner, pkg) && Scoped(b, owner, pkg) ==> Scoped(a + b, owner, pkg)
    ensures IntentsFlagged(a, dryRun) && IntentsFlagged(b, dryRun) ==> IntentsFlagged(a + b, dryRun)
  {
    assert forall i :: 0 <= i < |a| ==> (a + b)[i] == a[i];
    assert forall i :: |a| <= i < |a + b| ==> (a + b)[i] == b[i - |a|];
  }

  /** The log line of an intent-to-delete record. */
  function IntentLine(owner: PackageOwner, pkg: string, versionName: string, dryRun: bool): string
  {
    "Deleting " + Display(owner) + "/" + pkg + ":" + versionName
      + (if dryRun then " (DRY RUN)" else "")
  }

  /** A dry run logs the same line as a real run, with " (DRY RUN)" added. */
  lemma DryRunLine(owner: PackageOwner, pkg: string, versionName: string)
    ensures IntentLine(owner, pkg, versionName, true)
         == IntentLine(owner, pkg, versionName, false) + " (DRY RUN)"
  {
  }
}
