/** The page cleanup policy: for one page of versions, log an intent record
    for every untagged version and, unless this is a dry run, delete it;
    tagged versions are passed over and a failed delete is only warned
    about. */
module Cleanup {
  import opened Wrappers
  import Decimal
  import opened Api
  import opened Owner
  import opened Client
  import opened Trace

  /** Why cleaning one package stopped early. */
  datatype CleanError =
    | ListFailed(cause: ListError)
    | PageOverflow   // the u32 page counter would pass its maximum

  /** The version id as the delete call receives it. */
  function IdText(v: PackageVersion): string {
    Decimal.Show(v.id)
  }

  /** The events of deleting one version: the call, then a warning if it
      failed. */
  function DeleteStep(http: Http, owner: PackageOwner, pkg: string, id: string): seq<Event>
  {
    DeleteEvents(owner, pkg, id, DeletePackageVersion(http, owner, pkg, id))
  }

  /** The events of a delete call of version `id` that had `outcome`. */
  function DeleteEvents(owner: PackageOwner, pkg: string, id: string, outcome: Outcome<DeleteError>)
    : seq<Event>
  {
    [DeleteCall(owner, pkg, id)]
      + match outcome
        case Pass => []
        case Fail(e) => [Warning(owner, pkg, id, e)]
  }

  /** The events one version of a page gives rise to. */
  function VersionTrace(http: Http, owner: PackageOwner, pkg: string, v: PackageVersion, dryRun: bool)
    : seq<Event>
  {
    if !IsUntagged(v) then []
    else
      [Intent(owner, pkg, v.name, dryRun)]
        + (if dryRun then [] else DeleteStep(http, owner, pkg, IdText(v)))
  }

  /** The events of a whole page: each version's, in page order. */
  function PageTrace(http: Http, owner: PackageOwner, pkg: string, versions: seq<PackageVersion>, dryRun: bool)
    : seq<Event>
  {
    if |versions| == 0 then []
    else
      VersionTrace(http, owner, pkg, versions[0], dryRun)
        + PageTrace(http, owner, pkg, versions[1..], dryRun)
  }

  /** The untagged versions, in their original order. */
  function Untagged(versions: seq<PackageVersion>): seq<PackageVersion>
  {
    if |versions| == 0 then []
    else (if IsUntagged(versions[0]) then [versions[0]] else []) + Untagged(versions[1..])
  }

  /** The untagged versions whose delete call fails. */
  function FailingDeletes(http: Http, owner: PackageOwner, pkg: string, versions: seq<PackageVersion>)
    : seq<PackageVersion>
  {
    if |versions| == 0 then []
    else
      var v := versions[0];
      (if IsUntagged(v) && DeletePackageVersion(http, owner, pkg, IdText(v)).Fail? then [v] else [])
        + FailingDeletes(http, owner, pkg, versions[1..])
  }

  function IdTexts(versions: seq<PackageVersion>): seq<string>
  {
    if |versions| == 0 then [] else [IdText(versions[0])] + IdTexts(versions[1..])
  }

  function Names(versions: seq<PackageVersion>): seq<string>
  {
    if |versions| == 0 then [] else [versions[0].name] + Names(versions[1..])
  }

  lemma {:induction false} PageTraceAppend(http: Http, owner: PackageOwner, pkg: string,
                                          a: seq<PackageVersion>, b: seq<PackageVersion>, dryRun: bool)
    ensures PageTrace(http, owner, pkg, a + b, dryRun)
         == PageTrace(http, owner, pkg, a, dryRun) + PageTrace(http, owner, pkg, b, dryRun)
    decreases |a|
  {
    if |a| == 0 {
      assert a + b == b;
    } else {
      assert (a + b)[0] == a[0];
      assert (a + b)[1..] == a[1..] + b;
      PageTraceAppend(http, owner, pkg, a[1..], b, dryRun);
    }
  }

  lemma DeleteStepEffects(http: Http, owner: PackageOwner, pkg: string, id: string)
    ensures var t := DeleteStep(http, owner, pkg, id);
      && ListedPages(t) == []
      && WithoutListCalls(t) == t
      && DeletedIds(t) == [id]
      && IntentNames(t) == []
      && FailedIds(t) == (if DeletePackageVersion(http, owner, pkg, id).Fail? then [id] else [])
      && WithoutWarnings(t) == [DeleteCall(owner, pkg, id)]
      && Scoped(t, owner, pkg)
      && (forall i :: 0 <= i < |t| ==> !t[i].Intent?)
  {
    DeleteEventsEffects(owner, pkg, id, DeletePackageVersion(http, owner, pkg, id));
  }

  lemma DeleteEventsEffects(owner: PackageOwner, pkg: string, id: string, outcome: Outcome<DeleteError>)
    ensures var t := DeleteEvents(owner, pkg, id, outcome);
      && ListedPages(t) == []
      && WithoutListCalls(t) == t
      && DeletedIds(t) == [id]
      && IntentNames(t) == []
      && FailedIds(t) == (if outcome.Fail? then [id] else [])
      && WithoutWarnings(t) == [DeleteCall(owner, pkg, id)]
      && Scoped(t, owner, pkg)
      && (forall i :: 0 <= i < |t| ==> !t[i].Intent?)
  {
    var call := DeleteCall(owner, pkg, id);
    SingleProjections(call);
    match outcome
    case Pass =>
      assert DeleteEvents(owner, pkg, id, outcome) == [call];
    case Fail(e) =>
      var warn := Warning(owner, pkg, id, e);
      var t := [call] + [warn];
      assert DeleteEvents(owner, pkg, id, outcome) == t;
      SingleProjections(warn);
      ProjectionsAppend([call], [warn]);
      assert |t| == 2 && t[0] == call && t[1] == warn;
      assert ListedPages(t) == [] && IntentNames(t) == [] && WithoutListCalls(t) == t;
      assert DeletedIds(t) == [id] && FailedIds(t) == [id];
      assert WithoutWarnings(t) == [call];
  }

  /** What one version contributes to each projection of the trace. */
  lemma VersionEffects(http: Http, owner: PackageOwner, pkg: string, v: PackageVersion, dryRun: bool)
    ensures var t := VersionTrace(http, owner, pkg, v, dryRun);
      && ListedPages(t) == []
      && WithoutListCalls(t) == t
      && DeletedIds(t) == (if IsUntagged(v) && !dryRun then [IdText(v)] else [])
      && IntentNames(t) == (if IsUntagged(v) then [v.name] else [])
      && FailedIds(t)
         == (if IsUntagged(v) && !dryRun && DeletePackageVersion(http, owner, pkg, IdText(v)).Fail?
             then [IdText(v)] else [])
      && Scoped(t, owner, pkg)
      && IntentsFlagged(t, dryRun)
  {
    VersionProjections(http, owner, pkg, v, dryRun);
    VersionScoped(http, owner, pkg, v, dryRun);
  }

  lemma VersionProjections(http: Http, owner: PackageOwner, pkg: string, v: PackageVersion, dryRun: bool)
    ensures var t := VersionTrace(http, owner, pkg, v, dryRun);
      && ListedPages(t) == []
      && WithoutListCalls(t) == t
      && DeletedIds(t) == (if IsUntagged(v) && !dryRun then [IdText(v)] else [])
      && IntentNames(t) == (if IsUntagged(v) then [v.name] else [])
      && FailedIds(t)
         == (if IsUntagged(v) && !dryRun && DeletePackageVersion(http, owner, pkg, IdText(v)).Fail?
             then [IdText(v)] else [])
  {
    if IsUntagged(v) {
      var intent := Intent(owner, pkg, v.name, dryRun);
      var rest := if dryRun then [] else DeleteStep(http, owner, pkg, IdText(v));
      SingleProjections(intent);
      if !dryRun {
        DeleteStepEffects(http, owner, pkg, IdText(v));
      }
      ProjectionsAppend([intent], rest);
    }
  }

  lemma VersionScoped(http: Http, owner: PackageOwner, pkg: string, v: PackageVersion, dryRun: bool)
    ensures Scoped(VersionTrace(http, owner, pkg, v, dryRun), owner, pkg)
    ensures IntentsFlagged(VersionTrace(http, owner, pkg, v, dryRun), dryRun)
  {
    if IsUntagged(v) {
      var intent := Intent(owner, pkg, v.name, dryRun);
      var rest := if dryRun then [] else DeleteStep(http, owner, pkg, IdText(v));
      if !dryRun {
        DeleteStepEffects(http, owner, pkg, IdText(v));
      }
      assert Scoped([intent], owner, pkg) && IntentsFlagged([intent], dryRun);
      PropertiesAppend([intent], rest, owner, pkg, dryRun);
    }
  }

  /** The effects of cleaning a page: one intent record per untagged
      version, in page order, whatever the dry-run flag; one delete call
      per untagged version, in page order, carrying the decimal id, unless
      it is a dry run, in which case none; a warning for exactly the
      deletes that fail; no list call; and every event scoped to the
      owner and package being cleaned. */
  lemma {:induction false} PageEffects(http: Http, owner: PackageOwner, pkg: string,
                                      versions: seq<PackageVersion>, dryRun: bool)
    ensures var t := PageTrace(http, owner, pkg, versions, dryRun);
      && ListedPages(t) == []
      && WithoutListCalls(t) == t
      && DeletedIds(t) == (if dryRun then [] else IdTexts(Untagged(versions)))
      && IntentNames(t) == Names(Untagged(versions))
      && FailedIds(t) == (if dryRun then [] else IdTexts(FailingDeletes(http, owner, pkg, versions)))
      && Scoped(t, owner, pkg)
      && IntentsFlagged(t, dryRun)
    decreases |versions|
  {
    if |versions| > 0 {
      var v := versions[0];
      var head := VersionTrace(http, owner, pkg, v, dryRun);
      var rest := PageTrace(http, owner, pkg, versions[1..], dryRun);
      VersionEffects(http, owner, pkg, v, dryRun);
      PageEffects(http, owner, pkg, versions[1..], dryRun);
      ProjectionsAppend(head, rest);
      PropertiesAppend(head, rest, owner, pkg, dryRun);
      if IsUntagged(v) {
        assert IdTexts([v] + Untagged(versions[1..])) == [IdText(v)] + IdTexts(Untagged(versions[1..]));
        assert Names([v] + Untagged(versions[1..])) == [v.name] + Names(Untagged(versions[1..]));
        var failing := FailingDeletes(http, owner, pkg, versions[1..]);
        if DeletePackageVersion(http, owner, pkg, IdText(v)).Fail? {
          assert IdTexts([v] + failing) == [IdText(v)] + IdTexts(failing);
        } else {
          assert [] + failing == failing;
        }
      } else {
        assert [] + Untagged(versions[1..]) == Untagged(versions[1..]);
        assert [] + FailingDeletes(http, owner, pkg, versions[1..])
            == FailingDeletes(http, owner, pkg, versions[1..]);
      }
    }
  }

  /** A tagged version has no effect wherever it stands in the page. */
  lemma TaggedVersionIgnored(http: Http, owner: PackageOwner, pkg: string,
                             before: seq<PackageVersion>, tagged: PackageVersion,
                             after: seq<PackageVersion>, dryRun: bool)
    requires !IsUntagged(tagged)
    ensures PageTrace(http, owner, pkg, before + [tagged] + after, dryRun)
         == PageTrace(http, owner, pkg, before + after, dryRun)
  {
    var pre := PageTrace(http, owner, pkg, before, dryRun);
    var post := PageTrace(http, owner, pkg, after, dryRun);
    assert PageTrace(http, owner, pkg, [tagged], dryRun) == [] by {
      assert [tagged][1..] == [];
    }
    PageTraceAppend(http, owner, pkg, before, [tagged], dryRun);
    assert PageTrace(http, owner, pkg, before + [tagged], dryRun) == pre;
    PageTraceAppend(http, owner, pkg, before + [tagged], after, dryRun);
    PageTraceAppend(http, owner, pkg, before, after, dryRun);
  }

  /** A page whose every version is tagged causes no event at all, dry run
      or not. */
  lemma {:induction false} AllTaggedNoEffect(http: Http, owner: PackageOwner, pkg: string,
                                            versions: seq<PackageVersion>, dryRun: bool)
    requires forall i :: 0 <= i < |versions| ==> !IsUntagged(versions[i])
    ensures PageTrace(http, owner, pkg, versions, dryRun) == []
    decreases |versions|
  {
    if |versions| > 0 {
      AllTaggedNoEffect(http, owner, pkg, versions[1..], dryRun);
    }
  }

  /** Whether deletes succeed changes nothing but the warnings: the same
      intent records and the same delete calls, in the same order, for any
      two transports. */
  lemma {:induction false} DeleteFailuresAbsorbed(http1: Http, http2: Http, owner: PackageOwner, pkg: string,
                                                 versions: seq<PackageVersion>, dryRun: bool)
    ensures WithoutWarnings(PageTrace(http1, owner, pkg, versions, dryRun))
         == WithoutWarnings(PageTrace(http2, owner, pkg, versions, dryRun))
    decreases |versions|
  {
    if |versions| > 0 {
      var v := versions[0];
      var h1 := VersionTrace(http1, owner, pkg, v, dryRun);
      var h2 := VersionTrace(http2, owner, pkg, v, dryRun);
      var r1 := PageTrace(http1, owner, pkg, versions[1..], dryRun);
      var r2 := PageTrace(http2, owner, pkg, versions[1..], dryRun);
      ProjectionsAppend(h1, r1);
      ProjectionsAppend(h2, r2);
      DeleteFailuresAbsorbed(http1, http2, owner, pkg, versions[1..], dryRun);
      if IsUntagged(v) {
        var intent := Intent(owner, pkg, v.name, dryRun);
        SingleProjections(intent);
        if !dryRun {
          DeleteStepEffects(http1, owner, pkg, IdText(v));
          DeleteStepEffects(http2, owner, pkg, IdText(v));
        }
        ProjectionsAppend([intent], if dryRun then [] else DeleteStep(http1, owner, pkg, IdText(v)));
        ProjectionsAppend([intent], if dryRun then [] else DeleteStep(http2, owner, pkg, IdText(v)));
      }
    }
  }

  /** Cleans one page of versions, in page order. It never fails: a failed
      delete is logged as a warning and the loop moves on. */
  method CleanPackageVersions(http: Http, owner: PackageOwner, pkg: string,
                              versions: seq<PackageVersion>, dryRun: bool)
    returns (trace: seq<Event>, result: Outcome<CleanError>)
    ensures trace == PageTrace(http, owner, pkg, versions, dryRun)
    ensures result == Pass
    ensures DeletedIds(trace) == (if dryRun then [] else IdTexts(Untagged(versions)))
    ensures IntentNames(trace) == Names(Untagged(versions))
    ensures FailedIds(trace) == (if dryRun then [] else IdTexts(FailingDeletes(http, owner, pkg, versions)))
  {
    trace := VersionLoop(http, owner, pkg, versions, dryRun);
    PageEffects(http, owner, pkg, versions, dryRun);
    result := Pass;
  }

  /** The loop over the versions of a page. */
  method VersionLoop(http: Http, owner: PackageOwner, pkg: string,
                     versions: seq<PackageVersion>, dryRun: bool)
    returns (trace: seq<Event>)
    ensures trace == PageTrace(http, owner, pkg, versions, dryRun)
  {
    trace := [];
    for i := 0 to |versions|
      invariant trace == PageTrace(http, owner, pkg, versions[..i], dryRun)
    {
      var v := versions[i];
      var step := CleanVersion(http, owner, pkg, v, dryRun);
      PageTraceStep(http, owner, pkg, versions, dryRun, i);
      trace := trace + step;
    }
    assert versions[..|versions|] == versions;
  }

  /** The body of the loop for one version: pass over a tagged version; log
      the intent; in a real run, delete and warn if that fails. */
  method CleanVersion(http: Http, owner: PackageOwner, pkg: string, v: PackageVersion, dryRun: bool)
    returns (step: seq<Event>)
    ensures step == VersionTrace(http, owner, pkg, v, dryRun)
    ensures ListedPages(step) == []
    ensures DeletedIds(step) == (if IsUntagged(v) && !dryRun then [IdText(v)] else [])
    ensures IntentNames(step) == (if IsUntagged(v) then [v.name] else [])
    ensures FailedIds(step)
         == (if IsUntagged(v) && !dryRun && DeletePackageVersion(http, owner, pkg, IdText(v)).Fail?
             then [IdText(v)] else [])
    ensures Scoped(step, owner, pkg)
    ensures IntentsFlagged(step, dryRun)
  {
    step := [];
    if IsUntagged(v) {
      step := [Intent(owner, pkg, v.name, dryRun)];
      if !dryRun {
        var id := IdText(v);
        var deleted := DeletePackageVersion(http, owner, pkg, id);
        if deleted.Fail? {
          step := step + ([DeleteCall(owner, pkg, id)] + [Warning(owner, pkg, id, deleted.error)]);
        } else {
          step := step + ([DeleteCall(owner, pkg, id)] + []);
        }
      }
    }
    VersionEffects(http, owner, pkg, v, dryRun);
  }

  lemma PageTraceStep(http: Http, owner: PackageOwner, pkg: string,
                      versions: seq<PackageVersion>, dryRun: bool, i: nat)
    requires i < |versions|
    ensures PageTrace(http, owner, pkg, versions[..i + 1], dryRun)
         == PageTrace(http, owner, pkg, versions[..i], dryRun)
            + VersionTrace(http, owner, pkg, versions[i], dryRun)
  {
    var v := versions[i];
    assert versions[..i + 1] == versions[..i] + [v];
    PageTraceAppend(http, owner, pkg, versions[..i], [v], dryRun);
    assert PageTrace(http, owner, pkg, [v], dryRun) == VersionTrace(http, owner, pkg, v, dryRun) by {
      assert [v][1..] == [];
      assert VersionTrace(http, owner, pkg, v, dryRun) + [] == VersionTrace(http, owner, pkg, v, dryRun);
    }
  }
}
