/** The whole run: check that an owner was given, obtain the credentials,
    then clean the named packages one after another. The first package that
    fails ends the run with that package's error; the packages after it are
    not touched.

    The proofs see the cleanup of one package as a function `clean` from
    package names to their records; `Cleaners` is that function for a given
    transport, owner and dry-run flag. */
module Runner {
  import opened Wrappers
  import Text
  import opened Owner
  import opened Trace
  import opened Client
  import opened Cleanup
  import opened Pagination

  datatype RunError =
    | NoOwner
    | NoCredentials
    | PackageFailed(owner: PackageOwner, pkg: string, cause: CleanError)

  /** The record of a whole run and how it ended. */
  datatype Ran = Ran(events: seq<Event>, result: Outcome<RunError>)

  /** The cleanup of each package, by name. */
  type Cleaner = string -> Cleaned

  function Cleaners(http: Http, owner: PackageOwner, dryRun: bool): Cleaner
  {
    (pkg: string) => PackageRun(http, owner, pkg, dryRun)
  }

  /** Reference definition of the package loop: clean `pkgs` in order and
      stop at the first failure. */
  function RunFrom(owner: PackageOwner, pkgs: seq<string>, clean: Cleaner): Ran
  {
    if |pkgs| == 0 then Ran([], Pass)
    else
      var here := clean(pkgs[0]);
      if here.result.Fail? then Ran(here.events, Fail(PackageFailed(owner, pkgs[0], here.result.error)))
      else
        var rest := RunFrom(owner, pkgs[1..], clean);
        Ran(here.events + rest.events, rest.result)
  }

  /** The events of cleaning each of `pkgs` in turn. */
  function EventsOf(pkgs: seq<string>, clean: Cleaner): seq<Event>
  {
    if |pkgs| == 0 then [] else clean(pkgs[0]).events + EventsOf(pkgs[1..], clean)
  }

  /** The position of the first of `pkgs` whose cleanup fails, or `|pkgs|`
      when none does. */
  function FirstFailure(pkgs: seq<string>, clean: Cleaner): (k: nat)
    ensures k <= |pkgs|
    ensures forall j :: 0 <= j < k ==> clean(pkgs[j]).result == Pass
    ensures k < |pkgs| ==> clean(pkgs[k]).result.Fail?
  {
    if |pkgs| == 0 then 0
    else if clean(pkgs[0]).result.Fail? then 0
    else 1 + FirstFailure(pkgs[1..], clean)
  }

  /** The contract of `FirstFailure` determines its result. */
  lemma {:induction false} FirstFailureUnique(pkgs: seq<string>, clean: Cleaner, k: nat)
    requires k <= |pkgs|
    requires forall j :: 0 <= j < k ==> clean(pkgs[j]).result == Pass
    requires k < |pkgs| ==> clean(pkgs[k]).result.Fail?
    ensures FirstFailure(pkgs, clean) == k
  {
    if k > 0 {
      assert clean(pkgs[0]).result == Pass;
      assert forall j :: 0 <= j < k - 1 ==> pkgs[1..][j] == pkgs[j + 1];
      FirstFailureUnique(pkgs[1..], clean, k - 1);
    }
  }

  lemma {:induction false} EventsOfAppend(a: seq<string>, b: seq<string>, clean: Cleaner)
    ensures EventsOf(a + b, clean) == EventsOf(a, clean) + EventsOf(b, clean)
    decreases |a|
  {
    if |a| > 0 {
      assert (a + b)[0] == a[0];
      assert (a + b)[1..] == a[1..] + b;
      EventsOfAppend(a[1..], b, clean);
    } else {
      assert a + b == b;
    }
  }

  /** The record `r` of the package loop over `pkgs`: it runs the packages
      before the first failure to the end, runs the failing one and stops;
      it ends well exactly when no package fails, and otherwise with the
      first failing package and its error. */
  predicate StopsAtFirstFailure(owner: PackageOwner, pkgs: seq<string>, clean: Cleaner, r: Ran) {
    var k := FirstFailure(pkgs, clean);
    && (r.result == Pass <==> k == |pkgs|)
    && (k == |pkgs| ==> r.events == EventsOf(pkgs, clean))
    && (k < |pkgs| ==>
          && r.events == EventsOf(pkgs[..k + 1], clean)
          && r.result == Fail(PackageFailed(owner, pkgs[k], clean(pkgs[k]).result.error)))
  }

  /** The reference package loop stops at the first failure. */
  lemma {:induction false} RunFromShape(owner: PackageOwner, pkgs: seq<string>, clean: Cleaner)
    ensures StopsAtFirstFailure(owner, pkgs, clean, RunFrom(owner, pkgs, clean))
    decreases |pkgs|
  {
    if |pkgs| > 0 {
      var here := clean(pkgs[0]);
      assert EventsOf(pkgs[..1], clean) == here.events by {
        assert pkgs[..1][1..] == [];
      }
      if here.result.Pass? {
        var k := FirstFailure(pkgs[1..], clean);
        RunFromShape(owner, pkgs[1..], clean);
        if k < |pkgs| - 1 {
          assert pkgs[..k + 2] == pkgs[..1] + pkgs[1..][..k + 1];
          EventsOfAppend(pkgs[..1], pkgs[1..][..k + 1], clean);
        }
      }
    }
  }

  /** Every event of the run concerns `owner` and one of `pkgs`, every
      intent record carries the flag `dryRun`, and with `dryRun` set
      nothing is deleted and no delete fails. */
  predicate RunConforms(events: seq<Event>, owner: PackageOwner, pkgs: seq<string>, dryRun: bool) {
    && (forall i :: 0 <= i < |events| ==> events[i].owner == owner && events[i].pkg in pkgs)
    && IntentsFlagged(events, dryRun)
    && (dryRun ==> DeletedIds(events) == [] && FailedIds(events) == [])
  }

  /** Runs whose packages each conform make a conforming run. */
  lemma {:induction false} EventsOfConform(owner: PackageOwner, pkgs: seq<string>, clean: Cleaner, dryRun: bool)
    requires forall j :: 0 <= j < |pkgs| ==> Conforms(clean(pkgs[j]).events, owner, pkgs[j], dryRun)
    ensures RunConforms(EventsOf(pkgs, clean), owner, pkgs, dryRun)
    decreases |pkgs|
  {
    if |pkgs| > 0 {
      var a := clean(pkgs[0]).events;
      var b := EventsOf(pkgs[1..], clean);
      assert Conforms(a, owner, pkgs[0], dryRun);
      EventsOfConform(owner, pkgs[1..], clean, dryRun);
      ProjectionsAppend(a, b);
      PropertiesAppend(a, b, owner, pkgs[0], dryRun);
      forall i | 0 <= i < |a + b|
        ensures (a + b)[i].owner == owner && (a + b)[i].pkg in pkgs
      {
        if i < |a| {
          assert (a + b)[i] == a[i];
        } else {
          assert (a + b)[i] == b[i - |a|];
          assert b[i - |a|].pkg in pkgs[1..];
        }
      }
    }
  }

  /** The cleanup of every package conforms. */
  lemma CleanersConform(http: Http, owner: PackageOwner, pkgs: seq<string>, dryRun: bool)
    ensures forall j :: 0 <= j < |pkgs|
                        ==> Conforms(Cleaners(http, owner, dryRun)(pkgs[j]).events, owner, pkgs[j], dryRun)
  {
    forall j | 0 <= j < |pkgs|
      ensures Conforms(Cleaners(http, owner, dryRun)(pkgs[j]).events, owner, pkgs[j], dryRun)
    {
      PackageFromConforms(http, owner, pkgs[j], dryRun, Lister(http, owner, pkgs[j]), 1);
    }
  }

  /** A run stays within its owner and packages, and a dry run deletes
      nothing. */
  lemma RunFromConforms(http: Http, owner: PackageOwner, pkgs: seq<string>, dryRun: bool)
    ensures RunConforms(RunFrom(owner, pkgs, Cleaners(http, owner, dryRun)).events, owner, pkgs, dryRun)
  {
    var clean := Cleaners(http, owner, dryRun);
    var k := FirstFailure(pkgs, clean);
    RunFromShape(owner, pkgs, clean);
    if k < |pkgs| {
      var pre := pkgs[..k + 1];
      CleanersConform(http, owner, pre, dryRun);
      EventsOfConform(owner, pre, clean, dryRun);
      var events := EventsOf(pre, clean);
      forall i | 0 <= i < |events| ensures events[i].pkg in pkgs {
        assert events[i].pkg in pre;
      }
    } else {
      CleanersConform(http, owner, pkgs, dryRun);
      EventsOfConform(owner, pkgs, clean, dryRun);
    }
  }

  /** One step of the package loop. */
  lemma RunFromStep(owner: PackageOwner, pkgs: seq<string>, clean: Cleaner, i: nat)
    requires i < |pkgs|
    ensures RunFrom(owner, pkgs[i..], clean)
         == if clean(pkgs[i]).result.Fail?
            then Ran(clean(pkgs[i]).events, Fail(PackageFailed(owner, pkgs[i], clean(pkgs[i]).result.error)))
            else Ran(clean(pkgs[i]).events + RunFrom(owner, pkgs[i + 1..], clean).events,
                     RunFrom(owner, pkgs[i + 1..], clean).result)
  {
    assert pkgs[i..][0] == pkgs[i];
    assert pkgs[i..][1..] == pkgs[i + 1..];
  }

  /** Cleans `packages` in order for `owner`, stopping at the first
      package that fails. */
  method CleanAll(http: Http, owner: PackageOwner, packages: seq<string>, dryRun: bool)
    returns (trace: seq<Event>, result: Outcome<RunError>)
    ensures Ran(trace, result) == RunFrom(owner, packages, Cleaners(http, owner, dryRun))
  {
    ghost var clean := Cleaners(http, owner, dryRun);
    trace := [];
    for i := 0 to |packages|
      invariant RunFrom(owner, packages, clean)
             == Ran(trace + RunFrom(owner, packages[i..], clean).events,
                    RunFrom(owner, packages[i..], clean).result)
    {
      // The page loop of `CleanPackage`, without the facts about its shape
      // that this loop does not need.
      var events, outcome := PageLoop(http, owner, packages[i], dryRun);
      assert Cleaned(events, outcome) == clean(packages[i]);
      RunFromStep(owner, packages, clean, i);
      ghost var before := trace;
      trace := trace + events;
      if outcome.Fail? {
        return trace, Fail(PackageFailed(owner, packages[i], outcome.error));
      }
      Text.Assoc(before, events, RunFrom(owner, packages[i + 1..], clean).events);
    }
    assert packages[|packages|..] == [];
    assert trace + [] == trace;
    return trace, Pass;
  }

  /** Runs the cleanup. `credentials` says whether the token could be read
      and the client built; without them the run fails before any call. */
  method Run(http: Http, user: Option<string>, org: Option<string>, credentials: bool,
             packages: seq<string>, dryRun: bool)
    returns (trace: seq<Event>, result: Outcome<RunError>)
    ensures user.None? && org.None? ==> trace == [] && result == Fail(NoOwner)
    ensures (user.Some? || org.Some?) && !credentials ==> trace == [] && result == Fail(NoCredentials)
    ensures (user.Some? || org.Some?) && credentials ==>
      var owner := Owner.Parse(user, org);
      StopsAtFirstFailure(owner, packages, Cleaners(http, owner, dryRun), Ran(trace, result))
    ensures user.Some? || org.Some? ==> RunConforms(trace, Owner.Parse(user, org), packages, dryRun)
  {
    if user.None? && org.None? {
      return [], Fail(NoOwner);
    }
    if !credentials {
      return [], Fail(NoCredentials);
    }
    var owner := Owner.Parse(user, org);
    trace, result := CleanAll(http, owner, packages, dryRun);
    RunFromShape(owner, packages, Cleaners(http, owner, dryRun));
    RunFromConforms(http, owner, packages, dryRun);
  }
}
