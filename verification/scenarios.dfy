/** The cases the program's own unit tests walk through for the page
    cleanup, stated for every transport: the delete calls a page leads to
    depend only on the page, the owner and the dry-run flag. */
module Scenarios {
  import opened Api
  import opened Owner
  import opened Client
  import opened Trace
  import opened Cleanup

  const Package: string := "my-package"

  function Version(id: U64, name: string, tags: seq<string>): PackageVersion {
    PackageVersion(id, name, PackageVersionMetadata("container", ContainerVersionMetadata(tags)))
  }

  function Tagged1(): PackageVersion { Version(1, "sha256:foobar1", ["some-tag"]) }
  function Untagged2(): PackageVersion { Version(2, "sha256:foobar2", []) }
  function Untagged3(): PackageVersion { Version(3, "sha256:foobar3", []) }

  /** An empty page, and a page whose only version is tagged, make no call
      and log nothing, in a real run and in a dry run. */
  lemma OnlyTaggedScenario(http: Http, dryRun: bool)
    ensures PageTrace(http, User("user"), Package, [], dryRun) == []
    ensures PageTrace(http, User("user"), Package, [Tagged1()], dryRun) == []
  {
    AllTaggedNoEffect(http, User("user"), Package, [Tagged1()], dryRun);
  }

  /** A page of a tagged and an untagged version: the real run deletes
      version "2" of the user's package and nothing else; the dry run logs
      the same intent and deletes nothing. */
  lemma OneUntaggedScenario(http: Http, dryRun: bool)
    ensures var t := PageTrace(http, User("user"), Package, [Tagged1(), Untagged2()], dryRun);
      && DeletedIds(t) == (if dryRun then [] else ["2"])
      && IntentNames(t) == ["sha256:foobar2"]
      && Scoped(t, User("user"), Package)
  {
    var versions := [Tagged1(), Untagged2()];
    PageEffects(http, User("user"), Package, versions, dryRun);
    assert Untagged(versions) == [Untagged2()] by {
      assert versions[1..] == [Untagged2()];
      assert versions[1..][1..] == [];
    }
    assert IdText(Untagged2()) == "2";
  }

  /** A page of one tagged and two untagged versions of an organization's
      package: the real run deletes "2" then "3"; the dry run deletes
      nothing. */
  lemma TwoUntaggedScenario(http: Http, dryRun: bool)
    ensures var t := PageTrace(http, Organizaion("org"), Package, [Tagged1(), Untagged2(), Untagged3()], dryRun);
      && DeletedIds(t) == (if dryRun then [] else ["2", "3"])
      && IntentNames(t) == ["sha256:foobar2", "sha256:foobar3"]
      && Scoped(t, Organizaion("org"), Package)
  {
    var versions := [Tagged1(), Untagged2(), Untagged3()];
    PageEffects(http, Organizaion("org"), Package, versions, dryRun);
    assert Untagged(versions) == [Untagged2(), Untagged3()] by {
      assert versions[1..] == [Untagged2(), Untagged3()];
      assert versions[1..][1..] == [Untagged3()];
      assert versions[1..][1..][1..] == [];
    }
    assert IdText(Untagged2()) == "2";
    assert IdText(Untagged3()) == "3";
  }
}
