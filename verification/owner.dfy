/** The account that owns a package: a user or an organization. The second
    constructor keeps the spelling the program uses. */
module Owner {
  import opened Wrappers

  datatype PackageOwner = User(name: string) | Organizaion(name: string)

  /** Builds the owner from the `--user` and `--org` options. A user name
      wins whatever the organization is; with neither present the program
      panics, so callers must supply one. */
  function Parse(user: Option<string>, org: Option<string>): (owner: PackageOwner)
    requires user.Some? || org.Some?
    ensures owner.User? <==> user.Some?
    ensures user.Some? ==> owner.name == user.value
    ensures user.None? ==> owner.name == org.value
  {
    if user.Some? then User(user.value)
    else Organizaion(org.value)
  }

  /** The option values that name `owner`: exactly one of the two is
      present, and parsing them gives `owner` back. */
  function Flags(owner: PackageOwner): (flags: (Option<string>, Option<string>))
    ensures flags.0.Some? != flags.1.Some?
    ensures Parse(flags.0, flags.1) == owner
  {
    match owner
    case User(n) => (Some(n), None)
    case Organizaion(n) => (None, Some(n))
  }

  /** The first path segment of the owner's API paths. */
  function Kind(owner: PackageOwner): string {
    if owner.User? then "users" else "orgs"
  }

  /** The display form: the bare name, with nothing saying which kind of
      account it is. */
  function Display(owner: PackageOwner): (text: string)
    ensures text == owner.name
  {
    match owner
    case User(user) => user
    case Organizaion(org) => org
  }

  /** The API path of the owner: `users/<name>` or `orgs/<name>`. */
  function BaseUrl(owner: PackageOwner): (path: string)
    ensures path == Kind(owner) + "/" + Display(owner)
  {
    match owner
    case User(user) => "users/" + user
    case Organizaion(org) => "orgs/" + org
  }

  /** Reads a kind segment and a name back into an owner. */
  function OwnerOf(kind: string, name: string): (owner: Option<PackageOwner>)
  {
    if kind == "users" then Some(User(name))
    else if kind == "orgs" then Some(Organizaion(name))
    else None
  }

  lemma OwnerOfKind(owner: PackageOwner)
    ensures OwnerOf(Kind(owner), owner.name) == Some(owner)
  {
  }

  /** The API path determines the owner, kind included. */
  lemma BaseUrlInjective(a: PackageOwner, b: PackageOwner)
    ensures BaseUrl(a) == BaseUrl(b) ==> a == b
  {
    if BaseUrl(a) == BaseUrl(b) {
      assert BaseUrl(a)[0] == BaseUrl(b)[0];
      assert a.User? == b.User?;
      var k := |Kind(a)| + 1;
      assert BaseUrl(a)[k..] == a.name;
      assert BaseUrl(b)[k..] == b.name;
    }
  }

  /** The display form cannot tell a user from an organization of the same
      name, while the API path can. */
  lemma DisplayForgetsKind(n: string)
    ensures Display(User(n)) == Display(Organizaion(n))
    ensures BaseUrl(User(n)) != BaseUrl(Organizaion(n))
  {
    assert BaseUrl(User(n))[0] != BaseUrl(Organizaion(n))[0];
  }
}
