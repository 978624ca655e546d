/** The registry client: the two request URLs it builds, the three-way
    reading of a list reply's status, and the delete call that succeeds
    whenever its request goes out. The HTTP transport is an oracle: an
    `Http` value answers each URL with what the network would deliver. */
module Client {
  import opened Wrappers
  import opened Text
  import Decimal
  import opened Api
  import opened Owner

  const ApiRoot := "https://api.github.com/"

  /** The query-string head of the last list-URL segment. */
  const PageQuery := "versions?page="

  /** The list URL of one page; without a page number it asks for page 1. */
  function ListUrl(owner: PackageOwner, pkg: string, page: Option<U32>): string
  {
    ApiRoot + BaseUrl(owner) + "/packages/container/" + pkg
      + "/versions?page=" + Decimal.Show(page.GetOr(1))
  }

  /** The delete URL of one version. */
  function DeleteUrl(owner: PackageOwner, pkg: string, versionId: string): string
  {
    ApiRoot + BaseUrl(owner) + "/packages/container/" + pkg + "/versions/" + versionId
  }

  /** What a request URL asks the registry for. */
  datatype Request =
    | ListVersions(owner: PackageOwner, pkg: string, page: nat)
    | DeleteVersion(owner: PackageOwner, pkg: string, versionId: string)

  /** Reads a request URL back into the request it stands for. */
  function ParseRequestUrl(url: string): Option<Request>
  {
    if !HasPrefix(url, ApiRoot) then None
    else RequestOf(Split(url[|ApiRoot|..], '/'))
  }

  /** The request named by the '/'-separated segments of a URL path. */
  function RequestOf(segs: seq<string>): Option<Request>
  {
    if |segs| == 6 && segs[2] == "packages" && segs[3] == "container"
       && HasPrefix(segs[5], PageQuery)
    then
      match (OwnerOf(segs[0], segs[1]), Decimal.Parse(segs[5][|PageQuery|..]))
      case (Some(owner), Some(page)) => Some(ListVersions(owner, segs[4], page))
      case _ => None
    else if |segs| == 7 && segs[2] == "packages" && segs[3] == "container"
            && segs[5] == "versions"
    then
      match OwnerOf(segs[0], segs[1])
      case Some(owner) => Some(DeleteVersion(owner, segs[4], segs[6]))
      case None => None
    else None
  }

  lemma JoinCons(head: string, tail: seq<string>, sep: char)
    requires |tail| >= 1
    ensures Join([head] + tail, sep) == head + [sep] + Join(tail, sep)
  {
    assert ([head] + tail)[1..] == tail;
  }

  lemma NoSlashInDigits(s: string)
    requires Decimal.AllDigits(s)
    ensures '/' !in s
  {
  }

  /** A five-element display followed by more elements, as nested conses. */
  lemma ConsFive<T>(a: T, b: T, c: T, d: T, e: T, last: seq<T>)
    ensures [a, b, c, d, e] + last == [a] + ([b] + ([c] + ([d] + ([e] + last))))
  {
  }

  /** The fixed pieces of the URL format strings, as the segment-by-segment
      reading groups them. */
  lemma PathLiterals()
    ensures "packages" + "/" + ("container" + "/") == "packages/container/"
    ensures "/" + "packages/container/" == "/packages/container/"
    ensures "/" + PageQuery == "/versions?page="
  {
  }

  /** The path of a request URL, segment by segment. */
  lemma PathSegments(owner: PackageOwner, pkg: string, last: seq<string>)
    requires |last| >= 1
    ensures Join([Kind(owner), owner.name, "packages", "container", pkg] + last, '/')
         == BaseUrl(owner) + "/packages/container/" + pkg + "/" + Join(last, '/')
  {
    var mid := "/packages/container/";
    var rest := pkg + "/" + Join(last, '/');
    assert Join([Kind(owner), owner.name, "packages", "container", pkg] + last, '/')
        == Kind(owner) + "/" + (owner.name + "/" + ("packages" + "/" + ("container" + "/" + rest))) by {
      var t4 := [pkg] + last;
      var t3 := ["container"] + t4;
      var t2 := ["packages"] + t3;
      var t1 := [owner.name] + t2;
      ConsFive(Kind(owner), owner.name, "packages", "container", pkg, last);
      JoinCons(pkg, last, '/');
      JoinCons("container", t4, '/');
      JoinCons("packages", t3, '/');
      JoinCons(owner.name, t2, '/');
      JoinCons(Kind(owner), t1, '/');
    }
    calc {
      Kind(owner) + "/" + (owner.name + "/" + ("packages" + "/" + ("container" + "/" + rest)));
    ==  { assert "packages" + "/" + ("container" + "/" + rest) == "packages/container/" + rest by {
            Assoc("packages" + "/", "container" + "/", rest);
            PathLiterals();
          }
        }
      Kind(owner) + "/" + (owner.name + "/" + ("packages/container/" + rest));
    ==  { Assoc(owner.name + "/", "packages/container/", rest);
          Assoc(owner.name, "/", "packages/container/");
          PathLiterals();
        }
      Kind(owner) + "/" + (owner.name + mid + rest);
    ==  { Assoc(Kind(owner) + "/", owner.name + mid, rest);
          Assoc(Kind(owner) + "/", owner.name, mid);
        }
      BaseUrl(owner) + mid + rest;
    ==  { Assoc(BaseUrl(owner) + mid, pkg + "/", Join(last, '/'));
          Assoc(BaseUrl(owner) + mid, pkg, "/");
        }
      BaseUrl(owner) + mid + pkg + "/" + Join(last, '/');
    }
  }

  /** The path segments of a list URL. */
  function ListSegments(owner: PackageOwner, pkg: string, page: nat): seq<string>
  {
    [Kind(owner), owner.name, "packages", "container", pkg] + [PageQuery + Decimal.Show(page)]
  }

  lemma ListSegmentsSlashFree(owner: PackageOwner, pkg: string, page: nat)
    requires '/' !in owner.name && '/' !in pkg
    ensures forall i :: 0 <= i < 6 ==> '/' !in ListSegments(owner, pkg, page)[i]
  {
    var digits := Decimal.Show(page);
    var last := PageQuery + digits;
    NoSlashInDigits(digits);
    forall i | 0 <= i < |last| ensures last[i] != '/' {
      if i >= |PageQuery| {
        assert last[i] == digits[i - |PageQuery|];
      }
    }
  }

  lemma ListUrlPath(owner: PackageOwner, pkg: string, page: Option<U32>)
    ensures ListUrl(owner, pkg, page) == ApiRoot + Join(ListSegments(owner, pkg, page.GetOr(1)), '/')
  {
    var base := BaseUrl(owner);
    var digits := Decimal.Show(page.GetOr(1));
    assert Join(ListSegments(owner, pkg, page.GetOr(1)), '/')
        == base + "/packages/container/" + pkg + "/" + (PageQuery + digits) by {
      PathSegments(owner, pkg, [PageQuery + digits]);
    }
    assert ListUrl(owner, pkg, page)
        == ApiRoot + base + "/packages/container/" + pkg + ("/" + PageQuery) + digits by {
      PathLiterals();
    }
    UrlShape(base, pkg, PageQuery, digits);
  }

  lemma ParseListSegments(url: string, owner: PackageOwner, pkg: string, page: nat)
    requires '/' !in owner.name && '/' !in pkg
    requires url == ApiRoot + Join(ListSegments(owner, pkg, page), '/')
    ensures ParseRequestUrl(url) == Some(ListVersions(owner, pkg, page))
  {
    var segs := ListSegments(owner, pkg, page);
    assert |segs| == 6 && segs[2] == "packages" && segs[3] == "container" && segs[4] == pkg;
    assert HasPrefix(segs[5], PageQuery) && Decimal.Parse(segs[5][|PageQuery|..]) == Some(page) by {
      assert segs[5][|PageQuery|..] == Decimal.Show(page);
      Decimal.ParseShow(page);
    }
    assert OwnerOf(segs[0], segs[1]) == Some(owner) by {
      OwnerOfKind(owner);
    }
    assert RequestOf(segs) == Some(ListVersions(owner, pkg, page));
    assert HasPrefix(url, ApiRoot) && Split(url[|ApiRoot|..], '/') == segs by {
      ListSegmentsSlashFree(owner, pkg, page);
      ReadSegments(url, segs);
    }
  }

  /** A list URL names its owner, package and page unambiguously, as long
      as the owner and package names contain no '/'; a missing page reads
      back as page 1. */
  lemma ListUrlRoundTrip(owner: PackageOwner, pkg: string, page: Option<U32>)
    requires '/' !in owner.name && '/' !in pkg
    ensures ParseRequestUrl(ListUrl(owner, pkg, page))
         == Some(ListVersions(owner, pkg, page.GetOr(1)))
  {
    ListUrlPath(owner, pkg, page);
    ParseListSegments(ListUrl(owner, pkg, page), owner, pkg, page.GetOr(1));
  }

  /** The format string of a request URL, regrouped as root plus path. */
  lemma UrlShape(base: string, pkg: string, head: string, tail: string)
    ensures ApiRoot + base + "/packages/container/" + pkg + ("/" + head) + tail
         == ApiRoot + (base + "/packages/container/" + pkg + "/" + (head + tail))
  {
  }

  /** Once the prefix is stripped, the path splits back into `segs`. */
  lemma ReadSegments(url: string, segs: seq<string>)
    requires |segs| >= 1
    requires forall i :: 0 <= i < |segs| ==> '/' !in segs[i]
    requires url == ApiRoot + Join(segs, '/')
    ensures HasPrefix(url, ApiRoot)
    ensures Split(url[|ApiRoot|..], '/') == segs
  {
    assert url[|ApiRoot|..] == Join(segs, '/');
    SplitJoin(segs, '/');
  }

  /** The path segments of a delete URL. */
  function DeleteSegments(owner: PackageOwner, pkg: string, versionId: string): seq<string>
  {
    [Kind(owner), owner.name, "packages", "container", pkg] + ["versions", versionId]
  }

  lemma DeleteUrlPath(owner: PackageOwner, pkg: string, versionId: string)
    ensures DeleteUrl(owner, pkg, versionId) == ApiRoot + Join(DeleteSegments(owner, pkg, versionId), '/')
  {
    var last := ["versions", versionId];
    var tail := "/" + versionId;
    var base := BaseUrl(owner);
    assert Join(DeleteSegments(owner, pkg, versionId), '/')
        == base + "/packages/container/" + pkg + "/" + ("versions" + tail) by {
      assert Join(last, '/') == "versions" + tail by {
        assert last == ["versions"] + [versionId];
        JoinCons("versions", [versionId], '/');
      }
      PathSegments(owner, pkg, last);
    }
    assert DeleteUrl(owner, pkg, versionId)
        == ApiRoot + base + "/packages/container/" + pkg + ("/" + "versions") + tail by {
      Assoc(ApiRoot + base + "/packages/container/" + pkg + "/", "versions", tail);
      Assoc(ApiRoot + base + "/packages/container/" + pkg, "/", "versions");
    }
    UrlShape(base, pkg, "versions", tail);
  }

  lemma DeleteSegmentsSlashFree(owner: PackageOwner, pkg: string, versionId: string)
    requires '/' !in owner.name && '/' !in pkg && '/' !in versionId
    ensures forall i :: 0 <= i < 7 ==> '/' !in DeleteSegments(owner, pkg, versionId)[i]
  {
  }

  lemma ParseDeleteSegments(url: string, owner: PackageOwner, pkg: string, versionId: string)
    requires '/' !in owner.name && '/' !in pkg && '/' !in versionId
    requires url == ApiRoot + Join(DeleteSegments(owner, pkg, versionId), '/')
    ensures ParseRequestUrl(url) == Some(DeleteVersion(owner, pkg, versionId))
  {
    var segs := DeleteSegments(owner, pkg, versionId);
    assert |segs| == 7 && segs[2] == "packages" && segs[3] == "container" && segs[5] == "versions";
    assert OwnerOf(segs[0], segs[1]) == Some(owner) by {
      OwnerOfKind(owner);
    }
    assert RequestOf(segs) == Some(DeleteVersion(owner, pkg, versionId));
    assert HasPrefix(url, ApiRoot) && Split(url[|ApiRoot|..], '/') == segs by {
      DeleteSegmentsSlashFree(owner, pkg, versionId);
      ReadSegments(url, segs);
    }
  }

  /** A delete URL names its owner, package and version id unambiguously,
      as long as none of them contains a '/'. */
  lemma DeleteUrlRoundTrip(owner: PackageOwner, pkg: string, versionId: string)
    requires '/' !in owner.name && '/' !in pkg && '/' !in versionId
    ensures ParseRequestUrl(DeleteUrl(owner, pkg, versionId))
         == Some(DeleteVersion(owner, pkg, versionId))
  {
    DeleteUrlPath(owner, pkg, versionId);
    ParseDeleteSegments(DeleteUrl(owner, pkg, versionId), owner, pkg, versionId);
  }

  /** Names go into the URL unescaped, so without the no-'/' condition of
      the round trips two different list requests share one URL: moving
      `"/packages/container/" + x` from the end of the owner name to the
      front of the package name leaves the URL as it was. */
  lemma SlashInNameIsAmbiguous(owner: PackageOwner, x: string, pkg: string, page: Option<U32>)
    ensures var moved := owner.(name := owner.name + "/packages/container/" + x);
      && moved != owner
      && ListUrl(moved, pkg, page) == ListUrl(owner, x + "/packages/container/" + pkg, page)
  {
    var mid := "/packages/container/";
    var moved := owner.(name := owner.name + mid + x);
    var base := BaseUrl(owner);
    assert |moved.name| > |owner.name|;
    assert BaseUrl(moved) == base + mid + x by {
      var k := Kind(owner) + "/";
      Assoc(k, owner.name + mid, x);
      Assoc(k, owner.name, mid);
    }
    Regroup(ApiRoot, base, mid, x, pkg);
  }

  /** Moving `b` across the separator `mid`, in a URL rooted at `root`. */
  lemma Regroup(root: string, a: string, mid: string, b: string, c: string)
    ensures root + (a + mid + b) + mid + c == root + a + mid + (b + mid + c)
  {
    Assoc(root, a + mid, b);
    Assoc(root, a, mid);
    var p := root + a + mid;
    Assoc(p, b + mid, c);
    Assoc(p, b, mid);
  }

  /** What the transport delivers for one request: nothing (the request
      could not be sent), or a status with a body that either decodes to a
      list of versions or does not. */
  datatype Response =
    | SendFailed
    | Received(status: nat, body: Option<seq<PackageVersion>>)

  /** The transport, as an oracle answering GET and DELETE requests. It is
      a fixed function of the URL: the registry keeps no state here, so a
      delete never changes what a later list call returns. */
  datatype Http = Http(get: string -> Response, delete: string -> Response)

  datatype ListError =
    | SendError
    | NotFound(owner: PackageOwner, pkg: string)
    | BadStatus(status: nat)
    | DecodeError

  datatype DeleteError = DeleteSendError

  /** The 2xx statuses. */
  predicate IsSuccess(status: nat) {
    200 <= status <= 299
  }

  /** Lists one page of versions. A 404 means the package does not exist,
      any other non-2xx status is a generic error, and only a 2xx reply is
      decoded. */
  function GetPackageVersion(http: Http, owner: PackageOwner, pkg: string, page: Option<U32>)
    : (r: Result<seq<PackageVersion>, ListError>)
    ensures var reply := http.get(ListUrl(owner, pkg, page));
      && (r == Failure(SendError) <==> reply.SendFailed?)
      && (r == Failure(NotFound(owner, pkg)) <==> reply.Received? && reply.status == 404)
      && (r.Failure? && r.error.BadStatus?
          <==> reply.Received? && reply.status != 404 && !IsSuccess(reply.status))
      && (r.Failure? && r.error.BadStatus? ==> r.error.status == reply.status)
      && (r == Failure(DecodeError)
          <==> reply.Received? && IsSuccess(reply.status) && reply.body.None?)
      && (r.Success? <==> reply.Received? && IsSuccess(reply.status) && reply.body.Some?)
      && (r.Success? ==> r.value == reply.body.value)
  {
    match http.get(ListUrl(owner, pkg, page))
    case SendFailed => Failure(SendError)
    case Received(status, body) =>
      if status == 404 then Failure(NotFound(owner, pkg))
      else if !IsSuccess(status) then Failure(BadStatus(status))
      else
        match body
        case None => Failure(DecodeError)
        case Some(versions) => Success(versions)
  }

  /** Deletes one version. The registry answers 204 even for an unknown id,
      so the call succeeds whenever the request goes out, whatever status
      comes back. */
  function DeletePackageVersion(http: Http, owner: PackageOwner, pkg: string, versionId: string)
    : (r: Outcome<DeleteError>)
    ensures r == Pass <==> http.delete(DeleteUrl(owner, pkg, versionId)).Received?
    ensures r != Pass ==> r == Fail(DeleteSendError)
  {
    match http.delete(DeleteUrl(owner, pkg, versionId))
    case SendFailed => Fail(DeleteSendError)
    case Received(_, _) => Pass
  }
}
