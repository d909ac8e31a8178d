/**
 * Seeds: the v1 API provider built from a URL, and the applier that sends every `.sql` file
 * of a directory, in listing order, as one bulk of `run_sql` operations.
 */
module Seed {
  import opened Wrappers
  import opened Wire
  import opened UrlParams

  // ---------------------------------------------------------------------------------------
  // The v1 API provider

  /** A parsed URL shared by reference: the provider keeps, and changes, the caller's own value. */
  class UrlVar {
    var url: Url

    constructor (u: Url)
      ensures url == u
    {
      url := u;
    }
  }

  class HasuraV1APIProvider {
    var v1URL: UrlVar?
    var headers: map<string, string>

    constructor ()
      ensures v1URL == null && headers == map[]
    {
      v1URL := null;
      headers := map[];
    }
  }

  const V1QueryPath: string := "v1/query"

  /** `NewHasuraV1APIProvider` for the outcome of parsing its URL. A URL that did not parse
      gives no provider and no error. Otherwise the provider points at the parsed URL itself,
      whose scheme and path are rewritten in place. */
  method NewHasuraV1APIProvider(parsed: Option<UrlVar>) returns (provider: Option<HasuraV1APIProvider>, err: Option<string>)
    modifies if parsed.Some? then {parsed.value} else {}
    ensures err.None?
    ensures parsed.None? ==> provider.None?
    ensures parsed.Some? ==>
      && provider.Some? && fresh(provider.value)
      && provider.value.v1URL == parsed.value
      && parsed.value.url == Endpoint(old(parsed.value.url), V1QueryPath)
      && provider.value.headers ==
           (if "headers" in old(parsed.value.url).query then HeadersOf(old(parsed.value.url).query["headers"]) else map[])
  {
    if parsed.None? {
      return None, None;
    }
    var p := new HasuraV1APIProvider();
    var u := parsed.value;
    p.v1URL := u;
    var params := u.url.query;
    var headers := ParseHeaders(params);
    p.headers := headers;
    var scheme := Scheme(params);
    var base := u.url.path;
    u.url := u.url.(scheme := scheme);
    u.url := u.url.(path := PathJoin(base, V1QueryPath));
    return Some(p), None;
  }

  // ---------------------------------------------------------------------------------------
  // Applying seeds

  /** `filepath.Ext`: the suffix from the last '.' of the last path element, or "" without one. */
  function Ext(path: string): (e: string)
    ensures e != [] ==> e[0] == '.' && |e| <= |path| && path[|path| - |e|..] == e
    decreases |path|
  {
    if path == [] || path[|path| - 1] == '/' then ""
    else if path[|path| - 1] == '.' then "."
    else
      var e := Ext(path[..|path| - 1]);
      if e == "" then "" else e + [path[|path| - 1]]
  }

  /** A directory entry: its name, and its contents or `None` when reading it fails. */
  datatype DirEntry = DirEntry(name: string, contents: Option<string>)

  datatype SeedError =
    | Fatal                      // the directory cannot be listed: `log.Fatal` ends the process
    | ReadFailed(name: string)   // a `.sql` file cannot be read; nothing is sent
    | SendFailed(reason: string)
    | NotOk(status: int)

  predicate IsSql(e: DirEntry)
  {
    Ext(e.name) == ".sql"
  }

  /** The bulk built from a listing: one `run_sql` per `.sql` entry, holding its contents, in
      listing order; or the first `.sql` entry that cannot be read. */
  function SeedOps(entries: seq<DirEntry>): (r: Result<seq<Op>, string>)
    ensures r.Success? ==> |r.value| == |SqlEntries(entries)| <= |entries|
    ensures r.Success? ==> forall e :: e in entries && IsSql(e) ==> e.contents.Some?
    decreases |entries|
  {
    if entries == [] then Success([])
    else
      var last := entries[|entries| - 1];
      assert entries == entries[..|entries| - 1] + [last];
      match SeedOps(entries[..|entries| - 1])
      case Failure(n) => Failure(n)
      case Success(ops) =>
        if !IsSql(last) then Success(ops)
        else if last.contents.None? then Failure(last.name)
        else Success(ops + [Sql(Verbatim(last.contents.value))])
  }

  /** The `.sql` entries of a listing, in order. */
  function SqlEntries(entries: seq<DirEntry>): (r: seq<DirEntry>)
    ensures forall e :: e in r ==> e in entries && IsSql(e)
    ensures |r| <= |entries|
    decreases |entries|
  {
    if entries == [] then []
    else
      var rest := SqlEntries(entries[..|entries| - 1]);
      if IsSql(entries[|entries| - 1]) then rest + [entries[|entries| - 1]] else rest
  }

  /** `ApplySeedsToDatabase`: the bulk is sent once, even when empty; anything but a 200 reply is
      an error, and the reply's body is not read. */
  method ApplySeedsToDatabase(listing: Option<seq<DirEntry>>, provider: Transport) returns (err: Option<SeedError>)
    modifies provider
    ensures listing.None? ==> err == Some(Fatal) && provider.sent == old(provider.sent) && provider.replies == old(provider.replies)
    ensures listing.Some? && SeedOps(listing.value).Failure? ==>
      err == Some(ReadFailed(SeedOps(listing.value).error))
      && provider.sent == old(provider.sent) && provider.replies == old(provider.replies)
    ensures listing.Some? && SeedOps(listing.value).Success? ==>
      && provider.sent == old(provider.sent) + [Bulk("bulk", SeedOps(listing.value).value)]
      && provider.replies == RestReplies(old(provider.replies))
      && err == SeedOutcome(NextReply(old(provider.replies)))
  {
    if listing.None? {
      return Some(Fatal);
    }
    var files := listing.value;
    var ops: seq<Op> := [];
    var i := 0;
    while i < |files|
      invariant 0 <= i <= |files|
      invariant SeedOps(files[..i]) == Success(ops)
    {
      assert files[..i + 1][..i] == files[..i];
      var file := files[i];
      if Ext(file.name) == ".sql" {
        if file.contents.None? {
          SeedOpsFailureSticks(files, i + 1);
          return Some(ReadFailed(file.name));
        }
        ops := ops + [Sql(Verbatim(file.contents.value))];
      }
      i := i + 1;
    }
    assert files[..|files|] == files;
    var reply := provider.Send(Bulk("bulk", ops));
    err := SeedOutcome(reply);
  }

  function SeedOutcome(reply: Reply): (e: Option<SeedError>)
    ensures e.None? <==> reply.Http? && reply.status == StatusOK
  {
    match reply
    case NoResponse(m) => Some(SendFailed(m))
    case Http(s, _) => if s != StatusOK then Some(NotOk(s)) else None
  }

  // ---------------------------------------------------------------------------------------
  // Properties

  /** Once a prefix of the listing fails to read, the whole listing fails with that entry. */
  lemma {:induction false} SeedOpsFailureSticks(entries: seq<DirEntry>, k: nat)
    requires k <= |entries| && SeedOps(entries[..k]).Failure?
    ensures SeedOps(entries) == SeedOps(entries[..k])
    decreases |entries| - k
  {
    if k < |entries| {
      var n := |entries| - 1;
      assert entries[..n][..k] == entries[..k];
      SeedOpsFailureSticks(entries[..n], k);
    } else {
      assert entries[..k] == entries;
    }
  }

  /** The bulk holds exactly the contents of the `.sql` entries, one operation each, in order. */
  lemma {:induction false} SeedOpsAreSqlContents(entries: seq<DirEntry>)
    requires SeedOps(entries).Success?
    ensures var ops := SeedOps(entries).value; var files := SqlEntries(entries);
      && |ops| == |files|
      && forall i :: 0 <= i < |files| ==> files[i].contents.Some? && ops[i] == Sql(Verbatim(files[i].contents.value))
    decreases |entries|
  {
    if entries != [] {
      var init := entries[..|entries| - 1];
      var last := entries[|entries| - 1];
      SeedOpsAreSqlContents(init);
      var ops0 := SeedOps(init).value;
      var files0 := SqlEntries(init);
      if IsSql(last) {
        assert SeedOps(entries).value == ops0 + [Sql(Verbatim(last.contents.value))];
        assert SqlEntries(entries) == files0 + [last];
      } else {
        assert SeedOps(entries).value == ops0 && SqlEntries(entries) == files0;
      }
    }
  }

  predicate Unreadable(e: DirEntry)
  {
    IsSql(e) && e.contents.None?
  }

  /** Reading fails exactly when some `.sql` entry cannot be read; other entries are never read. */
  lemma {:induction false} SeedOpsFailsIff(entries: seq<DirEntry>)
    ensures SeedOps(entries).Failure? <==> exists i :: 0 <= i < |entries| && Unreadable(entries[i])
    decreases |entries|
  {
    if entries != [] {
      var n := |entries| - 1;
      var init := entries[..n];
      SeedOpsFailsIff(init);
      assert forall i :: 0 <= i < n ==> init[i] == entries[i];
      if SeedOps(entries).Failure? && SeedOps(init).Failure? {
        var i :| 0 <= i < n && Unreadable(init[i]);
        assert Unreadable(entries[i]);
      }
    }
  }

  /** One more character on a name: a '.' starts a new extension, any other character but '/'
      extends the one there is. */
  lemma ExtSnoc(p: string, c: char)
    ensures c == '.' ==> Ext(p + [c]) == "."
    ensures c != '.' && c != '/' ==> Ext(p + [c]) == (if Ext(p) == "" then "" else Ext(p) + [c])
  {
    assert (p + [c])[..|p|] == p;
  }

  /** An entry counts as SQL exactly when its name ends in ".sql". */
  lemma {:induction false} ExtIsSqlIff(name: string)
    ensures Ext(name) == ".sql" <==> |name| >= 4 && name[|name| - 4..] == ".sql"
  {
    if |name| >= 4 && name[|name| - 4..] == ".sql" {
      var a := name[..|name| - 4] + ['.'];
      var b := a + ['s'];
      var c := b + ['q'];
      assert c + ['l'] == name;
      ExtSnoc(name[..|name| - 4], '.');
      ExtSnoc(a, 's');
      ExtSnoc(b, 'q');
      ExtSnoc(c, 'l');
    }
  }
}
