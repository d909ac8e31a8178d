/**
 * What the driver, the v1 client and the seed provider derive from a connection URL:
 * headers from the repeated `headers` query parameter, the scheme from `sslmode`,
 * and endpoint paths joined onto the URL's path.
 */
module UrlParams {
  import opened Wrappers

  /** A parsed URL, as `url.Parse` leaves it: the query already split into `url.Values`. */
  datatype Url = Url(scheme: string, host: string, path: string, query: map<string, seq<string>>)

  /** `url.Values.Get`: the first value of a key, or "" when there is none. */
  function Get(params: map<string, seq<string>>, key: string): (v: string)
    ensures key !in params || params[key] == [] ==> v == ""
    ensures key in params && params[key] != [] ==> v == params[key][0]
  {
    if key in params && params[key] != [] then params[key][0] else ""
  }

  /** Position of the first ':' in s, if any. */
  function FirstColon(s: string): (r: Option<nat>)
    ensures r.Some? ==> r.value < |s| && s[r.value] == ':' && ':' !in s[..r.value]
    ensures r.None? ==> ':' !in s
    decreases |s|
  {
    if s == [] then None
    else if s[0] == ':' then Some(0)
    else match FirstColon(s[1..])
      case Some(k) =>
        assert s[..k + 1] == [s[0]] + s[1..][..k];
        Some(k + 1)
      case None => None
  }

  /** `strings.SplitN(s, ":", 2)`: one part when s has no ':', else the text before the first ':' and the rest. */
  function SplitFirstColon(s: string): (parts: seq<string>)
    ensures 1 <= |parts| <= 2
    ensures |parts| == 1 <==> ':' !in s
    ensures |parts| == 1 ==> parts[0] == s
    ensures |parts| == 2 ==> s == parts[0] + ":" + parts[1] && ':' !in parts[0]
  {
    match FirstColon(s)
    case None => [s]
    case Some(k) =>
      assert s == s[..k] + ":" + s[k + 1..];
      [s[..k], s[k + 1..]]
  }

  /** The header one query value contributes: its name and value, when it splits in two with a non-empty value. */
  function HeaderOf(h: string): (r: Option<(string, string)>)
    ensures r.Some? <==> ':' in h && SplitFirstColon(h)[1] != ""
    ensures r.Some? ==> h == r.value.0 + ":" + r.value.1 && ':' !in r.value.0 && r.value.1 != ""
  {
    var parts := SplitFirstColon(h);
    if |parts| == 2 && parts[1] != "" then Some((parts[0], parts[1])) else None
  }

  /** Headers after the first n query values have been processed, a later name overwriting an earlier one. */
  function HeadersOf(values: seq<string>): (r: map<string, string>)
    ensures forall k :: k in r ==> ':' !in k && r[k] != ""
    ensures values == [] ==> r == map[]
    decreases |values|
  {
    if values == [] then map[]
    else
      var before := HeadersOf(values[..|values| - 1]);
      var h := HeaderOf(values[|values| - 1]);
      if h.Some? then before[h.value.0 := h.value.1] else before
  }

  /** The loop over the `headers` query values that fills the header map. */
  method ParseHeaders(params: map<string, seq<string>>) returns (headers: map<string, string>)
    ensures "headers" !in params ==> headers == map[]
    ensures "headers" in params ==> headers == HeadersOf(params["headers"])
  {
    headers := map[];
    if "headers" in params {
      var queryHeaders := params["headers"];
      var i := 0;
      while i < |queryHeaders|
        invariant 0 <= i <= |queryHeaders|
        invariant headers == HeadersOf(queryHeaders[..i])
      {
        assert queryHeaders[..i + 1][..i] == queryHeaders[..i];
        var parts := SplitFirstColon(queryHeaders[i]);
        if |parts| == 2 && parts[1] != "" {
          headers := headers[parts[0] := parts[1]];
        }
        i := i + 1;
      }
      assert queryHeaders[..|queryHeaders|] == queryHeaders;
    }
  }

  /** Whether a query value contributes a header of the given name. */
  predicate Names(h: string, name: string)
  {
    HeaderOf(h).Some? && HeaderOf(h).value.0 == name
  }

  /** A header name is kept exactly when some query value names it with a non-empty value. */
  lemma {:induction false} HeadersOfKeys(values: seq<string>, name: string)
    ensures name in HeadersOf(values) <==> exists i :: 0 <= i < |values| && Names(values[i], name)
  {
    if name in HeadersOf(values) {
      var i := KeptIsNamed(values, name);
    }
    forall i | 0 <= i < |values| && Names(values[i], name) ensures name in HeadersOf(values) {
      NamedIsKept(values, name, i);
    }
  }

  lemma {:induction false} NamedIsKept(values: seq<string>, name: string, i: nat)
    requires i < |values| && Names(values[i], name)
    ensures name in HeadersOf(values)
    decreases |values|
  {
    var n := |values| - 1;
    var init := values[..n];
    HeadersOfGrows(values);
    if i < n {
      assert init[i] == values[i];
      NamedIsKept(init, name, i);
      assert name in HeadersOf(init);
    } else {
      assert i == n;
    }
  }

  /** One more query value keeps every name already kept, and adds the one it names. */
  lemma HeadersOfGrows(values: seq<string>)
    requires values != []
    ensures var n := |values| - 1;
      && HeadersOf(values[..n]).Keys <= HeadersOf(values).Keys
      && (HeaderOf(values[n]).Some? ==> HeaderOf(values[n]).value.0 in HeadersOf(values))
  {
  }

  lemma {:induction false} KeptIsNamed(values: seq<string>, name: string) returns (i: nat)
    requires name in HeadersOf(values)
    ensures i < |values| && Names(values[i], name)
    decreases |values|
  {
    var n := |values| - 1;
    if Names(values[n], name) {
      return n;
    }
    var j := KeptIsNamed(values[..n], name);
    assert values[..n][j] == values[j];
    return j;
  }

  /** Its value is that of the last query value naming it: a later header overwrites an earlier one. */
  lemma {:induction false} HeadersOfLastWins(values: seq<string>, name: string, i: nat)
    requires i < |values| && Names(values[i], name)
    requires forall j :: i < j < |values| ==> !Names(values[j], name)
    ensures name in HeadersOf(values) && HeadersOf(values)[name] == HeaderOf(values[i]).value.1
    decreases |values|
  {
    var n := |values| - 1;
    var init := values[..n];
    if i < n {
      forall j | i < j < |init| ensures !Names(init[j], name) {
        assert init[j] == values[j];
      }
      assert init[i] == values[i];
      HeadersOfLastWins(init, name, i);
      assert !Names(values[n], name);
      assert HeadersOf(values)[name] == HeadersOf(init)[name];
    }
  }

  lemma {:induction false} FirstColonAfter(name: string, rest: string)
    requires ':' !in name
    ensures FirstColon(name + ":" + rest) == Some(|name|)
    decreases |name|
  {
    if name != [] {
      FirstColonAfter(name[1..], rest);
      assert (name + ":" + rest)[1..] == name[1..] + ":" + rest;
    }
  }

  /** A value that itself holds ':' keeps everything after the first one. */
  lemma HeaderValueMayHoldColon(name: string, value: string)
    requires ':' !in name && value != ""
    ensures HeaderOf(name + ":" + value) == Some((name, value))
  {
    var h := name + ":" + value;
    FirstColonAfter(name, value);
    assert h[..|name|] == name && h[|name| + 1..] == value;
  }

  /** `https` exactly when `sslmode=enable`, else `http`. */
  function Scheme(params: map<string, seq<string>>): (s: string)
    ensures s == "https" <==> Get(params, "sslmode") == "enable"
    ensures s == "https" || s == "http"
  {
    if Get(params, "sslmode") == "enable" then "https" else "http"
  }

  /** `path.Join(base, elem)` for an already clean base and element: one '/' between them, the empty one dropped. */
  function PathJoin(base: string, elem: string): (r: string)
    ensures base == "" ==> r == elem
    ensures elem == "" ==> r == base
    ensures base != "" && elem != "" ==> |r| > |base| + |elem| - 1 && |r| >= |elem| && r[|r| - |elem|..] == elem && r[..|base|] == base
  {
    if base == "" then elem
    else if elem == "" then base
    else if base[|base| - 1] == '/' then base + elem
    else base + "/" + elem
  }

  /** The parsed URL with the scheme chosen by `sslmode` and `elem` joined onto its path; its
      host and query are kept. */
  function Endpoint(u: Url, elem: string): (r: Url)
    ensures r.host == u.host && r.query == u.query && r.path == PathJoin(u.path, elem)
    ensures r.scheme == "https" <==> Get(u.query, "sslmode") == "enable"
    ensures r.scheme == "https" || r.scheme == "http"
    ensures u.path != "" && elem != "" ==> r.path[..|u.path|] == u.path && r.path[|r.path| - |elem|..] == elem
    ensures u.path == "" ==> r.path == elem
  {
    u.(scheme := Scheme(u.query), path := PathJoin(u.path, elem))
  }
}
