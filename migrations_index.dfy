/**
 * The applied-version index the driver keeps in `h.migrations` (a `database.Migrations`):
 * an ascending list of unique uint64 versions. `Append` adds a version unless it is
 * already present; `First`, `Last`, `Next`, `Prev` and `Read` answer from the list.
 */
module MigrationsIndex {
  import opened Wrappers

  /** The index: strictly ascending. */
  predicate Ascending(s: seq<nat>)
  {
    forall i, j :: 0 <= i < j < |s| ==> s[i] < s[j]
  }

  /** `Migrations.Append(v)`: the ascending list holding the old versions and v. */
  function Insert(s: seq<nat>, v: nat): (r: seq<nat>)
    requires Ascending(s)
    ensures Ascending(r)
    ensures forall x :: x in r <==> x in s || x == v
    ensures v in s ==> r == s
    ensures v !in s ==> |r| == |s| + 1
    decreases |s|
  {
    if s == [] then [v]
    else if v == s[0] then s
    else if v < s[0] then
      AscendingCons(v, s);
      [v] + s
    else
      AscendingTail(s);
      var tail := Insert(s[1..], v);
      AscendingCons(s[0], tail);
      [s[0]] + tail
  }

  lemma AscendingTail(s: seq<nat>)
    requires Ascending(s) && s != []
    ensures Ascending(s[1..]) && forall x :: x in s[1..] ==> s[0] < x
  {
    forall x | x in s[1..] ensures s[0] < x {
      var k :| 0 <= k < |s[1..]| && s[1..][k] == x;
      assert s[k + 1] == x;
    }
  }

  lemma AscendingCons(x: nat, t: seq<nat>)
    requires Ascending(t) && forall y :: y in t ==> x < y
    ensures Ascending([x] + t)
  {
    var r := [x] + t;
    forall i, j | 0 <= i < j < |r| ensures r[i] < r[j] {
      if i == 0 { assert r[j] == t[j - 1]; assert t[j - 1] in t; }
      else { assert r[i] == t[i - 1] && r[j] == t[j - 1]; }
    }
  }

  /** `Migrations.First()`: the smallest version, or not found on an empty index. */
  function First(s: seq<nat>): (r: Option<nat>)
    requires Ascending(s)
    ensures r.None? <==> s == []
    ensures r.Some? ==> r.value in s && forall x :: x in s ==> r.value <= x
  {
    if s == [] then None else Some(s[0])
  }

  /** `Migrations.Last()`: the largest version, or not found on an empty index. */
  function Last(s: seq<nat>): (r: Option<nat>)
    requires Ascending(s)
    ensures r.None? <==> s == []
    ensures r.Some? ==> r.value in s && forall x :: x in s ==> x <= r.value
  {
    if s == [] then None else Some(s[|s| - 1])
  }

  /** Position of v in the index, if present. */
  function Find(s: seq<nat>, v: nat): (r: Option<nat>)
    ensures r.Some? ==> r.value < |s| && s[r.value] == v
    ensures r.None? ==> v !in s
    decreases |s|
  {
    if s == [] then None
    else if s[0] == v then Some(0)
    else match Find(s[1..], v)
      case Some(k) => Some(k + 1)
      case None => None
  }

  /** `Migrations.Next(v)`: the version after v, found only when v is in the index and is not the last. */
  function Next(s: seq<nat>, v: nat): (r: Option<nat>)
    requires Ascending(s)
    ensures r.Some? <==> v in s && Last(s) != Some(v)
    ensures r.Some? ==> r.value in s && v < r.value && forall x :: x in s && v < x ==> r.value <= x
  {
    match Find(s, v)
    case Some(k) => if k + 1 < |s| then Some(s[k + 1]) else None
    case None => None
  }

  /** `Migrations.Prev(v)`: the version before v, found only when v is in the index and is not the first. */
  function Prev(s: seq<nat>, v: nat): (r: Option<nat>)
    requires Ascending(s)
    ensures r.Some? <==> v in s && First(s) != Some(v)
    ensures r.Some? ==> r.value in s && r.value < v && forall x :: x in s && x < v ==> x <= r.value
  {
    match Find(s, v)
    case Some(k) => if k > 0 then Some(s[k - 1]) else None
    case None => None
  }

  /** `Migrations.Read(v)`: whether v is in the index. */
  function Read(s: seq<nat>, v: nat): (r: bool)
    ensures r <==> v in s
  {
    Find(s, v).Some?
  }

  /** Appending every version of a list, in order. */
  function InsertAll(s: seq<nat>, vs: seq<nat>): (r: seq<nat>)
    requires Ascending(s)
    ensures Ascending(r)
    decreases |vs|
  {
    if vs == [] then s else Insert(InsertAll(s, vs[..|vs| - 1]), vs[|vs| - 1])
  }

  /** After appending a list, the index holds exactly the old versions and the list's. */
  lemma {:induction false} InsertAllContents(s: seq<nat>, vs: seq<nat>)
    requires Ascending(s)
    ensures forall x :: x in InsertAll(s, vs) <==> x in s || x in vs
    decreases |vs|
  {
    if vs != [] {
      var n := |vs| - 1;
      InsertAllContents(s, vs[..n]);
      assert vs == vs[..n] + [vs[n]];
    }
  }

  /** Appending a version and reading it back: stepping to it from its predecessor reaches it. */
  lemma InsertThenRead(s: seq<nat>, v: nat)
    requires Ascending(s)
    ensures Read(Insert(s, v), v)
    ensures Last(s).Some? && Last(s).value < v ==> Last(Insert(s, v)) == Some(v)
  {
  }
}
