/**
 The "recently used instrument" entries of the Add menu. The recent list maps
 each connection string `nick:driver:transport:path[:more]` to its last-use
 time; the menu code groups the strings by time, walks the distinct times
 newest first, splits each string on ':' and offers it in every instrument
 family whose driver list knows its driver.
 */
module RecentInstruments {
  import opened Wrappers
  import opened Strings
  import StdMap

  /** One entry of the recent-instrument map: connection string and last-use time. */
  datatype Recent = Recent(cstring: string, lastUsed: int)

  /** The recent list in the order std::map iterates it: connection strings strictly ascending. */
  predicate ValidRecentList(rs: seq<Recent>)
  {
    forall i, j :: 0 <= i < j < |rs| ==> StrLt(rs[i].cstring, rs[j].cstring)
  }

  predicate UsedAt(rs: seq<Recent>, t: int)
  {
    exists i :: 0 <= i < |rs| && rs[i].lastUsed == t
  }

  ////////////////////////////////////////////////////////////////////////////
  // Reverse map: time -> connection strings

  /** Reference definition: the strings last used at `t`, in list order. */
  function UsedAtTime(rs: seq<Recent>, t: int): (r: seq<string>)
    ensures |r| > 0 <==> UsedAt(rs, t)
    decreases |rs|
  {
    if |rs| == 0 then []
    else
      var init := rs[..|rs| - 1];
      assert forall i :: 0 <= i < |init| ==> init[i] == rs[i];
      assert UsedAt(rs, t) <==> UsedAt(init, t) || rs[|rs| - 1].lastUsed == t;
      UsedAtTime(init, t) + (if rs[|rs| - 1].lastUsed == t then [rs[|rs| - 1].cstring] else [])
  }

  /** `reverseMap[it.second].push_back(it.first)` for each entry in turn. */
  function ReverseMap(rs: seq<Recent>): (m: map<int, seq<string>>)
    ensures forall t :: t in m <==> UsedAt(rs, t)
    ensures forall t :: t in m ==> m[t] == UsedAtTime(rs, t)
    decreases |rs|
  {
    if |rs| == 0 then map[]
    else
      var init := rs[..|rs| - 1];
      var e := rs[|rs| - 1];
      var (m, cur) := StdMap.Subscript(ReverseMap(init), e.lastUsed, []);
      assert forall i :: 0 <= i < |init| ==> init[i] == rs[i];
      assert forall t :: UsedAt(rs, t) <==> UsedAt(init, t) || t == e.lastUsed;
      m[e.lastUsed := cur + [e.cstring]]
  }

  /** A string is listed under `t` exactly when the recent list records it with time `t`. */
  lemma {:induction false} UsedAtTimeMembers(rs: seq<Recent>, t: int, c: string)
    ensures c in UsedAtTime(rs, t) <==> Recent(c, t) in rs
    decreases |rs|
  {
    if |rs| > 0 {
      var init := rs[..|rs| - 1];
      UsedAtTimeMembers(init, t, c);
      assert rs == init + [rs[|rs| - 1]];
    }
  }

  /** The strings grouped under one time keep the map's ascending order. */
  lemma {:induction false} UsedAtTimeSorted(rs: seq<Recent>, t: int)
    requires ValidRecentList(rs)
    ensures StrictlySorted(UsedAtTime(rs, t))
    decreases |rs|
  {
    if |rs| > 0 {
      var init := rs[..|rs| - 1];
      var last := rs[|rs| - 1];
      UsedAtTimeSorted(init, t);
      forall c | c in UsedAtTime(init, t) ensures StrLt(c, last.cstring) {
        UsedAtTimeMembers(init, t, c);
        var i :| 0 <= i < |init| && init[i] == Recent(c, t);
        assert rs[i] == init[i];
      }
    }
  }

  /** `reverseMap[t]` holds exactly the strings last used at `t`, ascending. */
  lemma ReverseMapExact(rs: seq<Recent>, t: int, c: string)
    requires ValidRecentList(rs)
    ensures t in ReverseMap(rs) ==> StrictlySorted(ReverseMap(rs)[t])
    ensures (t in ReverseMap(rs) && c in ReverseMap(rs)[t]) <==> Recent(c, t) in rs
  {
    UsedAtTimeSorted(rs, t);
    UsedAtTimeMembers(rs, t, c);
  }

  ////////////////////////////////////////////////////////////////////////////
  // Distinct timestamps, ascending

  predicate Ascending(ts: seq<int>)
  {
    forall i, j :: 0 <= i < j < |ts| ==> ts[i] < ts[j]
  }

  /** `set::emplace` on the ascending image of a std::set<time_t>. */
  function InsertTime(ts: seq<int>, t: int): (r: seq<int>)
    requires Ascending(ts)
    ensures Ascending(r)
    ensures forall u :: u in r <==> u in ts || u == t
    decreases |ts|
  {
    if |ts| == 0 then [t]
    else if t == ts[0] then ts
    else if t < ts[0] then [t] + ts
    else
      var rest := InsertTime(ts[1..], t);
      assert forall u :: u in rest ==> ts[0] < u by {
        forall u | u in rest ensures ts[0] < u {
          if u != t {
            var k :| 0 <= k < |ts[1..]| && ts[1..][k] == u;
            assert ts[k + 1] == u;
          }
        }
      }
      var r := [ts[0]] + rest;
      forall a, b | 0 <= a < b < |r| ensures r[a] < r[b] {
        assert r[b] == rest[b - 1] && r[b] in rest;
        if a > 0 { assert r[a] == rest[a - 1]; }
      }
      r
  }

  /** The `timestamps` vector: every recorded time once, ascending. */
  method SortedTimestamps(rs: seq<Recent>) returns (ts: seq<int>)
    ensures Ascending(ts)
    ensures forall t :: t in ts <==> UsedAt(rs, t)
  {
    ts := [];
    var i := 0;
    while i < |rs|
      invariant 0 <= i <= |rs|
      invariant Ascending(ts)
      invariant forall t :: t in ts <==> UsedAt(rs[..i], t)
    {
      ts := InsertTime(ts, rs[i].lastUsed);
      forall t ensures UsedAt(rs[..i + 1], t) <==> UsedAt(rs[..i], t) || t == rs[i].lastUsed {
        if UsedAt(rs[..i + 1], t) {
          var k :| 0 <= k < i + 1 && rs[..i + 1][k].lastUsed == t;
          if k < i { assert rs[..i][k] == rs[..i + 1][k]; }
        }
        if UsedAt(rs[..i], t) {
          var k :| 0 <= k < i && rs[..i][k].lastUsed == t;
          assert rs[..i + 1][k] == rs[..i][k];
        }
        if t == rs[i].lastUsed {
          assert rs[..i + 1][i] == rs[i];
        }
      }
      i := i + 1;
    }
    assert rs[..|rs|] == rs;
  }

  ////////////////////////////////////////////////////////////////////////////
  // Splitting a connection string

  datatype Family = FunctionGenerator | Multimeter | Oscilloscope | PowerSupply | RFGenerator

  /** Fields a connection string needs to be offered: the scope menu accepts an empty path. */
  function MinFields(f: Family): nat
  {
    if f == Oscilloscope then 3 else 4
  }

  datatype Connection = Connection(nick: string, driver: string, transport: string, path: string)

  /** Field 3 and every later field joined back with ':'; empty when there is no field 3. */
  function PathOf(fields: seq<string>): string
  {
    if |fields| >= 4 then Join(fields[3..], ':') else ""
  }

  /** The path loop as written: start from field 3 and append ":" + field j for j = 4, 5, ... */
  method RejoinPath(fields: seq<string>) returns (path: string)
    ensures path == PathOf(fields)
  {
    path := "";
    if |fields| >= 4 {
      path := fields[3];
    }
    var j := 4;
    while j < |fields|
      invariant 4 <= j
      invariant |fields| >= 4 ==> j <= |fields| && path == Join(fields[3..j], ':')
      invariant |fields| < 4 ==> path == ""
    {
      assert fields[3..j + 1][..j - 3] == fields[3..j];
      path := path + ":" + fields[j];
      j := j + 1;
    }
    if |fields| >= 4 {
      assert fields[3..|fields|] == fields[3..];
    }
  }

  /** The fields of one entry, or `None` when there are fewer than `minFields`. */
  function ParseFields(fields: seq<string>, minFields: nat): (r: Option<Connection>)
    requires minFields >= 3
    ensures r.Some? <==> |fields| >= minFields
    ensures r.Some? ==>
      r.value.nick == fields[0] && r.value.driver == fields[1]
        && r.value.transport == fields[2] && r.value.path == PathOf(fields)
  {
    if |fields| < minFields then None
    else Some(Connection(fields[0], fields[1], fields[2], PathOf(fields)))
  }

  /** Joining splits at any field boundary. */
  lemma {:induction false} JoinAppend(fs: seq<string>, k: nat, sep: char)
    requires 1 <= k < |fs|
    ensures Join(fs, sep) == Join(fs[..k], sep) + [sep] + Join(fs[k..], sep)
    decreases |fs|
  {
    var n := |fs|;
    if k < n - 1 {
      JoinAppend(fs[..n - 1], k, sep);
      assert fs[..n - 1][..k] == fs[..k];
      assert fs[k..][..|fs[k..]| - 1] == fs[..n - 1][k..];
    } else {
      assert fs[k..] == [fs[n - 1]];
      assert fs[..n - 1] == fs[..k];
    }
  }

  /**
   When the split is undone by joining (as a splitter that keeps every field
   does), the connection string is the four leading parts glued with ':',
   so colons inside the path survive the round trip.
   */
  lemma PathKeepsColons(c: string, fields: seq<string>)
    requires |fields| >= 4 && Join(fields, ':') == c
    ensures c == fields[0] + ":" + fields[1] + ":" + fields[2] + ":" + PathOf(fields)
  {
    JoinAppend(fields, 3, ':');
    assert fields[..3][..2][..1] == [fields[0]];
    assert fields[..3][..2] == fields[..2] && fields[..3][..2][..1] == fields[..1];
    JoinAppend(fields[..3], 2, ':');
    JoinAppend(fields[..2], 1, ':');
    assert fields[..3][2..] == [fields[2]];
    assert fields[..2][1..] == [fields[1]];
  }

  /** The reference splitter: `explode(s, ':')` as a plain split on every colon. */
  function SplitColons(s: string): seq<string>
  {
    Split(s, ':')
  }

  /** With the reference splitter, an entry's fields are accepted exactly when it has enough colons. */
  lemma SplitFieldCount(c: string, f: Family)
    ensures ParseFields(Split(c, ':'), MinFields(f)).Some? <==> Count(c, ':') + 1 >= MinFields(f)
    ensures |Split(c, ':')| >= 4 ==>
      c == Split(c, ':')[0] + ":" + Split(c, ':')[1] + ":" + Split(c, ':')[2] + ":" + PathOf(Split(c, ':'))
  {
    JoinSplit(c, ':');
    if |Split(c, ':')| >= 4 {
      PathKeepsColons(c, Split(c, ':'));
    }
  }

  /**
   With the reference splitter, an entry is offered exactly when it has enough
   colons and its driver field names a driver of the family.
   */
  lemma SplitOffered(c: string, f: Family, drivers: set<string>)
    ensures Offered(c, MinFields(f), drivers, SplitColons) <==>
      Count(c, ':') + 1 >= MinFields(f) && Split(c, ':')[1] in drivers
  {
  }

  ////////////////////////////////////////////////////////////////////////////
  // Menu entries

  /** One recent-instrument menu entry. */
  datatype MenuItem = MenuItem(time: int, cstring: string, conn: Connection)

  predicate Offered(c: string, minFields: nat, drivers: set<string>, explode: string -> seq<string>)
    requires minFields >= 3
  {
    var p := ParseFields(explode(c), minFields);
    p.Some? && p.value.driver in drivers
  }

  /** The entries for one timestamp: each string in order, skipped when short or of another family. */
  function ItemsAt(t: int, cstrings: seq<string>, minFields: nat, drivers: set<string>,
                   explode: string -> seq<string>): (r: seq<MenuItem>)
    requires minFields >= 3
    ensures forall it :: it in r ==>
      it.time == t && it.cstring in cstrings
        && Offered(it.cstring, minFields, drivers, explode)
        && it.conn == ParseFields(explode(it.cstring), minFields).value
    ensures forall c :: c in cstrings && Offered(c, minFields, drivers, explode) ==>
      exists it: MenuItem :: it in r && it.cstring == c
    decreases |cstrings|
  {
    if |cstrings| == 0 then []
    else
      var c := cstrings[|cstrings| - 1];
      var init := cstrings[..|cstrings| - 1];
      var p := ParseFields(explode(c), minFields);
      var rest := ItemsAt(t, init, minFields, drivers, explode);
      assert forall x :: x in cstrings ==> x in init || x == c;
      if p.Some? && p.value.driver in drivers then rest + [MenuItem(t, c, p.value)] else rest
  }

  /** The walk `for i = |timestamps| - 1 down to 0` over the first `i` timestamps. */
  function WalkFrom(ts: seq<int>, i: nat, rm: map<int, seq<string>>, minFields: nat,
                    drivers: set<string>, explode: string -> seq<string>): (r: seq<MenuItem>)
    requires i <= |ts| && minFields >= 3
    ensures forall it :: it in r ==> exists k :: 0 <= k < i && it.time == ts[k]
    decreases i
  {
    if i == 0 then []
    else
      var t := ts[i - 1];
      ItemsAt(t, StdMap.ValueOr(rm, t, []), minFields, drivers, explode)
        + WalkFrom(ts, i - 1, rm, minFields, drivers, explode)
  }

  /** The enumerated driver names of a family, as the std::set the menu code builds. */
  function DriverSet(driverList: seq<string>): (ds: set<string>)
    ensures forall d :: d in ds <==> d in driverList
  {
    set d | d in driverList
  }

  /** The recent-instrument entries of one family's menu. */
  function FamilyMenu(f: Family, driverList: seq<string>, ts: seq<int>, rm: map<int, seq<string>>,
                      explode: string -> seq<string>): seq<MenuItem>
  {
    WalkFrom(ts, |ts|, rm, MinFields(f), DriverSet(driverList), explode)
  }

  predicate NewestFirst(items: seq<MenuItem>)
  {
    forall a, b :: 0 <= a < b < |items| ==> items[a].time >= items[b].time
  }

  lemma ConcatNewestFirst(head: seq<MenuItem>, tail: seq<MenuItem>, t: int)
    requires forall it :: it in head ==> it.time == t
    requires forall it :: it in tail ==> it.time <= t
    requires NewestFirst(tail)
    ensures NewestFirst(head + tail)
  {
    var r := head + tail;
    forall a, b | 0 <= a < b < |r| ensures r[a].time >= r[b].time {
      if b < |head| {
        assert r[a] == head[a] && r[b] == head[b];
      } else if a < |head| {
        assert r[a] == head[a] && r[b] == tail[b - |head|];
      } else {
        assert r[a] == tail[a - |head|] && r[b] == tail[b - |head|];
      }
    }
  }

  /** Entries are listed newest first when the timestamps are ascending. */
  lemma {:induction false} WalkNewestFirst(ts: seq<int>, i: nat, rm: map<int, seq<string>>, minFields: nat,
                                           drivers: set<string>, explode: string -> seq<string>)
    requires i <= |ts| && minFields >= 3 && Ascending(ts)
    ensures NewestFirst(WalkFrom(ts, i, rm, minFields, drivers, explode))
    decreases i
  {
    if i > 0 {
      WalkNewestFirst(ts, i - 1, rm, minFields, drivers, explode);
      var head := ItemsAt(ts[i - 1], StdMap.ValueOr(rm, ts[i - 1], []), minFields, drivers, explode);
      var tail := WalkFrom(ts, i - 1, rm, minFields, drivers, explode);
      forall it | it in tail ensures it.time <= ts[i - 1] {
        var k :| 0 <= k < i - 1 && it.time == ts[k];
      }
      ConcatNewestFirst(head, tail, ts[i - 1]);
    }
  }

  /** An entry is in the walk exactly when its string is grouped under one of the walked timestamps and is offered. */
  lemma {:induction false} WalkMembers(ts: seq<int>, i: nat, rm: map<int, seq<string>>, minFields: nat,
                                       drivers: set<string>, explode: string -> seq<string>, c: string)
    requires i <= |ts| && minFields >= 3
    ensures (exists it: MenuItem :: it in WalkFrom(ts, i, rm, minFields, drivers, explode) && it.cstring == c)
      <==> (Offered(c, minFields, drivers, explode)
            && exists k :: 0 <= k < i && ts[k] in rm && c in rm[ts[k]])
    decreases i
  {
    if i > 0 {
      WalkMembers(ts, i - 1, rm, minFields, drivers, explode, c);
      var t := ts[i - 1];
      var head := ItemsAt(t, StdMap.ValueOr(rm, t, []), minFields, drivers, explode);
      var tail := WalkFrom(ts, i - 1, rm, minFields, drivers, explode);
      if exists it: MenuItem :: it in head + tail && it.cstring == c {
        var it: MenuItem :| it in head + tail && it.cstring == c;
        if it in head {
          assert ts[i - 1] in rm && c in rm[ts[i - 1]];
        }
      }
      if Offered(c, minFields, drivers, explode) && exists k :: 0 <= k < i && ts[k] in rm && c in rm[ts[k]] {
        var k :| 0 <= k < i && ts[k] in rm && c in rm[ts[k]];
        if k == i - 1 {
          var it: MenuItem :| it in head && it.cstring == c;
          assert it in head + tail;
        } else {
          var it: MenuItem :| it in tail && it.cstring == c;
          assert it in head + tail;
        }
      }
    }
  }

  /** The entries of a family's menu run from the most recently used to the least. */
  lemma RecentMenuNewestFirst(rs: seq<Recent>, f: Family, driverList: seq<string>,
                              explode: string -> seq<string>, ts: seq<int>)
    requires Ascending(ts)
    ensures NewestFirst(FamilyMenu(f, driverList, ts, ReverseMap(rs), explode))
  {
    WalkNewestFirst(ts, |ts|, ReverseMap(rs), MinFields(f), DriverSet(driverList), explode);
    assert FamilyMenu(f, driverList, ts, ReverseMap(rs), explode)
      == WalkFrom(ts, |ts|, ReverseMap(rs), MinFields(f), DriverSet(driverList), explode);
  }

  /**
   A recent instrument is offered in the menu of family `f` exactly when its
   entry parses with enough fields and its driver is one of the family's.
   */
  lemma RecentMenuMembers(rs: seq<Recent>, f: Family, driverList: seq<string>,
                          explode: string -> seq<string>, ts: seq<int>, c: string)
    requires forall t :: t in ts <==> UsedAt(rs, t)
    ensures (exists it: MenuItem :: it in FamilyMenu(f, driverList, ts, ReverseMap(rs), explode) && it.cstring == c)
      <==> (exists t :: Recent(c, t) in rs) && Offered(c, MinFields(f), DriverSet(driverList), explode)
  {
    var rm := ReverseMap(rs);
    WalkMembers(ts, |ts|, rm, MinFields(f), DriverSet(driverList), explode, c);
    if exists t :: Recent(c, t) in rs {
      var t :| Recent(c, t) in rs;
      UsedAtTimeMembers(rs, t, c);
      var i :| 0 <= i < |rs| && rs[i] == Recent(c, t);
      assert UsedAt(rs, t);
      var k :| 0 <= k < |ts| && ts[k] == t;
      assert ts[k] in rm && c in rm[ts[k]];
    }
    if exists k :: 0 <= k < |ts| && ts[k] in rm && c in rm[ts[k]] {
      var k :| 0 <= k < |ts| && ts[k] in rm && c in rm[ts[k]];
      UsedAtTimeMembers(rs, ts[k], c);
    }
  }
}
