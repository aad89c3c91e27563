/** The exchange configuration: which information object addresses the client knows.
    The source keeps a two-level ordered map whose lookups (`operator[]`) insert null
    entries; the lemmas show that no observer can tell. */
module Exchange {
  import opened Protocol
  import opened TypeMatching

  datatype Definition = Definition(ca: int, ioa: int, typeId: int, tag: string, giGroups: int)

  /** Common address, then object address; a null pointer is `None`. */
  type Definitions = map<int, map<int, Option<Definition>>>

  predicate InStationGroup(d: Definition) {
    d.giGroups % 2 == 1
  }

  predicate InMonitoringDirection(d: Definition) {
    d.typeId < 41
  }

  /** What a reader of the map gets: absent and null entries look the same. */
  function Lookup(defs: Definitions, ca: int, ioa: int): Option<Definition> {
    if ca in defs && ioa in defs[ca] then defs[ca][ioa] else None
  }

  /** The side effect of `definitions[ca][ioa]`: missing entries appear, as null. */
  function Touch(defs: Definitions, ca: int, ioa: int): (r: Definitions)
    ensures forall c, i :: Lookup(r, c, i) == Lookup(defs, c, i)
    ensures ca in r && ioa in r[ca]
  {
    var row := if ca in defs then defs[ca] else map[];
    defs[ca := row[ioa := Lookup(defs, ca, ioa)]]
  }

  /** checkExchangeDataLayer: the tag of a configured object whose type matches. */
  function Check(defs: Definitions, typeId: int, ca: int, ioa: int): Option<string> {
    match Lookup(defs, ca, ioa)
    case Some(d) => if IsMessageTypeMatching(d.typeId, typeId) then Some(d.tag) else None
    case None => None
  }

  ghost predicate SameView(d: Definitions, e: Definitions) {
    forall ca, ioa :: Lookup(d, ca, ioa) == Lookup(e, ca, ioa)
  }

  /** Every definition is stored under its own address. */
  ghost predicate WellKeyed(defs: Definitions) {
    forall ca, ioa :: Lookup(defs, ca, ioa).Some? ==>
      Lookup(defs, ca, ioa).value.ca == ca && Lookup(defs, ca, ioa).value.ioa == ioa
  }

  lemma SameViewIsTransitive(d: Definitions, e: Definitions, f: Definitions)
    requires SameView(d, e) && SameView(e, f)
    ensures SameView(d, f)
  {
  }

  function TouchAll(defs: Definitions, at: seq<(int, int)>): Definitions
    decreases at
  {
    if at == [] then defs else TouchAll(Touch(defs, at[0].0, at[0].1), at[1..])
  }

  lemma {:induction false} LookupsAreInvisible(defs: Definitions, at: seq<(int, int)>)
    ensures SameView(TouchAll(defs, at), defs)
    ensures forall typeId, ca, ioa :: Check(TouchAll(defs, at), typeId, ca, ioa) == Check(defs, typeId, ca, ioa)
    decreases at
  {
    if at != [] {
      LookupsAreInvisible(Touch(defs, at[0].0, at[0].1), at[1..]);
    }
  }

  // ---- ordered traversal ----

  function Least(s: set<int>): (m: int)
    requires s != {}
    ensures m in s && forall x | x in s :: m <= x
  {
    assert exists m :: m in s && forall x | x in s :: m <= x by { LeastExists(s); }
    var m :| m in s && forall x | x in s :: m <= x;
    m
  }

  lemma EmptyOrInhabited(s: set<int>)
    ensures s == {} || exists y :: y in s
  {
    if forall y :: y !in s { assert s == {}; }
  }

  lemma LeastExists(s: set<int>)
    requires s != {}
    ensures exists m :: m in s && forall x | x in s :: m <= x
  {
    EmptyOrInhabited(s);
    var y :| y in s;
    if s - {y} != {} {
      LeastExists(s - {y});
      var m :| m in s - {y} && forall x | x in s - {y} :: m <= x;
      assert forall x | x in s :: x == y || x in s - {y};
      assert (if y < m then y else m) in s;
    } else {
      assert forall x | x in s :: x == y by {
        forall x | x in s ensures x == y { assert x != y ==> x in s - {y}; }
      }
    }
  }

  ghost predicate StrictlyAscending(r: seq<int>) {
    forall i, j | 0 <= i < j < |r| :: r[i] < r[j]
  }

  /** The keys of an ordered map, in iteration order. */
  function Ascending(s: set<int>): (r: seq<int>)
    ensures StrictlyAscending(r)
    ensures forall x :: x in r <==> x in s
  {
    if s == {} then [] else [Least(s)] + Ascending(s - {Least(s)})
  }

  function FromRow(row: map<int, Option<Definition>>, keys: seq<int>, keep: Definition -> bool): seq<Definition>
    requires forall i | 0 <= i < |keys| :: keys[i] in row
  {
    if keys == [] then []
    else (if row[keys[0]].Some? && keep(row[keys[0]].value) then [row[keys[0]].value] else [])
         + FromRow(row, keys[1..], keep)
  }

  function FromRows(defs: Definitions, keys: seq<int>, keep: Definition -> bool): seq<Definition>
    requires forall i | 0 <= i < |keys| :: keys[i] in defs
  {
    if keys == [] then []
    else FromRow(defs[keys[0]], Ascending(defs[keys[0]].Keys), keep) + FromRows(defs, keys[1..], keep)
  }

  /** The nested range-for loops of the source: all kept definitions in map order. */
  function Enumerate(defs: Definitions, keep: Definition -> bool): seq<Definition> {
    FromRows(defs, Ascending(defs.Keys), keep)
  }

  function StationGroup(defs: Definitions): seq<Definition> {
    Enumerate(defs, d => InStationGroup(d))
  }

  function MonitoredPoints(defs: Definitions): seq<Definition> {
    Enumerate(defs, d => InMonitoringDirection(d))
  }

  lemma FromRowStep(row: map<int, Option<Definition>>, ioas: seq<int>, i: nat, keep: Definition -> bool)
    requires i <= |ioas| && forall k | 0 <= k < |ioas| :: ioas[k] in row
    ensures FromRow(row, ioas[i..], keep) ==
            if i == |ioas| then [] else
              (if row[ioas[i]].Some? && keep(row[ioas[i]].value) then [row[ioas[i]].value] else [])
              + FromRow(row, ioas[i + 1..], keep)
  {
    if i < |ioas| { assert ioas[i..][1..] == ioas[i + 1..]; }
  }

  lemma FromRowsStep(defs: Definitions, cas: seq<int>, c: nat, keep: Definition -> bool)
    requires c <= |cas| && forall k | 0 <= k < |cas| :: cas[k] in defs
    ensures FromRows(defs, cas[c..], keep) ==
            if c == |cas| then [] else
              FromRow(defs[cas[c]], Ascending(defs[cas[c]].Keys), keep) + FromRows(defs, cas[c + 1..], keep)
  {
    if c < |cas| { assert cas[c..][1..] == cas[c + 1..]; }
  }

  // ---- traversal depends on the view only ----

  predicate Before(d: Definition, e: Definition) {
    d.ca < e.ca || (d.ca == e.ca && d.ioa < e.ioa)
  }

  ghost predicate InAddressOrder(ds: seq<Definition>) {
    forall i, j | 0 <= i < j < |ds| :: Before(ds[i], ds[j])
  }

  lemma {:induction false} FromRowIsOrdered(defs: Definitions, ca: int, keys: seq<int>, keep: Definition -> bool)
    requires WellKeyed(defs) && ca in defs
    requires StrictlyAscending(keys) && forall i | 0 <= i < |keys| :: keys[i] in defs[ca]
    ensures InAddressOrder(FromRow(defs[ca], keys, keep))
    ensures forall d :: d in FromRow(defs[ca], keys, keep) <==>
              d.ca == ca && d.ioa in keys && Lookup(defs, ca, d.ioa) == Some(d) && keep(d)
  {
    if keys != [] {
      FromRowIsOrdered(defs, ca, keys[1..], keep);
      var rest := FromRow(defs[ca], keys[1..], keep);
      assert forall d | d in rest :: keys[0] < d.ioa by {
        forall d | d in rest ensures keys[0] < d.ioa {
          var i :| 0 <= i < |keys[1..]| && keys[1..][i] == d.ioa;
          assert keys[i + 1] == d.ioa;
        }
      }
      assert Lookup(defs, ca, keys[0]) == defs[ca][keys[0]];
      assert forall x :: x in keys <==> x == keys[0] || x in keys[1..];
    }
  }

  lemma {:induction false} FromRowsIsOrdered(defs: Definitions, keys: seq<int>, keep: Definition -> bool)
    requires WellKeyed(defs) && StrictlyAscending(keys) && forall i | 0 <= i < |keys| :: keys[i] in defs
    ensures InAddressOrder(FromRows(defs, keys, keep))
    ensures forall d :: d in FromRows(defs, keys, keep) <==>
              d.ca in keys && Lookup(defs, d.ca, d.ioa) == Some(d) && keep(d)
  {
    if keys != [] {
      var first := FromRow(defs[keys[0]], Ascending(defs[keys[0]].Keys), keep);
      var rest := FromRows(defs, keys[1..], keep);
      FromRowIsOrdered(defs, keys[0], Ascending(defs[keys[0]].Keys), keep);
      FromRowsIsOrdered(defs, keys[1..], keep);
      assert forall d | d in rest :: keys[0] < d.ca by {
        forall d | d in rest ensures keys[0] < d.ca {
          var i :| 0 <= i < |keys[1..]| && keys[1..][i] == d.ca;
          assert keys[i + 1] == d.ca;
        }
      }
      ConcatIsOrdered(first, rest);
      assert forall x :: x in keys <==> x == keys[0] || x in keys[1..];
    }
  }

  lemma ConcatIsOrdered(a: seq<Definition>, b: seq<Definition>)
    requires InAddressOrder(a) && InAddressOrder(b)
    requires forall d, e | d in a && e in b :: Before(d, e)
    ensures InAddressOrder(a + b)
  {
    forall i, j | 0 <= i < j < |a + b| ensures Before((a + b)[i], (a + b)[j]) {
      if i < |a| <= j { assert a[i] in a && b[j - |a|] in b; }
    }
  }

  /** Traversal yields each kept definition exactly once, in (CA, IOA) order. */
  lemma EnumerateIsExact(defs: Definitions, keep: Definition -> bool)
    requires WellKeyed(defs)
    ensures InAddressOrder(Enumerate(defs, keep))
    ensures forall d :: d in Enumerate(defs, keep) <==> Lookup(defs, d.ca, d.ioa) == Some(d) && keep(d)
  {
    FromRowsIsOrdered(defs, Ascending(defs.Keys), keep);
  }

  lemma {:induction false} OrderedListsAreUnique(a: seq<Definition>, b: seq<Definition>)
    requires InAddressOrder(a) && InAddressOrder(b)
    requires forall d :: d in a <==> d in b
    ensures a == b
  {
    assert a != [] ==> a[0] in b;
    assert b != [] ==> b[0] in a;
    if a != [] {
      assert a[0] == b[0];
      forall d ensures d in a[1..] <==> d in b[1..] {
        TailMembers(a, d);
        TailMembers(b, d);
      }
      OrderedListsAreUnique(a[1..], b[1..]);
      assert a == [a[0]] + a[1..] && b == [b[0]] + b[1..];
    }
  }

  lemma TailMembers(a: seq<Definition>, d: Definition)
    requires a != [] && InAddressOrder(a)
    ensures d in a[1..] <==> d in a && d != a[0]
  {
    if d in a && d != a[0] {
      var i :| 0 <= i < |a| && a[i] == d;
      assert a[1..][i - 1] == d;
    }
    if d in a[1..] {
      var i :| 0 <= i < |a[1..]| && a[1..][i] == d;
      assert a[i + 1] == d && Before(a[0], a[i + 1]);
    }
  }

  /** Null entries left behind by lookups never change any list built from the map. */
  lemma TraversalSeesOnlyTheView(d: Definitions, e: Definitions, keep: Definition -> bool)
    requires WellKeyed(d) && SameView(d, e)
    ensures Enumerate(d, keep) == Enumerate(e, keep)
  {
    assert WellKeyed(e);
    EnumerateIsExact(d, keep);
    EnumerateIsExact(e, keep);
    OrderedListsAreUnique(Enumerate(d, keep), Enumerate(e, keep));
  }

  /** No history of lookups changes a later check, the station group or the monitored list. */
  lemma LookupHistoryIsHarmless(defs: Definitions, at: seq<(int, int)>)
    requires WellKeyed(defs)
    ensures WellKeyed(TouchAll(defs, at))
    ensures forall typeId, ca, ioa :: Check(TouchAll(defs, at), typeId, ca, ioa) == Check(defs, typeId, ca, ioa)
    ensures StationGroup(TouchAll(defs, at)) == StationGroup(defs)
    ensures MonitoredPoints(TouchAll(defs, at)) == MonitoredPoints(defs)
  {
    LookupsAreInvisible(defs, at);
    TraversalSeesOnlyTheView(defs, TouchAll(defs, at), d => InStationGroup(d));
    TraversalSeesOnlyTheView(defs, TouchAll(defs, at), d => InMonitoringDirection(d));
  }

  /** The station group is the configured points whose group number is odd, and the monitored
      points are those with a type below 41; each is listed once, in address order. */
  lemma ListsAreExact(defs: Definitions)
    requires WellKeyed(defs)
    ensures InAddressOrder(StationGroup(defs)) && InAddressOrder(MonitoredPoints(defs))
    ensures forall d :: d in StationGroup(defs) <==> Lookup(defs, d.ca, d.ioa) == Some(d) && d.giGroups % 2 == 1
    ensures forall d :: d in MonitoredPoints(defs) <==> Lookup(defs, d.ca, d.ioa) == Some(d) && d.typeId < 41
  {
    EnumerateIsExact(defs, d => InStationGroup(d));
    EnumerateIsExact(defs, d => InMonitoringDirection(d));
  }
}
