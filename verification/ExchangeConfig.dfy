/** The configuration object: filled once from the parsed exchange configuration, then
    read by every received ASDU and every command. */
module ExchangeConfig {
  import opened Protocol
  import opened Exchange

  /** One IEC 104 entry of the parsed file; a malformed one makes the importer return early. */
  datatype Item = Point(def: Definition, trigger: bool) | Malformed

  /** How many items the importer takes: all before the first malformed one. */
  function Accepted(items: seq<Item>): (n: nat)
    ensures n <= |items|
    ensures forall i | 0 <= i < n :: items[i].Point?
    ensures n < |items| ==> items[n].Malformed?
  {
    if items == [] || items[0].Malformed? then 0 else 1 + Accepted(items[1..])
  }

  /** The last of the first `n` points with this address. */
  function LastAt(items: seq<Item>, n: nat, ca: int, ioa: int): Option<Definition>
    requires n <= |items|
  {
    if n == 0 then None
    else if items[n - 1].Point? && items[n - 1].def.ca == ca && items[n - 1].def.ioa == ioa
    then Some(items[n - 1].def)
    else LastAt(items, n - 1, ca, ioa)
  }

  class Config {
    var definitions: Definitions
    var triggers: set<(int, int)>
    var listOfCAs: seq<int>
    var complete: bool

    constructor ()
      ensures definitions == map[] && triggers == {} && listOfCAs == [] && !complete
    {
      definitions, triggers, listOfCAs, complete := map[], {}, [], false;
    }

    /** A lookup answers from the state before it and leaves the inserted null entries behind. */
    method CheckExchangeDataLayer(typeId: int, ca: int, ioa: int) returns (tag: Option<string>)
      modifies this`definitions
      ensures tag == Check(old(definitions), typeId, ca, ioa)
      ensures definitions == Touch(old(definitions), ca, ioa)
    {
      definitions := Touch(definitions, ca, ioa);
      tag := Check(definitions, typeId, ca, ioa);
    }

    /** The first half of the importer: definitions and trigger addresses, up to the
        first malformed item. A later point replaces an earlier one at its address. */
    method LoadDefinitions(items: seq<Item>) returns (wellFormed: bool)
      modifies this`definitions, this`triggers
      ensures wellFormed <==> Accepted(items) == |items|
      ensures WellKeyed(definitions)
      ensures forall ca, ioa :: Lookup(definitions, ca, ioa) == LastAt(items, Accepted(items), ca, ioa)
      ensures forall ca :: ca in definitions <==> exists i :: 0 <= i < Accepted(items) && items[i].def.ca == ca
      ensures triggers == old(triggers) + Flagged(items, Accepted(items))
    {
      definitions := map[];
      var n := 0;
      while n < |items|
        invariant n <= Accepted(items)
        invariant WellKeyed(definitions)
        invariant forall ca, ioa :: Lookup(definitions, ca, ioa) == LastAt(items, n, ca, ioa)
        invariant forall ca :: ca in definitions <==> exists i :: 0 <= i < n && items[i].def.ca == ca
        invariant triggers == old(triggers) + Flagged(items, n)
      {
        AcceptedStep(items, n);
        if items[n].Malformed? {
          return false;
        }
        definitions := Insert(definitions, items[n].def);
        if items[n].trigger {
          triggers := triggers + {(items[n].def.ca, items[n].def.ioa)};
        }
        n := n + 1;
      }
      wellFormed := true;
    }

    /** The second half: the common addresses, in map order, that are not listed yet. What was
        listed stays in front; what is added is new and ascending. */
    method CollectCommonAddresses()
      modifies this`listOfCAs
      ensures forall ca :: ca in listOfCAs <==> ca in old(listOfCAs) || ca in definitions
      ensures Extends(old(listOfCAs), listOfCAs)
      ensures old(listOfCAs) == [] ==> listOfCAs == Ascending(definitions.Keys)
    {
      var keys := Ascending(definitions.Keys);
      AppendUnlisted(keys);
      ExtendedMeans(old(listOfCAs), keys, |keys|);
      ExtendedAddsAscending(old(listOfCAs), keys, |keys|);
      if old(listOfCAs) == [] { ExtendedFromNothing(keys, |keys|); }
      assert keys[..|keys|] == keys;
    }

    method AppendUnlisted(keys: seq<int>)
      modifies this`listOfCAs
      ensures listOfCAs == Extended(old(listOfCAs), keys, |keys|)
    {
      var k := 0;
      while k < |keys|
        invariant 0 <= k <= |keys|
        invariant listOfCAs == Extended(old(listOfCAs), keys, k)
      {
        if keys[k] !in listOfCAs {
          listOfCAs := listOfCAs + [keys[k]];
        }
        k := k + 1;
      }
    }

    /** A complete first import leaves the interrogated addresses strictly ascending; an
        aborted one keeps what it loaded but lists no address. */
    method ImportExchangeConfig(items: seq<Item>)
      modifies this
      ensures complete <==> Accepted(items) == |items|
      ensures WellKeyed(definitions)
      ensures forall ca, ioa :: Lookup(definitions, ca, ioa) == LastAt(items, Accepted(items), ca, ioa)
      ensures triggers == old(triggers) + Flagged(items, Accepted(items))
      ensures !complete ==> listOfCAs == old(listOfCAs)
      ensures Extends(old(listOfCAs), listOfCAs)
      ensures HasNoDuplicates(old(listOfCAs)) ==> HasNoDuplicates(listOfCAs)
      ensures complete ==> forall ca :: ca in listOfCAs <==>
                ca in old(listOfCAs) || exists i :: 0 <= i < |items| && items[i].def.ca == ca
      ensures complete && old(listOfCAs) == [] ==> StrictlyAscending(listOfCAs)
      ensures complete && old(listOfCAs) == [] ==>
                forall ca :: ca in listOfCAs <==> exists i :: 0 <= i < |items| && items[i].def.ca == ca
    {
      complete := false;
      var wellFormed := LoadDefinitions(items);
      if wellFormed {
        CollectCommonAddresses();
        complete := true;
      }
      if HasNoDuplicates(old(listOfCAs)) { ExtendingAddsNoDuplicates(old(listOfCAs), listOfCAs); }
    }
  }

  /** The list with those of the first `n` keys appended that it does not hold yet. */
  function Extended(list: seq<int>, keys: seq<int>, n: nat): seq<int>
    requires n <= |keys|
  {
    if n == 0 then list
    else
      var r := Extended(list, keys, n - 1);
      if keys[n - 1] in r then r else r + [keys[n - 1]]
  }

  lemma {:induction false} ExtendedMeans(list: seq<int>, keys: seq<int>, n: nat)
    requires n <= |keys|
    ensures forall ca :: ca in Extended(list, keys, n) <==> ca in list || ca in keys[..n]
  {
    if n > 0 {
      ExtendedMeans(list, keys, n - 1);
      assert keys[..n] == keys[..n - 1] + [keys[n - 1]];
    }
  }

  /** `after` keeps `before` in front; the rest is strictly ascending and was not in `before`. */
  ghost predicate Extends(before: seq<int>, after: seq<int>) {
    && before <= after
    && StrictlyAscending(after[|before|..])
    && forall ca | ca in after[|before|..] :: ca !in before
  }

  ghost predicate HasNoDuplicates(list: seq<int>) {
    forall i, j | 0 <= i < j < |list| :: list[i] != list[j]
  }

  /** Repeated imports keep the list free of duplicates. */
  lemma ExtendingAddsNoDuplicates(before: seq<int>, after: seq<int>)
    requires Extends(before, after) && HasNoDuplicates(before)
    ensures HasNoDuplicates(after)
  {
    forall i, j | 0 <= i < j < |after| ensures after[i] != after[j] {
      if j >= |before| {
        assert after[j] == after[|before|..][j - |before|];
        if i >= |before| {
          assert after[i] == after[|before|..][i - |before|];
        } else {
          assert after[i] in before && after[j] in after[|before|..];
        }
      }
    }
  }

  lemma {:induction false} ExtendedAddsAscending(list: seq<int>, keys: seq<int>, n: nat)
    requires n <= |keys| && StrictlyAscending(keys)
    ensures Extends(list, Extended(list, keys, n))
    ensures forall ca | ca in Extended(list, keys, n)[|list|..] :: ca in keys[..n]
  {
    if n > 0 {
      var r := Extended(list, keys, n - 1);
      ExtendedAddsAscending(list, keys, n - 1);
      ExtendedMeans(list, keys, n - 1);
      assert keys[..n] == keys[..n - 1] + [keys[n - 1]];
      assert (r + [keys[n - 1]])[|list|..] == r[|list|..] + [keys[n - 1]];
      assert forall k | 0 <= k < |r[|list|..]| :: r[|list|..][k] in r[|list|..];
    }
  }

  lemma {:induction false} ExtendedFromNothing(keys: seq<int>, n: nat)
    requires n <= |keys| && StrictlyAscending(keys)
    ensures Extended([], keys, n) == keys[..n]
  {
    if n > 0 {
      ExtendedFromNothing(keys, n - 1);
      assert keys[n - 1] !in keys[..n - 1];
      assert keys[..n] == keys[..n - 1] + [keys[n - 1]];
    }
  }

  function Insert(defs: Definitions, d: Definition): (r: Definitions)
    ensures forall ca, ioa ::
              Lookup(r, ca, ioa) == (if ca == d.ca && ioa == d.ioa then Some(d) else Lookup(defs, ca, ioa))
    ensures forall ca :: ca in r <==> ca == d.ca || ca in defs
  {
    var row := if d.ca in defs then defs[d.ca] else map[];
    defs[d.ca := row[d.ioa := Some(d)]]
  }

  /** The addresses among the first `n` points that are marked as interrogation triggers. */
  function Flagged(items: seq<Item>, n: nat): set<(int, int)>
    requires n <= |items|
  {
    if n == 0 then {}
    else Flagged(items, n - 1) +
         if items[n - 1].Point? && items[n - 1].trigger then {(items[n - 1].def.ca, items[n - 1].def.ioa)} else {}
  }

  lemma {:induction false} AcceptedStep(items: seq<Item>, n: nat)
    requires n < |items| && n <= Accepted(items)
    ensures items[n].Malformed? <==> Accepted(items) == n
    ensures items[n].Point? ==> n + 1 <= Accepted(items)
  {
    if n > 0 { AcceptedStep(items[1..], n - 1); }
  }

  /** The point kept for an address is the last accepted one with it. */
  lemma {:induction false} LastAtMeans(items: seq<Item>, n: nat, ca: int, ioa: int)
    requires n <= |items|
    ensures match LastAt(items, n, ca, ioa)
            case None => forall i | 0 <= i < n && items[i].Point? :: items[i].def.ca != ca || items[i].def.ioa != ioa
            case Some(d) =>
              exists i :: 0 <= i < n && items[i].Point? && items[i].def == d && d.ca == ca && d.ioa == ioa
                && forall j | i < j < n && items[j].Point? :: items[j].def.ca != ca || items[j].def.ioa != ioa
  {
    if n > 0 { LastAtMeans(items, n - 1, ca, ioa); }
  }

  /** The trigger addresses are those of the points marked as triggers. */
  lemma {:induction false} FlaggedMeans(items: seq<Item>, n: nat, ca: int, ioa: int)
    requires n <= |items|
    ensures (ca, ioa) in Flagged(items, n) <==>
              exists i :: 0 <= i < n && items[i].Point? && items[i].trigger
                && items[i].def.ca == ca && items[i].def.ioa == ioa
  {
    if n > 0 { FlaggedMeans(items, n - 1, ca, ioa); }
  }
}
