/** The admin dashboard's statistics (`calculateStats`) and its
    zero-guarded percentage display. The breakdown by prize is an
    association list in insertion order, the order in which
    `Object.entries` lists the keys of the accumulator built by `reduce`. */
module Dashboard {
  import opened Domain
  import opened PrizeCatalog

  /** One key of the prize breakdown and its count. */
  datatype Tally = Tally(prize: string, count: nat)

  datatype Stats = Stats(total: nat, marketingOptIns: nat, prizeBreakdown: seq<Tally>)

  /** Reference count: the entries whose `prize_won` is `name`. */
  function Occurrences(data: seq<ParticipantEntry>, name: string): nat {
    if data == [] then 0
    else (if data[0].prizeWon == name then 1 else 0) + Occurrences(data[1..], name)
  }

  /** Reference count: the entries that opted in. */
  function OptInCount(data: seq<ParticipantEntry>): nat {
    if data == [] then 0
    else (if data[0].marketingOptIn then 1 else 0) + OptInCount(data[1..])
  }

  /** `data.filter(p => p.marketing_opt_in)`. */
  function OptedIn(data: seq<ParticipantEntry>): (r: seq<ParticipantEntry>)
    ensures forall k :: 0 <= k < |r| ==> r[k].marketingOptIn && r[k] in data
  {
    if data == [] then []
    else (if data[0].marketingOptIn then [data[0]] else []) + OptedIn(data[1..])
  }

  function Keys(ts: seq<Tally>): seq<string> {
    seq(|ts|, k requires 0 <= k < |ts| => ts[k].prize)
  }

  predicate Distinct(keys: seq<string>) {
    forall i, j :: 0 <= i < j < |keys| ==> keys[i] != keys[j]
  }

  /** `acc[name] || 0`. */
  function Lookup(ts: seq<Tally>, name: string): nat {
    if ts == [] then 0
    else if ts[0].prize == name then ts[0].count
    else Lookup(ts[1..], name)
  }

  function SumCounts(ts: seq<Tally>): nat {
    if ts == [] then 0 else ts[0].count + SumCounts(ts[1..])
  }

  /** `acc[name] = (acc[name] || 0) + 1`: bumps an existing key in place,
      or appends a new key with count 1. */
  function Bump(ts: seq<Tally>, name: string): seq<Tally> {
    if ts == [] then [Tally(name, 1)]
    else if ts[0].prize == name then [Tally(name, ts[0].count + 1)] + ts[1..]
    else [ts[0]] + Bump(ts[1..], name)
  }

  /** The `reduce` that builds the breakdown, one entry at a time. */
  function Breakdown(data: seq<ParticipantEntry>): seq<Tally> {
    if data == [] then []
    else Bump(Breakdown(data[..|data| - 1]), data[|data| - 1].prizeWon)
  }

  /** `calculateStats`. */
  function CalculateStats(data: seq<ParticipantEntry>): (s: Stats)
    ensures s.total == |data|
    ensures s.marketingOptIns == OptInCount(data) <= s.total
    ensures |s.prizeBreakdown| <= s.total
  {
    OptedInCounts(data);
    BreakdownSpec(data);
    Stats(|data|, |OptedIn(data)|, Breakdown(data))
  }

  lemma {:induction false} OptedInCounts(data: seq<ParticipantEntry>)
    ensures |OptedIn(data)| == OptInCount(data) <= |data|
  {
    if data != [] {
      OptedInCounts(data[1..]);
    }
  }

  lemma {:induction false} OccurrencesAppend(data: seq<ParticipantEntry>, e: ParticipantEntry, name: string)
    ensures Occurrences(data + [e], name) == Occurrences(data, name) + (if e.prizeWon == name then 1 else 0)
  {
    if data == [] {
      assert [e][1..] == [];
    } else {
      assert (data + [e])[1..] == data[1..] + [e];
      OccurrencesAppend(data[1..], e, name);
    }
  }

  /** What one bump does: the bumped key's count rises by one, every other
      count stays, the keys stay distinct and the sum rises by one. */
  lemma BumpSpec(ts: seq<Tally>, name: string)
    requires Distinct(Keys(ts))
    ensures Distinct(Keys(Bump(ts, name)))
    ensures forall x :: Lookup(Bump(ts, name), x) == Lookup(ts, x) + (if x == name then 1 else 0)
    ensures forall x :: x in Keys(Bump(ts, name)) <==> x in Keys(ts) || x == name
    ensures SumCounts(Bump(ts, name)) == SumCounts(ts) + 1
    ensures |Bump(ts, name)| <= |ts| + 1
    ensures (forall k :: 0 <= k < |ts| ==> ts[k].count > 0) ==>
      forall k :: 0 <= k < |Bump(ts, name)| ==> Bump(ts, name)[k].count > 0
  {
    BumpKeys(ts, name);
    BumpDistinct(ts, name);
    forall x ensures Lookup(Bump(ts, name), x) == Lookup(ts, x) + (if x == name then 1 else 0) {
      BumpLookup(ts, name, x);
    }
    BumpSumAndSize(ts, name);
  }

  lemma {:induction false} BumpKeys(ts: seq<Tally>, name: string)
    ensures forall x :: x in Keys(Bump(ts, name)) <==> x in Keys(ts) || x == name
  {
    var b := Bump(ts, name);
    if ts == [] {
      assert Keys(b) == [name];
    } else {
      var rest := ts[1..];
      assert Keys(ts) == [ts[0].prize] + Keys(rest);
      if ts[0].prize == name {
        assert b[1..] == rest;
        assert Keys(b) == [name] + Keys(rest);
      } else {
        BumpKeys(rest, name);
        assert b[1..] == Bump(rest, name);
        assert Keys(b) == [ts[0].prize] + Keys(Bump(rest, name));
      }
    }
  }

  lemma {:induction false} BumpDistinct(ts: seq<Tally>, name: string)
    requires Distinct(Keys(ts))
    ensures Distinct(Keys(Bump(ts, name)))
  {
    var b := Bump(ts, name);
    if ts != [] {
      var rest := ts[1..];
      HeadNotInTail(ts);
      if ts[0].prize == name {
        assert b[1..] == rest;
        assert Keys(b) == [name] + Keys(rest);
      } else {
        BumpDistinct(rest, name);
        BumpKeys(rest, name);
        assert b[1..] == Bump(rest, name);
        assert Keys(b) == [ts[0].prize] + Keys(Bump(rest, name));
        forall i, j | 0 <= i < j < |Keys(b)| ensures Keys(b)[i] != Keys(b)[j] {
          assert Keys(b)[j] == Keys(Bump(rest, name))[j - 1];
          if i > 0 {
            assert Keys(b)[i] == Keys(Bump(rest, name))[i - 1];
          }
        }
      }
    }
  }

  lemma {:induction false} BumpLookup(ts: seq<Tally>, name: string, x: string)
    requires Distinct(Keys(ts))
    ensures Lookup(Bump(ts, name), x) == Lookup(ts, x) + (if x == name then 1 else 0)
  {
    if ts != [] {
      var rest := ts[1..];
      HeadNotInTail(ts);
      if ts[0].prize == name {
        assert Bump(ts, name)[1..] == rest;
        if x != name {
          LookupAbsent(rest, name);
        }
      } else {
        BumpLookup(rest, name, x);
        assert Bump(ts, name)[1..] == Bump(rest, name);
      }
    }
  }

  lemma {:induction false} BumpSumAndSize(ts: seq<Tally>, name: string)
    ensures SumCounts(Bump(ts, name)) == SumCounts(ts) + 1
    ensures |Bump(ts, name)| <= |ts| + 1
    ensures (forall k :: 0 <= k < |ts| ==> ts[k].count > 0) ==>
      forall k :: 0 <= k < |Bump(ts, name)| ==> Bump(ts, name)[k].count > 0
  {
    if ts != [] {
      if ts[0].prize == name {
        assert Bump(ts, name)[1..] == ts[1..];
      } else {
        BumpSumAndSize(ts[1..], name);
        assert Bump(ts, name)[1..] == Bump(ts[1..], name);
      }
    }
  }

  lemma HeadNotInTail(ts: seq<Tally>)
    requires ts != [] && Distinct(Keys(ts))
    ensures ts[0].prize !in Keys(ts[1..])
    ensures Distinct(Keys(ts[1..]))
  {
    assert forall k :: 0 <= k < |ts| - 1 ==> Keys(ts[1..])[k] == Keys(ts)[k + 1];
    assert Keys(ts)[0] == ts[0].prize;
  }

  lemma {:induction false} LookupAbsent(ts: seq<Tally>, name: string)
    requires name !in Keys(ts)
    ensures Lookup(ts, name) == 0
  {
    if ts != [] {
      assert Keys(ts)[0] == ts[0].prize;
      assert Keys(ts[1..]) == Keys(ts)[1..];
      LookupAbsent(ts[1..], name);
    }
  }

  /** The breakdown maps each distinct `prize_won` to its number of
      occurrences, lists each key once and only keys that occur, its
      counts are positive and sum to the number of entries, and so it
      has at most as many keys as there are entries. */
  lemma {:induction false} BreakdownSpec(data: seq<ParticipantEntry>)
    ensures Distinct(Keys(Breakdown(data)))
    ensures forall name :: Lookup(Breakdown(data), name) == Occurrences(data, name)
    ensures forall name :: name in Keys(Breakdown(data)) <==> Occurrences(data, name) > 0
    ensures forall k :: 0 <= k < |Breakdown(data)| ==> Breakdown(data)[k].count > 0
    ensures SumCounts(Breakdown(data)) == |data|
    ensures |Breakdown(data)| <= |data|
  {
    if data != [] {
      var init := data[..|data| - 1];
      var e := data[|data| - 1];
      assert data == init + [e];
      BreakdownSpec(init);
      BumpSpec(Breakdown(init), e.prizeWon);
      forall name ensures Occurrences(data, name) == Occurrences(init, name) + (if e.prizeWon == name then 1 else 0) {
        OccurrencesAppend(init, e, name);
      }
    }
  }

  /** `Math.round(count / total * 100)` guarded by `total > 0`: the
      percentage rounded half up, computed over exact rationals. */
  function Percent(count: nat, total: nat): (p: nat)
    ensures total == 0 ==> p == 0
    ensures total > 0 ==> (2 * p - 1) * total <= 200 * count < (2 * p + 1) * total
    ensures count <= total ==> p <= 100
  {
    if total > 0 then RoundHalfUp(count, total) else 0
  }

  function RoundHalfUp(count: nat, total: nat): (p: nat)
    requires total > 0
    ensures (2 * p - 1) * total <= 200 * count < (2 * p + 1) * total
    ensures count <= total ==> p <= 100
  {
    var q := (200 * count + total) / (2 * total);
    RoundHalfUpBounds(count, total, q);
    q
  }

  lemma RoundHalfUpBounds(count: nat, total: nat, q: nat)
    requires total > 0 && q == (200 * count + total) / (2 * total)
    ensures (2 * q - 1) * total <= 200 * count < (2 * q + 1) * total
    ensures count <= total ==> q <= 100
  {
    var d := 2 * total;
    var n := 200 * count + total;
    assert n == q * d + n % d && 0 <= n % d < d;
    ScaleFacts(q, total);
    if q >= 101 {
      ScaleAtLeast(q, total);
    }
  }

  lemma ScaleFacts(q: int, t: int)
    ensures q * (2 * t) == 2 * (q * t)
    ensures (2 * q - 1) * t == 2 * (q * t) - t
    ensures (2 * q + 1) * t == 2 * (q * t) + t
  {
  }

  lemma ScaleAtLeast(q: int, t: int)
    requires q >= 101 && t > 0
    ensures q * t >= 101 * t
  {
    assert q * t == 101 * t + (q - 101) * t;
  }

  /** With no entries, every percentage the dashboard shows is 0. */
  lemma EmptyDashboardShowsZero()
    ensures var s := CalculateStats([]);
      && Percent(s.marketingOptIns, s.total) == 0
      && forall k :: 0 <= k < |s.prizeBreakdown| ==> Percent(s.prizeBreakdown[k].count, s.total) == 0
  {
  }

  /** The names a plain JavaScript object `{}` already answers through
      `Object.prototype`. Used as a key of the accumulator, such a name
      does not behave like a fresh key: `__proto__` ignores the write and
      the others read back an inherited function. */
  const ObjectPrototypeNames: seq<string> := [
    "__proto__", "constructor", "toString", "toLocaleString", "valueOf",
    "hasOwnProperty", "isPrototypeOf", "propertyIsEnumerable",
    "__defineGetter__", "__defineSetter__", "__lookupGetter__", "__lookupSetter__"]

  /** The prize names the widget itself saves. */
  const CatalogueNames: set<string> := set k | 0 <= k < |Prizes| :: Prizes[k].name

  lemma {:induction false} OccursAt(data: seq<ParticipantEntry>, name: string)
    requires Occurrences(data, name) > 0
    ensures exists i :: 0 <= i < |data| && data[i].prizeWon == name
  {
    if data[0].prizeWon != name {
      OccursAt(data[1..], name);
      var i :| 0 <= i < |data[1..]| && data[1..][i].prizeWon == name;
      assert data[i + 1].prizeWon == name;
    }
  }

  /** When every entry names a catalogue prize, as every row the widget
      saves does, no key of the breakdown is an `Object.prototype` name,
      so the association list and the JavaScript object agree. */
  lemma CatalogueKeysArePlain(data: seq<ParticipantEntry>)
    requires forall i :: 0 <= i < |data| ==> data[i].prizeWon in CatalogueNames
    ensures forall k :: 0 <= k < |Breakdown(data)| ==> Breakdown(data)[k].prize !in ObjectPrototypeNames
  {
    BreakdownSpec(data);
    forall k | 0 <= k < |Breakdown(data)|
      ensures Breakdown(data)[k].prize !in ObjectPrototypeNames
    {
      var name := Breakdown(data)[k].prize;
      assert Keys(Breakdown(data))[k] == name;
      OccursAt(data, name);
      var i :| 0 <= i < |data| && data[i].prizeWon == name;
      CatalogueNamesArePlain();
    }
  }

  /** Starts like an identifier of the JavaScript library: '_' or a
      lower-case letter. */
  predicate StartsLower(s: string) {
    s != [] && (s[0] == '_' || 'a' <= s[0] <= 'z')
  }

  /** Every `Object.prototype` name starts lower-case and no catalogue
      name does, so the two never meet. */
  lemma CatalogueNamesArePlain()
    ensures forall name :: name in CatalogueNames ==> name !in ObjectPrototypeNames
  {
    assert forall j :: 0 <= j < |ObjectPrototypeNames| ==> StartsLower(ObjectPrototypeNames[j]);
    assert forall k :: 0 <= k < |Prizes| ==> !StartsLower(Prizes[k].name);
  }
}
