/**
 `async_setup_platform`'s entity list: one `wippe1` entity for every entry of
 the `switches` configuration list, and a `wippe1` and a `wippe2` entity
 sharing one TCP client for every entry of `switches2`.

 Entity `i` of the list comes from entry `EntryOf(n1, i)` of `switches +
 switches2` (with `n1 == |switches|`) and carries the label `WippeOf(n1, i)`.
 Clients are numbered by the entry they were built for, in that same order.
 */
module Platform {
  import opened Wrappers
  import opened Channel
  import opened Entity

  /** One configuration entry: `ip`, `did`, `pid`, `dpid` and `dmn`. */
  datatype ConfigItem = ConfigItem(ip: string, did: string, pid: string, dpid: string, dmn: string)

  /** `config.get(key) or []`: an absent list reads as empty. */
  function ListOrEmpty(o: Option<seq<ConfigItem>>): seq<ConfigItem>
  {
    o.GetOr([])
  }

  /** The client `tcp_client(item['ip'])` with the entry's attributes assigned. */
  function ClientFor(item: ConfigItem, handle: nat): Client
  {
    Client(handle, item.ip, item.did, item.pid, item.dpid, item.dmn)
  }

  /** The `switches` loop: entry `i` gives one `wippe1` entity on client `first + i`. */
  function Singles(items: seq<ConfigItem>, first: nat): (r: seq<Switch>)
    ensures |r| == |items|
    ensures forall i :: 0 <= i < |items| ==> r[i] == New(ClientFor(items[i], first + i), Wippe1)
    decreases |items|
  {
    if |items| == 0 then []
    else [New(ClientFor(items[0], first), Wippe1)] + Singles(items[1..], first + 1)
  }

  /** The `switches2` loop: each entry gives a `wippe1` and a `wippe2` entity on one client. */
  function Pairs(items: seq<ConfigItem>, first: nat): (r: seq<Switch>)
    ensures |r| == 2 * |items|
    decreases |items|
  {
    if |items| == 0 then []
    else
      var c := ClientFor(items[0], first);
      [New(c, Wippe1), New(c, Wippe2)] + Pairs(items[1..], first + 1)
  }

  /**
   Entry `j` of the `switches2` loop gives the `wippe1` entity at `2 * j` and
   the `wippe2` entity at `2 * j + 1`, both on client `first + j`.
   */
  lemma {:induction false} PairsAt(items: seq<ConfigItem>, first: nat, j: nat)
    requires j < |items|
    ensures Pairs(items, first)[2 * j] == New(ClientFor(items[j], first + j), Wippe1)
    ensures Pairs(items, first)[2 * j + 1] == New(ClientFor(items[j], first + j), Wippe2)
    decreases j
  {
    var c := ClientFor(items[0], first);
    var rest := Pairs(items[1..], first + 1);
    assert Pairs(items, first) == [New(c, Wippe1), New(c, Wippe2)] + rest;
    if j > 0 {
      var m := 2 * (j - 1);
      assert 2 * j == m + 2 && 2 * j + 1 == m + 3;
      PairsAt(items[1..], first + 1, j - 1);
      assert Pairs(items, first)[m + 2] == rest[m];
      assert Pairs(items, first)[m + 3] == rest[m + 1];
      assert items[1..][j - 1] == items[j];
      assert first + 1 + (j - 1) == first + j;
    } else {
      assert Pairs(items, first)[0] == New(c, Wippe1);
      assert Pairs(items, first)[1] == New(c, Wippe2);
    }
  }

  /** The entity list built from the two configuration lists. */
  function Build(switches: seq<ConfigItem>, switches2: seq<ConfigItem>): (r: seq<Switch>)
    ensures |r| == |switches| + 2 * |switches2|
  {
    Singles(switches, 0) + Pairs(switches2, |switches|)
  }

  /** `async_setup_platform`'s list, from the configuration's possibly absent lists. */
  function Setup(switches: Option<seq<ConfigItem>>, switches2: Option<seq<ConfigItem>>): (r: seq<Switch>)
    ensures |r| == |ListOrEmpty(switches)| + 2 * |ListOrEmpty(switches2)|
    ensures forall i :: 0 <= i < |r| ==> r[i].available && !r[i].isOn && r[i].state == map[]
  {
    var r := Build(ListOrEmpty(switches), ListOrEmpty(switches2));
    BuildLayout(ListOrEmpty(switches), ListOrEmpty(switches2));
    r
  }

  /** The configuration entry (index into `switches + switches2`) entity `i` comes from. */
  function EntryOf(n1: nat, i: nat): nat
  {
    if i < n1 then i else n1 + (i - n1) / 2
  }

  /** The label of entity `i`. */
  function WippeOf(n1: nat, i: nat): string
  {
    if i < n1 || (i - n1) % 2 == 0 then Wippe1 else Wippe2
  }

  /** The position of the `wippe1` entity of entry `a`. */
  function FirstOf(n1: nat, a: nat): nat
  {
    if a < n1 then a else n1 + 2 * (a - n1)
  }

  predicate DistinctUniqueIds(r: seq<Switch>)
  {
    forall i, j :: 0 <= i < j < |r| ==> r[i].uniqueId != r[j].uniqueId
  }

  predicate DistinctDeviceIds(items: seq<ConfigItem>)
  {
    forall a, b :: 0 <= a < b < |items| ==> items[a].did != items[b].did
  }

  /** Entity `i` of the list is the one `__init__` builds for its entry, client and label. */
  lemma BuildAt(s1: seq<ConfigItem>, s2: seq<ConfigItem>, i: nat)
    requires i < |Build(s1, s2)|
    ensures EntryOf(|s1|, i) < |s1 + s2|
    ensures Build(s1, s2)[i]
      == New(ClientFor((s1 + s2)[EntryOf(|s1|, i)], EntryOf(|s1|, i)), WippeOf(|s1|, i))
  {
    if i >= |s1| {
      BuildAtPair(s1, s2, i);
    } else {
      assert (s1 + s2)[i] == s1[i];
      assert Build(s1, s2)[i] == Singles(s1, 0)[i];
    }
  }

  lemma BuildAtPair(s1: seq<ConfigItem>, s2: seq<ConfigItem>, i: nat)
    requires |s1| <= i < |Build(s1, s2)|
    ensures EntryOf(|s1|, i) < |s1 + s2|
    ensures Build(s1, s2)[i]
      == New(ClientFor((s1 + s2)[EntryOf(|s1|, i)], EntryOf(|s1|, i)), WippeOf(|s1|, i))
  {
    var n1 := |s1|;
    var m: nat := i - n1;
    var j := m / 2;
    var even := m % 2 == 0;
    assert j < |s2| && (even ==> m == 2 * j) && (!even ==> m == 2 * j + 1) by {
      Parity(m);
    }
    assert EntryOf(n1, i) == n1 + j;
    assert WippeOf(n1, i) == if even then Wippe1 else Wippe2;
    assert (s1 + s2)[n1 + j] == s2[j];
    var c := ClientFor(s2[j], n1 + j);
    assert Build(s1, s2)[i] == Pairs(s2, n1)[m] by {
      BuildSecond(s1, s2, i);
    }
    assert Pairs(s2, n1)[m] == New(c, if even then Wippe1 else Wippe2) by {
      PairsAt(s2, n1, j);
    }
  }

  lemma Parity(m: nat)
    ensures m == 2 * (m / 2) + m % 2
    ensures m % 2 == 0 || m % 2 == 1
  {
  }

  /** Past the `switches` entities the list continues with the `switches2` ones. */
  lemma BuildSecond(s1: seq<ConfigItem>, s2: seq<ConfigItem>, i: nat)
    requires |s1| <= i < |Build(s1, s2)|
    ensures Build(s1, s2)[i] == Pairs(s2, |s1|)[i - |s1|]
  {
  }

  /** The whole list, entity by entity, as `BuildAt` states it. */
  lemma BuildLayout(s1: seq<ConfigItem>, s2: seq<ConfigItem>)
    ensures forall i :: 0 <= i < |Build(s1, s2)| ==>
      && EntryOf(|s1|, i) < |s1 + s2|
      && Build(s1, s2)[i]
         == New(ClientFor((s1 + s2)[EntryOf(|s1|, i)], EntryOf(|s1|, i)), WippeOf(|s1|, i))
  {
    forall i | 0 <= i < |Build(s1, s2)|
      ensures EntryOf(|s1|, i) < |s1 + s2|
      ensures Build(s1, s2)[i]
         == New(ClientFor((s1 + s2)[EntryOf(|s1|, i)], EntryOf(|s1|, i)), WippeOf(|s1|, i))
    {
      BuildAt(s1, s2, i);
    }
  }

  /** Entity `FirstOf(n1, a)` is entry `a`'s `wippe1` entity, and `FirstOf` is strictly increasing. */
  lemma FirstOfLayout(n1: nat, n2: nat, a: nat, b: nat)
    requires a < b < n1 + n2
    ensures FirstOf(n1, a) < FirstOf(n1, b) < n1 + 2 * n2
    ensures EntryOf(n1, FirstOf(n1, a)) == a && WippeOf(n1, FirstOf(n1, a)) == Wippe1
    ensures EntryOf(n1, FirstOf(n1, b)) == b && WippeOf(n1, FirstOf(n1, b)) == Wippe1
  {
  }

  /** An entity's position is fixed by its entry and its label. */
  lemma PositionFromOrigin(n1: nat, i: nat, j: nat)
    requires EntryOf(n1, i) == EntryOf(n1, j) && WippeOf(n1, i) == WippeOf(n1, j)
    ensures i == j
  {
    if i >= n1 && j >= n1 {
      assert i - n1 == 2 * ((i - n1) / 2) + (i - n1) % 2;
      assert j - n1 == 2 * ((j - n1) / 2) + (j - n1) % 2;
    }
  }

  /** Entity `i`'s client is the one built for its entry, numbered by that entry. */
  lemma ClientAt(s1: seq<ConfigItem>, s2: seq<ConfigItem>, i: nat)
    requires i < |Build(s1, s2)|
    ensures EntryOf(|s1|, i) < |s1 + s2|
    ensures Build(s1, s2)[i].client == ClientFor((s1 + s2)[EntryOf(|s1|, i)], EntryOf(|s1|, i))
    ensures Build(s1, s2)[i].wippe == WippeOf(|s1|, i)
  {
    BuildAt(s1, s2, i);
  }

  /**
   The two entities built for a `switches2` entry share one client; entities
   of different entries never do.
   */
  lemma ClientsShared(s1: seq<ConfigItem>, s2: seq<ConfigItem>, i: nat, j: nat)
    requires i < |Build(s1, s2)| && j < |Build(s1, s2)|
    ensures Build(s1, s2)[i].client == Build(s1, s2)[j].client <==> EntryOf(|s1|, i) == EntryOf(|s1|, j)
    ensures i >= |s1| && (i - |s1|) % 2 == 0 ==>
      && i + 1 < |Build(s1, s2)|
      && Build(s1, s2)[i].client == Build(s1, s2)[i + 1].client
      && Build(s1, s2)[i].wippe == Wippe1
      && Build(s1, s2)[i + 1].wippe == Wippe2
  {
    var n1 := |s1|;
    var r := Build(s1, s2);
    assert r[i].client == r[j].client <==> EntryOf(n1, i) == EntryOf(n1, j) by {
      ClientAt(s1, s2, i);
      ClientAt(s1, s2, j);
    }
    if i >= n1 && (i - n1) % 2 == 0 {
      assert i + 1 < |r| && EntryOf(n1, i + 1) == EntryOf(n1, i) && WippeOf(n1, i + 1) == Wippe2 by {
        Parity(i - n1);
        Parity(i + 1 - n1);
      }
      assert r[i].client == r[i + 1].client && r[i].wippe == Wippe1 && r[i + 1].wippe == Wippe2 by {
        ClientAt(s1, s2, i);
        ClientAt(s1, s2, i + 1);
      }
    }
  }

  /**
   The unique ids of the entity list are pairwise distinct exactly when the
   device ids of all configuration entries, across both lists, are.
   */
  lemma UniqueIdsDistinct(s1: seq<ConfigItem>, s2: seq<ConfigItem>)
    ensures DistinctUniqueIds(Build(s1, s2)) <==> DistinctDeviceIds(s1 + s2)
  {
    var r := Build(s1, s2);
    var all := s1 + s2;
    var n1 := |s1|;
    BuildLayout(s1, s2);
    if DistinctDeviceIds(all) {
      forall i, j | 0 <= i < j < |r|
        ensures r[i].uniqueId != r[j].uniqueId
      {
        var a, b := EntryOf(n1, i), EntryOf(n1, j);
        UniqueIdInjective(all[a].did, WippeOf(n1, i), all[b].did, WippeOf(n1, j));
        if r[i].uniqueId == r[j].uniqueId {
          assert a == b;
          PositionFromOrigin(n1, i, j);
        }
      }
    }
    if DistinctUniqueIds(r) {
      forall a, b | 0 <= a < b < |all|
        ensures all[a].did != all[b].did
      {
        FirstOfLayout(n1, |s2|, a, b);
        var i, j := FirstOf(n1, a), FirstOf(n1, b);
        assert r[i].uniqueId != r[j].uniqueId;
      }
    }
  }

  /** An absent `switches` or `switches2` list builds the same entities as an empty one. */
  lemma AbsentListsAreEmpty(s1: Option<seq<ConfigItem>>, s2: Option<seq<ConfigItem>>)
    ensures Setup(None, s2) == Setup(Some([]), s2)
    ensures Setup(s1, None) == Setup(s1, Some([]))
  {
  }

  /** Two configuration entries give three entities on two clients. */
  lemma SetupExample(single: ConfigItem, dual: ConfigItem)
    ensures var r := Setup(Some([single]), Some([dual]));
      && |r| == 3
      && r[0].wippe == Wippe1 && r[0].client.deviceId == single.did
      && r[1].wippe == Wippe1 && r[2].wippe == Wippe2
      && r[1].client == r[2].client && r[0].client != r[1].client
    ensures Setup(None, Some([dual])) == Setup(Some([]), Some([dual]))
  {
    BuildLayout([single], [dual]);
  }
}
