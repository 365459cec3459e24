/**
 The consistent hash ring that routes cache keys to Redis nodes: virtual nodes on a circle of
 2^32 positions, a sorted position list and a map from position to node name.
 */
module HashRing {
  import opened Options
  import opened Ordering
  import Decimal

  const CIRCLE: nat := 0x1_0000_0000
  type Position = p: nat | p < CIRCLE

  /** The hash is a parameter: nothing below depends on its being SHA-256. */
  datatype Layout = Layout(hash: string -> Position, replicas: nat) {
    function VnodeKey(name: string, i: nat): string {
      name + ",#" + Decimal.Itoa(i)
    }

    function VnodeAt(name: string, i: nat): (p: nat)
      ensures p < CIRCLE
    {
      hash(VnodeKey(name, i))
    }

    /** The positions of a node, replica by replica; replicas may collide. */
    function Positions(name: string): (ps: seq<nat>)
      ensures |ps| == replicas
      ensures forall p :: p in ps ==> p < CIRCLE
    {
      seq(replicas, i requires 0 <= i < replicas => VnodeAt(name, i))
    }
  }

  function Elements(s: seq<nat>): set<nat> {
    set p | p in s
  }

  datatype Ring<Client> = Ring(vnodes: seq<nat>, nodeMap: map<nat, string>, clients: map<string, Client>)

  function Claim(m: map<nat, string>, ps: seq<nat>, name: string): map<nat, string> {
    map p | p in m.Keys + Elements(ps) :: if p in ps then name else m[p]
  }

  function Empty<Client>(): Ring<Client> {
    Ring([], map[], map[])
  }

  /** Placing a node without sorting yet: what one turn of the constructor's loop does. */
  function Place<Client>(L: Layout, r: Ring<Client>, name: string, client: Client): Ring<Client> {
    Ring(r.vnodes + L.Positions(name), Claim(r.nodeMap, L.Positions(name), name), r.clients[name := client])
  }

  function PlaceAll<Client>(L: Layout, clients: map<string, Client>, order: seq<string>): Ring<Client>
    requires forall i :: 0 <= i < |order| ==> order[i] in clients
  {
    if order == [] then Empty() else
      var last := order[|order| - 1];
      Place(L, PlaceAll(L, clients, order[..|order| - 1]), last, clients[last])
  }

  /** `order` lists every key of `clients` once. */
  predicate Enumerates<Client>(order: seq<string>, clients: map<string, Client>) {
    && (forall i, j :: 0 <= i < j < |order| ==> order[i] != order[j])
    && (forall i :: 0 <= i < |order| ==> order[i] in clients)
    && (forall name :: name in clients ==> name in order)
  }

  function Sorting<Client>(r: Ring<Client>): Ring<Client> {
    r.(vnodes := Sort(r.vnodes))
  }

  function Add<Client>(L: Layout, r: Ring<Client>, name: string, client: Client): Ring<Client> {
    if name in r.clients then r else Sorting(Place(L, r, name, client))
  }

  /** Remove, when its slice allocation does not panic. */
  function Remove<Client>(L: Layout, r: Ring<Client>, name: string): Ring<Client> {
    var gone := Elements(L.Positions(name));
    Ring(Without(r.vnodes, gone), r.nodeMap - gone, r.clients - {name})
  }

  // ---------------------------------------------------------------- the circle

  /** How far `p` lies clockwise of `h`. */
  function Clockwise(h: Position, p: nat): (d: int)
    requires p < CIRCLE
    ensures 0 <= d < CIRCLE
  {
    if p >= h then p - h else p + CIRCLE - h
  }

  ghost predicate OnCircle(ps: set<nat>) {
    forall p :: p in ps ==> p < CIRCLE
  }

  /** `p` is the first of `ps` met when walking clockwise from `h`. */
  ghost predicate Nearest(ps: set<nat>, h: Position, p: nat)
    requires OnCircle(ps)
  {
    p in ps && forall q :: q in ps ==> Clockwise(h, p) <= Clockwise(h, q)
  }

  lemma {:induction false} NearestExists(ps: set<nat>, h: Position) returns (p: nat)
    requires OnCircle(ps) && ps != {}
    ensures Nearest(ps, h, p)
    decreases |ps|
  {
    p :| p in ps;
    if ps != {p} {
      assert ps - {p} != {};
      var q := NearestExists(ps - {p}, h);
      if Clockwise(h, q) < Clockwise(h, p) {
        p := q;
      }
    }
  }

  lemma NearestIsUnique(ps: set<nat>, h: Position, p: nat, q: nat)
    requires OnCircle(ps) && Nearest(ps, h, p) && Nearest(ps, h, q)
    ensures p == q
  {
    assert Clockwise(h, p) == Clockwise(h, q);
  }

  /** The reference: the owner of a hash is the node named at its nearest clockwise position. */
  ghost function Owner(m: map<nat, string>, h: Position): string
    requires OnCircle(m.Keys)
  {
    if m.Keys == {} then "" else
      assert exists p :: Nearest(m.Keys, h, p) by {
        var p := NearestExists(m.Keys, h);
      }
      var p :| Nearest(m.Keys, h, p);
      m[p]
  }

  lemma OwnerAt(m: map<nat, string>, h: Position, p: nat)
    requires OnCircle(m.Keys) && Nearest(m.Keys, h, p)
    ensures Owner(m, h) == m[p]
  {
    forall q | Nearest(m.Keys, h, q)
      ensures q == p
    {
      NearestIsUnique(m.Keys, h, p, q);
    }
  }

  // ---------------------------------------------------------------- the reachable-ring invariant

  /** What every ring keeps, with or without hash collisions. */
  ghost predicate WellFormed<Client>(L: Layout, r: Ring<Client>) {
    && Sorted(r.vnodes)
    && Elements(r.vnodes) == r.nodeMap.Keys
    && Owned(L, r)
  }

  ghost predicate Owned<Client>(L: Layout, r: Ring<Client>) {
    forall p :: p in r.nodeMap ==> r.nodeMap[p] in r.clients && p in L.Positions(r.nodeMap[p])
  }

  lemma RingIsOnCircle<Client>(L: Layout, r: Ring<Client>)
    requires Owned(L, r)
    ensures OnCircle(r.nodeMap.Keys)
  {
  }

  lemma SortingKeeps<Client>(L: Layout, r: Ring<Client>)
    requires Elements(r.vnodes) == r.nodeMap.Keys && Owned(L, r)
    ensures WellFormed(L, Sorting(r))
  {
    SortSorts(r.vnodes);
    forall p
      ensures p in Sort(r.vnodes) <==> p in r.vnodes
    {
      assert p in Sort(r.vnodes) <==> p in multiset(Sort(r.vnodes));
      assert p in r.vnodes <==> p in multiset(r.vnodes);
    }
  }

  lemma {:induction false} PlaceAllKeeps<Client>(L: Layout, clients: map<string, Client>, order: seq<string>)
    requires forall i :: 0 <= i < |order| ==> order[i] in clients
    ensures var r := PlaceAll(L, clients, order); Elements(r.vnodes) == r.nodeMap.Keys && Owned(L, r)
  {
    if order != [] {
      var last := order[|order| - 1];
      PlaceAllKeeps(L, clients, order[..|order| - 1]);
    }
  }

  lemma {:induction false} PlaceAllMembers<Client>(L: Layout, clients: map<string, Client>, order: seq<string>, i: nat)
    requires forall j :: 0 <= j < |order| ==> order[j] in clients
    requires i < |order|
    ensures order[i] in PlaceAll(L, clients, order).clients
    decreases |order|
  {
    var n := |order| - 1;
    if i < n {
      PlaceAllMembers(L, clients, order[..n], i);
      assert order[..n][i] == order[i];
    }
  }

  /** Every node has the client it was given. */
  lemma {:induction false} PlaceAllClients<Client>(L: Layout, clients: map<string, Client>, order: seq<string>)
    requires forall j :: 0 <= j < |order| ==> order[j] in clients
    ensures var r := PlaceAll(L, clients, order);
            forall name :: name in r.clients ==> name in clients && r.clients[name] == clients[name]
    decreases |order|
  {
    if order != [] {
      PlaceAllClients(L, clients, order[..|order| - 1]);
    }
  }

  lemma {:induction false} BuiltClients<Client>(L: Layout, clients: map<string, Client>, order: seq<string>)
    requires Enumerates(order, clients)
    ensures PlaceAll(L, clients, order).clients == clients
  {
    PlaceAllClients(L, clients, order);
    forall name | name in clients
      ensures name in PlaceAll(L, clients, order).clients
    {
      var i :| 0 <= i < |order| && order[i] == name;
      PlaceAllMembers(L, clients, order, i);
    }
  }

  lemma {:induction false} PlaceAllLength<Client>(L: Layout, clients: map<string, Client>, order: seq<string>)
    requires forall i :: 0 <= i < |order| ==> order[i] in clients
    ensures |PlaceAll(L, clients, order).vnodes| == |order| * L.replicas
    decreases |order|
  {
    if order != [] {
      PlaceAllLength(L, clients, order[..|order| - 1]);
      assert |order| * L.replicas == (|order| - 1) * L.replicas + L.replicas;
    }
  }

  /** `order[k]` is the last node to claim position `p`. */
  predicate LastClaim(L: Layout, order: seq<string>, p: nat, k: nat)
    requires k < |order|
  {
    p in L.Positions(order[k]) && forall j :: k < j < |order| ==> p !in L.Positions(order[j])
  }

  /** Every node claims its positions, and each position belongs to the last that did. */
  ghost predicate ClaimedInOrder(L: Layout, order: seq<string>, m: map<nat, string>) {
    && (forall k, p :: 0 <= k < |order| && p in L.Positions(order[k]) ==> p in m)
    && (forall p :: p in m ==> exists k :: 0 <= k < |order| && LastClaim(L, order, p, k) && m[p] == order[k])
  }

  lemma {:induction false} LastClaimKept(L: Layout, order: seq<string>, p: nat, k: nat)
    requires k < |order| - 1 && LastClaim(L, order[..|order| - 1], p, k) && p !in L.Positions(order[|order| - 1])
    ensures LastClaim(L, order, p, k)
  {
    var n := |order| - 1;
    assert order[..n][k] == order[k];
    forall j | k < j < |order|
      ensures p !in L.Positions(order[j])
    {
      if j < n {
        assert order[..n][j] == order[j];
      }
    }
  }

  lemma {:induction false} ClaimedBy(L: Layout, order: seq<string>, before: map<nat, string>, p: nat)
    requires order != [] && ClaimedInOrder(L, order[..|order| - 1], before)
    requires p in Claim(before, L.Positions(order[|order| - 1]), order[|order| - 1])
    ensures exists k :: 0 <= k < |order| && LastClaim(L, order, p, k) &&
                        Claim(before, L.Positions(order[|order| - 1]), order[|order| - 1])[p] == order[k]
  {
    var n := |order| - 1;
    if p in L.Positions(order[n]) {
      assert LastClaim(L, order, p, n);
    } else {
      var k :| 0 <= k < n && LastClaim(L, order[..n], p, k) && before[p] == order[..n][k];
      LastClaimKept(L, order, p, k);
    }
  }

  lemma {:induction false} ClaimLast(L: Layout, order: seq<string>, before: map<nat, string>)
    requires order != [] && ClaimedInOrder(L, order[..|order| - 1], before)
    ensures ClaimedInOrder(L, order, Claim(before, L.Positions(order[|order| - 1]), order[|order| - 1]))
  {
    var n := |order| - 1;
    var m := Claim(before, L.Positions(order[n]), order[n]);
    forall p | p in m
      ensures exists k :: 0 <= k < |order| && LastClaim(L, order, p, k) && m[p] == order[k]
    {
      ClaimedBy(L, order, before, p);
    }
    forall k, p | 0 <= k < |order| && p in L.Positions(order[k])
      ensures p in m
    {
      if k < n {
        assert order[..n][k] == order[k];
      }
    }
  }

  lemma {:induction false} PlaceAllClaims<Client>(L: Layout, clients: map<string, Client>, order: seq<string>)
    requires forall i :: 0 <= i < |order| ==> order[i] in clients
    ensures ClaimedInOrder(L, order, PlaceAll(L, clients, order).nodeMap)
    decreases |order|
  {
    if order != [] {
      PlaceAllClaims(L, clients, order[..|order| - 1]);
      ClaimLast(L, order, PlaceAll(L, clients, order[..|order| - 1]).nodeMap);
    }
  }

  /** A node's replicas are appended in order, the i-th hashed as the node's name, a comma, a hash sign and i;
      the node takes all their positions, those of other nodes included, and leaves the rest alone. */
  predicate Placed(L: Layout, name: string, before: seq<nat>, owners: map<nat, string>, after: seq<nat>,
                   owners': map<nat, string>)
  {
    && |after| == |before| + L.replicas && after[..|before|] == before
    && (forall i :: 0 <= i < L.replicas ==> after[|before| + i] == L.hash(name + ",#" + Decimal.Itoa(i)))
    && (forall j :: |before| <= j < |after| ==> after[j] in owners' && owners'[after[j]] == name)
    && (forall p :: p in owners ==> p in owners' && (owners'[p] == owners[p] || p in after[|before|..]))
    && (forall p :: p in owners' ==> p in owners || p in after[|before|..])
  }

  lemma ReplicasPlaced(L: Layout, name: string, before: seq<nat>, owners: map<nat, string>)
    ensures Placed(L, name, before, owners, before + L.Positions(name), Claim(owners, L.Positions(name), name))
  {
    assert (before + L.Positions(name))[|before|..] == L.Positions(name);
  }

  lemma AddKeeps<Client>(L: Layout, r: Ring<Client>, name: string, client: Client)
    requires WellFormed(L, r)
    ensures WellFormed(L, Add(L, r, name, client))
  {
    SortingKeeps(L, Place(L, r, name, client));
  }

  lemma RemoveKeeps<Client>(L: Layout, r: Ring<Client>, name: string)
    requires WellFormed(L, r)
    ensures WellFormed(L, Remove(L, r, name))
  {
    var gone := Elements(L.Positions(name));
    WithoutElements(r.vnodes, gone);
    WithoutSorted(r.vnodes, gone);
  }

  /** What the constructor builds, for every order in which it meets the clients. */
  lemma {:induction false} BuiltFrom<Client>(L: Layout, clients: map<string, Client>, order: seq<string>)
    requires Enumerates(order, clients)
    ensures var r := Sorting(PlaceAll(L, clients, order));
            && WellFormed(L, r) && r.clients == clients
            && |r.vnodes| == |order| * L.replicas && ClaimedInOrder(L, order, r.nodeMap)
  {
    var r := PlaceAll(L, clients, order);
    PlaceAllKeeps(L, clients, order);
    BuiltClients(L, clients, order);
    PlaceAllClaims(L, clients, order);
    PlaceAllLength(L, clients, order);
    SortingKeeps(L, r);
    assert |multiset(Sort(r.vnodes))| == |Sort(r.vnodes)| && |multiset(r.vnodes)| == |r.vnodes|;
  }

  // ---------------------------------------------------------------- the ring object

  class HashRing<Client(==)> {
    const layout: Layout
    var vnodes: seq<nat>
    var nodeMap: map<nat, string>
    var clients: map<string, Client>

    ghost function State(): Ring<Client>
      reads this
    {
      Ring(vnodes, nodeMap, clients)
    }

    ghost predicate Valid()
      reads this
    {
      WellFormed(layout, State())
    }

    /** NewHashRing; `order` is the order in which Go happens to iterate over the client map. */
    constructor (layout: Layout, clients: map<string, Client>, order: seq<string>)
      requires Enumerates(order, clients)
      ensures this.layout == layout && Valid()
      ensures this.clients == clients
      ensures |vnodes| == |order| * layout.replicas && ClaimedInOrder(layout, order, nodeMap)
      ensures State() == Sorting(PlaceAll(layout, clients, order))
    {
      this.layout := layout;
      vnodes, nodeMap, this.clients := [], map[], map[];
      new;
      PlaceEach(clients, order);
      vnodes := Sort(vnodes);
      BuiltFrom(layout, clients, order);
    }

    method PlaceEach(clients: map<string, Client>, order: seq<string>)
      requires State() == Empty()
      requires forall i :: 0 <= i < |order| ==> order[i] in clients
      modifies this
      ensures State() == PlaceAll(layout, clients, order)
    {
      for k := 0 to |order|
        invariant State() == PlaceAll(layout, clients, order[..k])
      {
        this.clients := this.clients[order[k] := clients[order[k]]];
        AddVnodes(order[k]);
        assert order[..k + 1][..k] == order[..k];
      }
      assert order[..|order|] == order;
    }

    method AddVnodes(name: string)
      modifies this`vnodes, this`nodeMap
      ensures vnodes == old(vnodes) + layout.Positions(name)
      ensures nodeMap == Claim(old(nodeMap), layout.Positions(name), name)
    {
      ghost var ps := layout.Positions(name);
      for i := 0 to layout.replicas
        invariant vnodes == old(vnodes) + ps[..i]
        invariant nodeMap == Claim(old(nodeMap), ps[..i], name)
      {
        var h := layout.hash(layout.VnodeKey(name, i));
        assert ps[..i + 1] == ps[..i] + [h];
        vnodes := vnodes + [h];
        nodeMap := nodeMap[h := name];
      }
      assert ps[..layout.replicas] == ps;
    }

    /** The owner's name by binary search; it refines the clockwise walk. */
    method NodeFor(key: string) returns (name: string)
      requires Valid()
      ensures OnCircle(nodeMap.Keys)
      ensures name == Owner(nodeMap, layout.hash(key))
      ensures vnodes == [] ==> name == ""
      ensures vnodes != [] ==> name in clients
      ensures vnodes != [] ==>
                exists p :: p in nodeMap && nodeMap[p] == name &&
                  var h := layout.hash(key);
                  if exists q :: q in nodeMap && q >= h
                  then p >= h && forall q :: q in nodeMap && q >= h ==> p <= q
                  else forall q :: q in nodeMap ==> p <= q
    {
      RingIsOnCircle(layout, State());
      if |vnodes| == 0 {
        return "";
      }
      var h := layout.hash(key);
      var idx := FindIndex(vnodes, h);
      if idx == |vnodes| {
        idx := 0;
      }
      assert vnodes[idx] in Elements(vnodes);
      name := nodeMap[vnodes[idx]];
      forall q | q in nodeMap
        ensures Clockwise(h, vnodes[idx]) <= Clockwise(h, q)
      {
        assert q in Elements(vnodes);
      }
      OwnerAt(nodeMap, h, vnodes[idx]);
    }

    method ClientFor(key: string) returns (client: Option<Client>)
      requires Valid()
      ensures OnCircle(nodeMap.Keys)
      ensures var name := Owner(nodeMap, layout.hash(key));
              if name == "" then client == None else name in clients && client == Some(clients[name])
    {
      var name := NodeFor(key);
      if name == "" {
        return None;
      }
      client := Some(clients[name]);
    }

    method AddNode(name: string, client: Client)
      requires Valid()
      modifies this
      ensures Valid() && State() == Add(layout, old(State()), name, client)
      ensures name in old(clients) ==> State() == old(State())
      ensures name !in old(clients) ==>
                && clients == old(clients)[name := client]
                && multiset(vnodes) == old(multiset(vnodes)) + multiset(layout.Positions(name))
                && (forall p :: p in nodeMap <==> p in old(nodeMap) || p in layout.Positions(name))
                && (forall p :: p in nodeMap ==>
                      nodeMap[p] == if p in layout.Positions(name) then name else old(nodeMap)[p])
    {
      AddKeeps(layout, State(), name, client);
      if name in clients {
        return;
      }
      clients := clients[name := client];
      AddVnodes(name);
      SortSorts(vnodes);
      vnodes := Sort(vnodes);
    }

    /** `ok` is false when the allocation of the filtered slice panics: its capacity is negative. */
    method RemoveNode(name: string) returns (ok: bool)
      requires Valid()
      modifies this
      ensures Valid()
      ensures ok <==> old(|vnodes|) >= layout.replicas
      ensures State() == if ok then Remove(layout, old(State()), name) else old(State())
      ensures ok ==>
                && clients == old(clients) - {name}
                && (forall p :: p in nodeMap <==> p in old(nodeMap) && p !in layout.Positions(name))
                && (forall p :: p in nodeMap ==> nodeMap[p] == old(nodeMap)[p])
                && (forall p :: multiset(vnodes)[p] ==
                      if p in layout.Positions(name) then 0 else old(multiset(vnodes))[p])
    {
      var toRemove: set<nat> := {};
      ghost var ps := layout.Positions(name);
      for i := 0 to layout.replicas
        invariant toRemove == Elements(ps[..i])
      {
        toRemove := toRemove + {layout.hash(layout.VnodeKey(name, i))};
        assert ps[..i + 1] == ps[..i] + [layout.hash(layout.VnodeKey(name, i))];
      }
      assert ps[..layout.replicas] == ps;
      if |vnodes| - layout.replicas < 0 {
        return false;
      }
      var filtered := [];
      for i := 0 to |vnodes|
        invariant filtered == Without(vnodes[..i], toRemove)
      {
        assert vnodes[..i + 1][..i] == vnodes[..i];
        if vnodes[i] !in toRemove {
          filtered := filtered + [vnodes[i]];
        }
      }
      assert vnodes[..|vnodes|] == vnodes;
      RemoveKeeps(layout, State(), name);
      WithoutCounts(vnodes, toRemove);
      vnodes := filtered;
      nodeMap := nodeMap - toRemove;
      clients := clients - {name};
      ok := true;
    }
  }

  /** Binary search. With duplicates it may return a later index, but never a later position. */
  method FindIndex(vnodes: seq<nat>, h: nat) returns (idx: nat)
    requires Sorted(vnodes)
    ensures idx <= |vnodes|
    ensures idx == |vnodes| <==> forall i :: 0 <= i < |vnodes| ==> vnodes[i] < h
    ensures idx < |vnodes| ==> vnodes[idx] >= h
    ensures idx < |vnodes| ==> forall i :: 0 <= i < |vnodes| && vnodes[i] >= h ==> vnodes[idx] <= vnodes[i]
  {
    var l, r := 0, |vnodes|;
    while l < r
      invariant 0 <= l <= r <= |vnodes|
      invariant forall i :: 0 <= i < l ==> vnodes[i] < h
      invariant forall i :: r <= i < |vnodes| ==> vnodes[i] > h
    {
      var m := l + (r - l) / 2;
      if vnodes[m] < h {
        l := m + 1;
      } else if vnodes[m] > h {
        r := m;
      } else {
        return m;
      }
    }
    assert l < |vnodes| ==> vnodes[l] > h;
    return l;
  }
}
