/** What adding and removing nodes does to routing, for one step and for whole histories. */
module RingTheorems {
  import opened Ordering
  import opened HashRing
  import Decimal

  // ---------------------------------------------------------------- keys of virtual nodes

  lemma {:induction false} HashMark(name: string, digits: string)
    requires Decimal.AllDigits(digits)
    ensures var key := name + ",#" + digits;
            && key[|key| - |digits| - 1] == '#'
            && forall j :: |key| - |digits| <= j < |key| ==> key[j] != '#'
  {
    var key := name + ",#" + digits;
    var n := |name| + 2;
    forall j | n <= j < |key|
      ensures key[j] != '#'
    {
      assert key[j] == digits[j - n] && Decimal.IsDigit(digits[j - n]);
    }
  }

  /** Different virtual nodes hash different keys: the key determines the node's name and the replica. */
  lemma {:induction false} VnodeKeyInjective(L: Layout, a: string, i: nat, b: string, j: nat)
    requires L.VnodeKey(a, i) == L.VnodeKey(b, j)
    ensures a == b && i == j
  {
    var s, t := Decimal.Itoa(i), Decimal.Itoa(j);
    var key := a + ",#" + s;
    assert key == b + ",#" + t;
    HashMark(a, s);
    HashMark(b, t);
    assert |s| == |t| by {
      assert key[|key| - |s| - 1] == '#' && key[|key| - |t| - 1] == '#';
    }
    assert key[|key| - |s|..] == s && key[|key| - |t|..] == t;
    assert key[..|key| - |s| - 2] == a && key[..|key| - |t| - 2] == b;
    Decimal.AtoiItoa(i);
    Decimal.AtoiItoa(j);
  }

  // ---------------------------------------------------------------- one step

  /** Adding a node moves a key to that node or not at all, collisions or not. */
  lemma AddMovesOnlyToNewNode<Client>(L: Layout, r: Ring<Client>, name: string, client: Client, h: Position)
    requires WellFormed(L, r) && name !in r.clients
    ensures WellFormed(L, Add(L, r, name, client))
    ensures OnCircle(r.nodeMap.Keys) && OnCircle(Add(L, r, name, client).nodeMap.Keys)
    ensures var before, after := Owner(r.nodeMap, h), Owner(Add(L, r, name, client).nodeMap, h);
            after == before || after == name
  {
    var r' := Add(L, r, name, client);
    AddKeeps(L, r, name, client);
    if r'.nodeMap.Keys != {} {
      var p := NearestExists(r'.nodeMap.Keys, h);
      OwnerAt(r'.nodeMap, h, p);
      if p !in L.Positions(name) {
        assert Nearest(r.nodeMap.Keys, h, p);
        OwnerAt(r.nodeMap, h, p);
      }
    } else {
      assert r.nodeMap.Keys <= r'.nodeMap.Keys;
    }
  }

  /** The new node takes exactly the keys whose next position in the new ring is one of its own; the last to
      claim a shared position has it. */
  lemma AddTakesItsPositions<Client>(L: Layout, r: Ring<Client>, name: string, client: Client, h: Position, p: nat)
    requires WellFormed(L, r) && name !in r.clients
    requires OnCircle(r.nodeMap.Keys) && OnCircle(Add(L, r, name, client).nodeMap.Keys)
    requires Nearest(Add(L, r, name, client).nodeMap.Keys, h, p)
    ensures Owner(Add(L, r, name, client).nodeMap, h) ==
            if p in L.Positions(name) then name else Owner(r.nodeMap, h)
  {
    OwnerAt(Add(L, r, name, client).nodeMap, h, p);
    if p !in L.Positions(name) {
      assert Nearest(r.nodeMap.Keys, h, p);
      OwnerAt(r.nodeMap, h, p);
    }
  }

  /** A key leaving position `p` goes to the first surviving position clockwise of `p`. */
  lemma NextSurvivor(ps: set<nat>, gone: set<nat>, h: Position, p: nat, q: nat)
    requires OnCircle(ps) && Nearest(ps, h, p) && p in gone && Nearest(ps - gone, h, q)
    ensures p < CIRCLE && Nearest(ps - gone, p, q)
  {
    forall x | x in ps - gone
      ensures Clockwise(p, q) <= Clockwise(p, x)
    {
      assert Clockwise(h, p) <= Clockwise(h, q) <= Clockwise(h, x);
    }
  }

  /** The foreign positions of a removal: those `name` hashes to but another node holds. */
  ghost predicate Foreign<Client>(L: Layout, r: Ring<Client>, name: string, p: nat) {
    p in r.nodeMap && p in L.Positions(name) && r.nodeMap[p] != name
  }

  /** Removing a node leaves every key of the other nodes where it was. */
  ghost predicate RemoveSparesOthers<Client>(L: Layout, r: Ring<Client>, name: string)
    requires WellFormed(L, r)
  {
    RingIsOnCircle(L, r);
    RemoveKeeps(L, r, name);
    RingIsOnCircle(L, Remove(L, r, name));
    forall h: Position :: Owner(r.nodeMap, h) != name ==>
      Owner(Remove(L, r, name).nodeMap, h) == Owner(r.nodeMap, h)
  }

  /** Each shared position of `name` is followed, among the survivors, by the node that held it. */
  ghost predicate SharedPositionsCovered<Client>(L: Layout, r: Ring<Client>, name: string)
    requires WellFormed(L, r)
  {
    RingIsOnCircle(L, r);
    RemoveKeeps(L, r, name);
    RingIsOnCircle(L, Remove(L, r, name));
    forall p: Position :: Foreign(L, r, name, p) ==> Owner(Remove(L, r, name).nodeMap, p) == r.nodeMap[p]
  }

  /** Where one key goes when `name` is removed. */
  lemma RemoveRoutes<Client>(L: Layout, r: Ring<Client>, name: string, h: Position, p: nat)
    requires WellFormed(L, r) && WellFormed(L, Remove(L, r, name))
    requires OnCircle(r.nodeMap.Keys) && OnCircle(Remove(L, r, name).nodeMap.Keys)
    requires Nearest(r.nodeMap.Keys, h, p)
    ensures p !in L.Positions(name) ==> Owner(Remove(L, r, name).nodeMap, h) == r.nodeMap[p]
    ensures p in L.Positions(name) ==>
              p < CIRCLE && Owner(Remove(L, r, name).nodeMap, h) == Owner(Remove(L, r, name).nodeMap, p)
  {
    var m := Remove(L, r, name).nodeMap;
    var gone := Elements(L.Positions(name));
    assert m.Keys == r.nodeMap.Keys - gone;
    if p !in gone {
      assert Nearest(m.Keys, h, p);
      OwnerAt(m, h, p);
    } else if m.Keys != {} {
      var q := NearestExists(m.Keys, h);
      NextSurvivor(r.nodeMap.Keys, gone, h, p, q);
      OwnerAt(m, h, q);
      OwnerAt(m, p, q);
    }
  }

  /** Removal disturbs only the removed node's keys exactly when no shared position is left uncovered:
      the whole circle of keys is safe as soon as the finitely many shared positions are. */
  lemma RemoveSparesOthersIff<Client>(L: Layout, r: Ring<Client>, name: string)
    requires WellFormed(L, r)
    ensures RemoveSparesOthers(L, r, name) <==> SharedPositionsCovered(L, r, name)
  {
    RingIsOnCircle(L, r);
    RemoveKeeps(L, r, name);
    RingIsOnCircle(L, Remove(L, r, name));
    if RemoveSparesOthers(L, r, name) {
      forall p: Position | Foreign(L, r, name, p)
        ensures Owner(Remove(L, r, name).nodeMap, p) == r.nodeMap[p]
      {
        OwnerAt(r.nodeMap, p, p);
      }
    }
    if SharedPositionsCovered(L, r, name) {
      forall h: Position | Owner(r.nodeMap, h) != name
        ensures Owner(Remove(L, r, name).nodeMap, h) == Owner(r.nodeMap, h)
      {
        if r.nodeMap.Keys == {} {
          assert Remove(L, r, name).nodeMap.Keys == {};
        } else {
          var p := NearestExists(r.nodeMap.Keys, h);
          OwnerAt(r.nodeMap, h, p);
          RemoveRoutes(L, r, name, h, p);
          if p in L.Positions(name) {
            assert Foreign(L, r, name, p);
          }
        }
      }
    }
  }

  /** Positions of `name` held by nobody else. */
  ghost predicate Exclusive<Client>(L: Layout, r: Ring<Client>, name: string) {
    forall p :: p in r.nodeMap && p in L.Positions(name) ==> r.nodeMap[p] == name
  }

  /** With exclusive positions only the removed node's keys move, each to the owner of the first
      surviving position clockwise of the one it left. */
  lemma RemoveIsMinimal<Client>(L: Layout, r: Ring<Client>, name: string, h: Position, p: nat)
    requires WellFormed(L, r) && Exclusive(L, r, name)
    requires OnCircle(r.nodeMap.Keys) && Nearest(r.nodeMap.Keys, h, p)
    ensures WellFormed(L, Remove(L, r, name)) && OnCircle(Remove(L, r, name).nodeMap.Keys)
    ensures var m := Remove(L, r, name).nodeMap;
            if r.nodeMap[p] == name then p < CIRCLE && Owner(m, h) == Owner(m, p)
            else Owner(m, h) == Owner(r.nodeMap, h)
  {
    RemoveKeeps(L, r, name);
    RingIsOnCircle(L, Remove(L, r, name));
    RemoveRoutes(L, r, name, h, p);
    OwnerAt(r.nodeMap, h, p);
  }

  /** Removing a node whose positions are free of others takes exactly its own virtual nodes away. */
  lemma {:induction false} VnodesRestored(v: seq<nat>, ps: seq<nat>)
    requires Sorted(v) && forall p :: p in ps ==> p !in v
    ensures Without(Sort(v + ps), Elements(ps)) == v
  {
    var back := Without(Sort(v + ps), Elements(ps));
    SortSorts(v + ps);
    WithoutSorted(Sort(v + ps), Elements(ps));
    forall x: nat
      ensures Count(back, x) == Count(v, x)
    {
      WithoutCount(Sort(v + ps), Elements(ps), x);
      AppendCount(v, ps, x);
      CountZero(v, x);
      CountZero(ps, x);
    }
    SameCounts(back, v);
    SortedIsUnique(back, v);
  }

  /** Adding a fresh node and removing it again restores the ring exactly when none of its positions
      was already taken; its slice allocation never panics. */
  lemma {:induction false} AddThenRemoveIff<Client>(L: Layout, r: Ring<Client>, name: string, client: Client)
    requires WellFormed(L, r) && name !in r.clients
    ensures |Add(L, r, name, client).vnodes| >= L.replicas
    ensures Remove(L, Add(L, r, name, client), name) == r <==>
            (forall p :: p in L.Positions(name) ==> p !in r.nodeMap)
  {
    SortLength(r.vnodes + L.Positions(name));
    if forall p :: p in L.Positions(name) ==> p !in r.nodeMap {
      forall p | p in L.Positions(name)
        ensures p !in r.vnodes
      {
        assert p !in Elements(r.vnodes);
      }
      AddThenRemoveRestores(L, r, name, client);
    } else {
      var p :| p in L.Positions(name) && p in r.nodeMap;
    }
  }

  lemma {:induction false} AddThenRemoveRestores<Client>(L: Layout, r: Ring<Client>, name: string, client: Client)
    requires Sorted(r.vnodes) && name !in r.clients
    requires forall p :: p in L.Positions(name) ==> p !in r.vnodes && p !in r.nodeMap
    ensures Remove(L, Add(L, r, name, client), name) == r
  {
    VnodesRestored(r.vnodes, L.Positions(name));
    assert r.clients[name := client] - {name} == r.clients;
  }

  lemma {:induction false} SortLength(s: seq<nat>)
    ensures |Sort(s)| == |s|
  {
    var r := Sort(s);
    assert |multiset(r)| == |r| && |multiset(s)| == |s|;
  }

  // ---------------------------------------------------------------- whole histories

  datatype Op<Client> = AddOp(name: string, client: Client) | RemoveOp(name: string)

  /** The ring after a history of Add and Remove calls on a freshly built ring. */
  function Play<Client>(L: Layout, r: Ring<Client>, ops: seq<Op<Client>>): Ring<Client>
    decreases |ops|
  {
    if ops == [] then r else
      var last := ops[|ops| - 1];
      var r' := Play(L, r, ops[..|ops| - 1]);
      match last
      case AddOp(name, client) => Add(L, r', name, client)
      case RemoveOp(name) => Remove(L, r', name)
  }

  /** Removals name current members only. */
  predicate RemovesMembers<Client>(L: Layout, r: Ring<Client>, ops: seq<Op<Client>>)
    decreases |ops|
  {
    ops == [] ||
    (&& RemovesMembers(L, r, ops[..|ops| - 1])
     && (ops[|ops| - 1].RemoveOp? ==> ops[|ops| - 1].name in Play(L, r, ops[..|ops| - 1]).clients))
  }

  /** A member has the client it was built with, if it was never removed, and otherwise the one it was given
      when it was last added; adding a member again gives it nothing. */
  ghost predicate Given<Client>(L: Layout, start: Ring<Client>, ops: seq<Op<Client>>, name: string, client: Client) {
    || (name in start.clients && start.clients[name] == client && !RemovedAfter(ops, 0, name))
    || exists i :: 0 <= i < |ops| && ops[i] == AddOp(name, client)
         && name !in Play(L, start, ops[..i]).clients && !RemovedAfter(ops, i, name)
  }

  predicate RemovedAfter<Client>(ops: seq<Op<Client>>, i: nat, name: string) {
    exists j :: i <= j < |ops| && ops[j].RemoveOp? && ops[j].name == name
  }

  lemma {:induction false} RemovedNext<Client>(ops: seq<Op<Client>>, i: nat, name: string)
    requires i < |ops| && !RemovedAfter(ops[..|ops| - 1], i, name)
    requires !(ops[|ops| - 1].RemoveOp? && ops[|ops| - 1].name == name)
    ensures !RemovedAfter(ops, i, name)
  {
    forall j | i <= j < |ops|
      ensures !(ops[j].RemoveOp? && ops[j].name == name)
    {
      if j < |ops| - 1 {
        assert ops[..|ops| - 1][j] == ops[j];
      }
    }
  }

  /** Over whole histories every member routes to the client last given for it. */
  lemma {:induction false} ClientIsLastGiven<Client>(L: Layout, start: Ring<Client>, ops: seq<Op<Client>>, name: string)
    requires name in Play(L, start, ops).clients
    ensures Given(L, start, ops, name, Play(L, start, ops).clients[name])
    decreases |ops|
  {
    if ops != [] {
      var n := |ops| - 1;
      var init, last := ops[..n], ops[n];
      var before := Play(L, start, init);
      assert !(last.RemoveOp? && last.name == name);
      if last.AddOp? && last.name == name && name !in before.clients {
        assert ops[n] == AddOp(name, Play(L, start, ops).clients[name]);
      } else {
        ClientIsLastGiven(L, start, init, name);
        GivenNext(L, start, ops, name, before.clients[name]);
      }
    }
  }

  lemma {:induction false} GivenNext<Client>(L: Layout, start: Ring<Client>, ops: seq<Op<Client>>, name: string,
                                             client: Client)
    requires ops != [] && Given(L, start, ops[..|ops| - 1], name, client)
    requires !(ops[|ops| - 1].RemoveOp? && ops[|ops| - 1].name == name)
    ensures Given(L, start, ops, name, client)
  {
    var n := |ops| - 1;
    var init := ops[..n];
    if i :| 0 <= i < n && init[i] == AddOp(name, client)
            && name !in Play(L, start, init[..i]).clients && !RemovedAfter(init, i, name) {
      assert init[..i] == ops[..i];
      RemovedNext(ops, i, name);
    } else {
      RemovedNext(ops, 0, name);
    }
  }

  /** No two of the names ever used share a position. */
  ghost predicate Disjoint(L: Layout, names: set<string>) {
    forall a, b, p :: a in names && b in names && p in L.Positions(a) && p in L.Positions(b) ==> a == b
  }

  /** The ring that the member set alone determines, up to the order that sorting fixes. */
  ghost predicate Canonical<Client>(L: Layout, r: Ring<Client>) {
    && (forall p :: p in r.nodeMap ==> r.nodeMap[p] in r.clients && p in L.Positions(r.nodeMap[p]))
    && (forall name, p :: name in r.clients && p in L.Positions(name) ==> p in r.nodeMap)
    && (forall p: nat :: Count(r.vnodes, p) == Expected(L, r.nodeMap, p))
  }

  ghost function Expected(L: Layout, m: map<nat, string>, p: nat): nat {
    if p in m then Count(L.Positions(m[p]), p) else 0
  }

  lemma PlaceCanonical<Client>(L: Layout, r: Ring<Client>, name: string, client: Client, names: set<string>)
    requires Canonical(L, r) && name !in r.clients
    requires Disjoint(L, names) && r.clients.Keys <= names && name in names
    ensures Canonical(L, Place(L, r, name, client))
  {
    var ps := L.Positions(name);
    var r' := Place(L, r, name, client);
    forall p: nat
      ensures Count(r'.vnodes, p) == Expected(L, r'.nodeMap, p)
    {
      AppendCount(r.vnodes, ps, p);
      CountZero(ps, p);
      if p in ps {
        assert p !in r.nodeMap;
      }
    }
  }

  lemma SortingCanonical<Client>(L: Layout, r: Ring<Client>)
    requires Canonical(L, r)
    ensures Canonical(L, Sorting(r)) && Sorted(Sorting(r).vnodes)
  {
    SortSorts(r.vnodes);
  }

  lemma RemoveCanonical<Client>(L: Layout, r: Ring<Client>, name: string, names: set<string>)
    requires Canonical(L, r) && Sorted(r.vnodes)
    requires Disjoint(L, names) && r.clients.Keys <= names && name in names
    ensures Canonical(L, Remove(L, r, name)) && Sorted(Remove(L, r, name).vnodes)
  {
    var ps := L.Positions(name);
    var r' := Remove(L, r, name);
    WithoutSorted(r.vnodes, Elements(ps));
    forall p: nat
      ensures Count(r'.vnodes, p) == Expected(L, r'.nodeMap, p)
    {
      WithoutCount(r.vnodes, Elements(ps), p);
    }
  }

  /** A member's virtual nodes are all present, so the capacity Remove computes is not negative. */
  lemma MemberFits<Client>(L: Layout, r: Ring<Client>, name: string)
    requires Canonical(L, r) && name in r.clients
    requires Disjoint(L, r.clients.Keys)
    ensures |r.vnodes| >= L.replicas
  {
    var ps := L.Positions(name);
    forall p: nat
      ensures Count(ps, p) <= Count(r.vnodes, p)
    {
      CountZero(ps, p);
    }
    FewerCounts(ps, r.vnodes);
  }

  /** Two canonical rings with the same members are the same ring. */
  lemma CanonicalIsUnique<Client>(L: Layout, a: Ring<Client>, b: Ring<Client>)
    requires Canonical(L, a) && Canonical(L, b) && Sorted(a.vnodes) && Sorted(b.vnodes)
    requires a.clients.Keys == b.clients.Keys && Disjoint(L, a.clients.Keys)
    ensures a.vnodes == b.vnodes && a.nodeMap == b.nodeMap
  {
    assert a.nodeMap == b.nodeMap;
    SameCounts(a.vnodes, b.vnodes);
    SortedIsUnique(a.vnodes, b.vnodes);
  }

  lemma {:induction false} PlaceAllKeys<Client>(L: Layout, clients: map<string, Client>, order: seq<string>)
    requires forall i :: 0 <= i < |order| ==> order[i] in clients
    ensures PlaceAll(L, clients, order).clients.Keys == Members(order)
    decreases |order|
  {
    if order != [] {
      PlaceAllKeys(L, clients, order[..|order| - 1]);
      MembersLast(order);
    }
  }

  function Members(order: seq<string>): set<string> {
    set i | 0 <= i < |order| :: order[i]
  }

  lemma MembersLast(order: seq<string>)
    requires order != []
    ensures Members(order) == Members(order[..|order| - 1]) + {order[|order| - 1]}
  {
    var init, last := order[..|order| - 1], order[|order| - 1];
    forall name | name in Members(order)
      ensures name in Members(init) + {last}
    {
      var i :| 0 <= i < |order| && order[i] == name;
      assert i < |order| - 1 ==> init[i] == name;
    }
  }

  lemma {:induction false} PlaceAllCanonical<Client>(L: Layout, clients: map<string, Client>, order: seq<string>,
                                                     names: set<string>)
    requires forall i, j :: 0 <= i < j < |order| ==> order[i] != order[j]
    requires forall i :: 0 <= i < |order| ==> order[i] in clients
    requires Disjoint(L, names) && clients.Keys <= names
    ensures var r := PlaceAll(L, clients, order);
            Canonical(L, r) && r.clients.Keys == Members(order)
    decreases |order|
  {
    if order != [] {
      var init, last := order[..|order| - 1], order[|order| - 1];
      PlaceAllCanonical(L, clients, init, names);
      PlaceAllKeys(L, clients, order);
      assert last !in Members(init);
      PlaceCanonical(L, PlaceAll(L, clients, init), last, clients[last], names);
    }
  }

  predicate NamesWithin<Client>(ops: seq<Op<Client>>, names: set<string>) {
    forall i :: 0 <= i < |ops| ==> ops[i].name in names
  }

  /** Every history keeps the ring canonical, and no Remove in it panics. */
  lemma {:induction false} HistoryCanonical<Client>(L: Layout, clients: map<string, Client>, order: seq<string>,
                                                   ops: seq<Op<Client>>, names: set<string>)
    requires Enumerates(order, clients) && Disjoint(L, names)
    requires clients.Keys <= names && NamesWithin(ops, names)
    requires RemovesMembers(L, Sorting(PlaceAll(L, clients, order)), ops)
    ensures var r := Play(L, Sorting(PlaceAll(L, clients, order)), ops);
            Canonical(L, r) && Sorted(r.vnodes) && r.clients.Keys <= names
    decreases |ops|
  {
    var start := Sorting(PlaceAll(L, clients, order));
    if ops == [] {
      PlaceAllCanonical(L, clients, order, names);
      SortingCanonical(L, PlaceAll(L, clients, order));
    } else {
      var init, last := ops[..|ops| - 1], ops[|ops| - 1];
      HistoryCanonical(L, clients, order, init, names);
      var r := Play(L, start, init);
      match last
      case AddOp(name, client) =>
        if name !in r.clients {
          PlaceCanonical(L, r, name, client, names);
          SortingCanonical(L, Place(L, r, name, client));
        }
      case RemoveOp(name) =>
        RemoveCanonical(L, r, name, names);
    }
  }

  /** Routing depends on the member set, not on how it came about: any two histories that end with the
      same members end with the same sorted positions and the same owner of every position. */
  lemma HistoryIndependence<Client>(L: Layout, names: set<string>,
                                    clients: map<string, Client>, order: seq<string>, ops: seq<Op<Client>>,
                                    clients': map<string, Client>, order': seq<string>, ops': seq<Op<Client>>)
    requires Disjoint(L, names)
    requires Enumerates(order, clients) && clients.Keys <= names && NamesWithin(ops, names)
    requires Enumerates(order', clients') && clients'.Keys <= names && NamesWithin(ops', names)
    requires RemovesMembers(L, Sorting(PlaceAll(L, clients, order)), ops)
    requires RemovesMembers(L, Sorting(PlaceAll(L, clients', order')), ops')
    requires Play(L, Sorting(PlaceAll(L, clients, order)), ops).clients.Keys ==
             Play(L, Sorting(PlaceAll(L, clients', order')), ops').clients.Keys
    ensures var a := Play(L, Sorting(PlaceAll(L, clients, order)), ops);
            var b := Play(L, Sorting(PlaceAll(L, clients', order')), ops');
            a.vnodes == b.vnodes && a.nodeMap == b.nodeMap
  {
    HistoryCanonical(L, clients, order, ops, names);
    HistoryCanonical(L, clients', order', ops', names);
    CanonicalIsUnique(L, Play(L, Sorting(PlaceAll(L, clients, order)), ops),
                      Play(L, Sorting(PlaceAll(L, clients', order')), ops'));
  }

  /** In such a history no removal of a member can panic. */
  lemma RemovalNeverPanics<Client>(L: Layout, names: set<string>, clients: map<string, Client>, order: seq<string>,
                                   ops: seq<Op<Client>>, name: string)
    requires Disjoint(L, names) && Enumerates(order, clients) && clients.Keys <= names && NamesWithin(ops, names)
    requires RemovesMembers(L, Sorting(PlaceAll(L, clients, order)), ops)
    requires name in Play(L, Sorting(PlaceAll(L, clients, order)), ops).clients
    ensures |Play(L, Sorting(PlaceAll(L, clients, order)), ops).vnodes| >= L.replicas
  {
    HistoryCanonical(L, clients, order, ops, names);
    MemberFits(L, Play(L, Sorting(PlaceAll(L, clients, order)), ops), name);
  }

  lemma VnodesArePositions<Client>(L: Layout, r: Ring<Client>)
    requires WellFormed(L, r)
    ensures r.vnodes != [] ==> r.nodeMap.Keys != {}
  {
    if r.vnodes != [] {
      assert r.vnodes[0] in Elements(r.vnodes);
    }
  }

  lemma TwinsVanish<Client>(L: Layout, r: Ring<Client>, a: string, b: string)
    requires WellFormed(L, r) && r.clients.Keys == {a, b}
    requires Elements(L.Positions(a)) == Elements(L.Positions(b))
    ensures Remove(L, r, a).vnodes == []
  {
    forall p | p in r.nodeMap
      ensures p in Elements(L.Positions(a))
    {
      assert p in Elements(L.Positions(r.nodeMap[p]));
    }
    RemoveKeeps(L, r, a);
    VnodesArePositions(L, Remove(L, r, a));
  }

  /** With colliding positions that promise fails: when two nodes hash to the same positions, removing
      one leaves the other a member without virtual nodes, and removing that one would panic. */
  lemma {:induction false} TwinNodesPanic<Client>(L: Layout, a: string, b: string, ca: Client, cb: Client)
    requires a != b && L.replicas > 0 && Elements(L.Positions(a)) == Elements(L.Positions(b))
    ensures var left := Remove(L, Add(L, Add(L, Empty(), a, ca), b, cb), a);
            b in left.clients && |left.vnodes| < L.replicas
  {
    var one: Ring<Client> := Add(L, Empty(), a, ca);
    var two := Add(L, one, b, cb);
    AddKeeps(L, Empty(), a, ca);
    AddKeeps(L, one, b, cb);
    assert one.clients.Keys == {a} && two.clients.Keys == {a, b};
    TwinsVanish(L, two, a, b);
  }
}
