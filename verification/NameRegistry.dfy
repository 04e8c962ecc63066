// cyber/common/global_data.cc: names are registered under their hash, or under the
// next free 64-bit number when the hash is taken.  Nodes, channels, services and
// tasks each have a registry of this kind.
module NameRegistry {
  const SPAN: nat := 0x1_0000_0000_0000_0000

  type Id = n: nat | n < SPAN

  // ++id on a 64-bit unsigned integer.
  function Increment(id: Id): (next: Id) {
    (id + 1) % SPAN
  }

  // The id after k increments from a hash, wrapping around.
  function Slot(hash: Id, k: nat): (id: Id)
    requires k < SPAN
  {
    if hash + k < SPAN then hash + k else hash + k - SPAN
  }

  function Distance(hash: Id, id: Id): (k: nat)
    ensures k < SPAN && Slot(hash, k) == id
  {
    if id >= hash then id - hash else id + SPAN - hash
  }

  // The first k slots hold other names.
  ghost predicate Taken(table: map<Id, string>, hash: Id, name: string, k: nat)
    requires k <= SPAN
  {
    forall j | 0 <= j < k :: Slot(hash, j) in table && table[Slot(hash, j)] != name
  }

  // Every name sits in the first slot from its hash that was not taken by another.
  ghost predicate Inv(table: map<Id, string>, hash: string -> Id) {
    forall id | id in table :: Taken(table, hash(table[id]), table[id], Distance(hash(table[id]), id))
  }

  // Where the registration of a name ends up, having passed k taken slots.
  function Probe(table: map<Id, string>, hash: Id, name: string, k: nat): (id: Id)
    requires k < SPAN
    decreases SPAN - k
  {
    if Slot(hash, k) !in table || table[Slot(hash, k)] == name || k == SPAN - 1 then Slot(hash, k)
    else Probe(table, hash, name, k + 1)
  }

  lemma {:induction false} OneNameOneId(table: map<Id, string>, hash: string -> Id, a: Id, b: Id)
    requires Inv(table, hash) && a in table && b in table && table[a] == table[b]
    ensures a == b
  {
    var h := hash(table[a]);
    assert Slot(h, Distance(h, a)) == a && Slot(h, Distance(h, b)) == b;
  }

  // There is room for a name: it is there already, or some id is free.
  ghost predicate Room(table: map<Id, string>, name: string) {
    |table| < SPAN || exists id :: id in table && table[id] == name
  }

  lemma {:induction false} AtLeast(keys: set<Id>, n: nat)
    requires n <= SPAN && forall id: Id | id < n :: id in keys
    ensures |keys| >= n
  {
    if n > 0 {
      AtLeast(keys - {n - 1}, n - 1);
    }
  }

  lemma {:induction false} AtMost(keys: set<Id>, n: nat)
    requires n <= SPAN && forall id | id in keys :: id < n
    ensures |keys| <= n
  {
    if n > 0 {
      AtMost(keys - {n - 1}, n - 1);
    } else {
      assert keys == {};
    }
  }

  // The search comes to an end exactly when there is room.
  lemma {:induction false} SearchEndsIffRoom(table: map<Id, string>, hash: string -> Id, name: string)
    requires Inv(table, hash)
    ensures Room(table, name) <==> !Taken(table, hash(name), name, SPAN)
  {
    var h := hash(name);
    if Taken(table, h, name, SPAN) {
      forall id: Id ensures id in table && table[id] != name {
        assert Slot(h, Distance(h, id)) == id;
      }
      AtLeast(table.Keys, SPAN);
    } else {
      var j :| 0 <= j < SPAN && !(Slot(h, j) in table && table[Slot(h, j)] != name);
      if Slot(h, j) !in table {
        AtMost(table.Keys + {Slot(h, j)}, SPAN);
      }
    }
  }

  lemma {:induction false} ProbeFinds(table: map<Id, string>, hash: string -> Id, name: string, k: nat)
    requires Inv(table, hash) && Room(table, name) && k < SPAN && Taken(table, hash(name), name, k)
    ensures var id := Probe(table, hash(name), name, k);
            && (id in table ==> table[id] == name)
            && Taken(table, hash(name), name, Distance(hash(name), id))
    decreases SPAN - k
  {
    var h := hash(name);
    var id := Slot(h, k);
    assert Distance(h, id) == k;
    if id in table && table[id] != name {
      assert Taken(table, h, name, k + 1);
      SearchEndsIffRoom(table, hash, name);
      assert k + 1 != SPAN;
      ProbeFinds(table, hash, name, k + 1);
    }
  }

  lemma {:induction false} RegisteringKeepsInv(table: map<Id, string>, hash: string -> Id, name: string)
    requires Inv(table, hash) && Room(table, name)
    ensures var id := Probe(table, hash(name), name, 0);
            && (id in table ==> table[id] == name)
            && Inv(table[id := name], hash)
  {
    ProbeFinds(table, hash, name, 0);
    var id := Probe(table, hash(name), name, 0);
    var table' := table[id := name];
    forall i | i in table'
      ensures Taken(table', hash(table'[i]), table'[i], Distance(hash(table'[i]), i))
    {
      if i != id {
        var h := hash(table[i]);
        assert Taken(table, h, table[i], Distance(h, i));
        forall j | 0 <= j < Distance(h, i) ensures table'[Slot(h, j)] != table[i] {
          assert table[Slot(h, j)] != table[i];
        }
      }
    }
  }

  // ---- Any sequence of registrations, one after the other ----

  function Registered(hash: string -> Id, names: seq<string>): (table: map<Id, string>)
    decreases |names|, 0
  {
    if names == [] then map[]
    else
      var n := |names| - 1;
      Registered(hash, names[..n])[IdGiven(hash, names, n) := names[n]]
  }

  // The id returned for the i-th name.
  function IdGiven(hash: string -> Id, names: seq<string>, i: nat): (id: Id)
    requires i < |names|
    decreases i, 1
  {
    Probe(Registered(hash, names[..i]), hash(names[i]), names[i], 0)
  }

  lemma {:induction false} RegisteredInv(hash: string -> Id, names: seq<string>)
    requires |names| <= SPAN
    ensures Inv(Registered(hash, names), hash) && |Registered(hash, names)| <= |names|
  {
    if names != [] {
      var n := |names| - 1;
      RegisteredInv(hash, names[..n]);
      RegisteringKeepsInv(Registered(hash, names[..n]), hash, names[n]);
    }
  }

  lemma {:induction false} LookupOfId(hash: string -> Id, names: seq<string>, i: nat)
    requires i < |names| <= SPAN
    ensures IdGiven(hash, names, i) in Registered(hash, names)
    ensures Registered(hash, names)[IdGiven(hash, names, i)] == names[i]
  {
    var n := |names| - 1;
    if i < n {
      var before := names[..n];
      assert before[..i] == names[..i] && before[i] == names[i];
      LookupOfId(hash, before, i);
      RegisteredInv(hash, before);
      RegisteringKeepsInv(Registered(hash, before), hash, names[n]);
    }
  }

  // Distinct names get distinct ids, the same name gets the same id again, and every
  // id ever given is looked up to its name, whatever the hash function is.
  lemma {:induction false} NamesAndIdsCorrespond(hash: string -> Id, names: seq<string>, i: nat, j: nat)
    requires i < |names| <= SPAN && j < |names|
    ensures IdGiven(hash, names, i) == IdGiven(hash, names, j) <==> names[i] == names[j]
    ensures IdGiven(hash, names, i) in Registered(hash, names)
         && Registered(hash, names)[IdGiven(hash, names, i)] == names[i]
  {
    LookupOfId(hash, names, i);
    LookupOfId(hash, names, j);
    RegisteredInv(hash, names);
    if names[i] == names[j] {
      OneNameOneId(Registered(hash, names), hash, IdGiven(hash, names, i), IdGiven(hash, names, j));
    }
  }

  // ---- The registry ----

  lemma {:induction false} PassOne(table: map<Id, string>, hash: string -> Id, name: string, k: nat)
    requires Inv(table, hash) && Room(table, name) && k < SPAN && Taken(table, hash(name), name, k)
    requires Slot(hash(name), k) in table && table[Slot(hash(name), k)] != name
    ensures k + 1 < SPAN && Taken(table, hash(name), name, k + 1)
    ensures Increment(Slot(hash(name), k)) == Slot(hash(name), k + 1)
    ensures Probe(table, hash(name), name, k) == Probe(table, hash(name), name, k + 1)
  {
    assert Taken(table, hash(name), name, k + 1);
    SearchEndsIffRoom(table, hash, name);
    assert k + 1 != SPAN;
    var next := Slot(hash(name), k) + 1;
    assert next % SPAN == if next == SPAN then 0 else next;
  }

  lemma {:induction false} ProbeHere(table: map<Id, string>, hash: Id, name: string, k: nat)
    requires k < SPAN
    requires Slot(hash, k) !in table || table[Slot(hash, k)] == name
    ensures Probe(table, hash, name, k) == Slot(hash, k)
  {
  }

  class Registry {
    const hash: string -> Id
    var table: map<Id, string>

    ghost predicate Valid()
      reads this
    {
      Inv(table, hash)
    }

    constructor (hash: string -> Id)
      ensures Valid() && table == map[] && this.hash == hash
    {
      this.hash, table := hash, map[];
    }

    method Register(name: string) returns (id: Id)
      requires Valid() && Room(table, name)
      modifies this`table
      ensures Valid() && table == old(table)[id := name]
      ensures id == Probe(old(table), hash(name), name, 0)
      ensures id in old(table) ==> old(table)[id] == name
    {
      id := hash(name);
      ghost var k := 0;
      assert Slot(hash(name), 0) == id;
      assert Taken(table, hash(name), name, 0);
      hide Slot, Taken, Probe, Inv, Room, Distance, Increment;
      while id in table
        invariant table == old(table) && k < SPAN && id == Slot(hash(name), k) && Taken(table, hash(name), name, k)
        invariant Probe(table, hash(name), name, k) == Probe(table, hash(name), name, 0)
        decreases SPAN - k
      {
        if table[id] == name {
          break;
        }
        PassOne(table, hash, name, k);
        id := Increment(id);
        k := k + 1;
      }
      ProbeHere(table, hash(name), name, k);
      RegisteringKeepsInv(table, hash, name);
      table := table[id := name];
    }

    // The empty string stands for an unknown id.
    method GetById(id: Id) returns (name: string)
      ensures name == if id in table then table[id] else ""
    {
      if id in table {
        return table[id];
      }
      return "";
    }
  }
}
