/** The store of probe arrays shared with the running program (runtime/ExecutionDataStore.kt). */
module ExecutionStore {
  import opened ProbeMap
  import opened Text
  import opened Wrappers

  // ---- The store as a value ----

  /** Arrays are numbered in the order of their creation; an id's entry names the array it holds now. */
  datatype Entry = Entry(className: Text, handle: nat)

  datatype Store = Store(entries: map<int, Entry>, arrays: seq<seq<bool>>)

  const EMPTY := Store(map[], [])

  function Falses(n: nat): (f: seq<bool>)
    ensures |f| == n && forall i :: 0 <= i < n ==> !f[i]
  {
    seq(n, _ => false)
  }

  predicate Consistent(s: Store) {
    && (forall id :: id in s.entries ==> s.entries[id].handle < |s.arrays|)
    && (forall id, id' :: id in s.entries && id' in s.entries && id != id' ==> s.entries[id].handle != s.entries[id'].handle)
  }

  function Data(s: Store, id: int): seq<bool>
    requires Consistent(s) && id in s.entries
  {
    s.arrays[s.entries[id].handle]
  }

  /** `getOrCreateProbes`: a new array for a new id, a longer copy when too short, the same array otherwise. */
  function Register(s: Store, id: int, className: Text, count: nat): (s': Store)
    requires Consistent(s)
    ensures Consistent(s') && id in s'.entries
  {
    if id !in s.entries then
      Store(s.entries[id := Entry(className, |s.arrays|)], s.arrays + [Falses(count)])
    else if |Data(s, id)| < count then
      Store(s.entries[id := Entry(className, |s.arrays|)], s.arrays + [Data(s, id) + Falses(count - |Data(s, id)|)])
    else s
  }

  lemma Registering(s: Store, id: int, className: Text, count: nat)
    requires Consistent(s)
    ensures id !in s.entries ==> Register(s, id, className, count) == Store(s.entries[id := Entry(className, |s.arrays|)], s.arrays + [Falses(count)])
    ensures id in s.entries && |Data(s, id)| < count ==>
      Register(s, id, className, count)
      == Store(s.entries[id := Entry(className, |s.arrays|)], s.arrays + [Data(s, id) + Falses(count - |Data(s, id)|)])
    ensures id in s.entries && |Data(s, id)| >= count ==> Register(s, id, className, count) == s
  {
  }

  /** After a registration: an array for the class of the longer of its lengths, with what it held before, under the name that made it. */
  lemma RegisteredIs(s: Store, id: int, className: Text, count: nat)
    requires Consistent(s)
    ensures
      var s' := Register(s, id, className, count);
      && s'.entries.Keys == s.entries.Keys + {id}
      && |Data(s', id)| == (if id in s.entries && |Data(s, id)| > count then |Data(s, id)| else count)
      && (forall i :: 0 <= i < |Data(s', id)| ==> (Data(s', id)[i] <==> id in s.entries && i < |Data(s, id)| && Data(s, id)[i]))
      && (s'.entries[id].className == if id in s.entries && |Data(s, id)| >= count then s.entries[id].className else className)
      && forall k :: k in s.entries && k != id ==> s'.entries[k] == s.entries[k] && Data(s', k) == Data(s, k)
  {
  }

  /** An instrumented class sets an element of the array it was given. */
  function Write(s: Store, handle: nat, i: nat): (s': Store)
    requires handle < |s.arrays| && i < |s.arrays[handle]|
    ensures Consistent(s) ==> Consistent(s')
  {
    s.(arrays := s.arrays[handle := s.arrays[handle][i := true]])
  }

  // ---- Every interleaving ----

  /** What a registration hands out: an array for `count` probes of class `id`. */
  datatype Lease = Lease(id: int, handle: nat, count: nat)

  /** Register a class, or let the holder of lease `lease` hit probe `i` of the `count` it asked for. */
  datatype Event = Registered(id: int, className: Text, count: nat) | Hit(lease: nat, i: nat)

  datatype System = System(store: Store, leases: seq<Lease>)

  /** The leases stay usable: every one holds an array of at least the length it asked for. */
  ghost predicate Safe(y: System) {
    && Consistent(y.store)
    && forall l :: 0 <= l < |y.leases| ==>
         && y.leases[l].handle < |y.store.arrays|
         && y.leases[l].count <= |y.store.arrays[y.leases[l].handle]|
         && y.leases[l].id in y.store.entries
         && (forall id :: id in y.store.entries && id != y.leases[l].id ==> y.store.entries[id].handle != y.leases[l].handle)
  }

  predicate IsHit(y: System, e: Event) {
    e.Hit? && e.lease < |y.leases| && e.i < y.leases[e.lease].count
  }

  /** A probe write never leaves its array: the precondition of `Write` follows from `Safe`. */
  function Act(y: System, e: Event): (y': System)
    requires Safe(y)
    ensures Safe(y')
  {
    match e
    case Registered(id, className, count) =>
      var s := Register(y.store, id, className, count);
      System(s, y.leases + [Lease(id, s.entries[id].handle, count)])
    case Hit(l, i) =>
      if IsHit(y, e) then y.(store := Write(y.store, y.leases[l].handle, i)) else y
  }

  function Trace(events: seq<Event>): (y: System)
    ensures Safe(y)
  {
    if events == [] then System(EMPTY, []) else Act(Trace(events[..|events| - 1]), events[|events| - 1])
  }

  /** Hit `t` of a run goes to the array its class holds at that moment. */
  ghost predicate IsLiveHit(events: seq<Event>, t: nat, id: int, i: nat) {
    && t < |events|
    && var y := Trace(events[..t]);
       && IsHit(y, events[t]) && events[t].i == i
       && y.leases[events[t].lease].id == id
       && y.leases[events[t].lease].handle == y.store.entries[id].handle
  }

  ghost predicate WasHitLive(events: seq<Event>, id: int, i: nat) {
    exists t: nat :: IsLiveHit(events, t, id, i)
  }

  /** Exactly the live hits are in the data, through every later registration and growth. */
  lemma {:induction false} DataIsLiveHits(events: seq<Event>, id: int, i: nat)
    ensures
      var s := Trace(events).store;
      id in s.entries && i < |Data(s, id)| ==> (Data(s, id)[i] <==> WasHitLive(events, id, i))
    ensures WasHitLive(events, id, i) ==>
      id in Trace(events).store.entries && i < |Data(Trace(events).store, id)|
  {
    hide WasHitLive, IsLiveHit, Trace, Act, IsHit, Consistent, Data;
    if events != [] {
      var front, e := events[..|events| - 1], events[|events| - 1];
      DataIsLiveHits(front, id, i);
      LiveHitsOfPrefix(events, id, i);
      LastHit(front, e, id, i);
      assert events == front + [e];
    } else {
      NoHitsYet(id, i);
    }
  }

  lemma NoHitsYet(id: int, i: nat)
    ensures !WasHitLive([], id, i) && id !in Trace([]).store.entries
  {
  }

  lemma LiveHitsOfPrefix(events: seq<Event>, id: int, i: nat)
    requires events != []
    ensures WasHitLive(events, id, i) <==> WasHitLive(events[..|events| - 1], id, i) || IsLiveHit(events, |events| - 1, id, i)
  {
    hide Trace;
    var front := events[..|events| - 1];
    forall t: nat | t < |front| ensures IsLiveHit(events, t, id, i) <==> IsLiveHit(front, t, id, i) {
      assert events[..t] == front[..t];
    }
    if WasHitLive(events, id, i) {
      var t: nat :| IsLiveHit(events, t, id, i);
      assert t < |front| ==> IsLiveHit(front, t, id, i);
    }
    if WasHitLive(front, id, i) {
      var t: nat :| IsLiveHit(front, t, id, i);
      assert IsLiveHit(events, t, id, i);
    }
  }

  /** One event: what was hit stays hit, arrays of an id never get shorter, and only a live hit adds to the data. */
  ghost predicate Keeps(y: System, e: Event, id: int, i: nat, live: bool)
    requires Safe(y)
  {
    var s, s' := y.store, Act(y, e).store;
    && (id in s'.entries && i < |Data(s', id)| ==>
          (Data(s', id)[i] <==> (id in s.entries && i < |Data(s, id)| && Data(s, id)[i]) || live))
    && (live ==> id in s'.entries && i < |Data(s', id)|)
    && (id in s.entries ==> id in s'.entries && |Data(s, id)| <= |Data(s', id)|)
  }

  lemma RegistrationKeeps(y: System, e: Event, id: int, i: nat)
    requires Safe(y) && e.Registered?
    ensures Keeps(y, e, id, i, false)
  {
    hide Falses;
  }

  lemma HitKeeps(y: System, e: Event, id: int, i: nat)
    requires Safe(y) && e.Hit?
    ensures
      Keeps(y, e, id, i, IsHit(y, e) && e.i == i && y.leases[e.lease].id == id && y.leases[e.lease].handle == y.store.entries[id].handle)
  {
  }

  lemma LastHit(front: seq<Event>, e: Event, id: int, i: nat)
    ensures Keeps(Trace(front), e, id, i, IsLiveHit(front + [e], |front|, id, i))
    ensures Trace(front + [e]) == Act(Trace(front), e)
  {
    hide Keeps, Act, IsHit;
    assert (front + [e])[..|front|] == front;
    if e.Hit? {
      HitKeeps(Trace(front), e, id, i);
    } else {
      RegistrationKeeps(Trace(front), e, id, i);
      assert !IsHit(Trace(front), e) by { OnlyHits(Trace(front), e); }
    }
  }

  lemma OnlyHits(y: System, e: Event)
    ensures IsHit(y, e) ==> e.Hit?
  {
  }

  /** Over any continuation of a run, an id keeps its hits and at least its length. */
  lemma {:induction false} NothingIsLost(events: seq<Event>, more: seq<Event>, id: int)
    requires id in Trace(events).store.entries
    ensures
      var s, s' := Trace(events).store, Trace(events + more).store;
      && id in s'.entries && |Data(s, id)| <= |Data(s', id)|
      && forall i :: 0 <= i < |Data(s, id)| && Data(s, id)[i] ==> Data(s', id)[i]
    decreases |more|
  {
    if more == [] {
      assert events + more == events;
    } else {
      hide Trace, IsLiveHit, Consistent, Data, Act;
      var front := more[..|more| - 1];
      NothingIsLost(events, front, id);
      assert events + more == (events + front) + [more[|more| - 1]];
      LastHit(events + front, more[|more| - 1], id, 0);
      forall i | 0 <= i < |Data(Trace(events).store, id)| && Data(Trace(events).store, id)[i]
        ensures Data(Trace(events + more).store, id)[i]
      {
        LastHit(events + front, more[|more| - 1], id, i);
      }
    }
  }

  // ---- One version of a class ----

  /** Every registration of `id` asks for the same number of probes. */
  ghost predicate AlwaysAsks(events: seq<Event>, id: int, count: nat) {
    forall t :: 0 <= t < |events| && events[t].Registered? && events[t].id == id ==> events[t].count == count
  }

  /** Without growth all holders of an id share the array the store reports. */
  lemma {:induction false} HoldersShare(events: seq<Event>, id: int, count: nat)
    requires AlwaysAsks(events, id, count)
    ensures
      var y := Trace(events);
      && (id in y.store.entries ==> |Data(y.store, id)| == count)
      && forall l :: 0 <= l < |y.leases| && y.leases[l].id == id ==>
           y.leases[l].count == count && id in y.store.entries && y.leases[l].handle == y.store.entries[id].handle
  {
    if events != [] {
      HoldersShare(events[..|events| - 1], id, count);
    }
  }

  /** Hit `t` goes to probe `i` of class `id`. */
  ghost predicate IsHitOn(events: seq<Event>, t: nat, id: int, i: nat) {
    && t < |events|
    && var y := Trace(events[..t]);
       IsHit(y, events[t]) && events[t].i == i && y.leases[events[t].lease].id == id
  }

  /** With one version of a class, the data are exactly all its hits, whoever made them and whenever. */
  lemma DataIsAllHits(events: seq<Event>, id: int, count: nat, i: nat)
    requires AlwaysAsks(events, id, count) && id in Trace(events).store.entries && i < count
    ensures |Data(Trace(events).store, id)| == count
    ensures Data(Trace(events).store, id)[i] <==> exists t: nat :: IsHitOn(events, t, id, i)
  {
    HoldersShare(events, id, count);
    DataIsLiveHits(events, id, i);
    hide Trace;
    forall t: nat ensures IsHitOn(events, t, id, i) <==> IsLiveHit(events, t, id, i) {
      if t < |events| {
        HoldersShare(events[..t], id, count);
      }
    }
    if t: nat :| IsLiveHit(events, t, id, i) {
      assert IsHitOn(events, t, id, i);
    }
    if t: nat :| IsHitOn(events, t, id, i) {
      assert IsLiveHit(events, t, id, i);
    }
  }

  // ---- The store as an object ----

  datatype ProbeData = ProbeData(classId: int, className: Text, probes: array<bool>)

  class ExecutionDataStore {
    var probes: map<int, ProbeData>
    ghost var arrays: seq<array<bool>>    // every array handed out, in order
    ghost var handles: map<int, nat>      // the number of the array each id holds now

    constructor ()
      ensures Valid() && Abstract() == EMPTY && arrays == []
    {
      probes, arrays, handles := map[], [], map[];
    }

    ghost predicate Valid()
      reads this
    {
      && (forall a, b :: 0 <= a < b < |arrays| ==> arrays[a] != arrays[b])
      && handles.Keys == probes.Keys
      && (forall id :: id in probes ==>
            probes[id].classId == id && handles[id] < |arrays| && arrays[handles[id]] == probes[id].probes)
      && (forall id, id' :: id in probes && id' in probes && id != id' ==> handles[id] != handles[id'])
    }

    ghost function ArrayValues(): (v: seq<seq<bool>>)
      reads this, arrays
      ensures |v| == |arrays| && forall h :: 0 <= h < |arrays| ==> v[h] == arrays[h][..]
    {
      seq(|arrays|, h requires 0 <= h < |arrays| reads this, arrays => arrays[h][..])
    }

    /** The value of the store: the contents of its arrays by number. */
    ghost function Abstract(): (s: Store)
      requires Valid()
      reads this, arrays
      ensures Consistent(s)
    {
      Store(Entries(), ArrayValues())
    }

    ghost function Entries(): (m: map<int, Entry>)
      requires handles.Keys == probes.Keys
      reads this
      ensures m.Keys == probes.Keys && forall id :: id in m ==> m[id] == Entry(probes[id].className, handles[id])
    {
      map id | id in probes :: Entry(probes[id].className, handles[id])
    }

    method GetOrCreateProbes(classId: int, className: Text, probeCount: nat) returns (result: array<bool>)
      requires Valid()
      modifies this
      ensures Valid()
      ensures old(arrays) <= arrays && forall h :: |old(arrays)| <= h < |arrays| ==> fresh(arrays[h])
      ensures Abstract() == Register(old(Abstract()), classId, className, probeCount)
      ensures classId in handles && result == arrays[handles[classId]] == probes[classId].probes
      ensures result.Length >= probeCount
      ensures classId in old(probes) && old(probes[classId].probes).Length >= probeCount ==> result == old(probes)[classId].probes
    {
      hide Register, Consistent, Data, Falses, Abstract;
      Registering(Abstract(), classId, className, probeCount);
      if classId !in probes {
        Unknown(classId);
        result := new bool[probeCount](_ => false);
        assert result[..] == Falses(probeCount);
        Adopt(classId, className, result);
      } else {
        Known(classId);
        if probes[classId].probes.Length < probeCount {
          var existing := probes[classId].probes;
          result := new bool[probeCount](i requires 0 <= i reads existing => i < existing.Length && existing[i]);
          assert result[..] == existing[..] + Falses(probeCount - existing.Length);
          Adopt(classId, className, result);
        } else {
          result := probes[classId].probes;
        }
      }
    }

    lemma Unknown(classId: int)
      requires Valid() && classId !in probes
      ensures classId !in Abstract().entries && |Abstract().arrays| == |arrays|
    {
    }

    lemma Known(classId: int)
      requires Valid() && classId in probes
      ensures classId in Abstract().entries && Data(Abstract(), classId) == probes[classId].probes[..] && |Abstract().arrays| == |arrays|
    {
    }

    method Adopt(classId: int, className: Text, a: array<bool>)
      requires Valid() && a !in arrays
      modifies this
      ensures Valid()
      ensures arrays == old(arrays) + [a] && classId in handles && handles[classId] == |old(arrays)|
      ensures classId in probes && probes[classId].probes == a
      ensures Abstract() == Store(old(Abstract()).entries[classId := Entry(className, |old(arrays)|)], old(Abstract()).arrays + [a[..]])
    {
      hide Consistent;
      ghost var entries, values, before := Entries(), ArrayValues(), arrays;
      probes := probes[classId := ProbeData(classId, className, a)];
      handles := handles[classId := |arrays|];
      arrays := arrays + [a];
      assert forall h :: 0 <= h < |before| ==> arrays[h] == before[h];
      assert ArrayValues() == values + [a[..]];
      assert Entries() == entries[classId := Entry(className, |old(arrays)|)];
    }

    method GetData(classId: int) returns (r: Option<ProbeData>)
      requires Valid()
      ensures r == if classId in probes then Some(probes[classId]) else None
      ensures r.Some? <==> classId in Abstract().entries
      ensures r.Some? ==> r.value.probes[..] == Data(Abstract(), classId)
    {
      if classId in probes {
        r := Some(probes[classId]);
      } else {
        r := None;
      }
    }

    /** A probe store of an instrumented class, seen from the store; `h` is the number of its array. */
    method RecordHit(a: array<bool>, i: nat, ghost h: nat)
      requires Valid() && h < |arrays| && arrays[h] == a && i < a.Length
      modifies a
      ensures Valid()
      ensures Abstract() == Write(old(Abstract()), h, i)
    {
      a[i] := true;
      assert ArrayValues() == old(ArrayValues())[h := old(a[..])[i := true]];
    }
  }
}
