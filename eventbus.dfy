/**
 * The client's event system (`emit`, `on`, `once` in src/core/SSOClient.ts): a
 * map from event name to the listeners registered for it, in registration
 * order. A listener is identified by the id it received at registration,
 * which stands for the object identity that `indexOf` compares; handlers
 * themselves are outside the model.
 */
module EventBus {

  datatype Listener = Listener(id: nat, event: string, once: bool)

  type Registry = map<string, seq<Listener>>

  /** `eventListeners.get(event) || []`. */
  function ListenersOf(m: Registry, event: string): seq<Listener>
  {
    if event in m then m[event] else []
  }

  predicate DistinctIds(s: seq<Listener>)
  {
    forall i, j | 0 <= i < j < |s| :: s[i].id != s[j].id
  }

  predicate HasId(s: seq<Listener>, id: nat)
  {
    exists i | 0 <= i < |s| :: s[i].id == id
  }

  /**
   * Every list holds listeners of its own event, with distinct ids, all below
   * the next id to hand out.
   */
  predicate WellFormed(m: Registry, nextId: nat)
  {
    forall e | e in m :: DistinctIds(m[e]) && forall l | l in m[e] :: l.event == e && l.id < nextId
  }

  /** `on`/`once`: create the list if needed, then push the listener at its end. */
  function Add(m: Registry, l: Listener): (r: Registry)
    ensures ListenersOf(r, l.event) == ListenersOf(m, l.event) + [l]
    ensures forall e | e != l.event :: ListenersOf(r, e) == ListenersOf(m, e)
  {
    m[l.event := ListenersOf(m, l.event) + [l]]
  }

  lemma AddWellFormed(m: Registry, nextId: nat, event: string, once: bool)
    requires WellFormed(m, nextId)
    ensures WellFormed(Add(m, Listener(nextId, event, once)), nextId + 1)
  {
    var l := Listener(nextId, event, once);
    var r := Add(m, l);
    forall e | e in r
      ensures DistinctIds(r[e]) && forall x: Listener | x in r[e] :: x.event == e && x.id < nextId + 1
    {
      if e == event {
        var s := ListenersOf(m, event);
        assert r[e] == s + [l];
        assert forall x | x in s :: x.id < nextId;
        forall i, j | 0 <= i < j < |r[e]| ensures r[e][i].id != r[e][j].id {
          assert r[e][i] in s;
          if j < |s| {
            assert r[e][j] == s[j];
          }
        }
      }
    }
  }

  /** The listeners that stay after an emit: all but the `once` ones, in order. */
  function Persistent(s: seq<Listener>): seq<Listener>
  {
    if s == [] then []
    else Persistent(s[..|s| - 1]) + (if s[|s| - 1].once then [] else [s[|s| - 1]])
  }

  lemma {:induction false} PersistentMembers(s: seq<Listener>)
    ensures forall l :: l in Persistent(s) <==> l in s && !l.once
    ensures |Persistent(s)| <= |s|
  {
    if s != [] {
      PersistentMembers(s[..|s| - 1]);
      assert s == s[..|s| - 1] + [s[|s| - 1]];
    }
  }

  /** Dropping `once` listeners distributes over concatenation: the order is kept. */
  lemma {:induction false} PersistentAppend(a: seq<Listener>, b: seq<Listener>)
    ensures Persistent(a + b) == Persistent(a) + Persistent(b)
  {
    if b == [] {
      assert a + b == a;
    } else {
      PersistentAppend(a, b[..|b| - 1]);
      assert (a + b)[..|a + b| - 1] == a + b[..|b| - 1];
    }
  }

  /** A subsequence of a list with distinct ids has distinct ids. */
  lemma {:induction false} PersistentDistinct(s: seq<Listener>)
    requires DistinctIds(s)
    ensures DistinctIds(Persistent(s))
  {
    if s != [] {
      var init := s[..|s| - 1];
      var x := s[|s| - 1];
      assert DistinctIds(init) by {
        forall i, j | 0 <= i < j < |init| ensures init[i].id != init[j].id {
          assert init[i] == s[i] && init[j] == s[j];
        }
      }
      PersistentDistinct(init);
      PersistentMembers(init);
      if !x.once {
        var p := Persistent(init);
        forall i | 0 <= i < |p| ensures p[i].id != x.id {
          assert p[i] in init;
          var k :| 0 <= k < |init| && init[k] == p[i];
          assert s[k] == p[i];
        }
      }
    }
  }

  /**
   * The registry after `emit(event)`: the list for `event` is replaced by its
   * persistent listeners (an absent list becomes an empty one).
   */
  function AfterEmit(m: Registry, event: string): (r: Registry)
    ensures event in r
    ensures forall e | e != event :: ListenersOf(r, e) == ListenersOf(m, e)
  {
    m[event := Persistent(ListenersOf(m, event))]
  }

  /** After an emit, a listener stays registered for it exactly when it is not a `once` one. */
  lemma EmitKeepsPersistent(m: Registry, event: string)
    ensures forall l :: l in ListenersOf(AfterEmit(m, event), event) <==> l in ListenersOf(m, event) && !l.once
  {
    PersistentMembers(ListenersOf(m, event));
  }

  lemma EmitWellFormed(m: Registry, nextId: nat, event: string)
    requires WellFormed(m, nextId)
    ensures WellFormed(AfterEmit(m, event), nextId)
  {
    var r := AfterEmit(m, event);
    var s := ListenersOf(m, event);
    PersistentMembers(s);
    PersistentDistinct(s);
    assert forall x | x in r[event] :: x in s;
  }

  /** Emitting twice without new registrations leaves what one emit leaves. */
  lemma {:induction false} PersistentIdempotent(s: seq<Listener>)
    ensures Persistent(Persistent(s)) == Persistent(s)
  {
    if s != [] {
      var init := s[..|s| - 1];
      var x := s[|s| - 1];
      PersistentIdempotent(init);
      if x.once {
        assert Persistent(s) == Persistent(init) + [];
        assert Persistent(s) == Persistent(init);
      } else {
        assert Persistent(s) == Persistent(init) + [x];
        PersistentAppend(Persistent(init), [x]);
        assert [x][..0] == [];
        assert Persistent([x]) == [x];
      }
    }
  }

  /** `listeners.indexOf(listener)`, the listener being the one with this id. */
  function IndexOfId(s: seq<Listener>, id: nat): (i: int)
    ensures -1 <= i < |s|
    ensures i >= 0 ==> s[i].id == id && forall j | 0 <= j < i :: s[j].id != id
    ensures i < 0 <==> !HasId(s, id)
  {
    if s == [] then -1
    else if s[0].id == id then 0
    else
      var i := IndexOfId(s[1..], id);
      if i < 0 then -1 else i + 1
  }

  /** `if (index > -1) listeners.splice(index, 1)`. */
  function RemoveId(s: seq<Listener>, id: nat): seq<Listener>
  {
    var i := IndexOfId(s, id);
    if i < 0 then s else s[..i] + s[i + 1..]
  }

  /**
   * The function returned by `on`/`once`: it splices the listener out of the
   * current list for its event; with no list it splices a fresh empty array,
   * which changes nothing.
   */
  function Unsubscribe(m: Registry, event: string, id: nat): (r: Registry)
    ensures forall e | e != event :: ListenersOf(r, e) == ListenersOf(m, e)
    ensures ListenersOf(r, event) == RemoveId(ListenersOf(m, event), id)
    ensures event in r <==> event in m
  {
    if event in m then m[event := RemoveId(m[event], id)] else m
  }

  /**
   * Removal takes out exactly the listener with that id: the others stay, in
   * order, and an id that is not there is no change.
   */
  lemma RemoveIdExact(s: seq<Listener>, id: nat)
    requires DistinctIds(s)
    ensures !HasId(RemoveId(s, id), id)
    ensures forall l :: l in RemoveId(s, id) <==> l in s && l.id != id
    ensures HasId(s, id) ==> |RemoveId(s, id)| == |s| - 1
    ensures !HasId(s, id) ==> RemoveId(s, id) == s
  {
    var i := IndexOfId(s, id);
    if i >= 0 {
      var r := s[..i] + s[i + 1..];
      RemoveAtLacks(s, i, r);
      RemoveAtMembers(s, i, r);
    }
  }

  /** Cutting out position `i` of a list with distinct ids leaves no listener with that id. */
  lemma RemoveAtLacks(s: seq<Listener>, i: nat, r: seq<Listener>)
    requires DistinctIds(s) && i < |s| && r == s[..i] + s[i + 1..]
    ensures forall j | 0 <= j < |r| :: r[j].id != s[i].id
  {
    forall j | 0 <= j < |r| ensures r[j].id != s[i].id {
      assert r[j] == s[if j < i then j else j + 1];
    }
  }

  /** Cutting out position `i` of a list with distinct ids keeps exactly the other listeners. */
  lemma RemoveAtMembers(s: seq<Listener>, i: nat, r: seq<Listener>)
    requires DistinctIds(s) && i < |s| && r == s[..i] + s[i + 1..]
    ensures forall l :: l in r <==> l in s && l.id != s[i].id
  {
    RemoveAtLacks(s, i, r);
    forall l ensures l in r <==> l in s && l.id != s[i].id {
      if l in s && l.id != s[i].id {
        var k :| 0 <= k < |s| && s[k] == l;
        if k < i { assert r[k] == l; } else { assert r[k - 1] == l; }
      }
    }
  }

  /** Calling the returned function a second time changes nothing. */
  lemma UnsubscribeIdempotent(m: Registry, event: string, id: nat)
    requires DistinctIds(ListenersOf(m, event))
    ensures Unsubscribe(Unsubscribe(m, event, id), event, id) == Unsubscribe(m, event, id)
  {
    if event in m {
      var s := m[event];
      RemoveIdExact(s, id);
      var r := RemoveId(s, id);
      assert IndexOfId(r, id) < 0;
      var m1 := m[event := r];
      assert m1[event := r] == m1;
    }
  }

  /** Removal keeps the ids of a list distinct. */
  lemma RemoveIdDistinct(s: seq<Listener>, id: nat)
    requires DistinctIds(s)
    ensures DistinctIds(RemoveId(s, id))
  {
    var i := IndexOfId(s, id);
    if i >= 0 {
      var r := s[..i] + s[i + 1..];
      forall a, b | 0 <= a < b < |r| ensures r[a].id != r[b].id {
        assert r[a] == s[if a < i then a else a + 1];
        assert r[b] == s[if b < i then b else b + 1];
      }
    }
  }

  lemma UnsubscribeWellFormed(m: Registry, nextId: nat, event: string, id: nat)
    requires WellFormed(m, nextId)
    ensures WellFormed(Unsubscribe(m, event, id), nextId)
  {
    if event in m {
      RemoveIdExact(m[event], id);
      RemoveIdDistinct(m[event], id);
    }
  }

  /** Registering and then unsubscribing restores the event's list. */
  lemma AddThenUnsubscribe(m: Registry, nextId: nat, event: string, once: bool)
    requires WellFormed(m, nextId)
    ensures ListenersOf(Unsubscribe(Add(m, Listener(nextId, event, once)), event, nextId), event)
            == ListenersOf(m, event)
  {
    var s := ListenersOf(m, event);
    var l := Listener(nextId, event, once);
    assert !HasId(s, nextId) by {
      forall i | 0 <= i < |s| ensures s[i].id != nextId {
        assert s[i] in s;
      }
    }
    var t := s + [l];
    assert IndexOfId(t, nextId) == |s| by {
      forall j | 0 <= j < |s| ensures t[j].id != nextId {
        assert t[j] == s[j];
      }
      assert t[|s|] == l;
    }
    assert t[..|s|] == s;
  }
}
