/** The world's action queue: entries ordered by trigger time, with ties kept
    in insertion order, cancellable by action id.  Only the interface the
    simulation uses is modelled: insert, remove, head and pop. */
module ActionQueue {
  import opened Wrappers

  type ActionId = nat
  type EntityId = nat

  /** What a scheduled action does when it fires; one case per closure the
      simulation creates. */
  datatype ActionKind =
    | MinerStep
    | OreBlobStep
    | VeinStep
    | OreTransform
    | QuakeDeath
    | Animate(repeatCount: nat)

  /** An action with an identity (`id`) and the entity it belongs to. */
  datatype Action = Action(id: ActionId, owner: EntityId, kind: ActionKind)

  /** A queued action and its trigger time. */
  datatype Entry = Entry(action: Action, ord: int)

  /** No entry is due earlier than the one at the front, and the rest are in
      order too. */
  ghost predicate Sorted(q: seq<Entry>)
  {
    q == [] || ((forall x :: x in q[1..] ==> q[0].ord <= x.ord) && Sorted(q[1..]))
  }

  /** Sorted, pairwise: no entry is due later than any entry behind it. */
  lemma {:induction false} SortedPairs(q: seq<Entry>)
    ensures Sorted(q) <==> forall i, j :: 0 <= i < j < |q| ==> q[i].ord <= q[j].ord
  {
    if q != [] {
      var t := q[1..];
      SortedPairs(t);
      if Sorted(q) {
        forall i, j | 0 <= i < j < |q| ensures q[i].ord <= q[j].ord {
          assert q[j] == t[j - 1];
          if i > 0 {
            assert q[i] == t[i - 1];
          } else {
            assert t[j - 1] in t;
          }
        }
      }
      if forall i, j :: 0 <= i < j < |q| ==> q[i].ord <= q[j].ord {
        forall x | x in t ensures q[0].ord <= x.ord {
          var j :| 0 <= j < |t| && t[j] == x;
          assert q[j + 1] == x;
        }
        forall i, j | 0 <= i < j < |t| ensures t[i].ord <= t[j].ord {
          assert t[i] == q[i + 1] && t[j] == q[j + 1];
        }
      }
    }
  }

  /** The ids of all queued actions. */
  function Ids(q: seq<Entry>): set<ActionId>
  {
    if q == [] then {} else {q[0].action.id} + Ids(q[1..])
  }

  /** The ids of the queued actions that belong to `owner`. */
  function OwnedIds(q: seq<Entry>, owner: EntityId): set<ActionId>
  {
    if q == [] then {}
    else (if q[0].action.owner == owner then {q[0].action.id} else {}) + OwnedIds(q[1..], owner)
  }

  /** No action id occurs twice in the queue. */
  ghost predicate UniqueIds(q: seq<Entry>)
  {
    q == [] || (q[0].action.id !in Ids(q[1..]) && UniqueIds(q[1..]))
  }

  /** The number of leading entries due no later than `ord`: where a new entry
      due at `ord` goes, behind every entry with the same trigger time. */
  function InsertionPoint(q: seq<Entry>, ord: int): (k: nat)
    ensures k <= |q|
    ensures forall i :: 0 <= i < k ==> q[i].ord <= ord
    ensures k < |q| ==> ord < q[k].ord
  {
    if q == [] || ord < q[0].ord then 0 else 1 + InsertionPoint(q[1..], ord)
  }

  /** ordered_list.insert: stable insertion by trigger time. */
  function Insert(q: seq<Entry>, e: Entry): (r: seq<Entry>)
    ensures |r| == |q| + 1
  {
    if q == [] || e.ord < q[0].ord then [e] + q else [q[0]] + Insert(q[1..], e)
  }

  /** Insertion splices the new entry in at its insertion point. */
  lemma {:induction false} InsertSplice(q: seq<Entry>, e: Entry)
    ensures var k := InsertionPoint(q, e.ord); Insert(q, e) == q[..k] + [e] + q[k..]
  {
    if q != [] && q[0].ord <= e.ord {
      InsertSplice(q[1..], e);
      var k := InsertionPoint(q[1..], e.ord);
      assert q[..k + 1] == [q[0]] + q[1..][..k];
      assert q[k + 1..] == q[1..][k..];
    }
  }

  /** A new blob's step, due at `stepTime`, and its endless animation, with
      the ids n and n + 1, queued. */
  function BlobActions(q: seq<Entry>, n: ActionId, blob: EntityId, stepTime: int, animationRate: int): (r: seq<Entry>)
    ensures |r| == |q| + 2
  {
    Insert(Insert(q, Entry(Action(n, blob, OreBlobStep), stepTime)), Entry(Action(n + 1, blob, Animate(0)), animationRate))
  }

  /** Insertion adds exactly the new entry and keeps every other one. */
  lemma {:induction false} InsertMultiset(q: seq<Entry>, e: Entry)
    ensures multiset(Insert(q, e)) == multiset(q) + multiset{e}
  {
    if q != [] && q[0].ord <= e.ord {
      InsertMultiset(q[1..], e);
      assert q == [q[0]] + q[1..];
    }
  }

  /** The queue without the entries whose action id is in `cancelled`. */
  function Without(q: seq<Entry>, cancelled: set<ActionId>): seq<Entry>
  {
    if q == [] then []
    else (if q[0].action.id in cancelled then [] else [q[0]]) + Without(q[1..], cancelled)
  }

  /** ordered_list.remove: cancels the action with the given id; a no-op when
      no such action is queued. */
  function Remove(q: seq<Entry>, id: ActionId): seq<Entry>
  {
    Without(q, {id})
  }

  /** ordered_list.head: the earliest entry, if any. */
  function Head(q: seq<Entry>): (h: Option<Entry>)
    ensures h == None <==> q == []
    ensures Sorted(q) && h.Some? ==> h.value in q && forall x :: x in q ==> h.value.ord <= x.ord
  {
    if q == [] then None else Some(q[0])
  }

  // ---------------------------------------------------------------------
  // Ordering

  /** Where the new entry lands: the entries before the insertion point stay
      in place, the new entry follows them and the rest move one place back. */
  lemma InsertShape(q: seq<Entry>, e: Entry)
    ensures var k := InsertionPoint(q, e.ord);
      Insert(q, e)[k] == e &&
      (forall i :: 0 <= i < k ==> Insert(q, e)[i] == q[i]) &&
      (forall i :: k <= i < |q| ==> Insert(q, e)[i + 1] == q[i])
  {
    var k := InsertionPoint(q, e.ord);
    InsertSplice(q, e);
    SpliceShape(q, k, e);
  }

  /** The shape of a sequence with one element spliced in at position k. */
  lemma SpliceShape(q: seq<Entry>, k: nat, e: Entry)
    requires k <= |q|
    ensures var r := q[..k] + [e] + q[k..];
      |r| == |q| + 1 && r[k] == e &&
      (forall i :: 0 <= i < k ==> r[i] == q[i]) &&
      (forall i :: k <= i < |q| ==> r[i + 1] == q[i])
  {
    var r := q[..k] + [e] + q[k..];
    forall i | k <= i < |q| ensures r[i + 1] == q[i] {
      assert r[i + 1] == q[k..][i - k];
    }
  }

  /** Insertion keeps the queue ordered by trigger time. */
  lemma {:induction false} InsertSorted(q: seq<Entry>, e: Entry)
    requires Sorted(q)
    ensures Sorted(Insert(q, e))
  {
    var k := InsertionPoint(q, e.ord);
    var r := Insert(q, e);
    InsertShape(q, e);
    SortedPairs(q);
    SortedPairs(r);
    forall i, j | 0 <= i < j < |r| ensures r[i].ord <= r[j].ord {
      if j < k {
        assert r[i] == q[i] && r[j] == q[j];
      } else if j == k {
        assert r[i] == q[i];
      } else if i < k {
        assert r[i] == q[i] && r[j] == q[j - 1];
      } else if i == k {
        assert r[j] == q[j - 1];
      } else {
        assert r[i] == q[i - 1] && r[j] == q[j - 1];
      }
    }
  }

  /** Ties are broken by insertion order: every entry due no later than the new
      one keeps its place ahead of it, every entry due later moves one place
      back, behind it. */
  lemma {:induction false} InsertFifo(q: seq<Entry>, e: Entry)
    requires Sorted(q)
    ensures Insert(q, e)[InsertionPoint(q, e.ord)] == e
    ensures forall i :: 0 <= i < |q| && q[i].ord <= e.ord ==>
              i < InsertionPoint(q, e.ord) && Insert(q, e)[i] == q[i]
    ensures forall i :: 0 <= i < |q| && e.ord < q[i].ord ==>
              InsertionPoint(q, e.ord) <= i && Insert(q, e)[i + 1] == q[i]
  {
    var k := InsertionPoint(q, e.ord);
    InsertShape(q, e);
    SortedPairs(q);
    var r := Insert(q, e);
    forall i | 0 <= i < |q| && q[i].ord <= e.ord ensures i < k && r[i] == q[i] {
      if k < |q| {
        assert q[i].ord < q[k].ord;
      }
    }
    forall i | 0 <= i < |q| && e.ord < q[i].ord ensures k <= i && r[i + 1] == q[i] {
    }
  }

  lemma {:induction false} WithoutMembers(q: seq<Entry>, cancelled: set<ActionId>)
    ensures forall x :: x in Without(q, cancelled) <==> x in q && x.action.id !in cancelled
  {
    if q != [] {
      WithoutMembers(q[1..], cancelled);
      assert q == [q[0]] + q[1..];
    }
  }

  /** Cancelling nothing leaves the queue as it is. */
  lemma {:induction false} WithoutNothing(q: seq<Entry>)
    ensures Without(q, {}) == q
  {
    if q != [] {
      WithoutNothing(q[1..]);
      assert q == [q[0]] + q[1..];
    }
  }

  /** Cancellation keeps the remaining entries in order. */
  lemma {:induction false} WithoutSorted(q: seq<Entry>, cancelled: set<ActionId>)
    requires Sorted(q)
    ensures Sorted(Without(q, cancelled))
  {
    if q != [] {
      var t := Without(q[1..], cancelled);
      WithoutSorted(q[1..], cancelled);
      WithoutMembers(q[1..], cancelled);
      var r := Without(q, cancelled);
      if q[0].action.id !in cancelled {
        assert r == [q[0]] + t && r[1..] == t;
      } else {
        assert r == t;
      }
    }
  }

  lemma {:induction false} WithoutTwice(q: seq<Entry>, s: set<ActionId>, t: set<ActionId>)
    ensures Without(Without(q, s), t) == Without(q, s + t)
  {
    if q != [] {
      WithoutTwice(q[1..], s, t);
      var w := Without(q, s);
      var rest := Without(q[1..], s);
      if q[0].action.id in s {
        assert w == rest;
      } else {
        assert w == [q[0]] + rest;
        assert w[0] == q[0] && w[1..] == rest;
        assert Without(w, t) == (if q[0].action.id in t then [] else [q[0]]) + Without(rest, t);
      }
    }
  }

  // ---------------------------------------------------------------------
  // Identities

  lemma {:induction false} IdsConcat(a: seq<Entry>, b: seq<Entry>)
    ensures Ids(a + b) == Ids(a) + Ids(b)
  {
    if a != [] {
      IdsConcat(a[1..], b);
      assert (a + b)[1..] == a[1..] + b;
    } else {
      assert a + b == b;
    }
  }

  lemma {:induction false} OwnedIdsConcat(a: seq<Entry>, b: seq<Entry>, owner: EntityId)
    ensures OwnedIds(a + b, owner) == OwnedIds(a, owner) + OwnedIds(b, owner)
  {
    if a != [] {
      OwnedIdsConcat(a[1..], b, owner);
      assert (a + b)[1..] == a[1..] + b;
    } else {
      assert a + b == b;
    }
  }

  lemma {:induction false} UniqueConcat(a: seq<Entry>, b: seq<Entry>)
    ensures UniqueIds(a + b) <==> UniqueIds(a) && UniqueIds(b) && Ids(a) !! Ids(b)
  {
    if a == [] {
      assert a + b == b;
    } else {
      UniqueConcat(a[1..], b);
      IdsConcat(a[1..], b);
      assert (a + b)[1..] == a[1..] + b;
    }
  }

  lemma {:induction false} OwnedIdsSubset(q: seq<Entry>, owner: EntityId)
    ensures OwnedIds(q, owner) <= Ids(q)
  {
    if q != [] {
      OwnedIdsSubset(q[1..], owner);
    }
  }

  /** The queued ids of a queue are the ids of its members. */
  lemma {:induction false} IdsMembers(q: seq<Entry>)
    ensures forall a :: a in Ids(q) <==> exists x :: x in q && x.action.id == a
  {
    if q != [] {
      IdsMembers(q[1..]);
      assert q == [q[0]] + q[1..];
    }
  }

  /** Every queued action's id is among its owner's queued ids. */
  lemma {:induction false} OwnedIdsMember(q: seq<Entry>, x: Entry)
    requires x in q
    ensures x.action.id in OwnedIds(q, x.action.owner)
  {
    if x != q[0] {
      assert x in q[1..];
      OwnedIdsMember(q[1..], x);
    }
  }

  /** An owner with no member in the queue owns no queued id. */
  lemma {:induction false} OwnedIdsAbsent(q: seq<Entry>, owner: EntityId)
    requires forall x :: x in q ==> x.action.owner != owner
    ensures OwnedIds(q, owner) == {}
  {
    if q != [] {
      assert q[0] in q;
      forall x | x in q[1..] ensures x.action.owner != owner {
        assert x in q;
      }
      OwnedIdsAbsent(q[1..], owner);
    }
  }

  /** With unique ids, an id belongs to at most one owner. */
  lemma {:induction false} OwnersDisjoint(q: seq<Entry>, o1: EntityId, o2: EntityId, a: ActionId)
    requires UniqueIds(q)
    requires a in OwnedIds(q, o1) && a in OwnedIds(q, o2)
    ensures o1 == o2
  {
    OwnedIdsSubset(q[1..], o1);
    OwnedIdsSubset(q[1..], o2);
    if a != q[0].action.id {
      OwnersDisjoint(q[1..], o1, o2, a);
    }
  }

  /** The members after insertion are the old members and the new entry. */
  lemma InsertMembers(q: seq<Entry>, e: Entry)
    ensures forall x :: x in Insert(q, e) <==> x in q || x == e
  {
    var r := Insert(q, e);
    InsertMultiset(q, e);
    forall x ensures x in r <==> x in q || x == e {
      assert x in r <==> multiset(r)[x] > 0;
      assert x in q <==> multiset(q)[x] > 0;
    }
  }

  /** Cancellation distributes over concatenation. */
  lemma {:induction false} WithoutConcat(a: seq<Entry>, b: seq<Entry>, cancelled: set<ActionId>)
    ensures Without(a + b, cancelled) == Without(a, cancelled) + Without(b, cancelled)
  {
    if a != [] {
      WithoutConcat(a[1..], b, cancelled);
      assert (a + b)[1..] == a[1..] + b;
    } else {
      assert a + b == b;
    }
  }

  /** An entry due before every queued entry goes to the front. */
  lemma InsertFront(q: seq<Entry>, e: Entry)
    requires forall x :: x in q ==> e.ord < x.ord
    ensures Insert(q, e) == [e] + q
  {
    if q != [] {
      assert q[0] in q;
    }
  }

  /** Cancelling a set of ids that does not hold a new entry's id gives the
      same queue whether the entry is inserted before or after. */
  lemma {:induction false} WithoutInsert(q: seq<Entry>, e: Entry, cancelled: set<ActionId>)
    requires Sorted(q) && e.action.id !in cancelled
    ensures Without(Insert(q, e), cancelled) == Insert(Without(q, cancelled), e)
  {
    if q == [] {
      assert Without([e], cancelled) == [e] + Without([], cancelled);
    } else if e.ord < q[0].ord {
      WithoutMembers(q, cancelled);
      forall x | x in Without(q, cancelled) ensures e.ord < x.ord {
        assert x == q[0] || x in q[1..] by {
          assert q == [q[0]] + q[1..];
        }
      }
      InsertFront(Without(q, cancelled), e);
      assert ([e] + q)[1..] == q;
    } else {
      var rest := q[1..];
      WithoutInsert(rest, e, cancelled);
      assert Insert(q, e) == [q[0]] + Insert(rest, e);
      assert ([q[0]] + Insert(rest, e))[1..] == Insert(rest, e);
      var w := Without(rest, cancelled);
      if q[0].action.id in cancelled {
        assert Without(q, cancelled) == w;
        assert Without(Insert(q, e), cancelled) == Without(Insert(rest, e), cancelled);
      } else {
        assert Without(q, cancelled) == [q[0]] + w;
        assert ([q[0]] + w)[1..] == w;
      }
    }
  }

  /** Inserting an entry adds its id to the queued ids. */
  lemma InsertIdSet(q: seq<Entry>, e: Entry)
    ensures Ids(Insert(q, e)) == Ids(q) + {e.action.id}
  {
    IdsMembers(q);
    IdsMembers(Insert(q, e));
    InsertMembers(q, e);
  }

  /** A queue has unique ids exactly when it has as many ids as entries. */
  lemma {:induction false} UniqueCount(q: seq<Entry>)
    ensures |Ids(q)| <= |q|
    ensures UniqueIds(q) <==> |Ids(q)| == |q|
  {
    if q != [] {
      UniqueCount(q[1..]);
      var rest := Ids(q[1..]);
      if q[0].action.id in rest {
        assert Ids(q) == rest;
      } else {
        assert |Ids(q)| == |rest| + 1;
      }
    }
  }

  /** Inserting a new entry keeps the ids unique and adds its id. */
  lemma InsertIds(q: seq<Entry>, e: Entry)
    requires UniqueIds(q) && e.action.id !in Ids(q)
    ensures UniqueIds(Insert(q, e))
    ensures Ids(Insert(q, e)) == Ids(q) + {e.action.id}
  {
    InsertIdSet(q, e);
    UniqueCount(q);
    UniqueCount(Insert(q, e));
  }

  /** The ids an owner has queued are the ids of its members. */
  lemma {:induction false} OwnedIdsMembers(q: seq<Entry>, o: EntityId)
    ensures forall a :: a in OwnedIds(q, o) <==> exists x :: x in q && x.action.owner == o && x.action.id == a
  {
    if q != [] {
      OwnedIdsMembers(q[1..], o);
      assert q == [q[0]] + q[1..];
    }
  }

  /** Inserting a new entry adds its id to its owner's queued ids and to no other's. */
  lemma InsertOwnedIds(q: seq<Entry>, e: Entry, o: EntityId)
    ensures OwnedIds(Insert(q, e), o) ==
              OwnedIds(q, o) + (if e.action.owner == o then {e.action.id} else {})
  {
    OwnedIdsMembers(q, o);
    OwnedIdsMembers(Insert(q, e), o);
    InsertMembers(q, e);
  }

  /** Cancelling a set of ids keeps the remaining ids unique and takes exactly
      the cancelled ones out. */
  lemma {:induction false} WithoutIds(q: seq<Entry>, cancelled: set<ActionId>)
    requires UniqueIds(q)
    ensures UniqueIds(Without(q, cancelled))
    ensures Ids(Without(q, cancelled)) == Ids(q) - cancelled
  {
    if q != [] {
      WithoutIds(q[1..], cancelled);
      var t := Without(q[1..], cancelled);
      assert q[0].action.id !in Ids(q[1..]) && UniqueIds(q[1..]);
      assert Ids(q) == {q[0].action.id} + Ids(q[1..]);
      if q[0].action.id in cancelled {
        assert Without(q, cancelled) == t;
      } else {
        assert Without(q, cancelled) == [q[0]] + t;
        UniqueConcat([q[0]], t);
        IdsConcat([q[0]], t);
        assert UniqueIds([q[0]]);
      }
    }
  }

  /** Cancelling a set of ids takes exactly those ids out of an owner's queued ids. */
  lemma {:induction false} WithoutOwnedIds(q: seq<Entry>, cancelled: set<ActionId>, o: EntityId)
    ensures OwnedIds(Without(q, cancelled), o) == OwnedIds(q, o) - cancelled
  {
    if q != [] {
      WithoutOwnedIds(q[1..], cancelled, o);
      var t := Without(q[1..], cancelled);
      if q[0].action.id in cancelled {
        assert Without(q, cancelled) == t;
      } else {
        assert Without(q, cancelled) == [q[0]] + t;
        OwnedIdsConcat([q[0]], t, o);
      }
    }
  }

  /** Popping the head keeps the ids unique and takes out the head's id. */
  lemma PopIds(q: seq<Entry>)
    requires q != [] && UniqueIds(q)
    ensures UniqueIds(q[1..])
    ensures Ids(q[1..]) == Ids(q) - {q[0].action.id}
  {
  }

  /** Popping the head takes its id out of its owner's queued ids, and only that id. */
  lemma PopOwnedIds(q: seq<Entry>, o: EntityId)
    requires q != [] && UniqueIds(q)
    ensures OwnedIds(q[1..], o) ==
              OwnedIds(q, o) - (if q[0].action.owner == o then {q[0].action.id} else {})
  {
    OwnedIdsSubset(q[1..], o);
  }
}
