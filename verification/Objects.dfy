/** Content-addressed objects: keys, closures, and the object store.

    Hash collisions are excluded, so a key is modelled by the content it is the
    hash of. The objects below a key are then a finite tree by construction, in
    which shared objects are simply equal keys.
 */
module Objects {

  datatype Data = Data(bytes: seq<int>, kids: seq<Key>)

  /** `length` is the logical size embedded in the key. */
  datatype Key = Key(length: nat, data: Data)

  /** Every object reachable from k is present. */
  predicate Complete(k: Key, present: set<Key>)
    decreases k
  {
    k in present && forall c :: c in k.data.kids ==> Complete(c, present)
  }

  lemma {:induction false} CompleteGrows(k: Key, present: set<Key>, more: set<Key>)
    requires Complete(k, present) && present <= more
    ensures Complete(k, more)
    decreases k
  {
    forall c | c in k.data.kids ensures Complete(c, more) { CompleteGrows(c, present, more); }
  }

  /** Each key of the path is a child of the one before it. */
  ghost predicate Leads(path: seq<Key>) {
    path != [] && forall i :: 0 < i < |path| ==> path[i] in path[i - 1].data.kids
  }

  /** Every path down from k stays among the present objects. */
  ghost predicate ReachablePresent(k: Key, present: set<Key>) {
    forall path :: Leads(path) && path[0] == k ==> path[|path| - 1] in present
  }

  lemma {:induction false} CompleteReaches(path: seq<Key>, present: set<Key>)
    requires Leads(path) && Complete(path[0], present)
    ensures path[|path| - 1] in present
    decreases |path|
  {
    if |path| > 1 {
      assert path[1] in path[0].data.kids;
      assert Leads(path[1..]);
      CompleteReaches(path[1..], present);
    }
  }

  lemma {:induction false} ReachesComplete(k: Key, present: set<Key>)
    requires ReachablePresent(k, present)
    ensures Complete(k, present)
    decreases k
  {
    assert Leads([k]);
    forall c | c in k.data.kids ensures Complete(c, present) {
      forall path | Leads(path) && path[0] == c ensures path[|path| - 1] in present {
        assert Leads([k] + path);
        assert ([k] + path)[|path|] == path[|path| - 1];
      }
      ReachesComplete(c, present);
    }
  }

  /** An object is complete exactly if all that can be reached from it is there. */
  lemma CompleteMeans(k: Key, present: set<Key>)
    ensures Complete(k, present) <==> ReachablePresent(k, present)
  {
    if Complete(k, present) {
      forall path | Leads(path) && path[0] == k ensures path[|path| - 1] in present { CompleteReaches(path, present); }
    }
    if ReachablePresent(k, present) { ReachesComplete(k, present); }
  }

  // ---- sizes ----

  /** Objects in the unfolded tree below k, itself included. */
  function Size(k: Key): nat
    decreases k, 1
  {
    1 + Sizes(k.data.kids)
  }

  function Sizes(ks: seq<Key>): nat
    decreases ks, 0
  {
    if ks == [] then 0 else Size(ks[0]) + Sizes(ks[1..])
  }

  lemma {:induction false} SizesAppend(a: seq<Key>, b: seq<Key>)
    ensures Sizes(a + b) == Sizes(a) + Sizes(b)
    decreases |a|
  {
    if a == [] {
      assert a + b == b;
    } else {
      assert (a + b)[1..] == a[1..] + b;
      SizesAppend(a[1..], b);
    }
  }

  lemma RemoveOne<T>(s: seq<T>, x: T) returns (p: seq<T>, q: seq<T>)
    requires x in multiset(s)
    ensures s == p + [x] + q && multiset(p + q) == multiset(s) - multiset{x}
  {
    var i :| 0 <= i < |s| && s[i] == x;
    p, q := s[..i], s[i + 1..];
    assert s == p + [x] + q;
  }

  lemma HeadTail<T>(s: seq<T>)
    requires s != []
    ensures s == [s[0]] + s[1..] && s[0] in multiset(s) && multiset(s[1..]) == multiset(s) - multiset{s[0]}
  {
    assert s == [s[0]] + s[1..];
  }

  lemma SizesInsert(p: seq<Key>, x: Key, q: seq<Key>)
    ensures Sizes(p + [x] + q) == Size(x) + Sizes(p + q)
  {
    SizesAppend(p + [x], q);
    SizesAppend(p, [x]);
    SizesAppend(p, q);
    assert Sizes([x]) == Size(x) + Sizes([]);
  }

  lemma {:induction false} SizesPermute(a: seq<Key>, b: seq<Key>)
    requires multiset(a) == multiset(b)
    ensures Sizes(a) == Sizes(b)
    decreases |a|
  {
    if a == [] {
      assert |multiset(b)| == 0;
    } else {
      HeadTail(a);
      var p, q := RemoveOne(b, a[0]);
      SizesPermute(a[1..], p + q);
      SizesInsert(p, a[0], q);
    }
  }

  // ---- the store ----

  /** A received object: the key the peer claims and the bytes it sent. */
  datatype Item = Item(key: Key, data: Data)

  predicate Verified(it: Item) { it.key.data == it.data }

  datatype Presence = Absent | Partial | Whole | Fault

  /** An object store. Objects are written only after their bytes were checked against their
      key, so the set of keys says everything. `faulty` stores may fail at any call. The store is
      shared: other transfers may add objects at any time. */
  class PackStore {
    const faulty: bool
    var objects: set<Key>

    constructor (faulty: bool, objects: set<Key>)
      ensures this.faulty == faulty && this.objects == objects
    {
      this.faulty, this.objects := faulty, objects;
    }

    /** Whatever other transfers store in the meantime. */
    method Others()
      modifies this`objects
      ensures old(objects) <= objects
    {
      var more: set<Key> := *;
      objects := objects + more;
    }

    /** Has followed by CheckComplete, while others may be storing. */
    method Probe(k: Key) returns (r: Presence)
      modifies this`objects
      ensures old(objects) <= objects
      ensures r.Absent? ==> k !in old(objects)
      ensures r.Partial? ==> !Complete(k, old(objects))
      ensures r.Whole? ==> Complete(k, objects)
      ensures r.Fault? ==> faulty
    {
      var trouble: bool := *;
      if faulty && trouble { return Fault; }
      if k !in objects { return Absent; }
      Others();
      ghost var seen := objects;
      r := if Complete(k, objects) then Whole else Partial;
      if Complete(k, old(objects)) { CompleteGrows(k, old(objects), seen); }
      Others();
      if r.Whole? { CompleteGrows(k, seen, objects); }
    }

    /** WriteParallel with Verify: stores every item, or fails having stored some verified ones.
        `stored` are the keys that this call stored. */
    method WriteParallel(items: seq<Item>) returns (ok: bool, ghost stored: set<Key>)
      modifies this`objects
      ensures old(objects) + stored <= objects
      ensures forall k :: k in stored ==>
                exists i :: 0 <= i < |items| && items[i].key == k && Verified(items[i])
      ensures ok ==> forall i :: 0 <= i < |items| ==> Verified(items[i]) && items[i].key in stored
      ensures !ok ==> faulty || exists i :: 0 <= i < |items| && !Verified(items[i])
    {
      stored := {};
      for j := 0 to |items|
        invariant old(objects) + stored <= objects
        invariant forall k :: k in stored ==>
                    exists i :: 0 <= i < j && items[i].key == k && Verified(items[i])
        invariant forall i :: 0 <= i < j ==> Verified(items[i]) && items[i].key in stored
      {
        Others();
        var trouble: bool := *;
        if faulty && trouble { return false, stored; }
        if !Verified(items[j]) { return false, stored; }
        objects, stored := objects + {items[j].key}, stored + {items[j].key};
      }
      ok := true;
    }
  }
}
