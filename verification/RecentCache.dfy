/**
 The caches of internal/app/imslp.go and internal/app/imslp_files.go: a linked list in
 recency order and a map from keys to its elements, with a size limit and an expiry time
 per entry.

 Three views of one cache: the class `RecentCache` with its list and its map; the functions
 `Looked` and `Stored` on the sequence of entries it stands for; and the history of calls,
 from which `LastPut` and `LastTouch` say what the cache must hold. A list element never
 changes its key, so its key stands for it in the list.
 */
module RecentCaches {
  import opened Wrappers

  type Key = string

  datatype Entry<V> = Entry(key: Key, value: V, expires: real)

  // ---------------------------------------------------------------------------
  // The cache as a sequence of entries, most recently used first
  // ---------------------------------------------------------------------------

  predicate Has<V>(c: seq<Entry<V>>, key: Key) { exists i :: 0 <= i < |c| && c[i].key == key }

  function Find<V>(c: seq<Entry<V>>, key: Key): (i: nat)
    requires Has(c, key)
    ensures i < |c| && c[i].key == key && forall j :: 0 <= j < i ==> c[j].key != key
  {
    if c[0].key == key then 0
    else
      assert Has(c[1..], key) by {
        var i :| 0 <= i < |c| && c[i].key == key;
        assert c[1..][i - 1].key == key;
      }
      1 + Find(c[1..], key)
  }

  // The list without its i-th element.
  function Dropped<T>(s: seq<T>, i: nat): seq<T>
    requires i < |s|
  {
    seq(|s| - 1, j requires 0 <= j < |s| - 1 => if j < i then s[j] else s[j + 1])
  }

  // The list with x first and without its i-th element.
  function ToFront<T>(s: seq<T>, i: nat, x: T): seq<T>
    requires i < |s|
  {
    seq(|s|, j requires 0 <= j < |s| => if j == 0 then x else if j <= i then s[j - 1] else s[j])
  }

  // The first `capacity` elements of the list with x in front.
  function Pushed<T>(s: seq<T>, x: T, capacity: nat): seq<T> {
    seq(if |s| < capacity then |s| + 1 else capacity,
        j requires 0 <= j < (if |s| < capacity then |s| + 1 else capacity) => if j == 0 then x else s[j - 1])
  }

  function Looked<V>(c: seq<Entry<V>>, key: Key, now: real): (seq<Entry<V>>, Option<V>) {
    if !Has(c, key) then (c, None)
    else
      var i := Find(c, key);
      if now >= c[i].expires then (Dropped(c, i), None)
      else (ToFront(c, i, c[i]), Some(c[i].value))
  }

  function Stored<V>(c: seq<Entry<V>>, entry: Entry<V>, capacity: nat): seq<Entry<V>> {
    if Has(c, entry.key) then ToFront(c, Find(c, entry.key), entry)
    else Pushed(c, entry, capacity)
  }

  // ---------------------------------------------------------------------------
  // The list and the map
  // ---------------------------------------------------------------------------

  predicate Distinct(order: seq<Key>) { forall i, j :: 0 <= i < j < |order| ==> order[i] != order[j] }

  // The entries a list of keys stands for.
  function EntriesOf<V>(order: seq<Key>, entries: map<Key, Entry<V>>): seq<Entry<V>>
    requires forall k :: k in order ==> k in entries
  {
    seq(|order|, i requires 0 <= i < |order| => entries[order[i]])
  }

  // The list holds no key twice and the same keys as the map, which files each under itself.
  ghost predicate Linked<V>(order: seq<Key>, entries: map<Key, Entry<V>>) {
    && Distinct(order)
    && (forall k :: k in order <==> k in entries)
    && (forall k :: k in entries ==> entries[k].key == k)
  }

  lemma {:induction false} LinkedFind<V>(order: seq<Key>, entries: map<Key, Entry<V>>, key: Key)
    requires Linked(order, entries)
    ensures Has(EntriesOf(order, entries), key) <==> key in entries
    ensures forall i :: 0 <= i < |order| && order[i] == key ==> i == Find(EntriesOf(order, entries), key)
  {
    var c := EntriesOf(order, entries);
    if key in entries {
      var i :| 0 <= i < |order| && order[i] == key;
      assert c[i].key == key;
      assert c[Find(c, key)] == entries[order[Find(c, key)]];
    }
  }

  lemma PushedLinked<V>(order: seq<Key>, entries: map<Key, Entry<V>>, entry: Entry<V>)
    requires Linked(order, entries) && entry.key !in entries
    ensures Linked([entry.key] + order, entries[entry.key := entry])
    ensures EntriesOf([entry.key] + order, entries[entry.key := entry]) == [entry] + EntriesOf(order, entries)
  {
  }

  lemma DroppedLinked<V>(order: seq<Key>, entries: map<Key, Entry<V>>, at: nat)
    requires Linked(order, entries) && at < |order|
    ensures Linked(Dropped(order, at), entries - {order[at]})
    ensures EntriesOf(Dropped(order, at), entries - {order[at]}) == Dropped(EntriesOf(order, entries), at)
  {
    var order' := Dropped(order, at);
    forall k | k in order && k != order[at]
      ensures k in order'
    {
      var j :| 0 <= j < |order| && order[j] == k;
      assert order'[if j < at then j else j - 1] == k;
    }
    forall i | 0 <= i < |order'|
      ensures order'[i] in order && order'[i] != order[at]
    {
      assert order'[i] == order[if i < at then i else i + 1];
    }
  }

  lemma ToFrontLinked<V>(order: seq<Key>, entries: map<Key, Entry<V>>, at: nat, entry: Entry<V>)
    requires Linked(order, entries) && at < |order| && order[at] == entry.key
    ensures Linked(ToFront(order, at, entry.key), entries[entry.key := entry])
    ensures EntriesOf(ToFront(order, at, entry.key), entries[entry.key := entry])
            == ToFront(EntriesOf(order, entries), at, entry)
  {
    var order' := ToFront(order, at, entry.key);
    ToFrontDistinct(order, at, entry.key);
    forall k | k in order
      ensures k in order'
    {
      var j :| 0 <= j < |order| && order[j] == k;
      assert order'[if j == at then 0 else if j < at then j + 1 else j] == k;
    }
    forall i | 0 < i < |order'|
      ensures order'[i] in order && order'[i] != entry.key
    {
      assert order'[i] == order[if i <= at then i - 1 else i];
    }
  }

  lemma ToFrontDistinct(order: seq<Key>, at: nat, key: Key)
    requires Distinct(order) && at < |order| && order[at] == key
    ensures Distinct(ToFront(order, at, key))
  {
  }

  // The list without its last key.
  lemma ShortenedLinked<V>(order: seq<Key>, entries: map<Key, Entry<V>>)
    requires Linked(order, entries) && order != []
    ensures var n := |order| - 1;
            && Linked(order[..n], entries - {order[n]})
            && EntriesOf(order[..n], entries - {order[n]}) == EntriesOf(order, entries)[..n]
  {
  }

  class RecentCache<V(==)> {
    const capacity: nat
    var order: seq<Key>
    var entries: map<Key, Entry<V>>

    ghost predicate Valid()
      reads this
    {
      Linked(order, entries) && |order| <= capacity
    }

    ghost function Contents(): seq<Entry<V>>
      reads this
      requires Linked(order, entries)
    {
      EntriesOf(order, entries)
    }

    constructor (capacity: nat)
      ensures Valid() && Contents() == [] && this.capacity == capacity
    {
      this.capacity := capacity;
      order, entries := [], map[];
    }

    // The value under a key, unless it has expired; a hit becomes the most recent entry.
    method Cached(key: Key, now: real) returns (value: Option<V>)
      requires Valid()
      modifies this
      ensures Valid()
      ensures (Contents(), value) == Looked(old(Contents()), key, now)
    {
      LinkedFind(order, entries, key);
      if key !in entries {
        return None;
      }
      var at :| 0 <= at < |order| && order[at] == key;
      var entry := entries[key];
      if now >= entry.expires {
        DroppedLinked(order, entries, at);
        order, entries := Dropped(order, at), entries - {key};
        return None;
      }
      ToFrontLinked(order, entries, at, entry);
      assert entries[key := entry] == entries;
      order := ToFront(order, at, key);
      return Some(entry.value);
    }

    method Store(entry: Entry<V>)
      requires Valid() && capacity >= 1
      modifies this
      ensures Valid()
      ensures Contents() == Stored(old(Contents()), entry, capacity)
    {
      LinkedFind(order, entries, entry.key);
      if entry.key in entries {
        var at :| 0 <= at < |order| && order[at] == entry.key;
        ToFrontLinked(order, entries, at, entry);
        order, entries := ToFront(order, at, entry.key), entries[entry.key := entry];
        return;
      }
      Insert(entry);
    }

    method Insert(entry: Entry<V>)
      requires Valid() && capacity >= 1 && entry.key !in entries
      modifies this
      ensures Valid()
      ensures Contents() == Pushed(old(Contents()), entry, capacity)
    {
      ghost var full := [entry] + Contents();
      PushedLinked(order, entries, entry);
      order, entries := [entry.key] + order, entries[entry.key := entry];
      while |order| > capacity
        invariant Linked(order, entries) && |order| <= |full|
        invariant |order| >= capacity || |order| == |full|
        invariant Contents() == full[..|order|]
      {
        ShortenedLinked(order, entries);
        var oldest := order[|order| - 1];
        order, entries := order[..|order| - 1], entries - {oldest};
      }
      PushedIsPrefix(old(Contents()), entry, capacity);
    }
  }

  lemma PushedIsPrefix<T>(s: seq<T>, x: T, capacity: nat)
    ensures Pushed(s, x, capacity) == ([x] + s)[..if |s| < capacity then |s| + 1 else capacity]
  {
  }

  // ---------------------------------------------------------------------------
  // What the history of calls says
  // ---------------------------------------------------------------------------

  datatype Call<V> = Get(key: Key, now: real) | Put(entry: Entry<V>)

  function KeyOf<V>(call: Call<V>): Key {
    match call
    case Get(key, _) => key
    case Put(entry) => entry.key
  }

  function Applied<V>(c: seq<Entry<V>>, call: Call<V>, capacity: nat): seq<Entry<V>> {
    match call
    case Get(key, now) => Looked(c, key, now).0
    case Put(entry) => Stored(c, entry, capacity)
  }

  // The cache after a history, oldest call first.
  function After<V>(calls: seq<Call<V>>, capacity: nat): seq<Entry<V>> {
    if calls == [] then []
    else Applied(After(calls[..|calls| - 1], capacity), calls[|calls| - 1], capacity)
  }

  // The entry stored last under a key.
  function LastPut<V>(calls: seq<Call<V>>, key: Key): Option<Entry<V>> {
    if calls == [] then None
    else
      var last := calls[|calls| - 1];
      if last.Put? && last.entry.key == key then Some(last.entry)
      else LastPut(calls[..|calls| - 1], key)
  }

  // How long ago, counted in calls from the start, a key was last asked for or stored.
  function LastTouch<V>(calls: seq<Call<V>>, key: Key): (n: nat)
    ensures n <= |calls|
  {
    if calls == [] then 0
    else if KeyOf(calls[|calls| - 1]) == key then |calls|
    else LastTouch(calls[..|calls| - 1], key)
  }

  // The cache holds, for each of its keys, what was stored last; the keys are distinct and
  // stand in order of their last touch.
  ghost predicate Reflects<V>(c: seq<Entry<V>>, calls: seq<Call<V>>) {
    && (forall i :: 0 <= i < |c| ==> LastPut(calls, c[i].key) == Some(c[i]))
    && (forall i, j :: 0 <= i < j < |c| ==> LastTouch(calls, c[i].key) > LastTouch(calls, c[j].key))
  }

  // What one more call changes in the history of a key.
  lemma {:induction false} OneMoreCall<V>(calls: seq<Call<V>>, call: Call<V>, key: Key)
    ensures LastPut(calls + [call], key)
            == if call.Put? && call.entry.key == key then Some(call.entry) else LastPut(calls, key)
    ensures LastTouch(calls + [call], key) == if KeyOf(call) == key then |calls| + 1 else LastTouch(calls, key)
  {
  }

  lemma DroppedReflects<V>(c: seq<Entry<V>>, calls: seq<Call<V>>, call: Call<V>, f: nat)
    requires Reflects(c, calls) && f < |c| && call.Get? && c[f].key == call.key
    ensures Reflects(Dropped(c, f), calls + [call])
  {
  }

  lemma ToFrontReflects<V>(c: seq<Entry<V>>, calls: seq<Call<V>>, call: Call<V>, f: nat, x: Entry<V>)
    requires Reflects(c, calls) && f < |c| && c[f].key == KeyOf(call)
    requires x == if call.Put? then call.entry else c[f]
    ensures Reflects(ToFront(c, f, x), calls + [call])
  {
    var c' := ToFront(c, f, x);
    OneMoreCall(calls, call, x.key);
    forall i | 0 < i < |c'|
      ensures LastPut(calls + [call], c'[i].key) == Some(c'[i])
      ensures LastTouch(calls + [call], c'[i].key) == LastTouch(calls, c'[i].key)
    {
      var i' := if i <= f then i - 1 else i;
      assert c'[i] == c[i'];
      OneMoreCall(calls, call, c[i'].key);
    }
  }

  lemma PushedReflects<V>(c: seq<Entry<V>>, calls: seq<Call<V>>, entry: Entry<V>, capacity: nat)
    requires Reflects(c, calls) && |c| <= capacity && !Has(c, entry.key)
    ensures Reflects(Pushed(c, entry, capacity), calls + [Put(entry)])
  {
  }

  lemma LookedReflects<V>(c: seq<Entry<V>>, calls: seq<Call<V>>, key: Key, now: real)
    requires Reflects(c, calls)
    ensures Reflects(Looked(c, key, now).0, calls + [Get(key, now)])
    ensures |Looked(c, key, now).0| <= |c|
  {
    if Has(c, key) {
      var f := Find(c, key);
      if now >= c[f].expires {
        DroppedReflects(c, calls, Get(key, now), f);
      } else {
        ToFrontReflects(c, calls, Get(key, now), f, c[f]);
      }
    } else {
      forall i | 0 <= i < |c|
        ensures LastPut(calls + [Get(key, now)], c[i].key) == Some(c[i])
        ensures LastTouch(calls + [Get(key, now)], c[i].key) == LastTouch(calls, c[i].key)
      {
        OneMoreCall(calls, Get(key, now), c[i].key);
      }
    }
  }

  lemma StoredReflects<V>(c: seq<Entry<V>>, calls: seq<Call<V>>, entry: Entry<V>, capacity: nat)
    requires Reflects(c, calls) && |c| <= capacity
    ensures Reflects(Stored(c, entry, capacity), calls + [Put(entry)])
    ensures |Stored(c, entry, capacity)| <= capacity
  {
    if Has(c, entry.key) {
      ToFrontReflects(c, calls, Put(entry), Find(c, entry.key), entry);
    } else {
      PushedReflects(c, calls, entry, capacity);
    }
  }

  // After any history the cache is within its capacity and reflects that history.
  lemma {:induction false} CacheReflectsHistory<V>(calls: seq<Call<V>>, capacity: nat)
    ensures Reflects(After(calls, capacity), calls) && |After(calls, capacity)| <= capacity
  {
    if calls != [] {
      var before := calls[..|calls| - 1];
      CacheReflectsHistory(before, capacity);
      var c := After(before, capacity);
      match calls[|calls| - 1] {
        case Get(key, now) =>
          LookedReflects(c, before, key, now);
          assert calls == before + [Get(key, now)];
        case Put(entry) =>
          StoredReflects(c, before, entry, capacity);
          assert calls == before + [Put(entry)];
      }
    }
  }

  // A hit is the value stored last under that key, and it has not expired.
  lemma {:induction false} HitIsLastStored<V>(calls: seq<Call<V>>, capacity: nat, key: Key, now: real)
    requires Looked(After(calls, capacity), key, now).1.Some?
    ensures var last := LastPut(calls, key);
            last.Some? && now < last.value.expires && Looked(After(calls, capacity), key, now).1 == Some(last.value.value)
  {
    CacheReflectsHistory(calls, capacity);
  }

  // Storing a key that is there drops nothing, and storing a new one keeps all but the last.
  lemma StoreKeeps<V>(c: seq<Entry<V>>, entry: Entry<V>, capacity: nat, i: nat)
    requires i < |c| <= capacity
    requires Has(c, entry.key) || i + 1 < capacity
    ensures Has(Stored(c, entry, capacity), c[i].key)
  {
    var s := Stored(c, entry, capacity);
    if Has(c, entry.key) {
      var f := Find(c, entry.key);
      if i == f {
        assert s[0].key == c[i].key;
      } else if i < f {
        assert s[i + 1].key == c[i].key;
      } else {
        assert s[i].key == c[i].key;
      }
    } else {
      assert s[i + 1].key == c[i].key;
    }
  }

  // A key that leaves on a store is the one touched least recently, and it is the only one.
  lemma {:induction false} EvictsLeastRecent<V>(calls: seq<Call<V>>, capacity: nat, entry: Entry<V>, evicted: Key, other: Key)
    requires capacity >= 1
    requires var c := After(calls, capacity);
             && Has(c, evicted) && !Has(Stored(c, entry, capacity), evicted)
             && Has(c, other) && other != evicted
    ensures LastTouch(calls, evicted) < LastTouch(calls, other)
    ensures |After(calls, capacity)| == capacity && !Has(After(calls, capacity), entry.key)
    ensures Has(Stored(After(calls, capacity), entry, capacity), other)
  {
    var c := After(calls, capacity);
    CacheReflectsHistory(calls, capacity);
    var e, o := Find(c, evicted), Find(c, other);
    if Has(c, entry.key) || e + 1 < capacity {
      StoreKeeps(c, entry, capacity, e);
      assert false;
    }
    StoreKeeps(c, entry, capacity, o);
  }

  // ---------------------------------------------------------------------------
  // Nothing leaves too early
  // ---------------------------------------------------------------------------

  function AfterFrom<V>(c: seq<Entry<V>>, calls: seq<Call<V>>, capacity: nat): seq<Entry<V>>
    decreases |calls|
  {
    if calls == [] then c else AfterFrom(Applied(c, calls[0], capacity), calls[1..], capacity)
  }

  ghost predicate DistinctKeys<V>(c: seq<Entry<V>>) {
    forall i, j :: 0 <= i < j < |c| ==> c[i].key != c[j].key
  }

  // The entry at `at` has a key of its own, and all keys ahead of it are among the others.
  ghost predicate Behind<V>(c: seq<Entry<V>>, at: nat, others: set<Key>) {
    at < |c| && c[at].key !in others && forall i :: 0 <= i < at ==> c[i].key in others
  }

  // An entry stays while fewer than `capacity` other keys are in use: those ahead of it and
  // those touched since.
  lemma {:induction false} StaysWhileOthersFit<V>(
      c: seq<Entry<V>>, calls: seq<Call<V>>, capacity: nat, at: nat, others: set<Key>)
    requires |c| <= capacity && |others| < capacity && DistinctKeys(c) && Behind(c, at, others)
    requires forall i :: 0 <= i < |calls| ==> KeyOf(calls[i]) in others
    ensures c[at] in AfterFrom(c, calls, capacity)
    decreases |calls|
  {
    if calls != [] {
      var c' := Applied(c, calls[0], capacity);
      var at' := AppliedKeeps(c, calls[0], capacity, at, others);
      StaysWhileOthersFit(c', calls[1..], capacity, at', others);
    }
  }

  lemma AppliedKeeps<V>(c: seq<Entry<V>>, call: Call<V>, capacity: nat, at: nat, others: set<Key>) returns (at': nat)
    requires |c| <= capacity && |others| < capacity && DistinctKeys(c) && Behind(c, at, others)
    requires KeyOf(call) in others
    ensures var c' := Applied(c, call, capacity);
            |c'| <= capacity && DistinctKeys(c') && Behind(c', at', others) && c'[at'] == c[at]
  {
    if Has(c, KeyOf(call)) {
      var f := Find(c, KeyOf(call));
      if call.Get? && call.now >= c[f].expires {
        at' := DropKeeps(c, f, at, others);
      } else {
        at' := FrontKeeps(c, f, if call.Get? then c[f] else call.entry, at, others);
      }
    } else if call.Get? {
      at' := at;
    } else {
      KeysAheadFit(c, at, others, KeyOf(call));
      at' := at + 1;
    }
  }

  lemma DropKeeps<V>(c: seq<Entry<V>>, f: nat, at: nat, others: set<Key>) returns (at': nat)
    requires DistinctKeys(c) && Behind(c, at, others) && f < |c| && c[f].key in others
    ensures var c' := Dropped(c, f);
            DistinctKeys(c') && Behind(c', at', others) && c'[at'] == c[at]
  {
    at' := if f < at then at - 1 else at;
  }

  lemma FrontKeeps<V>(c: seq<Entry<V>>, f: nat, x: Entry<V>, at: nat, others: set<Key>) returns (at': nat)
    requires DistinctKeys(c) && Behind(c, at, others) && f < |c| && c[f].key == x.key && x.key in others
    ensures var c' := ToFront(c, f, x);
            DistinctKeys(c') && Behind(c', at', others) && c'[at'] == c[at]
  {
    at' := if f < at then at else at + 1;
  }

  // The keys ahead and a new one are distinct and all among the others, so they fit.
  lemma KeysAheadFit<V>(c: seq<Entry<V>>, at: nat, others: set<Key>, key: Key)
    requires DistinctKeys(c) && Behind(c, at, others) && key in others && !Has(c, key)
    ensures at + 1 <= |others|
  {
    var ahead := set i | 0 <= i < at :: c[i].key;
    KeysAheadCount(c, at);
    assert key !in ahead;
    CardinalityOrder(ahead + {key}, others);
  }

  lemma {:induction false} KeysAheadCount<V>(c: seq<Entry<V>>, at: nat)
    requires at <= |c| && DistinctKeys(c)
    ensures |set i | 0 <= i < at :: c[i].key| == at
  {
    var keys := set i | 0 <= i < at :: c[i].key;
    if at == 0 {
      assert keys == {};
    } else {
      KeysAheadCount(c, at - 1);
      var fewer := set i | 0 <= i < at - 1 :: c[i].key;
      assert keys == fewer + {c[at - 1].key};
    }
  }

  lemma {:induction false} CardinalityOrder<T>(a: set<T>, b: set<T>)
    requires a <= b
    ensures |a| <= |b|
  {
    if a != {} {
      var x :| x in a;
      CardinalityOrder(a - {x}, b - {x});
    }
  }
}
