/** The bounded decision cache: a recency list of entries and an index into it. */
module Cache {

  import opened Iac

  // ---------------------------------------------------------------- recency lists

  /** The keys without one of them, in order. */
  function Without<K(==, !new)>(ks: seq<K>, k: K): (r: seq<K>)
    ensures |r| <= |ks| && forall x :: x in r <==> x in ks && x != k
    ensures k !in ks ==> r == ks
  {
    if ks == [] then []
    else if ks[0] == k then Without(ks[1..], k)
    else
      assert ks == [ks[0]] + ks[1..];
      [ks[0]] + Without(ks[1..], k)
  }

  function Take<K>(ks: seq<K>, n: nat): (r: seq<K>)
    ensures r <= ks && |r| == if n < |ks| then n else |ks|
  {
    if n < |ks| then ks[..n] else ks
  }

  /** Touching a key moves it to the front; beyond the capacity the last key drops out. */
  function Touch<K(==, !new)>(ks: seq<K>, k: K, capacity: nat): seq<K> {
    Take([k] + Without(ks, k), capacity)
  }

  lemma TouchWithin<K(!new)>(ks: seq<K>, k: K, capacity: nat)
    ensures forall x :: x in Touch(ks, k, capacity) ==> x == k || x in ks
  {
    var all := [k] + Without(ks, k);
    assert forall x :: x in Take(all, capacity) ==> x in all;
  }

  /** All keys ever touched, most recent first. */
  function Recent<K(==, !new)>(touches: seq<K>): (ks: seq<K>)
    ensures forall k :: k in ks <==> k in touches
  {
    if touches == [] then []
    else
      var last := touches[|touches| - 1];
      assert touches == touches[..|touches| - 1] + [last];
      [last] + Without(Recent(touches[..|touches| - 1]), last)
  }

  ghost predicate NoRepeat<K(!new)>(ks: seq<K>) {
    forall i, j :: 0 <= i < j < |ks| ==> ks[i] != ks[j]
  }

  lemma {:induction false} WithoutJoin<K(!new)>(a: seq<K>, b: seq<K>, k: K)
    ensures Without(a + b, k) == Without(a, k) + Without(b, k)
  {
    if a == [] {
      assert a + b == b;
    } else {
      assert (a + b)[1..] == a[1..] + b;
      WithoutJoin(a[1..], b, k);
    }
  }

  lemma {:induction false} WithoutNoRepeat<K(!new)>(ks: seq<K>, k: K)
    requires NoRepeat(ks)
    ensures NoRepeat(Without(ks, k)) && |Without(ks, k)| == |ks| - if k in ks then 1 else 0
  {
    if ks != [] {
      assert ks == [ks[0]] + ks[1..];
      NoRepeatCons(ks[0], ks[1..]);
      WithoutNoRepeat(ks[1..], k);
      NoRepeatCons(ks[0], Without(ks[1..], k));
    }
  }

  lemma NoRepeatCons<K(!new)>(k: K, ks: seq<K>)
    ensures NoRepeat([k] + ks) <==> k !in ks && NoRepeat(ks)
  {
    var all := [k] + ks;
    assert forall i :: 0 <= i < |ks| ==> all[i + 1] == ks[i];
    if NoRepeat(all) {
      assert forall i :: 0 < i < |all| ==> all[0] != all[i];
      forall i, j | 0 <= i < j < |ks|
        ensures ks[i] != ks[j]
      {
        assert all[i + 1] != all[j + 1];
      }
    }
  }

  lemma {:induction false} WithoutAt<K(!new)>(ks: seq<K>, i: nat)
    requires NoRepeat(ks) && i < |ks|
    ensures Without(ks, ks[i]) == ks[..i] + ks[i + 1..]
  {
    assert ks == [ks[0]] + ks[1..];
    NoRepeatCons(ks[0], ks[1..]);
    hide NoRepeat;
    if i > 0 {
      assert ks[1..][i - 1] == ks[i];
      WithoutAt(ks[1..], i - 1);
      assert [ks[0]] + (ks[1..][..i - 1] + ks[1..][i..]) == ks[..i] + ks[i + 1..];
    }
  }

  lemma {:induction false} RecentNoRepeat<K(!new)>(touches: seq<K>)
    ensures NoRepeat(Recent(touches))
  {
    if touches != [] {
      var k, before := touches[|touches| - 1], Recent(touches[..|touches| - 1]);
      RecentNoRepeat(touches[..|touches| - 1]);
      WithoutNoRepeat(before, k);
      NoRepeatCons(k, Without(before, k));
    }
  }

  /** Keeping the `capacity` most recent keys commutes with touching one. */
  lemma TouchKeepsMostRecent<K(!new)>(ks: seq<K>, k: K, capacity: nat)
    requires NoRepeat(ks) && capacity > 0
    ensures Touch(Take(ks, capacity), k, capacity) == Take([k] + Without(ks, k), capacity)
  {
    if capacity < |ks| {
      var a, b := ks[..capacity], ks[capacity..];
      assert ks == a + b;
      WithoutJoin(a, b, k);
      WithoutNoRepeat(a, k);
      if k in a {
        TouchOld(a, b, k, capacity);
      } else {
        TouchNew(a, Without(b, k), k, capacity);
      }
    }
  }

  lemma TouchOld<K(!new)>(a: seq<K>, b: seq<K>, k: K, capacity: nat)
    requires |a| == capacity > 0 && |Without(a, k)| == capacity - 1 && NoRepeat(a + b) && k in a
    ensures Take([k] + Without(a, k), capacity) == Take([k] + (Without(a, k) + Without(b, k)), capacity)
  {
    var front := [k] + Without(a, k);
    assert [k] + (Without(a, k) + Without(b, k)) == front + Without(b, k);
    assert (front + Without(b, k))[..capacity] == front;
  }

  lemma TouchNew<K(!new)>(a: seq<K>, rest: seq<K>, k: K, capacity: nat)
    requires |a| == capacity > 0 && k !in a
    ensures Take([k] + Without(a, k), capacity) == Take([k] + (Without(a, k) + rest), capacity)
  {
    assert Without(a, k) == a;
    assert [k] + (a + rest) == ([k] + a) + rest;
    assert (([k] + a) + rest)[..capacity] == ([k] + a)[..capacity];
  }

  /** A run of touches: a cache of this capacity holds exactly the most recently touched keys. */
  function Run<K(==, !new)>(touches: seq<K>, capacity: nat): seq<K> {
    if touches == [] then [] else Touch(Run(touches[..|touches| - 1], capacity), touches[|touches| - 1], capacity)
  }

  lemma {:induction false} RunHoldsMostRecent<K(!new)>(touches: seq<K>, capacity: nat)
    requires capacity > 0
    ensures Run(touches, capacity) == Take(Recent(touches), capacity)
  {
    if touches != [] {
      var before := touches[..|touches| - 1];
      RunHoldsMostRecent(before, capacity);
      RecentNoRepeat(before);
      TouchKeepsMostRecent(Recent(before), touches[|touches| - 1], capacity);
    }
  }

  // ---------------------------------------------------------------- the cache

  function KeysOf<K>(ll: seq<Entry<K>>): (ks: seq<K>)
    ensures |ks| == |ll| && forall i :: 0 <= i < |ll| ==> ks[i] == ll[i].key
  {
    seq(|ll|, i requires 0 <= i < |ll| => ll[i].key)
  }

  /** Distinct keys make distinct entries. */
  lemma RestOf<K(!new)>(xs: seq<Entry<K>>, ks: seq<K>, i: nat)
    requires |xs| == |ks| && NoRepeat(ks) && i < |xs| && forall j :: 0 <= j < |xs| ==> ks[j] == xs[j].key
    ensures forall x :: x in xs[..i] + xs[i + 1..] <==> x in xs && x != xs[i]
  {
    var rest := xs[..i] + xs[i + 1..];
    forall x | x in xs && x != xs[i]
      ensures x in rest
    {
      var j :| 0 <= j < |xs| && xs[j] == x;
      if j < i {
        assert rest[j] == x;
      } else {
        assert rest[j - 1] == x;
      }
    }
    forall x | x in rest
      ensures x in xs && x != xs[i]
    {
      var j :| 0 <= j < |rest| && rest[j] == x;
      assert ks[i] != ks[if j < i then j else j + 1];
    }
  }

  class Entry<K> {
    const key: K
    var val: bool

    constructor (key: K, val: bool)
      ensures this.key == key && this.val == val
    {
      this.key := key;
      this.val := val;
    }
  }

  /** The index and the list agree. */
  ghost predicate Indexes<K(!new)>(items: map<K, Entry<K>>, ll: seq<Entry<K>>) {
    && (forall k :: k in items ==> items[k] in ll && items[k].key == k)
    && (forall x :: x in ll ==> x.key in items && items[x.key] == x)
  }

  class BoundedCache<K(==, !new)> {
    const capacity: nat
    var ll: seq<Entry<K>>
    var items: map<K, Entry<K>>

    ghost predicate Valid()
      reads this
    {
      && 0 < capacity && |ll| <= capacity
      && Indexes(items, ll) && NoRepeat(Keys())
    }

    /** The cached keys, most recently used first. */
    ghost function Keys(): (ks: seq<K>)
      reads this`ll
      ensures |ks| == |ll| && forall i :: 0 <= i < |ll| ==> ks[i] == ll[i].key
    {
      KeysOf(ll)
    }

    ghost function Values(): (m: map<K, bool>)
      reads this, ll
      requires Valid()
      ensures forall k :: k in m <==> k in Keys()
    {
      map k | k in items :: items[k].val
    }

    constructor (capacity: int)
      ensures Valid() && ll == [] && this.capacity == if capacity <= 0 then 1 else capacity
    {
      this.capacity := if capacity <= 0 then 1 else capacity;
      ll, items := [], map[];
    }

    /** Takes an entry out of the list, wherever it is. */
    method Unlink(el: Entry<K>)
      requires NoRepeat(Keys()) && el in ll
      modifies this`ll
      ensures forall x :: x in ll <==> x in old(ll) && x != el
      ensures Keys() == Without(old(Keys()), el.key) && |ll| == |old(ll)| - 1 && NoRepeat(Keys())
    {
      var i := 0;
      while ll[i] != el
        invariant 0 <= i < |ll| && el !in ll[..i]
        decreases |ll| - i
      {
        i := i + 1;
      }
      ghost var before, was := Keys(), ll;
      WithoutAt(before, i);
      WithoutNoRepeat(before, el.key);
      ll := ll[..i] + ll[i + 1..];
      assert Keys() == before[..i] + before[i + 1..];
      RestOf(was, before, i);
    }

    /** Moves an entry to the front. */
    method MoveToFront(el: Entry<K>)
      requires Valid() && el in ll
      modifies this`ll
      ensures Valid() && Keys() == [el.key] + Without(old(Keys()), el.key) && |ll| == |old(ll)|
      ensures forall x :: x in ll <==> x in old(ll)
    {
      hide Without;
      ghost var before := Keys();
      Unlink(el);
      NoRepeatCons(el.key, Without(before, el.key));
      ll := [el] + ll;
      assert Keys() == [el.key] + Without(before, el.key);
      hide NoRepeat;
    }

    /** Drops the least recent entry when there is one too many. */
    method Evict()
      requires |ll| <= capacity + 1 && 0 < capacity && Indexes(items, ll) && NoRepeat(Keys())
      modifies this
      ensures Valid() && Keys() == Take(old(Keys()), capacity)
      ensures forall x :: x in ll ==> x in old(ll)
      ensures forall k :: k in items ==> k in old(items) && items[k] == old(items)[k]
    {
      if |ll| > capacity {
        ghost var full, keys := ll, Keys();
        var oldest := ll[|ll| - 1];
        RestOf(full, keys, |ll| - 1);
        assert full[..|full| - 1] + full[|full|..] == full[..|full| - 1];
        ll := ll[..|ll| - 1];
        items := items - {oldest.key};
        assert Keys() == keys[..|keys| - 1];
      }
    }

    /** Pushes a new entry, and makes room for it. */
    method Push(key: K, value: bool)
      requires Valid() && key !in items
      modifies this, ll
      ensures Valid() && Keys() == Touch(old(Keys()), key, capacity)
      ensures forall k | k in Keys() :: Values()[k] == if k == key then value else old(Values())[k]
      ensures forall el :: el in ll ==> el in old(ll) || fresh(el)
    {
      hide Without, NoRepeat;
      var el := new Entry(key, value);
      ghost var before := Keys();
      ll := [el] + ll;
      items := items[key := el];
      assert Keys() == [key] + before;
      NoRepeatCons(key, before);
      assert Without(before, key) == before;
      Evict();
    }

    /** Stores a decision as the most recent one; the least recent one gives way when the cache is full. */
    method Set(key: K, value: bool)
      requires Valid()
      modifies this, ll
      ensures Valid() && Keys() == Touch(old(Keys()), key, capacity)
      ensures forall k | k in Keys() :: Values()[k] == if k == key then value else old(Values())[k]
      ensures forall el :: el in ll ==> el in old(ll) || fresh(el)
    {
      hide Without, NoRepeat;
      if key in items {
        var el := items[key];
        el.val := value;
        MoveToFront(el);
      } else {
        Push(key, value);
      }
    }

    /** Looks a decision up and makes it the most recent one. */
    method Get(key: K) returns (r: Option<bool>)
      requires Valid()
      modifies this`ll
      ensures Valid() && (r.Some? <==> key in old(Keys()))
      ensures r.Some? ==> r.value == old(Values())[key] && Keys() == Touch(old(Keys()), key, capacity)
      ensures r.None? ==> ll == old(ll)
      ensures Values() == old(Values()) && forall el :: el in ll <==> el in old(ll)
    {
      hide Without, NoRepeat;
      if key !in items {
        return None;
      }
      MoveToFront(items[key]);
      return Some(items[key].val);
    }

    method Delete(key: K) returns (found: bool)
      requires Valid()
      modifies this
      ensures Valid() && (found <==> key in old(Keys()))
      ensures Keys() == Without(old(Keys()), key)
      ensures forall k | k in Keys() :: Values()[k] == old(Values())[k]
      ensures forall el :: el in ll ==> el in old(ll)
    {
      hide Without, NoRepeat;
      if key !in items {
        return false;
      }
      var el := items[key];
      Unlink(el);
      assert forall x :: x in ll ==> items[x.key] == x && x.key != key;
      items := items - {key};
      return true;
    }

    method Clear()
      requires Valid()
      modifies this
      ensures Valid() && ll == [] && Values() == map[]
    {
      ll, items := [], map[];
    }
  }
}
