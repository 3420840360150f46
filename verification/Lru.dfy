/**
 The second-chance cache: a map, a set of keys that have been used since they were last looked at,
 and a queue that may hold stale and repeated keys.
 */
module Lru {
  import opened Bits

  datatype Lru<T> = Lru(cache: map<nat, T>, chance: set<nat>, queue: seq<nat>)
  {
    /** Every cached key is queued. */
    ghost predicate Valid() {
      (forall k :: k in cache ==> k in queue) && chance <= cache.Keys
    }

    function Insert(key: nat, value: T): Lru<T> {
      Lru(cache[key := value], chance - {key}, if key in cache then queue else queue + [key])
    }

    /** Drops the front of the queue if it is stale, and moves it to the back otherwise. */
    function CycleOne(): Lru<T> {
      if queue == [] then this
      else if queue[0] in cache then this.(chance := chance - {queue[0]}, queue := queue[1..] + [queue[0]])
      else this.(queue := queue[1..])
    }

    function Remove(key: nat): Lru<T> {
      if key !in cache then this
      else
        var s := this.(cache := cache - {key}, chance := chance - {key});
        if |queue| > 2 * |s.cache| then s.CycleOne().CycleOne() else s
    }

    function Touch(key: nat): Lru<T> {
      if key in cache then this.(chance := chance + {key}) else this
    }

    /** The first key of the queue that is cached and has no second chance left. */
    function Pop(): (r: (Option<(nat, T)>, Lru<T>))
      decreases |chance|, |queue|
    {
      if queue == [] then (None, this)
      else
        var k, rest := queue[0], queue[1..];
        if k !in cache then this.(queue := rest).Pop()
        else if k in chance then this.(chance := chance - {k}, queue := rest + [k]).Pop()
        else (Some((k, cache[k])), this.(cache := cache - {k}, queue := rest))
    }
  }

  lemma InsertValid<T>(s: Lru<T>, key: nat, value: T)
    requires s.Valid()
    ensures s.Insert(key, value).Valid()
  {
  }

  lemma CycleOneValid<T>(s: Lru<T>)
    requires s.Valid()
    ensures s.CycleOne().Valid() && s.CycleOne().cache == s.cache
  {
    var t := s.CycleOne();
    forall k | k in t.cache
      ensures k in t.queue
    {
      assert k in s.queue;
      var i :| 0 <= i < |s.queue| && s.queue[i] == k;
      if i == 0 {
        assert t.queue[|t.queue| - 1] == k;
      } else {
        assert t.queue[i - 1] == k;
      }
    }
  }

  lemma RemoveValid<T>(s: Lru<T>, key: nat)
    requires s.Valid()
    ensures s.Remove(key).Valid() && s.Remove(key).cache == s.cache - {key}
  {
    if key in s.cache {
      var t := s.(cache := s.cache - {key}, chance := s.chance - {key});
      assert t.Valid();
      CycleOneValid(t);
      CycleOneValid(t.CycleOne());
    }
  }

  /** Eviction takes out one cached entry, and finds none only when nothing is cached. */
  lemma {:induction false} PopMeaning<T>(s: Lru<T>)
    requires s.Valid()
    ensures var (r, t) := s.Pop();
      && t.Valid() && (r.None? <==> s.cache == map[]) && (r.None? ==> t.cache == s.cache)
      && (r.Some? ==> r.value.0 in s.cache && s.cache[r.value.0] == r.value.1 && t.cache == s.cache - {r.value.0})
    decreases |s.chance|, |s.queue|
  {
    if s.queue == [] {
      assert s.cache == map[] by {
        assert forall k :: k !in s.cache;
      }
    } else {
      var k, rest := s.queue[0], s.queue[1..];
      CycleOneValid(s);
      if k !in s.cache {
        PopMeaning(s.(queue := rest));
      } else if k in s.chance {
        PopMeaning(s.(chance := s.chance - {k}, queue := rest + [k]));
      } else {
        PopTaken(s);
      }
    }
  }

  lemma PopTaken<T>(s: Lru<T>)
    requires s.Valid() && s.queue != [] && s.queue[0] in s.cache && s.queue[0] !in s.chance
    ensures s.(cache := s.cache - {s.queue[0]}, queue := s.queue[1..]).Valid() && s.cache != map[]
  {
    var k := s.queue[0];
    forall j | j in s.cache - {k}
      ensures j in s.queue[1..]
    {
      var i :| 0 <= i < |s.queue| && s.queue[i] == j;
      assert s.queue[1..][i - 1] == j;
    }
  }

  class LRUCache<T> {
    var cache: map<nat, T>
    var chance: set<nat>
    var queue: seq<nat>

    ghost function Value(): Lru<T>
      reads this
    {
      Lru(cache, chance, queue)
    }

    ghost predicate Valid()
      reads this
    {
      Value().Valid()
    }

    constructor ()
      ensures Valid() && cache == map[]
    {
      cache, chance, queue := map[], {}, [];
    }

    /** Returns the value that was replaced. */
    method Insert(key: nat, value: T) returns (replaced: Option<T>)
      requires Valid()
      modifies this
      ensures Valid() && Value() == old(Value()).Insert(key, value)
      ensures replaced == if key in old(cache) then Some(old(cache)[key]) else None
    {
      InsertValid(Value(), key, value);
      replaced := if key in cache then Some(cache[key]) else None;
      cache, chance := cache[key := value], chance - {key};
      if replaced.None? {
        queue := queue + [key];
      }
    }

    method CycleOne()
      requires Valid()
      modifies this
      ensures Valid() && Value() == old(Value()).CycleOne()
    {
      CycleOneValid(Value());
      if queue != [] {
        var key := queue[0];
        queue := queue[1..];
        if key in cache {
          chance := chance - {key};
          queue := queue + [key];
        }
      }
    }

    method Remove(key: nat) returns (removed: Option<T>)
      requires Valid()
      modifies this
      ensures Valid() && Value() == old(Value()).Remove(key)
      ensures removed == if key in old(cache) then Some(old(cache)[key]) else None
    {
      RemoveValid(Value(), key);
      if key !in cache {
        return None;
      }
      removed := Some(cache[key]);
      cache, chance := cache - {key}, chance - {key};
      if |queue| > 2 * |cache| {
        for i := 0 to 2
          invariant Valid()
          invariant var s := Lru(old(cache) - {key}, old(chance) - {key}, old(queue));
            Value() == if i == 0 then s else if i == 1 then s.CycleOne() else s.CycleOne().CycleOne()
        {
          CycleOne();
        }
      }
    }

    method Get(key: nat) returns (value: Option<T>)
      requires Valid()
      modifies this`chance
      ensures Valid() && Value() == old(Value()).Touch(key)
      ensures value == if key in cache then Some(cache[key]) else None
    {
      if key !in cache {
        return None;
      }
      chance := chance + {key};
      return Some(cache[key]);
    }

    method PopLowestPriority() returns (r: Option<(nat, T)>)
      requires Valid()
      modifies this
      ensures Valid() && (r, Value()) == old(Value()).Pop()
    {
      PopMeaning(Value());
      while queue != []
        invariant Value().Pop() == old(Value()).Pop()
        decreases |chance|, |queue|
      {
        var key := queue[0];
        queue := queue[1..];
        if key in cache {
          if key in chance {
            chance := chance - {key};
            queue := queue + [key];
          } else {
            r := Some((key, cache[key]));
            cache := cache - {key};
            return;
          }
        }
      }
      r := None;
    }

    method Clear()
      modifies this
      ensures Valid() && cache == map[]
    {
      cache, chance, queue := map[], {}, [];
    }
  }

  // ----- the length of the queue -----

  /** Removing a key that is not at the front and inserting it again lengthens the queue by one. */
  lemma Relengthened<T>(s: Lru<T>, key: nat, value: T)
    requires |s.queue| >= 2 && key in s.cache && s.queue[0] in s.cache && s.queue[1] in s.cache && key != s.queue[0]
      && key != s.queue[1]
    ensures var t := s.Remove(key).Insert(key, value); t.cache.Keys == s.cache.Keys && |t.queue| == |s.queue| + 1
  {
    var t := s.(cache := s.cache - {key}, chance := s.chance - {key});
    if |s.queue| > 2 * |t.cache| {
      var u := t.CycleOne();
      assert u.queue[0] == s.queue[1];
    }
  }

  /** A removal shortens the queue if and only if one of the two elements at its front is stale by then. */
  lemma RemoveShortensIff<T>(s: Lru<T>, key: nat)
    requires key in s.cache && |s.queue| >= 2
    ensures var rest := s.cache - {key};
      |s.Remove(key).queue| < |s.queue| <==> |s.queue| > 2 * |rest| && (s.queue[0] !in rest || s.queue[1] !in rest)
  {
    var t := s.(cache := s.cache - {key}, chance := s.chance - {key});
    var u := t.CycleOne();
    assert u.queue[0] == s.queue[1];
    assert |u.queue| - 1 <= |u.CycleOne().queue| <= |u.queue|;
  }

  /** What a run of the cache is made of. */
  datatype Change<T> = Insertion(key: nat, value: T) | Removal(key: nat) | Use(key: nat) | Eviction

  function Changed<T>(s: Lru<T>, c: Change<T>): Lru<T>
  {
    match c
    case Insertion(k, v) => s.Insert(k, v)
    case Removal(k) => s.Remove(k)
    case Use(k) => s.Touch(k)
    case Eviction => s.Pop().1
  }

  function Apply<T>(s: Lru<T>, changes: seq<Change<T>>): Lru<T>
    decreases |changes|
  {
    if changes == [] then s else Apply(Changed(s, changes[0]), changes[1..])
  }

  lemma ChangedValid<T>(s: Lru<T>, c: Change<T>)
    requires s.Valid()
    ensures Changed(s, c).Valid()
  {
    match c
    case Insertion(k, v) => InsertValid(s, k, v);
    case Removal(k) => RemoveValid(s, k);
    case Use(k) =>
    case Eviction => PopMeaning(s);
  }

  lemma {:induction false} ApplyValid<T>(s: Lru<T>, changes: seq<Change<T>>)
    requires s.Valid()
    ensures Apply(s, changes).Valid()
    decreases |changes|
  {
    if changes != [] {
      hide Changed;
      ChangedValid(s, changes[0]);
      ApplyValid(Changed(s, changes[0]), changes[1..]);
    }
  }

  lemma StillQueued<T>(s: Lru<T>, key: nat, value: T)
    requires forall i :: 0 <= i < |s.queue| ==> s.queue[i] in s.cache
    requires |s.queue| >= 2 && key in s.cache && key != s.queue[0] && key != s.queue[1]
    ensures var t := s.Remove(key).Insert(key, value); forall i :: 0 <= i < |t.queue| ==> t.queue[i] in t.cache
  {
    var t := s.(cache := s.cache - {key}, chance := s.chance - {key});
    if |s.queue| > 2 * |t.cache| {
      var u := t.CycleOne();
      assert u.queue == s.queue[1..] + [s.queue[0]];
      assert u.CycleOne().queue == u.queue[1..] + [u.queue[0]];
    }
  }

  /**
   With three keys cached, the queue can be made as long as one likes: the two elements a removal
   looks at need not be stale.
   */
  lemma {:induction false} QueueGrows<T>(s: Lru<T>, a: nat, b: nat, c: nat, value: T, n: nat)
    returns (changes: seq<Change<T>>)
    requires a in s.cache && b in s.cache && c in s.cache && a != b && b != c && a != c
    requires |s.queue| >= 2 && forall i :: 0 <= i < |s.queue| ==> s.queue[i] in s.cache
    ensures var t := Apply(s, changes); t.cache.Keys == s.cache.Keys && |t.queue| >= n
    decreases n - |s.queue|
  {
    if |s.queue| >= n {
      return [];
    }
    hide Lru.Remove, Lru.Insert, Apply;
    var front := {s.queue[0], s.queue[1]};
    var key := if a !in front then a else if b !in front then b else c;
    Relengthened(s, key, value);
    StillQueued(s, key, value);
    var t := s.Remove(key).Insert(key, value);
    var more := QueueGrows(t, a, b, c, value, n);
    changes := [Removal(key), Insertion(key, value)] + more;
    ApplyTwo(s, Removal(key), Insertion(key, value), more);
  }

  lemma {:induction false} ApplyTwo<T>(s: Lru<T>, a: Change<T>, b: Change<T>, more: seq<Change<T>>)
    ensures Apply(s, [a, b] + more) == Apply(Changed(Changed(s, a), b), more)
  {
    var changes := [a, b] + more;
    assert changes[1..] == [b] + more && changes[1..][1..] == more;
    hide Changed;
  }

  /** From an empty cache such a queue is reached by inserting three keys. */
  lemma QueueGrowsFromNothing<T>(value: T, n: nat) returns (changes: seq<Change<T>>)
    ensures var t := Apply(Lru(map[], {}, []), changes); t.cache.Keys == {0, 1, 2} && |t.queue| >= n
  {
    var e: Lru<T> := Lru(map[], {}, []);
    var a := e.Insert(0, value);
    var b := a.Insert(1, value);
    var c := b.Insert(2, value);
    assert c.queue == [0, 1, 2] && c.cache.Keys == {0, 1, 2};
    var more := QueueGrows(c, 0, 1, 2, value, n);
    var last := [Insertion(2, value)] + more;
    var middle := [Insertion(1, value)] + last;
    changes := [Insertion(0, value)] + middle;
    assert changes[1..] == middle && middle[1..] == last && last[1..] == more;
    hide Lru.Insert;
    assert Apply(e, changes) == Apply(a, middle) == Apply(b, last) == Apply(c, more);
  }

  // ----- two keys at a time -----

  /** The queues met while no more than two keys are cached: a stale key is never at the end of a long one. */
  ghost predicate Short<T>(s: Lru<T>)
  {
    var q := s.queue;
    && s.Valid() && |s.cache| <= 2
    && if |s.cache| == 0 then |q| <= 1
       else if |s.cache| == 1 then |q| <= 2 || (|q| == 3 && q[2] in s.cache && (q[0] in s.cache <==> q[1] !in s.cache))
       else
         || |q| == 2
         || (|q| == 3 && q[2] in s.cache)
         || (|q| == 4 && q[0] != q[1] && (q[0] in s.cache || q[1] in s.cache) && q[2] in s.cache && q[3] in s.cache
             && q[2] != q[3])
  }

  lemma FewKeys<T>(m: map<nat, T>, a: nat, b: nat, c: nat)
    ensures |m| == 0 ==> a !in m
    ensures |m| == 1 && a in m && b in m ==> a == b
    ensures |m| == 2 && a in m && b in m && c in m ==> a == b || b == c || a == c
  {
    var k := m.Keys;
    assert |k| == |m|;
    if a in m && b in m && a != b {
      Two(k, a, b);
      if c in m && c != a && c != b {
        Two(k - {a}, b, c);
      }
    }
  }

  lemma Two(k: set<nat>, a: nat, b: nat)
    requires a in k && b in k && a != b
    ensures |k| >= 2 && |k - {a}| == |k| - 1
  {
    assert b in k - {a};
    assert |k - {a}| != 0;
  }

  lemma ShortInsert<T>(s: Lru<T>, key: nat, value: T)
    requires Short(s) && |s.Insert(key, value).cache| <= 2
    ensures Short(s.Insert(key, value))
  {
    InsertValid(s, key, value);
    var t := s.Insert(key, value);
    if key in s.cache {
      assert t.cache.Keys == s.cache.Keys && |t.cache| == |t.cache.Keys| && |s.cache| == |s.cache.Keys|;
    } else {
      assert t.cache.Keys == s.cache.Keys + {key} && |t.cache| == |t.cache.Keys| && |s.cache| == |s.cache.Keys|;
      if |s.queue| == 3 {
        FewKeys(s.cache, s.queue[0], s.queue[2], 0);
        FewKeys(s.cache, s.queue[1], s.queue[2], 0);
      }
    }
  }

  /** What is left after both cycles of a removal. */
  lemma Cycled<T>(s: Lru<T>)
    requires |s.queue| >= 2
    ensures var q := s.queue;
      s.CycleOne().CycleOne().queue == q[2..] + (if q[0] in s.cache then [q[0]] else [])
        + (if q[1] in s.cache then [q[1]] else [])
    ensures s.CycleOne().CycleOne().cache == s.cache
  {
    var u := s.CycleOne();
    assert u.queue[0] == s.queue[1] && u.queue[1..] == s.queue[2..]
      + (if s.queue[0] in s.cache then [s.queue[0]] else []);
  }

  /** Of a queue of three, with one of two cached keys removed. */
  lemma CycledThree<T>(s: Lru<T>, t: Lru<T>, key: nat)
    requires s.Valid() && |s.cache| == 2 && |t.cache| == 1 && key in s.cache && t.cache == s.cache - {key}
      && t.queue == s.queue
    requires |s.queue| == 3 && s.queue[2] in s.cache
    ensures var q := t.CycleOne().CycleOne().queue;
      |q| <= 2 || (|q| == 3 && q[2] in t.cache && (q[0] in t.cache <==> q[1] !in t.cache))
  {
    var q := s.queue;
    Cycled(t);
    FewKeys(t.cache, q[0], q[1], 0);
    FewKeys(t.cache, q[0], q[2], 0);
    assert key in q;
    hide Lru.CycleOne;
  }

  lemma CycledFour<T>(s: Lru<T>, t: Lru<T>, key: nat)
    requires s.Valid() && |s.cache| == 2 && |t.cache| == 1 && key in s.cache && t.cache == s.cache - {key}
      && t.queue == s.queue
    requires |s.queue| == 4 && s.queue[0] != s.queue[1] && s.queue[2] in s.cache && s.queue[3] in s.cache
      && s.queue[2] != s.queue[3]
    ensures var q := t.CycleOne().CycleOne().queue;
      |q| <= 2 || (|q| == 3 && q[2] in t.cache && (q[0] in t.cache <==> q[1] !in t.cache))
  {
    var q := s.queue;
    Cycled(t);
    FewKeys(t.cache, q[0], q[1], 0);
    FewKeys(t.cache, q[2], q[3], 0);
    FewKeys(s.cache, key, q[2], q[3]);
    hide Lru.CycleOne;
  }

  lemma ShortRemove<T>(s: Lru<T>, key: nat)
    requires Short(s) && key in s.cache
    ensures Short(s.Remove(key))
  {
    RemoveValid(s, key);
    var q, t := s.queue, s.(cache := s.cache - {key}, chance := s.chance - {key});
    assert t.cache.Keys == s.cache.Keys - {key} && |t.cache| == |t.cache.Keys| && |s.cache| == |s.cache.Keys|;
    assert |t.cache| == |s.cache| - 1;
    assert key in q;
    if |s.cache| == 1 {
      if |q| >= 2 {
        Cycled(t);
      }
    } else {
      TwoQueued(s);
      if |q| == 3 {
        CycledThree(s, t, key);
      } else if |q| == 4 {
        CycledFour(s, t, key);
      }
      hide Lru.CycleOne;
    }
  }

  lemma TwoQueued<T>(s: Lru<T>)
    requires s.Valid() && |s.cache| == 2
    ensures |s.queue| >= 2
  {
    assert |s.cache.Keys| == 2;
    var a :| a in s.cache.Keys;
    assert s.cache.Keys - {a} != {} by { assert |s.cache.Keys - {a}| == 1; }
    var b :| b in s.cache.Keys - {a};
    var i :| 0 <= i < |s.queue| && s.queue[i] == a;
    var j :| 0 <= j < |s.queue| && s.queue[j] == b;
    assert i != j;
  }

  /** No more than `n` keys are cached at any time. */
  ghost predicate Stays<T>(s: Lru<T>, changes: seq<Change<T>>, n: nat)
    decreases |changes|
  {
    |s.cache| <= n && (changes == [] || Stays(Changed(s, changes[0]), changes[1..], n))
  }

  lemma ShortChanged<T>(s: Lru<T>, c: Change<T>)
    requires Short(s) && |Changed(s, c).cache| <= 2 && !c.Eviction?
    ensures Short(Changed(s, c))
  {
    match c
    case Insertion(k, v) => ShortInsert(s, k, v);
    case Removal(k) =>
      if k in s.cache {
        ShortRemove(s, k);
      }
    case Use(k) =>
  }

  lemma {:induction false} ShortStays<T>(s: Lru<T>, changes: seq<Change<T>>)
    requires Short(s) && Stays(s, changes, 2) && forall i :: 0 <= i < |changes| ==> !changes[i].Eviction?
    ensures Short(Apply(s, changes))
    decreases |changes|
  {
    if changes != [] {
      hide Short, Changed;
      ShortChanged(s, changes[0]);
      ShortStays(Changed(s, changes[0]), changes[1..]);
    }
  }

  /**
   Through any run without evictions, from an empty cache, with at most two keys cached at a time,
   the queue has at most four elements.
   */
  lemma {:induction false} TwoKeysBounded<T>(changes: seq<Change<T>>)
    requires Stays(Lru(map[], {}, []), changes, 2) && forall i :: 0 <= i < |changes| ==> !changes[i].Eviction?
    ensures |Apply(Lru(map[], {}, []), changes).queue| <= 4
  {
    var e: Lru<T> := Lru(map[], {}, []);
    assert Short(e);
    ShortStays(e, changes);
    hide Apply;
  }

  // ----- two keys and evictions -----

  /** Two cached keys, none with a second chance, and nothing stale. */
  ghost predicate Paired<T>(s: Lru<T>, a: nat, b: nat)
  {
    && a != b && s.cache.Keys == {a, b} && s.chance == {} && |s.queue| >= 3
    && forall i :: 0 <= i < |s.queue| ==> s.queue[i] == a || s.queue[i] == b
  }

  /** Evicting a key and inserting it again turns the queue by one. */
  lemma Turned<T>(s: Lru<T>, a: nat, b: nat, value: T)
    requires Paired(s, a, b)
    ensures var e := Changed(s, Eviction); var t := Changed(e, Insertion(s.queue[0], value));
      && |e.cache| <= 2 && Paired(t, a, b) && t.queue == s.queue[1..] + [s.queue[0]]
  {
    var k := s.queue[0];
    var e := Changed(s, Eviction);
    assert e == s.(cache := s.cache - {k}, queue := s.queue[1..]);
    assert e.cache.Keys == {a, b} - {k};
    var t := e.Insert(k, value);
    assert t.cache.Keys == {a, b};
    SmallCache(e, a, b);
  }

  lemma SmallCache<T>(s: Lru<T>, a: nat, b: nat)
    requires s.cache.Keys <= {a, b}
    ensures |s.cache| <= 2
  {
    assert |s.cache| == |s.cache.Keys|;
    if a in s.cache && b in s.cache {
      assert s.cache.Keys == {a, b};
    } else if a in s.cache {
      assert s.cache.Keys == {a};
    } else if b in s.cache {
      assert s.cache.Keys == {b};
    } else {
      assert s.cache.Keys == {};
    }
  }

  /** With the same key twice in front, removing the other and inserting it again lengthens the queue. */
  lemma Lengthened<T>(s: Lru<T>, a: nat, b: nat, value: T)
    requires Paired(s, a, b) && s.queue[0] == s.queue[1] == a
    ensures var e := Changed(s, Removal(b)); var t := Changed(e, Insertion(b, value));
      && |e.cache| <= 2 && Paired(t, a, b) && t.queue == s.queue[2..] + [a, a, b]
  {
    var u := s.(cache := s.cache - {b}, chance := s.chance - {b});
    assert u.cache.Keys == {a};
    assert |u.cache| == |u.cache.Keys| == 1;
    Cycled(u);
    var e := s.Remove(b);
    assert e.queue == s.queue[2..] + [a] + [a] && e.cache == u.cache && e.chance == {};
    var t := e.Insert(b, value);
    assert t.cache.Keys == {a, b};
    assert t.queue == s.queue[2..] + [a, a, b];
    hide Lru.CycleOne, Lru.Remove;
  }

  lemma {:induction false} StaysTwo<T>(s: Lru<T>, a: Change<T>, b: Change<T>, more: seq<Change<T>>, n: nat)
    requires |s.cache| <= n && |Changed(s, a).cache| <= n && Stays(Changed(Changed(s, a), b), more, n)
    ensures Stays(s, [a, b] + more, n)
  {
    var changes := [a, b] + more;
    assert changes[1..] == [b] + more && changes[1..][1..] == more;
    hide Changed;
  }

  lemma GrowStep<T>(s: Lru<T>, a: nat, b: nat, i: nat, value: T)
    returns (first: Change<T>, second: Change<T>, j: nat)
    requires Paired(s, a, b) && i + 1 < |s.queue| && s.queue[i] == s.queue[i + 1]
    ensures var e := Changed(s, first); var t := Changed(e, second);
      && |e.cache| <= 2 && Paired(t, a, b) && j + 1 < |t.queue| && t.queue[j] == t.queue[j + 1]
      && if i > 0 then j < i && |t.queue| == |s.queue| else |t.queue| == |s.queue| + 1
  {
    var q := s.queue;
    hide Changed;
    if i > 0 {
      Turned(s, a, b, value);
      first, second, j := Eviction, Insertion(q[0], value), i - 1;
    } else if q[0] == a {
      Lengthened(s, a, b, value);
      first, second, j := Removal(b), Insertion(b, value), |q| - 2;
    } else {
      assert Paired(s, b, a);
      Lengthened(s, b, a, value);
      first, second, j := Removal(a), Insertion(a, value), |q| - 2;
    }
  }

  /** With evictions two keys are enough to make the queue as long as one likes. */
  lemma {:induction false} TwoKeysGrow<T>(s: Lru<T>, a: nat, b: nat, i: nat, value: T, n: nat)
    returns (changes: seq<Change<T>>)
    requires Paired(s, a, b) && i + 1 < |s.queue| && s.queue[i] == s.queue[i + 1]
    ensures Stays(s, changes, 2) && |Apply(s, changes).queue| >= n
    decreases n - |s.queue|, i
  {
    SmallCache(s, a, b);
    if |s.queue| >= n {
      return [];
    }
    hide Changed, Apply, Stays, Paired;
    var first, second, j := GrowStep(s, a, b, i, value);
    var more := TwoKeysGrow(Changed(Changed(s, first), second), a, b, j, value, n);
    changes := [first, second] + more;
    ApplyTwo(s, first, second, more);
    StaysTwo(s, first, second, more, 2);
  }

  /** The second of two keys inserted, removed and inserted again is queued twice in a row. */
  lemma QueuedAgain<T>(e: Lru<T>, value: T)
    requires e == Lru(map[], {}, [])
    ensures var a := Changed(e, Insertion(0, value)); var b := Changed(a, Insertion(1, value));
      var c := Changed(b, Removal(1)); var d := Changed(c, Insertion(1, value));
      && |e.cache| <= 2 && |a.cache| <= 2 && |b.cache| <= 2 && |c.cache| <= 2
      && Paired(d, 0, 1) && d.queue == [0, 1, 1]
  {
    hide Paired, Lru.Insert, Lru.Remove;
    InsertedTwo(e, value);
    var b := e.Insert(0, value).Insert(1, value);
    RemovedSecond(b);
    InsertedAgain(b.Remove(1), value);
  }

  lemma InsertedTwo<T>(e: Lru<T>, value: T)
    requires e == Lru(map[], {}, [])
    ensures var a := e.Insert(0, value); var b := a.Insert(1, value);
      |a.cache| <= 2 && |b.cache| <= 2 && b.cache.Keys == {0, 1} && b.queue == [0, 1] && b.chance == {}
  {
    var a := e.Insert(0, value);
    var b := a.Insert(1, value);
    assert a.cache.Keys == {0} && b.cache.Keys == {0, 1};
    SmallCache(a, 0, 1);
    SmallCache(b, 0, 1);
  }

  lemma RemovedSecond<T>(b: Lru<T>)
    requires b.cache.Keys == {0, 1} && b.queue == [0, 1] && b.chance == {}
    ensures var c := b.Remove(1); |c.cache| <= 2 && c.cache.Keys == {0} && c.queue == [0, 1] && c.chance == {}
  {
    var rest := b.cache - {1};
    assert rest.Keys == {0} && |rest| == |rest.Keys| == 1;
  }

  lemma InsertedAgain<T>(c: Lru<T>, value: T)
    requires c.cache.Keys == {0} && c.queue == [0, 1] && c.chance == {}
    ensures Paired(c.Insert(1, value), 0, 1) && c.Insert(1, value).queue == [0, 1, 1]
  {
    assert c.Insert(1, value).cache.Keys == {0, 1};
  }

  lemma TwoKeysGrowFromNothing<T>(value: T, n: nat) returns (changes: seq<Change<T>>)
    ensures Stays(Lru(map[], {}, []), changes, 2) && |Apply(Lru(map[], {}, []), changes).queue| >= n
  {
    var e: Lru<T> := Lru(map[], {}, []);
    hide Changed, Apply, Stays, Paired;
    QueuedAgain(e, value);
    var b := Changed(Changed(e, Insertion(0, value)), Insertion(1, value));
    var d := Changed(Changed(b, Removal(1)), Insertion(1, value));
    var more := TwoKeysGrow(d, 0, 1, 1, value, n);
    var last := [Removal(1), Insertion(1, value)] + more;
    changes := [Insertion(0, value), Insertion(1, value)] + last;
    ApplyTwo(b, Removal(1), Insertion(1, value), more);
    StaysTwo(b, Removal(1), Insertion(1, value), more, 2);
    ApplyTwo(e, Insertion(0, value), Insertion(1, value), last);
    StaysTwo(e, Insertion(0, value), Insertion(1, value), last, 2);
  }

  // ----- one key at a time -----

  /** The queue holds exactly the cached key. */
  ghost predicate Alone<T>(s: Lru<T>)
  {
    s.Valid() && |s.cache| <= 1 && |s.queue| == |s.cache| && forall i :: 0 <= i < |s.queue| ==> s.queue[i] in s.cache
  }

  lemma AloneRemove<T>(s: Lru<T>, key: nat)
    requires Alone(s) && key in s.cache
    ensures Alone(s.Remove(key))
  {
    RemoveValid(s, key);
    FewKeys(s.cache, key, s.queue[0], 0);
    var t := s.(cache := s.cache - {key}, chance := s.chance - {key});
    assert t.cache.Keys == s.cache.Keys - {key} && |t.cache| == |t.cache.Keys| && |s.cache| == |s.cache.Keys|;
    assert t.CycleOne().queue == [];
  }

  lemma {:induction false} AlonePop<T>(s: Lru<T>)
    requires Alone(s)
    ensures Alone(s.Pop().1)
  {
    PopMeaning(s);
    if s.queue != [] {
      var k := s.queue[0];
      assert s.queue == [k] && s.queue[1..] == [] && s.queue[1..] + [k] == [k];
      var u := s.(chance := s.chance - {k});
      assert u.Pop().1.queue == [];
      assert s.Pop().1.queue == [];
      assert (s.cache - {k}).Keys == s.cache.Keys - {k} && |s.cache - {k}| == |(s.cache - {k}).Keys|;
      assert |s.cache| == |s.cache.Keys|;
      FewKeys(s.cache, k, s.Pop().0.value.0, 0);
    }
  }

  lemma AloneChanged<T>(s: Lru<T>, c: Change<T>)
    requires Alone(s) && |Changed(s, c).cache| <= 1
    ensures Alone(Changed(s, c))
  {
    match c
    case Insertion(k, v) =>
      InsertValid(s, k, v);
      var t := s.Insert(k, v);
      assert t.cache.Keys == s.cache.Keys + {k} && |t.cache| == |t.cache.Keys| && |s.cache| == |s.cache.Keys|;
    case Removal(k) =>
      if k in s.cache {
        AloneRemove(s, k);
      }
    case Use(k) =>
    case Eviction => AlonePop(s);
  }

  lemma {:induction false} AloneStays<T>(s: Lru<T>, changes: seq<Change<T>>)
    requires Alone(s) && Stays(s, changes, 1)
    ensures Alone(Apply(s, changes))
    decreases |changes|
  {
    if changes != [] {
      hide Alone, Changed;
      AloneChanged(s, changes[0]);
      AloneStays(Changed(s, changes[0]), changes[1..]);
    }
  }

  /** Through any run, evictions included, with at most one key cached at a time, nothing else is ever queued. */
  lemma {:induction false} OneKeyBounded<T>(changes: seq<Change<T>>)
    requires Stays(Lru(map[], {}, []), changes, 1)
    ensures |Apply(Lru(map[], {}, []), changes).queue| <= 1
  {
    var e: Lru<T> := Lru(map[], {}, []);
    assert Alone(e);
    AloneStays(e, changes);
    hide Apply;
  }
}
