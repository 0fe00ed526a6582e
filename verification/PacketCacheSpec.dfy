/** What the packet cache means: a state for every history of lock-held operations, oldest entry first.
    (apps/api/src/agenticqueue_api/packet_cache.py) */
module PacketCacheSpec {
  import opened Base

  datatype Key = Key(task: int, limit: int)

  /** What a payload dictionary says: its own text and that of the dictionary nested in it. */
  datatype Payload = Payload(title: string, section: string)

  /** One cached packet; `body` is the payload object in the cache and its content in a history. */
  datatype Item<+B> = Item(key: Key, project: Option<int>, body: B, cachedAt: real)

  datatype Scope = Everything | OfProject(project: int)

  datatype Event =
    | Put(key: Key, project: Option<int>, content: Payload, at: real)
    | Get(key: Key, at: real)
    | HasCached(key: Key, at: real)
    | Invalidate(scope: Scope, at: real)

  datatype Settings = Settings(maxEntries: nat, ttl: real)

  datatype Cache = Cache(items: seq<Item<Payload>>, hits: nat, misses: nat,
                         emptyMisses: nat, expiredMisses: nat, invalidations: nat)

  predicate Covers(scope: Scope, project: Option<int>) {
    scope == Everything || project == Some(scope.project)
  }

  // ----- ordered entries

  datatype Drop = ByKeys(keys: set<Key>) | ByScope(scope: Scope)

  predicate Drops<B>(d: Drop, item: Item<B>) {
    match d
    case ByKeys(keys) => item.key in keys
    case ByScope(scope) => Covers(scope, item.project)
  }

  function Without<B>(items: seq<Item<B>>, d: Drop): (r: seq<Item<B>>)
    ensures |r| <= |items|
  {
    if items == [] then []
    else if Drops(d, items[0]) then Without(items[1..], d)
    else [items[0]] + Without(items[1..], d)
  }

  function Keys<B>(items: seq<Item<B>>): (keys: set<Key>) {
    set i | 0 <= i < |items| :: items[i].key
  }

  ghost predicate Distinct<B>(items: seq<Item<B>>) {
    forall i, j :: 0 <= i < j < |items| ==> items[i].key != items[j].key
  }

  /** The place of `key`, or the number of entries when it is absent. */
  function Find<B>(items: seq<Item<B>>, key: Key): (i: nat)
    ensures i <= |items| && (i < |items| <==> key in Keys(items))
    ensures i < |items| ==> items[i].key == key
  {
    if items == [] then 0
    else if items[0].key == key then assert items[0].key in Keys(items); 0
    else
      assert Keys(items) == {items[0].key} + Keys(items[1..]) by { KeysSplit(items); }
      1 + Find(items[1..], key)
  }

  lemma KeysSplit<B>(items: seq<Item<B>>)
    requires items != []
    ensures Keys(items) == {items[0].key} + Keys(items[1..])
  {
    forall i | 1 <= i < |items| ensures items[i].key in Keys(items[1..]) {
      assert items[i] == items[1..][i - 1];
    }
  }

  lemma KeysAppend<B>(items: seq<Item<B>>, item: Item<B>)
    ensures Keys(items + [item]) == Keys(items) + {item.key}
  {
    var after := items + [item];
    assert after[|items|].key in Keys(after);
    forall i | 0 <= i < |items| ensures items[i].key in Keys(after) {
      assert after[i] == items[i];
    }
  }

  lemma {:induction false} DistinctCount<B>(items: seq<Item<B>>)
    requires Distinct(items)
    ensures |Keys(items)| == |items|
  {
    if items == [] {
    } else {
      KeysSplit(items);
      DistinctCount(items[1..]);
      assert items[0].key !in Keys(items[1..]);
    }
  }

  /** Members of the rest are exactly the members that are not dropped. */
  lemma {:induction false} WithoutMembers<B>(items: seq<Item<B>>, d: Drop)
    ensures forall item :: item in Without(items, d) <==> item in items && !Drops(d, item)
    ensures forall i :: 0 <= i < |Without(items, d)| ==>
        Without(items, d)[i] in items && !Drops(d, Without(items, d)[i])
  {
    if items == [] {
    } else {
      WithoutMembers(items[1..], d);
      assert items == [items[0]] + items[1..];
    }
  }

  lemma {:induction false} WithoutDistinct<B>(items: seq<Item<B>>, d: Drop)
    requires Distinct(items)
    ensures Distinct(Without(items, d))
  {
    if items == [] {
    } else {
      WithoutDistinct(items[1..], d);
      WithoutMembers(items[1..], d);
      RestHasOtherKeys(items);
      var rest := Without(items[1..], d);
      forall i | 0 <= i < |rest| ensures rest[i].key != items[0].key {
        assert rest[i] in items[1..];
      }
    }
  }

  lemma RestHasOtherKeys<B>(items: seq<Item<B>>)
    requires items != [] && Distinct(items)
    ensures forall item :: item in items[1..] ==> item.key != items[0].key
  {
  }

  /** Dropping one key shortens the list by one exactly when the key is there. */
  lemma {:induction false} WithoutKey<B>(items: seq<Item<B>>, key: Key)
    requires Distinct(items)
    ensures Keys(Without(items, ByKeys({key}))) == Keys(items) - {key}
    ensures |Without(items, ByKeys({key}))| == if key in Keys(items) then |items| - 1 else |items|
  {
    var rest := Without(items, ByKeys({key}));
    WithoutMembers(items, ByKeys({key}));
    WithoutDistinct(items, ByKeys({key}));
    forall k ensures k in Keys(rest) <==> k in Keys(items) - {key} {
      if k in Keys(items) - {key} {
        var i :| 0 <= i < |items| && items[i].key == k;
        assert items[i] in rest;
      }
      if k in Keys(rest) {
        var i :| 0 <= i < |rest| && rest[i].key == k;
        assert rest[i] in items;
      }
    }
    DistinctCount(items);
    DistinctCount(rest);
  }

  lemma {:induction false} WithoutTwice<B>(items: seq<Item<B>>, keys: set<Key>, key: Key)
    ensures Without(Without(items, ByKeys(keys)), ByKeys({key})) == Without(items, ByKeys(keys + {key}))
  {
    if items == [] {
    } else {
      WithoutTwice(items[1..], keys, key);
      var rest := Without(items[1..], ByKeys(keys));
      assert ([items[0]] + rest)[1..] == rest;
    }
  }

  // ----- one operation

  predicate Expired<B>(s: Settings, item: Item<B>, at: real) {
    at - item.cachedAt >= s.ttl
  }

  /** What `get` answers in state `c` at time `at`. */
  function Answer(s: Settings, c: Cache, key: Key, at: real): Option<Payload> {
    var i := Find(c.items, key);
    if i == |c.items| || Expired(s, c.items[i], at) then None else Some(c.items[i].body)
  }

  function Newest<B>(s: Settings, items: seq<Item<B>>): seq<Item<B>> {
    if |items| > s.maxEntries then items[|items| - s.maxEntries..] else items
  }

  function Step(s: Settings, c: Cache, e: Event): Cache {
    match e
    case Put(key, project, content, at) =>
      c.(items := Newest(s, Without(c.items, ByKeys({key})) + [Item(key, project, content, at)]))
    case Get(key, at) =>
      var i := Find(c.items, key);
      if i == |c.items| then c.(misses := c.misses + 1, emptyMisses := c.emptyMisses + 1)
      else if Expired(s, c.items[i], at) then
        c.(items := Without(c.items, ByKeys({key})), misses := c.misses + 1, expiredMisses := c.expiredMisses + 1)
      else c.(items := Without(c.items, ByKeys({key})) + [c.items[i]], hits := c.hits + 1)
    case HasCached(key, at) =>
      var i := Find(c.items, key);
      if i < |c.items| && Expired(s, c.items[i], at) then c.(items := Without(c.items, ByKeys({key}))) else c
    case Invalidate(scope, at) =>
      var rest := Without(c.items, ByScope(scope));
      c.(items := rest, invalidations := c.invalidations + (|c.items| - |rest|))
  }

  const EMPTY := Cache([], 0, 0, 0, 0, 0)

  type History = seq<Event>

  function Run(s: Settings, h: History): Cache {
    if h == [] then EMPTY else Step(s, Run(s, Before(h)), Last(h))
  }

  function Before(h: History): History requires h != [] { h[..|h| - 1] }

  function Last(h: History): Event requires h != [] { h[|h| - 1] }

  lemma RunAppend(s: Settings, h: History, e: Event)
    ensures Run(s, h + [e]) == Step(s, Run(s, h), e)
  {
    assert Before(h + [e]) == h;
  }

  // ----- every history

  lemma {:induction false} AlwaysDistinct(s: Settings, h: History)
    requires s.maxEntries >= 1
    ensures Distinct(Run(s, h).items) && |Run(s, h).items| <= s.maxEntries
  {
    if h == [] {
    } else {
      AlwaysDistinct(s, Before(h));
      var items := Run(s, Before(h)).items;
      match Last(h)
      case Put(key, _, _, _) => WithoutDistinct(items, ByKeys({key})); WithoutKey(items, key);
      case Get(key, _) => WithoutDistinct(items, ByKeys({key})); WithoutKey(items, key);
      case HasCached(key, _) => WithoutDistinct(items, ByKeys({key}));
      case Invalidate(scope, _) => WithoutDistinct(items, ByScope(scope));
    }
  }

  /** The place of the latest `put` for `key` in `h`, or -1. */
  function LatestPut(h: History, key: Key): (i: int)
    ensures -1 <= i < |h|
    ensures i >= 0 ==> h[i].Put? && h[i].key == key
    ensures forall j :: i < j < |h| ==> !(h[j].Put? && h[j].key == key)
  {
    if h == [] then -1
    else if Last(h).Put? && Last(h).key == key then |h| - 1
    else LatestPut(Before(h), key)
  }

  /** No invalidation after place `i` covers `project`. */
  ghost predicate Undisturbed(h: History, i: int, project: Option<int>) {
    forall j :: 0 <= i < j < |h| && h[j].Invalidate? ==> !Covers(h[j].scope, project)
  }

  /** `item` is what the latest `put` for its key stored, and nothing since has invalidated it. */
  ghost predicate Backed(h: History, item: Item<Payload>) {
    var i := LatestPut(h, item.key);
    && i >= 0
    && h[i] == Put(item.key, item.project, item.body, item.cachedAt)
    && Undisturbed(h, i, item.project)
  }

  lemma BackedStays(h: History, item: Item<Payload>)
    requires h != [] && Backed(Before(h), item)
    requires !(Last(h).Put? && Last(h).key == item.key)
    requires Last(h).Invalidate? ==> !Covers(Last(h).scope, item.project)
    ensures Backed(h, item)
  {
    var i := LatestPut(h, item.key);
    assert i == LatestPut(Before(h), item.key);
    forall j | i < j < |h| && h[j].Invalidate? ensures !Covers(h[j].scope, item.project) {
      if j < |h| - 1 { assert h[j] == Before(h)[j]; }
    }
  }

  /** Where an entry comes from: it was there and survived, or it is the one just put. */
  lemma StepMembers(s: Settings, c: Cache, e: Event, item: Item<Payload>)
    requires item in Step(s, c, e).items
    ensures || (e.Put? && item == Item(e.key, e.project, e.content, e.at))
            || (item in c.items && (e.Put? ==> e.key != item.key) && (e.Invalidate? ==> !Covers(e.scope, item.project)))
  {
    match e
    case Put(key, project, content, at) =>
      WithoutMembers(c.items, ByKeys({key}));
      assert item in Without(c.items, ByKeys({key})) + [Item(key, project, content, at)];
    case Get(key, _) => WithoutMembers(c.items, ByKeys({key}));
    case HasCached(key, _) => WithoutMembers(c.items, ByKeys({key}));
    case Invalidate(scope, _) => WithoutMembers(c.items, ByScope(scope));
  }

  lemma {:induction false} AllBacked(s: Settings, h: History)
    ensures forall item :: item in Run(s, h).items ==> Backed(h, item)
  {
    if h == [] {
    } else {
      AllBacked(s, Before(h));
      forall item | item in Run(s, h).items ensures Backed(h, item) {
        StepMembers(s, Run(s, Before(h)), Last(h), item);
        if !(Last(h).Put? && Last(h).key == item.key) {
          BackedStays(h, item);
        }
      }
    }
  }

  /** Soundness over every history: a payload that `get` returns is the one given to the latest `put` for its
      key, less than the TTL old, with no covering invalidation since. */
  lemma GetIsSound(s: Settings, h: History, key: Key, at: real)
    ensures var answer := Answer(s, Run(s, h), key, at);
            var i := LatestPut(h, key);
            answer.Some? ==> && i >= 0 && answer.value == h[i].content
                             && at - h[i].at < s.ttl && Undisturbed(h, i, h[i].project)
  {
    var items := Run(s, h).items;
    AllBacked(s, h);
    if Find(items, key) < |items| {
      assert items[Find(items, key)] in items;
    }
  }

  // ----- recency

  /** The keys of the entries behind `key`, which eviction reaches later. */
  function After<B>(items: seq<Item<B>>, key: Key): set<Key> {
    if items == [] then {}
    else if items[0].key == key then Keys(items[1..])
    else After(items[1..], key)
  }

  ghost predicate IsHit(s: Settings, h: History, e: Event) {
    e.Get? && Answer(s, Run(s, h), e.key, e.at).Some?
  }

  ghost predicate IsUse(s: Settings, h: History, e: Event) {
    e.Put? || IsHit(s, h, e)
  }

  /** The other keys put or hit since `key` was last put or hit. */
  ghost function UsedSince(s: Settings, h: History, key: Key): set<Key> {
    if h == [] then {}
    else if !IsUse(s, Before(h), Last(h)) then UsedSince(s, Before(h), key)
    else if Last(h).key == key then {}
    else UsedSince(s, Before(h), key) + {Last(h).key}
  }

  lemma {:induction false} AfterWithout<B>(items: seq<Item<B>>, d: Drop, key: Key)
    requires key in Keys(Without(items, d)) && Distinct(items)
    ensures After(Without(items, d), key) <= After(items, key)
  {
    var rest := Without(items[1..], d);
    if items[0].key == key {
      WithoutMembers(items[1..], d);
      RestHasOtherKeys(items);
      assert !Drops(d, items[0]);
      assert Without(items, d)[1..] == rest;
      forall k | k in Keys(rest) ensures k in Keys(items[1..]) {
        var i :| 0 <= i < |rest| && rest[i].key == k;
        assert rest[i] in items[1..];
      }
    } else {
      if !Drops(d, items[0]) {
        assert Without(items, d)[1..] == rest;
        KeysSplit(Without(items, d));
      }
      AfterWithout(items[1..], d, key);
    }
  }

  lemma {:induction false} AfterAppend<B>(items: seq<Item<B>>, item: Item<B>, key: Key)
    requires key in Keys(items)
    ensures After(items + [item], key) == After(items, key) + {item.key}
  {
    assert (items + [item])[1..] == items[1..] + [item];
    if items[0].key == key {
      KeysAppend(items[1..], item);
    } else {
      KeysSplit(items);
      AfterAppend(items[1..], item, key);
    }
  }

  lemma {:induction false} AfterSuffix<B>(items: seq<Item<B>>, n: nat, key: Key)
    requires Distinct(items) && n <= |items| && key in Keys(items[n..])
    ensures After(items[n..], key) == After(items, key)
    decreases n
  {
    if n == 0 {
    } else {
      var i :| 0 <= i < |items[n..]| && items[n..][i].key == key;
      assert items[n + i].key == key;
      assert items[1..][n - 1..] == items[n..];
      AfterSuffix(items[1..], n - 1, key);
    }
  }

  lemma {:induction false} AfterAll<B>(items: seq<Item<B>>, n: nat, key: Key)
    requires Distinct(items) && n <= |items| && key in Keys(items) && key !in Keys(items[n..])
    ensures Keys(items[n..]) <= After(items, key)
    decreases |items|
  {
    KeysSplit(items);
    if n == 0 {
    } else {
      assert items[1..][n - 1..] == items[n..];
      if items[0].key == key {
        forall k | k in Keys(items[n..]) ensures k in Keys(items[1..]) {
          var i :| 0 <= i < |items[n..]| && items[n..][i].key == k;
          assert items[1..][n - 1 + i].key == k;
        }
      } else {
        AfterAll(items[1..], n - 1, key);
      }
    }
  }

  /** Entries behind a key are keys used since its last use. */
  ghost predicate Recent(s: Settings, h: History, key: Key) {
    key in Keys(Run(s, h).items) ==> After(Run(s, h).items, key) <= UsedSince(s, h, key)
  }

  lemma MovedToEnd(items: seq<Item<Payload>>, item: Item<Payload>, key: Key)
    requires Distinct(items) && key != item.key && key in Keys(items)
    ensures var moved := Without(items, ByKeys({item.key})) + [item];
            key in Keys(moved) && After(moved, key) <= After(items, key) + {item.key}
  {
    WithoutKey(items, item.key);
    AfterWithout(items, ByKeys({item.key}), key);
    AfterAppend(Without(items, ByKeys({item.key})), item, key);
    KeysAppend(Without(items, ByKeys({item.key})), item);
  }

  lemma EndIsNewest(items: seq<Item<Payload>>, item: Item<Payload>)
    requires Distinct(items)
    ensures After(Without(items, ByKeys({item.key})) + [item], item.key) == {}
  {
    var rest := Without(items, ByKeys({item.key}));
    WithoutKey(items, item.key);
    AfterAbsent(rest, item);
  }

  lemma {:induction false} AfterAbsent(items: seq<Item<Payload>>, item: Item<Payload>)
    requires item.key !in Keys(items)
    ensures After(items + [item], item.key) == {}
  {
    if items == [] {
    } else {
      KeysSplit(items);
      assert (items + [item])[1..] == items[1..] + [item];
      AfterAbsent(items[1..], item);
    }
  }

  lemma {:induction false} AlwaysRecent(s: Settings, h: History, key: Key)
    requires s.maxEntries >= 1
    ensures Recent(s, h, key)
  {
    if h != [] && key in Keys(Run(s, h).items) {
      var items, e := Run(s, Before(h)).items, Last(h);
      AlwaysRecent(s, Before(h), key);
      AlwaysDistinct(s, Before(h));
      match e
      case Put(k, project, content, at) => RecentAfterPut(s, h, key);
      case Get(k, at) =>
        var i := Find(items, k);
        if i < |items| && !Expired(s, items[i], at) {
          if k == key { EndIsNewest(items, items[i]); }
          else { UnmovedKeyWasThere(items, items[i], key); MovedToEnd(items, items[i], key); }
        } else if i < |items| { WithoutKey(items, k); AfterWithout(items, ByKeys({k}), key); }
      case HasCached(k, at) =>
        var i := Find(items, k);
        if i < |items| && Expired(s, items[i], at) { WithoutKey(items, k); AfterWithout(items, ByKeys({k}), key); }
      case Invalidate(scope, _) => SurvivorsWereThere(items, ByScope(scope)); AfterWithout(items, ByScope(scope), key);
    }
  }

  lemma UnmovedKeyWasThere(items: seq<Item<Payload>>, item: Item<Payload>, key: Key)
    requires Distinct(items) && key != item.key && key in Keys(Without(items, ByKeys({item.key})) + [item])
    ensures key in Keys(items)
  {
    WithoutKey(items, item.key);
    KeysAppend(Without(items, ByKeys({item.key})), item);
  }

  lemma SurvivorsWereThere(items: seq<Item<Payload>>, d: Drop)
    ensures Keys(Without(items, d)) <= Keys(items)
  {
    WithoutMembers(items, d);
    var rest := Without(items, d);
    forall i | 0 <= i < |rest| ensures rest[i].key in Keys(items) {
      assert rest[i] in items;
    }
  }

  lemma SuffixKeys(items: seq<Item<Payload>>, n: nat)
    requires n <= |items|
    ensures Keys(items[n..]) <= Keys(items)
  {
    forall i | 0 <= i < |items[n..]| ensures items[n..][i].key in Keys(items) {
      assert items[n..][i] == items[n + i];
    }
  }

  lemma MovedDistinct(items: seq<Item<Payload>>, item: Item<Payload>)
    requires Distinct(items)
    ensures Distinct(Without(items, ByKeys({item.key})) + [item])
    ensures |Without(items, ByKeys({item.key})) + [item]| <= |items| + 1
  {
    WithoutDistinct(items, ByKeys({item.key}));
    WithoutMembers(items, ByKeys({item.key}));
  }

  lemma RecentAfterPut(s: Settings, h: History, key: Key)
    requires s.maxEntries >= 1 && h != [] && Last(h).Put? && Recent(s, Before(h), key)
    ensures Recent(s, h, key)
  {
    var items, e := Run(s, Before(h)).items, Last(h);
    var item := Item(e.key, e.project, e.content, e.at);
    var moved := Without(items, ByKeys({e.key})) + [item];
    AlwaysDistinct(s, Before(h));
    MovedDistinct(items, item);
    var n := if |moved| > s.maxEntries then |moved| - s.maxEntries else 0;
    assert moved[n..] == Newest(s, moved);
    if key in Keys(moved[n..]) {
      AfterSuffix(moved, n, key);
      SuffixKeys(moved, n);
      if key == e.key { EndIsNewest(items, item); }
      else { UnmovedKeyWasThere(items, item, key); MovedToEnd(items, item, key); }
    }
  }

  // ----- completeness

  predicate LooksUp(e: Event, key: Key) {
    (e.Get? || e.HasCached?) && e.key == key
  }

  /** The latest `put` of `key` has not been invalidated, and no look-up since has found it expired. */
  ghost predicate InStanding(s: Settings, h: History, key: Key) {
    var i := LatestPut(h, key);
    && i >= 0 && Undisturbed(h, i, h[i].project)
    && forall j :: i < j < |h| && LooksUp(h[j], key) ==> h[j].at - h[i].at < s.ttl
  }

  lemma EvictedOnlyWhenCrowded(s: Settings, h: History, key: Key)
    requires s.maxEntries >= 1 && h != [] && Last(h).Put? && Last(h).key != key
    requires key in Keys(Run(s, Before(h)).items) && key !in Keys(Run(s, h).items)
    ensures |UsedSince(s, h, key)| >= s.maxEntries
  {
    var items, e := Run(s, Before(h)).items, Last(h);
    var item := Item(e.key, e.project, e.content, e.at);
    var moved := Without(items, ByKeys({e.key})) + [item];
    AlwaysDistinct(s, Before(h));
    AlwaysRecent(s, Before(h), key);
    MovedToEnd(items, item, key);
    MovedDistinct(items, item);
    var n := |moved| - s.maxEntries;
    AfterAll(moved, n, key);
    assert moved[n..] == Run(s, h).items;
    DistinctCount(moved[n..]);
    SubsetSize(Keys(moved[n..]), UsedSince(s, h, key));
  }

  lemma {:induction false} SubsetSize<T>(a: set<T>, b: set<T>)
    requires a <= b
    ensures |a| <= |b|
  {
    if a == {} {
    } else {
      var x :| x in a;
      SubsetSize(a - {x}, b - {x});
    }
  }

  /** A longer history keeps a key in standing unless its last event ends it. */
  lemma StandingStep(s: Settings, h: History, key: Key)
    requires h != [] && !(Last(h).Put? && Last(h).key == key)
    ensures LatestPut(h, key) == LatestPut(Before(h), key)
    ensures var i := LatestPut(h, key);
            InStanding(s, h, key) <==>
              && InStanding(s, Before(h), key)
              && (Last(h).Invalidate? ==> !Covers(Last(h).scope, h[i].project))
              && (LooksUp(Last(h), key) ==> Last(h).at - h[i].at < s.ttl)
  {
    var i := LatestPut(h, key);
    if i >= 0 {
      UndisturbedStep(h, i, h[i].project);
      assert forall j :: i < j < |Before(h)| ==> Before(h)[j] == h[j];
    }
  }

  lemma UndisturbedStep(h: History, i: nat, project: Option<int>)
    requires i < |h| - 1
    ensures Undisturbed(h, i, project)
       <==> Undisturbed(Before(h), i, project) && (Last(h).Invalidate? ==> !Covers(Last(h).scope, project))
  {
    assert forall j :: 0 <= j < |Before(h)| ==> Before(h)[j] == h[j];
  }

  /** A cached key is always in standing, whatever the clock did. */
  lemma {:induction false} CachedIsInStanding(s: Settings, h: History, key: Key)
    requires s.maxEntries >= 1 && key in Keys(Run(s, h).items)
    ensures InStanding(s, h, key)
  {
    if Last(h).Put? && Last(h).key == key {
    } else {
      StandingStep(s, h, key);
      WasThere(s, h, key);
      CachedIsInStanding(s, Before(h), key);
      EntryOf(s, Before(h), key);
      if Last(h).Invalidate? { EntryOf(s, h, key); }
    }
  }

  /** A key that an event other than its `put` leaves cached was cached before, and was not found expired. */
  lemma WasThere(s: Settings, h: History, key: Key)
    requires s.maxEntries >= 1 && h != [] && key in Keys(Run(s, h).items) && !(Last(h).Put? && Last(h).key == key)
    ensures var items := Run(s, Before(h)).items;
            && key in Keys(items)
            && (LooksUp(Last(h), key) ==> !Expired(s, items[Find(items, key)], Last(h).at))
  {
    var items := Run(s, Before(h)).items;
    AlwaysDistinct(s, Before(h));
    var item :| item in Run(s, h).items && item.key == key;
    StepMembers(s, Run(s, Before(h)), Last(h), item);
    if LooksUp(Last(h), key) { WithoutKey(items, key); }
  }

  /** The entry of a cached key is what its latest `put` stored. */
  lemma EntryOf(s: Settings, h: History, key: Key)
    requires key in Keys(Run(s, h).items)
    ensures var i, item := LatestPut(h, key), Run(s, h).items[Find(Run(s, h).items, key)];
            i >= 0 && h[i] == Put(key, item.project, item.body, item.cachedAt) && Undisturbed(h, i, item.project)
  {
    var items := Run(s, h).items;
    AllBacked(s, h);
    assert items[Find(items, key)] in items;
  }

  /** Completeness over every history, with any clock readings: a key that fewer than `maxEntries` other keys were
      put or hit after is cached exactly while it is in standing. */
  lemma {:induction false} KeptUntilCrowded(s: Settings, h: History, key: Key)
    requires s.maxEntries >= 1 && |UsedSince(s, h, key)| < s.maxEntries
    ensures key in Keys(Run(s, h).items) <==> InStanding(s, h, key)
    decreases |h|
  {
    if key in Keys(Run(s, h).items) {
      CachedIsInStanding(s, h, key);
    } else if InStanding(s, h, key) {
      StandingIsKept(s, h, key);
    }
  }

  lemma {:induction false} StandingIsKept(s: Settings, h: History, key: Key)
    requires s.maxEntries >= 1 && |UsedSince(s, h, key)| < s.maxEntries && InStanding(s, h, key)
    ensures key in Keys(Run(s, h).items)
    decreases |h|
  {
    var items, e := Run(s, Before(h)).items, Last(h);
    AlwaysDistinct(s, Before(h));
    if e.Put? && e.key == key {
      PutIsThere(s, h);
    } else {
      StandingStep(s, h, key);
      if e.Get? && e.key == key {
        if !IsHit(s, Before(h), e) {
          StandingIsKept(s, Before(h), key);
          EntryOf(s, Before(h), key);
        }
        KeysAppend(Without(items, ByKeys({key})), items[Find(items, key)]);
      } else {
        SubsetSize(UsedSince(s, Before(h), key), UsedSince(s, h, key));
        StandingIsKept(s, Before(h), key);
        EntryOf(s, Before(h), key);
        OthersLeaveKey(s, h, key);
      }
    }
  }

  lemma PutIsThere(s: Settings, h: History)
    requires s.maxEntries >= 1 && h != [] && Last(h).Put?
    ensures Last(h).key in Keys(Run(s, h).items)
  {
    var e := Last(h);
    var items := Run(s, h).items;
    assert items[|items| - 1] == Item(e.key, e.project, e.content, e.at);
  }

  lemma OthersLeaveKey(s: Settings, h: History, key: Key)
    requires s.maxEntries >= 1 && h != [] && key in Keys(Run(s, Before(h)).items)
    requires |UsedSince(s, h, key)| < s.maxEntries
    requires (Last(h).Put? || Last(h).Get?) ==> Last(h).key != key
    requires Last(h).HasCached? && Last(h).key == key ==>
               !Expired(s, Run(s, Before(h)).items[Find(Run(s, Before(h)).items, key)], Last(h).at)
    requires Last(h).Invalidate? ==>
               !Covers(Last(h).scope, Run(s, Before(h)).items[Find(Run(s, Before(h)).items, key)].project)
    ensures key in Keys(Run(s, h).items)
  {
    var items, e := Run(s, Before(h)).items, Last(h);
    AlwaysDistinct(s, Before(h));
    match e
    case Put(_, _, _, _) => if key !in Keys(Run(s, h).items) { EvictedOnlyWhenCrowded(s, h, key); }
    case Get(k, at) =>
      WithoutKey(items, k);
      if Find(items, k) < |items| { KeysAppend(Without(items, ByKeys({k})), items[Find(items, k)]); }
    case HasCached(k, at) => WithoutKey(items, k);
    case Invalidate(scope, _) =>
      var item := items[Find(items, key)];
      WithoutMembers(items, ByScope(scope));
      assert item in Without(items, ByScope(scope));
  }

  /** Soundness and completeness together: a key not crowded out is answered exactly while it is in standing and
      its latest `put` is fresh, and then with that payload. */
  lemma GoodKeyAnswers(s: Settings, h: History, key: Key, at: real)
    requires s.maxEntries >= 1 && |UsedSince(s, h, key)| < s.maxEntries
    ensures var i := LatestPut(h, key);
            Answer(s, Run(s, h), key, at)
            == if InStanding(s, h, key) && at - h[i].at < s.ttl then Some(h[i].content) else None
  {
    KeptUntilCrowded(s, h, key);
    if key in Keys(Run(s, h).items) { EntryOf(s, h, key); }
  }

  ghost predicate Forward(h: History, at: real) {
    && (forall i :: 0 <= i < |h| ==> h[i].at <= at)
    && (forall i, j :: 0 <= i < j < |h| ==> h[i].at <= h[j].at)
  }

  /** Where clock readings only climb, a fresh `put` cannot have been found expired: it is answered unless
      invalidated or crowded out. */
  lemma FreshKeyAnswers(s: Settings, h: History, key: Key, at: real)
    requires s.maxEntries >= 1 && |UsedSince(s, h, key)| < s.maxEntries && Forward(h, at)
    ensures var i := LatestPut(h, key);
            Answer(s, Run(s, h), key, at)
            == if i >= 0 && Undisturbed(h, i, h[i].project) && at - h[i].at < s.ttl then Some(h[i].content) else None
  {
    GoodKeyAnswers(s, h, key, at);
  }

  // ----- accounting

  /** Puts that brought in a key the cache did not hold. */
  ghost function NewKeys(s: Settings, h: History): nat {
    if h == [] then 0
    else
      NewKeys(s, Before(h)) + (if Last(h).Put? && Last(h).key !in Keys(Run(s, Before(h)).items) then 1 else 0)
  }

  /** Entries pushed out by a `put` into a full cache. */
  ghost function Evictions(s: Settings, h: History): nat {
    if h == [] then 0
    else
      var items := Run(s, Before(h)).items;
      Evictions(s, Before(h))
        + (if Last(h).Put? && Last(h).key !in Keys(items) && |items| == s.maxEntries then 1 else 0)
  }

  /** Entries found expired by `get` or `has_cached` and dropped. */
  ghost function ExpiryDrops(s: Settings, h: History): nat {
    if h == [] then 0
    else
      var items, e := Run(s, Before(h)).items, Last(h);
      var dropped := (e.Get? || e.HasCached?) && e.key in Keys(items) && Expired(s, items[Find(items, e.key)], e.at);
      ExpiryDrops(s, Before(h)) + (if dropped then 1 else 0)
  }

  ghost function Gets(h: History): nat {
    if h == [] then 0 else Gets(Before(h)) + (if Last(h).Get? then 1 else 0)
  }

  /** Conservation over every history: what came in is still there, evicted, expired or invalidated. */
  lemma {:induction false} EntriesAccountedFor(s: Settings, h: History)
    requires s.maxEntries >= 1
    ensures var c := Run(s, h);
            NewKeys(s, h) == |c.items| + Evictions(s, h) + ExpiryDrops(s, h) + c.invalidations
  {
    if h == [] {
    } else {
      EntriesAccountedFor(s, Before(h));
      AlwaysDistinct(s, Before(h));
      if !Last(h).Invalidate? {
        WithoutKey(Run(s, Before(h)).items, Last(h).key);
      }
    }
  }

  /** What a `get` counts as: a hit when it answers, an empty miss when the key is not cached, and else an expired one.
      Nothing but a `get` counts. */
  lemma CountedAs(s: Settings, c: Cache, e: Event)
    ensures var after := Step(s, c, e);
            && after.hits == c.hits + (if e.Get? && Answer(s, c, e.key, e.at).Some? then 1 else 0)
            && after.emptyMisses == c.emptyMisses + (if e.Get? && e.key !in Keys(c.items) then 1 else 0)
            && after.expiredMisses
               == c.expiredMisses
                  + (if e.Get? && e.key in Keys(c.items) && Answer(s, c, e.key, e.at) == None then 1 else 0)
  {
  }

  /** Every `get` is a hit or a miss, and every miss has one reason. */
  lemma {:induction false} GetsAccountedFor(s: Settings, h: History)
    ensures var c := Run(s, h);
            c.hits + c.misses == Gets(h) && c.misses == c.emptyMisses + c.expiredMisses
  {
    if h == [] {
    } else {
      GetsAccountedFor(s, Before(h));
    }
  }
}
