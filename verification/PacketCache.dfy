/** The packet cache as the objects it keeps: payload dictionaries are mutable, so every payload that crosses
    the boundary is copied (apps/api/src/agenticqueue_api/packet_cache.py). */
module PacketCache {
  import opened Base
  import opened PacketCacheSpec

  /** A dictionary nested in a payload. */
  class Section {
    var text: string

    constructor (text: string)
      ensures this.text == text
    {
      this.text := text;
    }
  }

  /** A payload dictionary with another one nested in it; either can be changed in place. */
  class Packet {
    var title: string
    const section: Section

    ghost function Parts(): set<object> {
      {this, section}
    }

    ghost function Says(): Payload
      reads this, section
    {
      Payload(title, section.text)
    }

    constructor (title: string, section: Section)
      ensures this.title == title && this.section == section
    {
      this.title, this.section := title, section;
    }

    /** A copy that shares no part with the original. */
    method DeepCopy() returns (copy: Packet)
      ensures fresh(copy.Parts()) && copy.Says() == Says()
    {
      var section := new Section(this.section.text);
      copy := new Packet(title, section);
    }
  }

  /** Why a `get` missed: the labels "empty" and "expired". */
  datatype MissReason = NothingStored | TooOld

  type Slots = seq<Item<Packet>>

  /** The entries that the stored objects spell out. */
  ghost predicate Mirrors(slots: Slots, items: seq<Item<Payload>>)
    reads set slot, o | slot in slots && o in slot.body.Parts() :: o
  {
    && |slots| == |items|
    && forall i :: 0 <= i < |slots| ==>
         items[i] == View(slots[i])
  }

  /** What an entry object spells out. */
  ghost function View(slot: Item<Packet>): Item<Payload>
    reads slot.body.Parts()
  {
    Item(slot.key, slot.project, slot.body.Says(), slot.cachedAt)
  }

  class PacketCache {
    const settings: Settings
    var slots: Slots
    var hits: nat
    var misses: nat
    var missReasons: map<MissReason, nat>
    var invalidations: nat
    ghost var items: seq<Item<Payload>>
    ghost var history: History

    /** Every object that makes up a stored payload. */
    ghost function Owned(): set<object>
      reads this
    {
      set slot, o | slot in slots && o in slot.body.Parts() :: o
    }

    /** The stored objects spell out `items`, and both miss reasons are counted. */
    ghost predicate Sound()
      reads this, Owned()
    {
      Mirrors(slots, items) && missReasons.Keys == {NothingStored, TooOld}
    }

    ghost function State(): Cache
      requires missReasons.Keys == {NothingStored, TooOld}
      reads this
    {
      Cache(items, hits, misses, missReasons[NothingStored], missReasons[TooOld], invalidations)
    }

    /** The objects and counters are those of the state that the history leads to. */
    ghost predicate Valid()
      reads this, Owned()
    {
      settings.maxEntries >= 1 && Sound() && Run(settings, history) == State()
    }

    constructor (maxEntries: nat, ttl: real)
      requires maxEntries >= 1
      ensures Valid() && history == [] && Owned() == {} && settings == Settings(maxEntries, ttl)
    {
      settings := Settings(maxEntries, ttl);
      slots, hits, misses, missReasons, invalidations := [], 0, 0, map[NothingStored := 0, TooOld := 0], 0;
      items, history := [], [];
    }

    /** Drops `key` and, when given, appends its replacement as the newest entry. */
    method Replace(key: Key, newest: Option<Item<Packet>>)
      requires Mirrors(slots, items)
      modifies this`slots, this`items
      ensures Mirrors(slots, items)
      ensures items == Without(old(items), ByKeys({key})) + if newest.Some? then [View(newest.value)] else []
      ensures Owned() <= old(Owned()) + if newest.Some? then newest.value.body.Parts() else {}
    {
      MirrorsWithout(slots, items, ByKeys({key}));
      WithoutMembers(slots, ByKeys({key}));
      slots, items := Without(slots, ByKeys({key})), Without(items, ByKeys({key}));
      if newest.Some? {
        slots, items := slots + [newest.value], items + [View(newest.value)];
      }
    }

    /** Pops from the oldest end until the cache fits its capacity. */
    method Evict()
      requires Mirrors(slots, items)
      modifies this`slots, this`items
      ensures Mirrors(slots, items) && items == Newest(settings, old(items))
      ensures Owned() <= old(Owned())
    {
      var n := |slots|;
      while |slots| > settings.maxEntries
        invariant |slots| == |items| <= n && (|slots| == n || |slots| >= settings.maxEntries)
        invariant slots == old(slots)[n - |slots|..] && items == old(items)[n - |slots|..]
      {
        slots, items := slots[1..], items[1..];
      }
      assert forall i :: 0 <= i < |slots| ==>
          slots[i] == old(slots)[n - |slots| + i] && items[i] == old(items)[n - |slots| + i];
    }

    /** Stores a copy of the payload as the newest entry and evicts from the oldest end. */
    method Put(key: Key, project: Option<int>, payload: Packet, now: real)
      requires Valid()
      modifies this
      ensures Valid() && history == old(history) + [Event.Put(key, project, payload.Says(), now)]
      ensures fresh(Owned() - old(Owned()))
    {
      var copy := payload.DeepCopy();
      Store(Item(key, project, copy, now));
      RunAppend(settings, history, Event.Put(key, project, payload.Says(), now));
      history := history + [Event.Put(key, project, payload.Says(), now)];
    }

    method Store(item: Item<Packet>)
      requires Sound()
      modifies this`slots, this`items
      ensures Sound() && Owned() <= old(Owned()) + item.body.Parts()
      ensures State() == Step(settings, old(State()),
          Event.Put(item.key, item.project, item.body.Says(), item.cachedAt))
    {
      Replace(item.key, Some(item));
      Evict();
    }

    /** Answers with a fresh copy of the entry and makes it the newest, or records why it missed. */
    method Get(key: Key, now: real) returns (payload: Packet?)
      requires Valid()
      modifies this
      ensures Valid() && history == old(history) + [Event.Get(key, now)] && Owned() <= old(Owned())
      ensures payload != null ==> fresh(payload.Parts())
      ensures Answer(settings, old(Run(settings, history)), key, now)
           == if payload == null then None else Some(payload.Says())
    {
      payload := Fetch(key, now);
      assert Sound();
      RunAppend(settings, history, Event.Get(key, now));
      history := history + [Event.Get(key, now)];
    }

    method Fetch(key: Key, now: real) returns (payload: Packet?)
      requires Sound()
      modifies this`slots, this`items, this`hits, this`misses, this`missReasons
      ensures Sound() && State() == Step(settings, old(State()), Event.Get(key, now)) && Owned() <= old(Owned())
      ensures payload != null ==> fresh(payload.Parts())
      ensures Answer(settings, old(State()), key, now) == if payload == null then None else Some(payload.Says())
    {
      var slot := Live(key, now);
      if slot.None? {
        return null;
      }
      assert Answer(settings, old(State()), key, now) == Some(slot.value.body.Says());
      Replace(key, slot);
      hits := hits + 1;
      payload := slot.value.body.DeepCopy();
    }

    /** The unexpired entry for `key`; otherwise the miss is recorded and an expired entry dropped. */
    method Live(key: Key, now: real) returns (slot: Option<Item<Packet>>)
      requires Sound()
      modifies this`slots, this`items, this`misses, this`missReasons
      ensures Sound() && Owned() <= old(Owned())
      ensures slot.None? ==> State() == Step(settings, old(State()), Event.Get(key, now))
                             && Answer(settings, old(State()), key, now) == None
      ensures slot.Some? ==> State() == old(State()) && slots == old(slots) && Find(items, key) < |items|
                             && slot.value == slots[Find(items, key)] && !Expired(settings, slot.value, now)
    {
      var i := Find(slots, key);
      MirrorsFind(slots, items, key);
      if i == |slots| {
        RecordMiss(NothingStored);
        return None;
      }
      if Expired(settings, slots[i], now) {
        Replace(key, None);
        RecordMiss(TooOld);
        return None;
      }
      return Some(slots[i]);
    }

    method RecordMiss(reason: MissReason)
      requires missReasons.Keys == {NothingStored, TooOld} && reason in missReasons
      modifies this`misses, this`missReasons
      ensures missReasons.Keys == {NothingStored, TooOld}
      ensures State() == var before := old(State());
                         if reason == NothingStored
                         then before.(misses := before.misses + 1, emptyMisses := before.emptyMisses + 1)
                         else before.(misses := before.misses + 1, expiredMisses := before.expiredMisses + 1)
    {
      misses := misses + 1;
      missReasons := missReasons[reason := missReasons[reason] + 1];
    }

    /** Tells whether a live entry is there; an expired one is dropped without counting as a miss. */
    method HasCached(key: Key, now: real) returns (cached: bool)
      requires Valid()
      modifies this
      ensures Valid() && history == old(history) + [Event.HasCached(key, now)] && Owned() <= old(Owned())
      ensures cached <==> Answer(settings, old(Run(settings, history)), key, now).Some?
    {
      var i := Find(slots, key);
      MirrorsFind(slots, items, key);
      RunAppend(settings, history, Event.HasCached(key, now));
      history := history + [Event.HasCached(key, now)];
      if i == |slots| {
        return false;
      }
      if Expired(settings, slots[i], now) {
        Replace(key, None);
        return false;
      }
      return true;
    }

    /** Drops what the notice covers and reports how many entries that was. */
    method HandleInvalidation(notice: Notice, parse: string -> Option<int>, now: real) returns (removed: nat)
      requires Valid()
      modifies this
      ensures Valid() && history == old(history) + [Event.Invalidate(ScopeOf(notice, parse), now)]
      ensures Owned() <= old(Owned())
      ensures removed == |old(items)| - |items|
    {
      var scope := ScopeOf(notice, parse);
      if scope == Everything {
        removed := InvalidateAll();
      } else {
        removed := InvalidateProject(scope.project);
      }
      assert Mirrors(slots, items) && items == Without(old(items), ByScope(scope));
      RunAppend(settings, history, Event.Invalidate(scope, now));
      history := history + [Event.Invalidate(scope, now)];
    }

    method InvalidateAll() returns (removed: nat)
      requires Valid()
      modifies this`slots, this`items, this`invalidations
      ensures slots == [] && items == [] == Without(old(items), ByScope(Everything))
      ensures removed == |old(items)| && invalidations == old(invalidations) + removed
    {
      EverythingGoes(items);
      removed := |slots|;
      slots, items := [], [];
      if removed != 0 {
        invalidations := invalidations + removed;
      }
    }

    method InvalidateProject(project: int) returns (removed: nat)
      requires Valid()
      modifies this`slots, this`items, this`invalidations
      ensures Mirrors(slots, items) && Owned() <= old(Owned())
      ensures items == Without(old(items), ByScope(OfProject(project)))
      ensures removed == |old(items)| - |items| && invalidations == old(invalidations) + removed
    {
      AlwaysDistinct(settings, history);
      var keys := KeysOfProject(slots, project);
      MirrorsKeys(slots, items, project);
      ProjectKeys(items, items, project);
      NothingGoes(items);
      assert KeySet(keys[..0]) == {};
      for i := 0 to |keys|
        invariant Mirrors(slots, items)
        invariant Owned() <= old(Owned()) && invalidations == old(invalidations)
        invariant items == Without(old(items), ByKeys(KeySet(keys[..i])))
      {
        WithoutTwice(old(items), KeySet(keys[..i]), keys[i]);
        assert KeySet(keys[..i + 1]) == KeySet(keys[..i]) + {keys[i]};
        Replace(keys[i], None);
      }
      assert keys[..|keys|] == keys;
      removed := |keys|;
      if keys != [] {
        invalidations := invalidations + removed;
      }
    }
  }

  // ----- objects and their contents

  lemma {:induction false} MirrorsWithout(slots: Slots, items: seq<Item<Payload>>, d: Drop)
    requires Mirrors(slots, items)
    ensures Mirrors(Without(slots, d), Without(items, d))
  {
    if slots == [] {
    } else {
      assert forall i :: 1 <= i < |slots| ==> slots[1..][i - 1] == slots[i] && items[1..][i - 1] == items[i];
      MirrorsWithout(slots[1..], items[1..], d);
    }
  }

  lemma {:induction false} MirrorsFind(slots: Slots, items: seq<Item<Payload>>, key: Key)
    requires Mirrors(slots, items)
    ensures Find(slots, key) == Find(items, key)
  {
    if slots == [] {
    } else {
      assert forall i :: 1 <= i < |slots| ==> slots[1..][i - 1] == slots[i] && items[1..][i - 1] == items[i];
      MirrorsFind(slots[1..], items[1..], key);
    }
  }

  ghost function KeySet(keys: seq<Key>): set<Key> {
    set k | k in keys
  }

  function KeysOfProject<B>(items: seq<Item<B>>, project: int): (keys: seq<Key>) {
    if items == [] then []
    else if items[0].project == Some(project) then [items[0].key] + KeysOfProject(items[1..], project)
    else KeysOfProject(items[1..], project)
  }

  lemma {:induction false} MirrorsKeys(slots: Slots, items: seq<Item<Payload>>, project: int)
    requires Mirrors(slots, items)
    ensures KeysOfProject(slots, project) == KeysOfProject(items, project)
  {
    if slots == [] {
    } else {
      assert forall i :: 1 <= i < |slots| ==> slots[1..][i - 1] == slots[i] && items[1..][i - 1] == items[i];
      MirrorsKeys(slots[1..], items[1..], project);
    }
  }

  lemma {:induction false} EverythingGoes(items: seq<Item<Payload>>)
    ensures Without(items, ByScope(Everything)) == []
  {
    if items == [] {
    } else {
      EverythingGoes(items[1..]);
    }
  }

  lemma {:induction false} NothingGoes(items: seq<Item<Payload>>)
    ensures Without(items, ByKeys({})) == items
  {
    if items == [] {
    } else {
      NothingGoes(items[1..]);
    }
  }

  /** Dropping the collected keys one by one drops exactly the entries of the project. */
  lemma {:induction false} ProjectKeys(all: seq<Item<Payload>>, items: seq<Item<Payload>>, project: int)
    requires Distinct(all) && forall i :: 0 <= i < |items| ==> items[i] in all
    ensures Without(items, ByKeys(KeySet(KeysOfProject(all, project)))) == Without(items, ByScope(OfProject(project)))
    ensures |KeysOfProject(items, project)| == |items| - |Without(items, ByScope(OfProject(project)))|
  {
    if items == [] {
    } else {
      ProjectKeys(all, items[1..], project);
      KeyOfProject(all, items[0], project);
    }
  }

  lemma {:induction false} KeyOfProject(all: seq<Item<Payload>>, item: Item<Payload>, project: int)
    requires Distinct(all) && item in all
    ensures item.key in KeysOfProject(all, project) <==> item.project == Some(project)
  {
    if all[0] == item {
      NoKeyOfProject(all[1..], item.key, project);
    } else {
      assert item in all[1..];
      KeyOfProject(all[1..], item, project);
    }
  }

  lemma {:induction false} NoKeyOfProject(items: seq<Item<Payload>>, key: Key, project: int)
    requires forall i :: 0 <= i < |items| ==> items[i].key != key
    ensures key !in KeysOfProject(items, project)
  {
    if items == [] {
    } else {
      NoKeyOfProject(items[1..], key, project);
    }
  }

  // ----- notices

  /** A notification as the handler receives it: an object, or text that may not decode. */
  datatype Notice = Message(fields: map<string, Json>) | Encoded(decoded: Option<Json>)

  function Normalize(notice: Notice): map<string, Json> {
    match notice
    case Message(fields) => fields
    case Encoded(None) => map["invalidate_all" := Bool(true), "reason" := Text("invalid-json")]
    case Encoded(Some(value)) => if value.Object? then value.fields else map[]
  }

  /** Which entries a notice covers; anything that names no project covers them all. */
  function ScopeOf(notice: Notice, parse: string -> Option<int>): Scope {
    var fields := Normalize(notice);
    var project := Field(fields, "project_id");
    if Truthy(Field(fields, "invalidate_all")) || !project.Text? then Everything
    else
      match parse(project.text)
      case Some(id) => OfProject(id)
      case None => Everything
  }

  /** A row whose write is announced (apps/api/src/agenticqueue_api/packet_invalidation.py). */
  datatype Target =
    | TaskRow(project: int)
    | DecisionRow(task: int)
    | LearningRow(owner: Option<int>)
    | EdgeRow(srcIsTask: bool, src: int, dstIsTask: bool, dst: int)
    | GrantRow(scope: map<string, Json>)
    | PolicyRow
    | OtherRow

  function ProjectOfTask(projects: map<int, int>, task: Option<int>): Option<int> {
    if task.Some? && task.value in projects then Some(projects[task.value]) else None
  }

  /** The project that a write concerns; none when the row does not tell. */
  function ProjectOf(projects: map<int, int>, target: Target, parse: string -> Option<int>): Option<int> {
    match target
    case TaskRow(project) => Some(project)
    case DecisionRow(task) => ProjectOfTask(projects, Some(task))
    case LearningRow(owner) => ProjectOfTask(projects, owner)
    case EdgeRow(srcIsTask, src, dstIsTask, dst) =>
      ProjectOfTask(projects, if srcIsTask then Some(src) else if dstIsTask then Some(dst) else None)
    case GrantRow(scope) =>
      var project := Field(scope, "project_id");
      if project.Text? then parse(project.text) else None
    case _ => None
  }

  function PayloadForTarget(projects: map<int, int>, target: Target, show: int -> string, parse: string -> Option<int>)
    : Option<map<string, Json>>
  {
    if target.OtherRow? then None
    else
      var project := ProjectOf(projects, target, parse);
      Some(map["project_id" := if project.Some? then Text(show(project.value)) else Null,
               "invalidate_all" := Bool(project.None?)])
  }

  /** Publishing a write and handling its notice, as an object or as decoded text, agree on the scope. */
  lemma NoticeRoundTrip(projects: map<int, int>, target: Target, show: int -> string, parse: string -> Option<int>)
    requires forall id :: parse(show(id)) == Some(id)
    requires !target.OtherRow?
    ensures var payload := PayloadForTarget(projects, target, show, parse).value;
            var project := ProjectOf(projects, target, parse);
            var scope := if project.Some? then OfProject(project.value) else Everything;
            ScopeOf(Message(payload), parse) == scope == ScopeOf(Encoded(Some(Object(payload))), parse)
  {
  }

  /** Exactly which entries the notice of a write covers, kind of row by kind of row: those of the project the row
      belongs to, and every entry where the row does not tell. Rows of other kinds send no notice. */
  lemma NoticeCovers(projects: map<int, int>, target: Target, show: int -> string, parse: string -> Option<int>,
                     entry: Option<int>)
    requires forall id :: parse(show(id)) == Some(id)
    ensures PayloadForTarget(projects, target, show, parse) == None <==> target == OtherRow
    ensures target != OtherRow ==>
              var payload := PayloadForTarget(projects, target, show, parse).value;
              var covered := Covers(ScopeOf(Message(payload), parse), entry);
              match target
              case TaskRow(project) => covered <==> entry == Some(project)
              case DecisionRow(task) => covered <==> (task in projects ==> entry == Some(projects[task]))
              case LearningRow(None) => covered
              case LearningRow(Some(task)) => covered <==> (task in projects ==> entry == Some(projects[task]))
              case EdgeRow(true, src, _, _) => covered <==> (src in projects ==> entry == Some(projects[src]))
              case EdgeRow(false, _, true, dst) => covered <==> (dst in projects ==> entry == Some(projects[dst]))
              case EdgeRow(false, _, false, _) => covered
              case GrantRow(scope) =>
                covered
                <==> ("project_id" in scope && scope["project_id"].Text? && parse(scope["project_id"].text).Some? ==>
                  entry == parse(scope["project_id"].text))
              case _ => covered
  {
    if target != OtherRow { NoticeRoundTrip(projects, target, show, parse); }
  }

  /** A notice narrows the entries to one project only when it says which and does not ask for all of them; text that
      does not decode, and anything else that names no project, covers every entry. */
  lemma NoticeNarrowsIff(notice: Notice, parse: string -> Option<int>, project: int)
    ensures ScopeOf(notice, parse) == OfProject(project)
       <==> && (notice.Message? || (notice.decoded.Some? && notice.decoded.value.Object?))
            && var fields := if notice.Message? then notice.fields else notice.decoded.value.fields;
               && "project_id" in fields && fields["project_id"].Text?
               && parse(fields["project_id"].text) == Some(project)
               && ("invalidate_all" in fields ==> !Truthy(fields["invalidate_all"]))
  {
  }

  /** A dependency edge between tasks of two projects refreshes the packets of the depending side only: the
      other side's packets are covered exactly when its project is the same, or the depending task is unknown. */
  lemma EdgeCoversTarget(projects: map<int, int>, src: int, dst: int, show: int -> string, parse: string -> Option<int>)
    requires forall id :: parse(show(id)) == Some(id)
    requires dst in projects
    ensures var payload := PayloadForTarget(projects, EdgeRow(true, src, true, dst), show, parse).value;
            Covers(ScopeOf(Message(payload), parse), Some(projects[dst]))
            <==> src !in projects || projects[src] == projects[dst]
  {
  }

  // ----- a caller's view

  /** Changes every part of a payload that is not the cache's own; the cache does not notice. */
  method Overwrite(cache: PacketCache, payload: Packet, edit: string)
    requires cache.Valid() && cache !in payload.Parts() && payload.Parts() !! cache.Owned()
    modifies payload.Parts()
    ensures payload.Says() == Payload(edit, edit)
    ensures cache.Valid() && cache.history == old(cache.history) && cache.Owned() == old(cache.Owned())
  {
    payload.title := edit;
    payload.section.text := edit;
  }

  /** Changing the payload after `put`, at the top or in its nested part, does not change what `get` returns. */
  method PutKeepsItsOwnCopy(cache: PacketCache, key: Key, project: Option<int>, payload: Packet, edit: string,
                            now: real)
    returns (got: Packet?)
    requires cache.Valid() && cache.settings.ttl > 0.0 && payload.Parts() !! cache.Owned()
    modifies cache, payload.Parts()
    ensures got != null && got.Says() == old(payload.Says())
  {
    ghost var event := Event.Put(key, project, payload.Says(), now);
    cache.Put(key, project, payload, now);
    Overwrite(cache, payload, edit);
    AnsweredAfterPut(cache.settings, old(cache.history), event);
    got := cache.Get(key, now);
  }

  /** Changing what `get` handed out, at the top or in its nested part, does not change what a later `get` returns. */
  method GetHandsOutACopy(cache: PacketCache, key: Key, edit: string, now: real)
    returns (first: Packet?, second: Packet?)
    requires cache.Valid()
    modifies cache
    ensures first != null ==> second != null && second.Parts() !! first.Parts() && first.Says() == Payload(edit, edit)
    ensures Answer(cache.settings, old(Run(cache.settings, cache.history)), key, now)
         == if first == null then None else Some(second.Says())
  {
    first := cache.Get(key, now);
    second := null;
    if first != null {
      AnsweredAgain(cache.settings, old(cache.history), Event.Get(key, now));
      second := OverwriteAndGet(cache, first, key, edit, now);
    }
  }

  /** Overwrites a payload that is not the cache's own, then asks the cache again. */
  method OverwriteAndGet(cache: PacketCache, payload: Packet, key: Key, edit: string, now: real) returns (next: Packet?)
    requires cache.Valid() && payload.Parts() !! cache.Owned()
    modifies cache, payload.Parts()
    ensures cache.Valid() && payload.Says() == Payload(edit, edit)
    ensures next != null ==> fresh(next.Parts())
    ensures Answer(cache.settings, old(Run(cache.settings, cache.history)), key, now)
         == if next == null then None else Some(next.Says())
  {
    Overwrite(cache, payload, edit);
    next := cache.Get(key, now);
  }

  lemma AnsweredAfterPut(s: Settings, h: History, e: Event)
    requires s.maxEntries >= 1 && s.ttl > 0.0 && e.Put?
    ensures Answer(s, Run(s, h + [e]), e.key, e.at) == Some(e.content)
  {
    PutIsThere(s, h + [e]);
    EntryOf(s, h + [e], e.key);
  }

  /** A hit leaves the same answer for the same instant. */
  lemma AnsweredAgain(s: Settings, h: History, e: Event)
    requires s.maxEntries >= 1 && e.Get? && Answer(s, Run(s, h), e.key, e.at).Some?
    ensures Answer(s, Run(s, h + [e]), e.key, e.at) == Answer(s, Run(s, h), e.key, e.at)
  {
    RunAppend(s, h, e);
    AlwaysDistinct(s, h);
    var items := Run(s, h).items;
    var item := items[Find(items, e.key)];
    var moved := Without(items, ByKeys({e.key})) + [item];
    WithoutKey(items, e.key);
    WithoutDistinct(items, ByKeys({e.key}));
    KeysAppend(Without(items, ByKeys({e.key})), item);
    MovedDistinct(items, item);
    assert moved[|moved| - 1] == item;
  }
}
