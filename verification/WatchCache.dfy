/** Folding watch events into the console's cached list. */
module WatchCache {
  import opened Prelude

  /** The metadata the cache looks at; an absent field is `None`. */
  datatype Object = Object(uid: Option<string>, key: Key, resourceVersion: Option<string>, body: string)

  datatype Key = Key(namespace: Option<string>, name: Option<string>)

  datatype Kind = Added | Modified | Deleted | Bookmark | Error

  datatype Event = Event(kind: Kind, obj: Object)

  /** How the hook recognises a cached item: the same uid, or the same
      namespace and name; two absent uids count as the same. */
  predicate Same(a: Object, b: Object) {
    a.uid == b.uid || a.key == b.key
  }

  /** `findIndex`; the length stands for "not found". */
  function Find(items: seq<Object>, o: Object): (i: nat)
    ensures i <= |items| && (i < |items| ==> Same(items[i], o)) && forall j | 0 <= j < i :: !Same(items[j], o)
  {
    if items == [] || Same(items[0], o) then 0 else 1 + Find(items[1..], o)
  }

  function OnEvent(items: seq<Object>, e: Event): seq<Object> {
    var i := Find(items, e.obj);
    match e.kind
    case Added => if i == |items| then items + [e.obj] else items[i := e.obj]
    case Modified => if i == |items| then items + [e.obj] else items[i := e.obj]
    case Deleted => if i == |items| then items else items[..i] + items[i + 1..]
    case Bookmark => items
    case Error => items
  }

  /** The cached query result; `None` before the first list. */
  class Cache {
    var list: Option<seq<Object>>
    var resourceVersion: string

    constructor (list: Option<seq<Object>>, resourceVersion: string)
      ensures this.list == list && this.resourceVersion == resourceVersion
    {
      this.list := list;
      this.resourceVersion := resourceVersion;
    }

    /** `handleEvent` */
    method HandleEvent(e: Event)
      modifies this
      ensures list == if old(list).None? then None else Some(OnEvent(old(list).value, e))
      ensures resourceVersion ==
              if e.kind.Bookmark? || old(list).None? || e.obj.resourceVersion.None? then old(resourceVersion)
              else e.obj.resourceVersion.value
    {
      if e.kind.Bookmark? || list.None? {
        return;
      }
      var items := list.value;
      var idx := 0;
      while idx < |items| && !Same(items[idx], e.obj)
        invariant 0 <= idx <= |items|
        invariant Find(items, e.obj) == idx + Find(items[idx..], e.obj)
      {
        assert items[idx..][1..] == items[idx + 1..];
        idx := idx + 1;
      }
      match e.kind {
        case Added =>
          if idx == |items| { items := items + [e.obj]; } else { items := items[idx := e.obj]; }
        case Modified =>
          if idx != |items| { items := items[idx := e.obj]; } else { items := items + [e.obj]; }
        case Deleted =>
          if idx != |items| { items := items[..idx] + items[idx + 1..]; }
        case Error =>
      }
      list := Some(items);
      if e.obj.resourceVersion.Some? {
        resourceVersion := e.obj.resourceVersion.value;
      }
    }
  }

  // ---------------------------------------------------------- the meaning

  ghost predicate UniqueKeys(items: seq<Object>) {
    forall i, j | 0 <= i < j < |items| :: items[i].key != items[j].key
  }

  /** The list as a map from (namespace, name). */
  function View(items: seq<Object>): map<Key, Object> {
    if items == [] then map[] else View(items[..|items| - 1])[items[|items| - 1].key := items[|items| - 1]]
  }

  lemma {:induction false} ViewKeys(items: seq<Object>, k: Key)
    ensures k in View(items) <==> exists i :: 0 <= i < |items| && items[i].key == k
  {
    if items != [] {
      var init := items[..|items| - 1];
      ViewKeys(init, k);
      if i :| 0 <= i < |items| && items[i].key == k && i < |init| {
        assert init[i].key == k;
      }
      if i :| 0 <= i < |init| && init[i].key == k {
        assert items[i].key == k;
      }
    }
  }

  lemma {:induction false} ViewReplace(items: seq<Object>, i: nat, o: Object)
    requires UniqueKeys(items) && i < |items| && items[i].key == o.key
    ensures View(items[i := o]) == View(items)[o.key := o]
  {
    var init, last := items[..|items| - 1], |items| - 1;
    var after := items[i := o];
    if i == last {
      assert after[..last] == init;
    } else {
      assert after[..last] == init[i := o] && after[last] == items[last];
      ViewReplace(init, i, o);
    }
  }

  lemma RemovePut<K, V>(m: map<K, V>, a: K, b: K, v: V)
    ensures a != b ==> (m - {a})[b := v] == m[b := v] - {a}
    ensures a !in m ==> m[a := v] - {a} == m
  {
  }

  lemma {:induction false} ViewRemove(items: seq<Object>, i: nat)
    requires UniqueKeys(items) && i < |items|
    ensures View(items[..i] + items[i + 1..]) == View(items) - {items[i].key}
  {
    var init, last := items[..|items| - 1], items[|items| - 1];
    var after := items[..i] + items[i + 1..];
    RemovePut(View(init), items[i].key, last.key, last);
    if i == |init| {
      assert after == init;
      ViewKeys(init, last.key);
    } else {
      var rest := init[..i] + init[i + 1..];
      assert after == rest + [last];
      ViewAppend(rest, last);
      ViewRemove(init, i);
    }
  }

  /** What an event means for the map. */
  function Meant(m: map<Key, Object>, e: Event): map<Key, Object> {
    match e.kind
    case Added => m[e.obj.key := e.obj]
    case Modified => m[e.obj.key := e.obj]
    case Deleted => m - {e.obj.key}
    case Bookmark => m
    case Error => m
  }

  predicate Edits(e: Event) {
    e.kind.Added? || e.kind.Modified? || e.kind.Deleted?
  }

  /** The item an event is taken to be about has the event's own key. */
  predicate Aimed(items: seq<Object>, e: Event) {
    Edits(e) ==> var i := Find(items, e.obj); i < |items| ==> items[i].key == e.obj.key
  }

  lemma AimedUnique(items: seq<Object>, e: Event)
    requires UniqueKeys(items) && Aimed(items, e)
    ensures UniqueKeys(OnEvent(items, e))
  {
    var i, after := Find(items, e.obj), OnEvent(items, e);
    if e.kind.Deleted? && i < |items| {
      assert forall j | 0 <= j < |after| :: after[j] == if j < i then items[j] else items[j + 1];
    }
  }

  lemma {:induction false} ViewAppend(items: seq<Object>, o: Object)
    ensures View(items + [o]) == View(items)[o.key := o]
  {
    assert (items + [o])[..|items|] == items;
  }

  lemma {:induction false} ViewMissing(items: seq<Object>, o: Object)
    requires Find(items, o) == |items|
    ensures View(items) - {o.key} == View(items)
  {
    ViewKeys(items, o.key);
  }

  lemma {:induction false} AimedMeans(items: seq<Object>, e: Event)
    requires UniqueKeys(items) && Aimed(items, e)
    ensures View(OnEvent(items, e)) == Meant(View(items), e)
  {
    var i := Find(items, e.obj);
    if Edits(e) {
      if i == |items| {
        if e.kind.Deleted? { ViewMissing(items, e.obj); } else { ViewAppend(items, e.obj); }
      } else {
        if e.kind.Deleted? { ViewRemove(items, i); } else { ViewReplace(items, i, e.obj); }
      }
    }
  }

  /** An event does what it means exactly when it finds an item of its own key
      or none at all. */
  lemma {:induction false} EventMeansExactly(items: seq<Object>, e: Event)
    requires UniqueKeys(items)
    ensures View(OnEvent(items, e)) == Meant(View(items), e) <==> Aimed(items, e)
  {
    if Aimed(items, e) {
      AimedMeans(items, e);
    } else {
      var i := Find(items, e.obj);
      var lost := items[i].key;
      ViewKeys(items, lost);
      ViewKeys(OnEvent(items, e), lost);
      assert lost in Meant(View(items), e);
    }
  }

  /** Uids determine the namespace and name, across the list and the events. */
  ghost predicate UidsIdentify(objects: seq<Object>) {
    forall i, j | 0 <= i < |objects| && 0 <= j < |objects| && objects[i].uid == objects[j].uid :: objects[i].key == objects[j].key
  }

  /** The objects of the events that edit the list; what a bookmark or an error
      carries, mostly no uid at all, is not among them. */
  function EditObjects(events: seq<Event>): seq<Object> {
    if events == [] then [] else (if Edits(events[0]) then [events[0].obj] else []) + EditObjects(events[1..])
  }

  function OnEvents(items: seq<Object>, events: seq<Event>): seq<Object>
    decreases |events|
  {
    if events == [] then items else OnEvents(OnEvent(items, events[0]), events[1..])
  }

  function MeantAll(m: map<Key, Object>, events: seq<Event>): map<Key, Object>
    decreases |events|
  {
    if events == [] then m else MeantAll(Meant(m, events[0]), events[1..])
  }

  lemma {:induction false} IdentifiedIsAimed(items: seq<Object>, events: seq<Event>)
    requires events != [] && UidsIdentify(items + EditObjects(events))
    ensures Aimed(items, events[0])
  {
    var all, i := items + EditObjects(events), Find(items, events[0].obj);
    assert i < |items| ==> all[i] == items[i];
    assert Edits(events[0]) ==> all[|items|] == events[0].obj;
  }

  lemma EventKeeps(items: seq<Object>, e: Event, k: nat)
    requires k < |OnEvent(items, e)|
    ensures OnEvent(items, e)[k] in items || (Edits(e) && OnEvent(items, e)[k] == e.obj)
  {
  }

  /** The objects in play after an event are among those in play before it. */
  lemma {:induction false} IdentifiedStays(items: seq<Object>, events: seq<Event>)
    requires events != [] && UidsIdentify(items + EditObjects(events))
    ensures UidsIdentify(OnEvent(items, events[0]) + EditObjects(events[1..]))
  {
    var next := OnEvent(items, events[0]);
    var before, after := items + EditObjects(events), next + EditObjects(events[1..]);
    forall k | 0 <= k < |after| ensures after[k] in before {
      if k < |next| {
        EventKeeps(items, events[0], k);
      } else {
        assert after[k] == EditObjects(events[1..])[k - |next|];
        assert after[k] in EditObjects(events);
      }
    }
  }

  /** Folding any events into a list with unique keys keeps the keys unique and
      gives the map where ADDED and MODIFIED put, DELETED removes, and
      bookmarks and errors change nothing. */
  lemma {:induction false} FoldMeans(items: seq<Object>, events: seq<Event>)
    requires UniqueKeys(items) && UidsIdentify(items + EditObjects(events))
    ensures UniqueKeys(OnEvents(items, events))
    ensures View(OnEvents(items, events)) == MeantAll(View(items), events)
    decreases |events|
  {
    if events != [] {
      IdentifiedIsAimed(items, events);
      AimedUnique(items, events[0]);
      AimedMeans(items, events[0]);
      IdentifiedStays(items, events);
      FoldMeans(OnEvent(items, events[0]), events[1..]);
    }
  }

  /** Absent uids all look alike: an object without one overwrites an unrelated
      item without one. */
  lemma AbsentUidsCollide()
    ensures var a := Object(None, Key(None, Some("a")), None, "");
            var b := Object(None, Key(None, Some("b")), None, "");
            OnEvent([a], Event(Added, b)) == [b]
  {
  }
}
