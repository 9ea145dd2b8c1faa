/** What an observer wired to the added, updated and removed handlers
    learns. The notifications are meant to let it mirror the cache: it is
    told about a friend once the friend's record is complete, told again
    when that record changes, and told when the friend leaves, and never
    about a friend it was not told had arrived. */
module Listener {
  import opened UserInfos
  import opened Roster
  import opened FriendsCache
  import opened ResetSteps

  /** The friends a listener has been told about, each with the last record
      it was given. */
  type View = map<UserId, UserInfo>

  /** The view a roster should have produced: its complete entries. */
  function Announced(es: seq<Entry>): View {
    map x | x in Ids(es) && Complete(Lookup(es, x).value) :: Lookup(es, x).value
  }

  /** One handler call as a listener hears it; `None` for a call that breaks
      the protocol: a second addition of an announced friend, or an update
      or removal of a friend never announced. */
  function Hear(v: View, e: Event): Option<View> {
    match e
    case Added(x, info) => if x in v then None else Some(v[x := info])
    case Updated(x, info) => if x in v then Some(v[x := info]) else None
    case Removed(x) => if x in v then Some(v - {x}) else None
  }

  /** A sequence of handler calls heard in order. */
  function HearAll(v: View, events: seq<Event>): Option<View>
    decreases |events|
  {
    if events == [] then Some(v)
    else
      match Hear(v, events[0])
      case None => None
      case Some(w) => HearAll(w, events[1..])
  }

  lemma {:induction false} HearAllAppend(v: View, a: seq<Event>, b: seq<Event>)
    ensures HearAll(v, a + b) == match HearAll(v, a) case None => None case Some(w) => HearAll(w, b)
    decreases |a|
  {
    if a == [] {
      assert a + b == b;
    } else {
      assert (a + b)[0] == a[0] && (a + b)[1..] == a[1..] + b;
      match Hear(v, a[0])
      case None =>
      case Some(w) => HearAllAppend(w, a[1..], b);
    }
  }

  /** Appending a blank entry for a new id announces nothing. */
  lemma AnnouncedAppendBlank(es: seq<Entry>, id: UserId)
    requires id !in Ids(es)
    ensures Announced(es + [Entry(id, Blank)]) == Announced(es)
  {
    var es' := es + [Entry(id, Blank)];
    IdsAppend(es, [Entry(id, Blank)]);
    assert Ids([Entry(id, Blank)]) == [id];
    forall x
      ensures x in Announced(es') <==> x in Announced(es)
      ensures x in Announced(es) ==> Announced(es')[x] == Announced(es)[x]
    {
      LookupAppend(es, [Entry(id, Blank)], x);
    }
  }

  /** A roster that differs from `es` only in holding the complete record
      `info` for `id` announces `info` for `id` and the rest as `es` does. */
  lemma AnnouncedSet(es: seq<Entry>, w: seq<Entry>, id: UserId, info: UserInfo)
    requires forall x :: x != id ==> Lookup(w, x) == Lookup(es, x)
    requires Lookup(w, id) == Some(info)
    requires Complete(info)
    ensures Announced(w) == Announced(es)[id := info]
  {
    var v := Announced(es)[id := info];
    forall x
      ensures x in Announced(w) <==> x in v
      ensures x in Announced(w) ==> Announced(w)[x] == v[x]
    {
    }
  }

  /** A roster that differs from `es` only in lacking `id`, or in holding an
      incomplete record for it, announces the rest as `es` does. */
  lemma AnnouncedDrop(es: seq<Entry>, w: seq<Entry>, id: UserId)
    requires forall x :: x != id ==> Lookup(w, x) == Lookup(es, x)
    requires Lookup(w, id).None? || !Complete(Lookup(w, id).value)
    ensures Announced(w) == Announced(es) - {id}
  {
    var v := Announced(es) - {id};
    forall x
      ensures x in Announced(w) <==> x in v
      ensures x in Announced(w) ==> Announced(w)[x] == v[x]
    {
    }
  }

  lemma HearOne(v: View, e: Event)
    ensures HearAll(v, [e]) == Hear(v, e)
  {
    assert [e][1..] == [];
  }

  lemma MapPutSame(v: View, k: UserId)
    requires k in v
    ensures v[k := v[k]] == v
  {
  }

  lemma MapRemoveAbsent(v: View, k: UserId)
    requires k !in v
    ensures v - {k} == v
  {
  }

  /** `add` announces nothing, and a blank record is nothing to announce. */
  lemma AddInSync(c: Cache, id: UserId)
    requires Valid(c)
    ensures HearAll(Announced(c.entries), Add(c, id).events) == Some(Announced(Add(c, id).cache.entries))
  {
    if id !in Ids(c.entries) {
      AnnouncedAppendBlank(c.entries, id);
    }
  }

  /** `update_info` tells the listener exactly what changed among the
      complete records. */
  lemma UpdateInSync(c: Cache, id: UserId, partial: UserInfo)
    requires Valid(c)
    requires UpdateInfo(c, id, partial).Ok?
    ensures var s := UpdateInfo(c, id, partial).value;
            HearAll(Announced(c.entries), s.events) == Some(Announced(s.cache.entries))
  {
    var s := UpdateInfo(c, id, partial).value;
    var v := Announced(c.entries);
    var before := Lookup(c.entries, id).value;
    var after := Merge(before, partial);
    if Complete(after) {
      AnnouncedSet(c.entries, s.cache.entries, id, after);
    } else {
      AnnouncedDrop(c.entries, s.cache.entries, id);
    }
    if !Complete(before) && Complete(after) {
      assert s.events == [Added(id, after)];
      assert id !in v;
      HearOne(v, Added(id, after));
    } else if Complete(before) && after != before {
      assert s.events == [Updated(id, after)];
      assert id in v;
      HearOne(v, Updated(id, after));
    } else if Complete(before) {
      assert s.events == [];
      assert id in v && v[id] == before;
      MapPutSame(v, id);
    } else {
      assert s.events == [];
      assert id !in v;
      MapRemoveAbsent(v, id);
    }
  }

  /** `remove` tells the listener of a departure exactly when the departing
      friend had been announced. */
  lemma RemoveInSync(c: Cache, id: UserId)
    requires Valid(c)
    ensures HearAll(Announced(c.entries), Remove(c, id).events) == Some(Announced(Remove(c, id).cache.entries))
  {
    var s := Remove(c, id);
    var v := Announced(c.entries);
    AnnouncedDrop(c.entries, s.cache.entries, id);
    if id in v {
      assert s.events == [Removed(id)];
      HearOne(v, Removed(id));
    } else {
      assert s.events == [];
      MapRemoveAbsent(v, id);
    }
  }

  lemma {:induction false} RemoveEachInSync(c: Cache, xs: seq<UserId>)
    requires Valid(c)
    ensures HearAll(Announced(c.entries), RemoveEach(c, xs).events) == Some(Announced(RemoveEach(c, xs).cache.entries))
    decreases |xs|
  {
    if xs != [] {
      var first := Remove(c, xs[0]);
      RemoveInSync(c, xs[0]);
      RemoveEachInSync(first.cache, xs[1..]);
      HearAllAppend(Announced(c.entries), first.events, RemoveEach(first.cache, xs[1..]).events);
    }
  }

  lemma {:induction false} AddEachInSync(c: Cache, xs: seq<UserId>)
    requires Valid(c)
    ensures HearAll(Announced(c.entries), AddEach(c, xs).events) == Some(Announced(AddEach(c, xs).cache.entries))
    decreases |xs|
  {
    if xs != [] {
      var first := Add(c, xs[0]);
      AddInSync(c, xs[0]);
      AddEachInSync(first.cache, xs[1..]);
    }
  }

  /** `reset` tells the listener of every announced friend the snapshot
      drops, and of nothing else. */
  lemma ResetInSync(c: Cache, ids: seq<UserId>)
    requires Valid(c)
    ensures HearAll(Announced(c.entries), Reset(c, ids).events) == Some(Announced(Reset(c, ids).cache.entries))
  {
    var removed := RemoveEach(c, Absent(c.entries, ids));
    var added := AddEach(removed.cache, ids);
    ResetIsRemovesThenAdds(c, ids);
    RemoveEachInSync(c, Absent(c.entries, ids));
    AddEachInSync(removed.cache, ids);
    HearAllAppend(Announced(c.entries), removed.events, added.events);
  }
}
