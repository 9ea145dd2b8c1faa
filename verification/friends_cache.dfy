/** The friends cache: a roster of friends whose records fill in piecemeal,
    a `ready` flag, and the added/updated/removed notifications it emits.
    Every operation is a pure transition from one cache to the next, paired
    with the notifications it fires, in order. */
module FriendsCache {
  import opened UserInfos
  import opened Roster

  /** The roster, in insertion order, and the cache-wide ready flag. */
  datatype Cache = Cache(entries: seq<Entry>, ready: bool)

  /** A newly constructed cache: empty, and not ready until the first
      mutation has been applied. */
  const Fresh: Cache := Cache([], false)

  /** One call of the added, updated or removed handler. */
  datatype Event =
    | Added(id: UserId, info: UserInfo)
    | Updated(id: UserId, info: UserInfo)
    | Removed(id: UserId)

  /** The cache after an operation, and the handler calls it made. */
  datatype Step = Step(cache: Cache, events: seq<Event>)

  datatype Error = UnknownUser(id: UserId)

  datatype Result<+T> = Ok(value: T) | Err(error: Error)

  /** The states the operations can reach: ids are unique, and the ready flag
      says whether every record is complete, except in a fresh cache, which
      is empty yet not ready. */
  predicate Valid(c: Cache) {
    Unique(c.entries) && (c == Fresh || c.ready == AllComplete(c.entries))
  }

  /** `id in cache`: the id is present, complete or not. */
  predicate Contains(c: Cache, id: UserId) {
    id in Ids(c.entries)
  }

  /** The cache holding `es`, with the ready flag recomputed, as every
      mutating operation leaves it. */
  function Settle(es: seq<Entry>): Cache {
    Cache(es, AllComplete(es))
  }

  /** Once anything has been applied, `ready` says exactly that every id in
      the cache has a complete record. */
  lemma ReadyByLookup(c: Cache)
    requires Valid(c) && c != Fresh
    ensures c.ready <==> forall x :: Contains(c, x) ==> Complete(Lookup(c.entries, x).value)
  {
    AllCompleteByLookup(c.entries);
  }

  /** `add(id)`: appends a blank record for a new id; an id already present
      keeps its record. No handler fires. */
  function Add(c: Cache, id: UserId): (s: Step)
    ensures Contains(s.cache, id)
    ensures forall x :: Contains(s.cache, x) <==> Contains(c, x) || x == id
    ensures Contains(c, id) ==> s.cache.entries == c.entries
    ensures !Contains(c, id) ==> s.cache.entries == c.entries + [Entry(id, Blank)]
    ensures s.cache.ready <==> Contains(c, id) && AllComplete(c.entries)
    ensures s.events == []
    ensures Valid(c) ==> Valid(s.cache)
  {
    if Contains(c, id) then
      Step(Settle(c.entries), [])
    else
      var es := c.entries + [Entry(id, Blank)];
      IdsAppend(c.entries, [Entry(id, Blank)]);
      assert !Complete(es[|es| - 1].info);
      assert Unique(c.entries) ==> Unique(es) by {
        if Unique(c.entries) {
          UniqueAppend(c.entries, [Entry(id, Blank)]);
        }
      }
      Step(Settle(es), [])
  }

  /** `update_info(id, partial)`: merges `partial` into the record of a
      present id. The added handler fires when the record becomes complete
      with this call; the updated handler fires when an already complete
      record changes. An absent id is an error. */
  function UpdateInfo(c: Cache, id: UserId, partial: UserInfo): (r: Result<Step>)
    ensures r.Err? <==> !Contains(c, id)
    ensures r.Err? ==> r.error == UnknownUser(id)
    ensures r.Ok? ==> Ids(r.value.cache.entries) == Ids(c.entries)
    ensures r.Ok? ==>
              Lookup(r.value.cache.entries, id) == Some(Merge(Lookup(c.entries, id).value, partial))
    ensures r.Ok? ==>
              forall x :: x != id ==> Lookup(r.value.cache.entries, x) == Lookup(c.entries, x)
    ensures r.Ok? ==> |r.value.events| <= 1
    ensures r.Ok? ==> forall e :: e in r.value.events ==> e.id == id && !e.Removed?
    ensures r.Ok? ==>
              var after := Merge(Lookup(c.entries, id).value, partial);
              forall e :: e in r.value.events ==> e == Added(id, after) || e == Updated(id, after)
    ensures r.Ok? ==>
              var before := Lookup(c.entries, id).value;
              var after := Merge(before, partial);
              Added(id, after) in r.value.events <==> !Complete(before) && Complete(after)
    ensures r.Ok? ==>
              var before := Lookup(c.entries, id).value;
              var after := Merge(before, partial);
              Updated(id, after) in r.value.events <==> Complete(before) && after != before
    ensures r.Ok? ==> r.value.cache.ready == AllComplete(r.value.cache.entries)
    ensures r.Ok? && Valid(c) ==> Valid(r.value.cache)
  {
    match Lookup(c.entries, id)
    case None => Err(UnknownUser(id))
    case Some(before) =>
      var after := Merge(before, partial);
      var events :=
        if !Complete(before) && Complete(after) then [Added(id, after)]
        else if Complete(before) && after != before then [Updated(id, after)]
        else [];
      Ok(Step(Settle(Put(c.entries, id, after)), events))
  }

  /** `remove(id)`: deletes the entry of `id`, if any. The removed handler
      fires only for a complete record, that is, only for a friend whose
      addition was announced. */
  function Remove(c: Cache, id: UserId): (s: Step)
    ensures !Contains(s.cache, id)
    ensures forall x :: x != id ==> (Contains(s.cache, x) <==> Contains(c, x))
    ensures forall x :: x != id ==> Lookup(s.cache.entries, x) == Lookup(c.entries, x)
    ensures !Contains(c, id) ==> s.cache.entries == c.entries
    ensures Removed(id) in s.events <==> Contains(c, id) && Complete(Lookup(c.entries, id).value)
    ensures forall e :: e in s.events ==> e == Removed(id)
    ensures |s.events| <= 1
    ensures s.cache.ready == AllComplete(s.cache.entries)
    ensures Valid(c) ==> Valid(s.cache)
    ensures Valid(c) && Contains(c, id) ==> |s.cache.entries| == |c.entries| - 1
    ensures Valid(c) && Contains(c, id) ==>
              exists i :: 0 <= i < |c.entries| && c.entries[i].id == id
                          && s.cache.entries == c.entries[..i] + c.entries[i + 1..]
  {
    assert Valid(c) && Contains(c, id) ==>
             exists i :: 0 <= i < |c.entries| && c.entries[i].id == id
                         && Without(c.entries, id) == c.entries[..i] + c.entries[i + 1..] by {
      if Valid(c) && Contains(c, id) {
        var i :| 0 <= i < |c.entries| && Ids(c.entries)[i] == id;
        WithoutAt(c.entries, i);
      }
    }
    var found := Lookup(c.entries, id);
    var events := if found.Some? && Complete(found.value) then [Removed(id)] else [];
    Step(Settle(Without(c.entries, id)), events)
  }

  /** The removed notifications a reset to `ids` fires: one per complete
      entry whose id the snapshot lacks, in roster order. */
  function Gone(es: seq<Entry>, ids: seq<UserId>): (r: seq<Event>)
    ensures forall e :: e in r ==> e.Removed? && e.id in Ids(es) && e.id !in ids
    ensures Unique(es) ==>
              forall x :: Removed(x) in r <==> x in Ids(es) && x !in ids && Complete(Lookup(es, x).value)
    ensures Unique(es) ==> forall i, j :: 0 <= i < j < |r| ==> r[i] != r[j]
  {
    if es == [] then []
    else
      var rest := Gone(es[1..], ids);
      if es[0].id !in ids && Complete(es[0].info) then [Removed(es[0].id)] + rest else rest
  }

  /** `reset(ids)`: resynchronises the roster with the authoritative list
      `ids`. Entries whose id the list lacks are removed as by `remove`;
      ids the roster lacks are appended blank, as by `add`; entries in both
      keep their records. */
  function Reset(c: Cache, ids: seq<UserId>): (s: Step)
    ensures forall x :: Contains(s.cache, x) <==> x in ids
    ensures forall x :: x in ids && Contains(c, x) ==> Lookup(s.cache.entries, x) == Lookup(c.entries, x)
    ensures forall x :: x in ids && !Contains(c, x) ==> Lookup(s.cache.entries, x) == Some(Blank)
    ensures forall e :: e in s.events ==> e.Removed? && Contains(c, e.id) && e.id !in ids
    ensures Unique(c.entries) ==>
              forall x :: Removed(x) in s.events <==>
                            Contains(c, x) && x !in ids && Complete(Lookup(c.entries, x).value)
    ensures Unique(c.entries) ==>
              forall i, j :: 0 <= i < j < |s.events| ==> s.events[i] != s.events[j]
    ensures s.cache.ready == AllComplete(s.cache.entries)
    ensures Valid(c) ==> Valid(s.cache)
  {
    var kept := Keep(c.entries, ids);
    var missing := NewIds(ids, Ids(kept));
    var es := kept + Blanks(missing);
    IdsAppend(kept, Blanks(missing));
    LookupAppendAll(kept, Blanks(missing));
    assert Unique(kept) ==> Unique(es) by {
      if Unique(kept) {
        UniqueAppend(kept, Blanks(missing));
      }
    }
    Step(Settle(es), Gone(c.entries, ids))
  }
}
