/** `reset` explained by the single-entry operations: resynchronising with a
    snapshot leaves the same roster, and fires the same notifications, as
    removing each id the snapshot lacks (in roster order) and then adding
    each id of the snapshot (in snapshot order). */
module ResetSteps {
  import opened UserInfos
  import opened Roster
  import opened FriendsCache

  /** `remove` applied to each id of `xs` in turn. */
  function RemoveEach(c: Cache, xs: seq<UserId>): (s: Step)
    ensures forall x :: Contains(s.cache, x) <==> Contains(c, x) && x !in xs
    ensures Valid(c) ==> Valid(s.cache)
    decreases |xs|
  {
    if xs == [] then Step(c, [])
    else
      var first := Remove(c, xs[0]);
      var rest := RemoveEach(first.cache, xs[1..]);
      Step(rest.cache, first.events + rest.events)
  }

  /** `add` applied to each id of `xs` in turn. */
  function AddEach(c: Cache, xs: seq<UserId>): (s: Step)
    ensures forall x :: Contains(s.cache, x) <==> Contains(c, x) || x in xs
    ensures s.events == []
    ensures Valid(c) ==> Valid(s.cache)
    decreases |xs|
  {
    if xs == [] then Step(c, [])
    else
      var first := Add(c, xs[0]);
      var rest := AddEach(first.cache, xs[1..]);
      Step(rest.cache, first.events + rest.events)
  }

  /** The ids of the entries the snapshot `ids` lacks, in roster order. */
  function Absent(es: seq<Entry>, ids: seq<UserId>): (r: seq<UserId>)
    ensures forall x :: x in r <==> x in Ids(es) && x !in ids
  {
    if es == [] then []
    else if es[0].id in ids then Absent(es[1..], ids)
    else [es[0].id] + Absent(es[1..], ids)
  }

  /** Removing an id a prefix lacks acts on the rest of the roster only. */
  lemma RemoveBehind(p: seq<Entry>, t: seq<Entry>, b: bool, b': bool, x: UserId)
    requires x !in Ids(p)
    ensures Remove(Cache(p + t, b), x).cache.entries == p + Remove(Cache(t, b'), x).cache.entries
    ensures Remove(Cache(p + t, b), x).events == Remove(Cache(t, b'), x).events
  {
    WithoutBehind(p, t, x);
    LookupAppend(p, t, x);
  }

  /** Removals of ids a prefix lacks act on the rest of the roster only; the
      ready flag plays no part in them. */
  lemma {:induction false} RemoveEachBehind(p: seq<Entry>, t: seq<Entry>, b: bool, b': bool, xs: seq<UserId>)
    requires forall x :: x in xs ==> x !in Ids(p)
    ensures RemoveEach(Cache(p + t, b), xs).cache.entries == p + RemoveEach(Cache(t, b'), xs).cache.entries
    ensures RemoveEach(Cache(p + t, b), xs).events == RemoveEach(Cache(t, b'), xs).events
    decreases |xs|
  {
    if xs != [] {
      var x := xs[0];
      RemoveBehind(p, t, b, b', x);
      var e1 := Remove(Cache(p + t, b), x);
      var e2 := Remove(Cache(t, b'), x);
      assert e1.cache == Cache(p + e2.cache.entries, e1.cache.ready);
      assert e2.cache == Cache(e2.cache.entries, e2.cache.ready);
      RemoveEachBehind(p, e2.cache.entries, e1.cache.ready, e2.cache.ready, xs[1..]);
    }
  }

  /** Removing, one at a time, the ids a snapshot lacks keeps exactly the
      entries the snapshot names and fires exactly `Gone`'s notifications. */
  lemma {:induction false} RemoveAbsent(es: seq<Entry>, b: bool, ids: seq<UserId>)
    requires Unique(es)
    ensures RemoveEach(Cache(es, b), Absent(es, ids)).cache.entries == Keep(es, ids)
    ensures RemoveEach(Cache(es, b), Absent(es, ids)).events == Gone(es, ids)
  {
    if es != [] {
      var h, t := es[0], es[1..];
      assert es == [h] + t;
      RemoveAbsent(t, b, ids);
      if h.id in ids {
        assert h.id !in Absent(t, ids);
        assert Ids([h]) == [h.id];
        RemoveEachBehind([h], t, b, b, Absent(t, ids));
      } else {
        var first := Remove(Cache(es, b), h.id);
        assert Without(es, h.id) == Without(t, h.id) == t;
        assert first.cache.entries == t;
        RemoveAbsent(t, first.cache.ready, ids);
        assert Absent(es, ids)[1..] == Absent(t, ids);
      }
    }
  }

  /** Adding the ids of `xs` one at a time appends one blank entry per new
      id, in the order the ids first occur, and fires nothing. */
  lemma {:induction false} AddEachAppends(es: seq<Entry>, b: bool, xs: seq<UserId>)
    ensures AddEach(Cache(es, b), xs).cache.entries == es + Blanks(NewIds(xs, Ids(es)))
    decreases |xs|
  {
    if xs == [] {
      assert es + Blanks([]) == es;
    } else {
      var x := xs[0];
      var first := Add(Cache(es, b), x);
      var es1 := first.cache.entries;
      assert first.cache == Cache(es1, first.cache.ready);
      AddEachAppends(es1, first.cache.ready, xs[1..]);
      assert AddEach(Cache(es, b), xs).cache.entries == es1 + Blanks(NewIds(xs[1..], Ids(es1)));
      if x !in Ids(es) {
        AddOneBlank(es, x, xs[1..]);
      }
    }
  }

  /** Appending a blank entry for a new id, then the blanks for what is new
      after it, is appending the blanks for what is new including it. */
  lemma AddOneBlank(es: seq<Entry>, x: UserId, xs: seq<UserId>)
    requires x !in Ids(es)
    ensures (es + [Entry(x, Blank)]) + Blanks(NewIds(xs, Ids(es + [Entry(x, Blank)])))
            == es + Blanks(NewIds([x] + xs, Ids(es)))
  {
    var e := Entry(x, Blank);
    IdsAppend(es, [e]);
    assert Ids([e]) == [x];
    var rest := NewIds(xs, Ids(es) + [x]);
    assert ([x] + xs)[1..] == xs;
    assert NewIds([x] + xs, Ids(es)) == [x] + rest;
    assert Blanks([x] + rest) == [e] + Blanks(rest);
    SeqAssoc(es, [e], Blanks(rest));
  }

  /** `reset(ids)` leaves the roster, and fires the notifications, of
      removing every absent id and then adding every id of the snapshot. */
  lemma ResetIsRemovesThenAdds(c: Cache, ids: seq<UserId>)
    requires Valid(c)
    ensures
      var removed := RemoveEach(c, Absent(c.entries, ids));
      var added := AddEach(removed.cache, ids);
      && Reset(c, ids).cache.entries == added.cache.entries
      && Reset(c, ids).events == removed.events + added.events
  {
    var removed := RemoveEach(c, Absent(c.entries, ids));
    assert c == Cache(c.entries, c.ready);
    RemoveAbsent(c.entries, c.ready, ids);
    AddEachAppends(removed.cache.entries, removed.cache.ready, ids);
    assert removed.cache == Cache(removed.cache.entries, removed.cache.ready);
    assert removed.events + [] == removed.events;
  }
}
