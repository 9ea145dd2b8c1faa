/** The cache's test cases, stated for every id, name and persona state
    rather than for the sample values, each as the whole outcome of a run
    from a fresh cache: the final roster, the ready flag, and every handler
    call in order. */
module Scenarios {
  import opened UserInfos
  import opened Roster
  import opened FriendsCache
  import opened Session

  function NameOnly(name: string): UserInfo {
    UserInfo(Some(name), None)
  }

  function StateOnly(state: PersonaState): UserInfo {
    UserInfo(None, Some(state))
  }

  function Full(name: string, state: PersonaState): UserInfo {
    UserInfo(Some(name), Some(state))
  }

  /** A fresh cache is empty and not ready. */
  lemma FreshCache()
    ensures !Fresh.ready && Fresh.entries == []
    ensures Run(Fresh, []) == Ok(Step(Cache([], false), []))
  {
  }

  /** `add` stores a blank record, leaves the cache not ready, and fires no
      `added`. */
  lemma AddUserScenario(id: UserId)
    ensures Contains(Add(Fresh, id).cache, id)
    ensures Run(Fresh, [AddUser(id)]) == Ok(Step(Cache([Entry(id, Blank)], false), []))
  {
    AddFirst(id);
    RunOne(Fresh, AddUser(id));
  }

  /** The first call on a fresh cache: `add(id)`. */
  lemma AddFirst(id: UserId)
    ensures Add(Fresh, id) == Step(Cache([Entry(id, Blank)], false), [])
    ensures Ids(Add(Fresh, id).cache.entries) == [id]
  {
  }

  /** An update of the only friend of a roster. */
  lemma UpdateOnly(id: UserId, before: UserInfo, partial: UserInfo, b: bool)
    ensures var after := Merge(before, partial);
            && UpdateInfo(Cache([Entry(id, before)], b), id, partial).Ok?
            && UpdateInfo(Cache([Entry(id, before)], b), id, partial).value.cache
               == Cache([Entry(id, after)], Complete(after))
            && (!Complete(before) && Complete(after) ==>
                  UpdateInfo(Cache([Entry(id, before)], b), id, partial).value.events == [Added(id, after)])
            && (!Complete(after) ==> UpdateInfo(Cache([Entry(id, before)], b), id, partial).value.events == [])
  {
    var es := [Entry(id, before)];
    assert Ids(es) == [id];
    assert Put(es, id, Merge(before, partial)) == [Entry(id, Merge(before, partial))];
  }

  /** A removal of the only friend of a roster. */
  lemma RemoveOnly(id: UserId, info: UserInfo, b: bool)
    ensures Remove(Cache([Entry(id, info)], b), id)
            == Step(Cache([], true), if Complete(info) then [Removed(id)] else [])
  {
    assert Without([Entry(id, info)], id) == [];
  }

  /** A name-only update is stored but completes nothing: not ready, and
      neither `added` nor `updated` fires. */
  lemma UpdateNotReadyScenario(id: UserId, name: string)
    ensures Run(Fresh, [AddUser(id), UpdateUser(id, NameOnly(name))])
            == Ok(Step(Cache([Entry(id, NameOnly(name))], false), []))
  {
    var op1, op2 := AddUser(id), UpdateUser(id, NameOnly(name));
    AddFirst(id);
    UpdateOnly(id, Blank, NameOnly(name), false);
    assert Merge(Blank, NameOnly(name)) == NameOnly(name);
    var s2 := Step(Cache([Entry(id, NameOnly(name))], false), []);
    RunOne(Add(Fresh, id).cache, op2);
    RunCons(Fresh, op1, [op2], Add(Fresh, id), s2);
    assert [op1] + [op2] == [op1, op2];
  }

  /** A name-only update then a state-only update hold both fields; the
      second one completes the record, so the cache is ready and `added`
      fires, once, with the merged record, and `updated` never fires. */
  lemma UpdateReadyScenario(id: UserId, name: string, state: PersonaState)
    ensures Run(Fresh, [AddUser(id), UpdateUser(id, NameOnly(name)), UpdateUser(id, StateOnly(state))])
            == Ok(Step(Cache([Entry(id, Full(name, state))], true), [Added(id, Full(name, state))]))
  {
    var op1, op2, op3 := AddUser(id), UpdateUser(id, NameOnly(name)), UpdateUser(id, StateOnly(state));
    var s1 := Step(Cache([Entry(id, Blank)], false), []);
    var s2 := Step(Cache([Entry(id, NameOnly(name))], false), []);
    var s3 := Step(Cache([Entry(id, Full(name, state))], true), [Added(id, Full(name, state))]);
    AddFirst(id);
    UpdateOnly(id, Blank, NameOnly(name), false);
    assert Merge(Blank, NameOnly(name)) == NameOnly(name);
    UpdateOnly(id, NameOnly(name), StateOnly(state), false);
    assert Merge(NameOnly(name), StateOnly(state)) == Full(name, state);
    RunOne(s2.cache, op3);
    RunCons(s1.cache, op2, [op3], s2, s3);
    assert [op2] + [op3] == [op2, op3];
    assert s2.events + s3.events == s3.events;
    RunCons(Fresh, op1, [op2, op3], s1, s3);
    assert s1.events + s3.events == s3.events;
    assert [op1] + [op2, op3] == [op1, op2, op3];
  }

  /** One update carrying every field completes the record at once: ready,
      `added` fires with it, `updated` does not. */
  lemma UpdateAllDataScenario(id: UserId, name: string, state: PersonaState)
    ensures Run(Fresh, [AddUser(id), UpdateUser(id, Full(name, state))])
            == Ok(Step(Cache([Entry(id, Full(name, state))], true), [Added(id, Full(name, state))]))
  {
    OneCompleteFriend(id, Full(name, state));
  }

  /** Removing a friend never completed empties the roster, makes the cache
      ready, and fires no `removed`. */
  lemma RemoveNotReadyScenario(id: UserId)
    ensures Run(Fresh, [AddUser(id), RemoveUser(id)]) == Ok(Step(Cache([], true), []))
  {
    var op1, op2 := AddUser(id), RemoveUser(id);
    var s1 := Step(Cache([Entry(id, Blank)], false), []);
    AddFirst(id);
    RemoveOnly(id, Blank, false);
    RunOne(s1.cache, op2);
    RunCons(Fresh, op1, [op2], s1, Step(Cache([], true), []));
    assert [op1] + [op2] == [op1, op2];
  }

  /** Removing a complete friend empties the roster and fires `removed`
      exactly once. */
  lemma RemoveReadyScenario(id: UserId, name: string, state: PersonaState)
    ensures Run(Fresh, [AddUser(id), UpdateUser(id, Full(name, state)), RemoveUser(id)])
            == Ok(Step(Cache([], true), [Added(id, Full(name, state)), Removed(id)]))
  {
    var op1, op2, op3 := AddUser(id), UpdateUser(id, Full(name, state)), RemoveUser(id);
    var s1 := Step(Cache([Entry(id, Blank)], false), []);
    var s2 := Step(Cache([Entry(id, Full(name, state))], true), [Added(id, Full(name, state))]);
    var s3 := Step(Cache([], true), [Removed(id)]);
    AddFirst(id);
    UpdateOnly(id, Blank, Full(name, state), false);
    assert Merge(Blank, Full(name, state)) == Full(name, state);
    RemoveOnly(id, Full(name, state), true);
    RunOne(s2.cache, op3);
    RunCons(s1.cache, op2, [op3], s2, s3);
    assert [op2] + [op3] == [op2, op3];
    RunCons(Fresh, op1, [op2, op3], s1, Step(s3.cache, s2.events + s3.events));
    assert [op1] + [op2, op3] == [op1, op2, op3];
    assert s1.events + (s2.events + s3.events) == [Added(id, Full(name, state)), Removed(id)];
  }

  /** Resetting a fresh cache to an empty snapshot makes it ready, still empty. */
  lemma ResetEmptyScenario()
    ensures Run(Fresh, [ResetUsers([])]) == Ok(Step(Cache([], true), []))
  {
    assert Keep([], []) == [];
    assert NewIds([], []) == [];
    assert Blanks([]) == [];
    RunOne(Fresh, ResetUsers([]));
  }

  /** Adding a second friend to a roster of one complete friend. */
  lemma AddSecond(ea: Entry, b: UserId)
    requires ea.id != b && Complete(ea.info)
    ensures Add(Cache([ea], true), b) == Step(Cache([ea, Entry(b, Blank)], false), [])
  {
    assert Ids([ea]) == [ea.id];
    assert [ea] + [Entry(b, Blank)] == [ea, Entry(b, Blank)];
  }

  /** Completing the second friend of a roster whose first friend is complete. */
  lemma UpdateSecond(ea: Entry, b: UserId, ib: UserInfo)
    requires ea.id != b && Complete(ea.info) && Complete(ib)
    ensures UpdateInfo(Cache([ea, Entry(b, Blank)], false), b, ib)
            == Ok(Step(Cache([ea, Entry(b, ib)], true), [Added(b, ib)]))
  {
    var es := [ea, Entry(b, Blank)];
    assert es[1..] == [Entry(b, Blank)];
    assert Ids(es) == [ea.id, b];
    assert Lookup(es, b) == Some(Blank);
    assert Put(es, b, ib) == [ea, Entry(b, ib)];
  }

  /** Adding a friend to a fresh cache and completing its record. */
  lemma OneCompleteFriend(a: UserId, ia: UserInfo)
    requires Complete(ia)
    ensures Run(Fresh, [AddUser(a), UpdateUser(a, ia)]) == Ok(Step(Cache([Entry(a, ia)], true), [Added(a, ia)]))
  {
    var op1, op2 := AddUser(a), UpdateUser(a, ia);
    var s1 := Step(Cache([Entry(a, Blank)], false), []);
    var s2 := Step(Cache([Entry(a, ia)], true), [Added(a, ia)]);
    assert [op1] + [op2] == [op1, op2];
    assert s1.events + s2.events == s2.events;
    AddFirst(a);
    UpdateOnly(a, Blank, ia, false);
    assert Merge(Blank, ia) == ia;
    RunOne(s1.cache, op2);
    RunCons(Fresh, op1, [op2], s1, s2);
  }

  /** Adding a second friend next to a complete one and completing it. */
  lemma SecondCompleteFriend(ea: Entry, b: UserId, ib: UserInfo)
    requires ea.id != b && Complete(ea.info) && Complete(ib)
    ensures Run(Cache([ea], true), [AddUser(b), UpdateUser(b, ib)])
            == Ok(Step(Cache([ea, Entry(b, ib)], true), [Added(b, ib)]))
  {
    var op3, op4 := AddUser(b), UpdateUser(b, ib);
    var s3 := Step(Cache([ea, Entry(b, Blank)], false), []);
    var s4 := Step(Cache([ea, Entry(b, ib)], true), [Added(b, ib)]);
    assert [op3] + [op4] == [op3, op4];
    assert s3.events + s4.events == s4.events;
    AddSecond(ea, b);
    UpdateSecond(ea, b, ib);
    RunOne(s3.cache, op4);
    RunCons(Cache([ea], true), op3, [op4], s3, s4);
  }

  /** The roster of two complete friends `a` and `b`, added in that order. */
  lemma TwoCompleteFriends(a: UserId, b: UserId, ia: UserInfo, ib: UserInfo)
    requires a != b && Complete(ia) && Complete(ib)
    ensures Run(Fresh, [AddUser(a), UpdateUser(a, ia), AddUser(b), UpdateUser(b, ib)])
            == Ok(Step(Cache([Entry(a, ia), Entry(b, ib)], true), [Added(a, ia), Added(b, ib)]))
  {
    var first := [AddUser(a), UpdateUser(a, ia)];
    var second := [AddUser(b), UpdateUser(b, ib)];
    assert first + second == [AddUser(a), UpdateUser(a, ia), AddUser(b), UpdateUser(b, ib)];
    assert [Added(a, ia)] + [Added(b, ib)] == [Added(a, ia), Added(b, ib)];
    OneCompleteFriend(a, ia);
    SecondCompleteFriend(Entry(a, ia), b, ib);
    RunAppend(Fresh, first, second, Step(Cache([Entry(a, ia)], true), [Added(a, ia)]),
              Step(Cache([Entry(a, ia), Entry(b, ib)], true), [Added(b, ib)]));
  }

  /** Over two complete friends `a` and `b`, a reset to `[b, n]` fires
      `removed(a)` once, keeps `b` with its record, appends `n` blank, and
      leaves the cache not ready. */
  lemma ResetMixedScenario(a: UserId, b: UserId, n: UserId, ia: UserInfo, ib: UserInfo)
    requires a != b && a != n && b != n
    requires Complete(ia) && Complete(ib)
    ensures
      Reset(Cache([Entry(a, ia), Entry(b, ib)], true), [b, n])
      == Step(Cache([Entry(b, ib), Entry(n, Blank)], false), [Removed(a)])
  {
    var ea, eb := Entry(a, ia), Entry(b, ib);
    var es := [ea, eb];
    assert es[1..] == [eb];
    assert Keep(es, [b, n]) == [eb];
    assert Ids([eb]) == [b];
    assert NewIds([b, n], [b]) == [n] by {
      assert [b, n][1..] == [n];
      assert NewIds([n], [b]) == [n] + NewIds([], [b, n]);
    }
    assert Blanks([n]) == [Entry(n, Blank)];
    assert [eb] + [Entry(n, Blank)] == [eb, Entry(n, Blank)];
    assert Gone([eb], [b, n]) == [];
    assert Gone(es, [b, n]) == [Removed(a)];
  }

  /** The whole reset test as one run from a fresh cache. */
  lemma ResetMixedRun(a: UserId, b: UserId, n: UserId, ia: UserInfo, ib: UserInfo)
    requires a != b && a != n && b != n
    requires Complete(ia) && Complete(ib)
    ensures Run(Fresh, [AddUser(a), UpdateUser(a, ia), AddUser(b), UpdateUser(b, ib), ResetUsers([b, n])])
            == Ok(Step(Cache([Entry(b, ib), Entry(n, Blank)], false), [Added(a, ia), Added(b, ib), Removed(a)]))
  {
    var setup := [AddUser(a), UpdateUser(a, ia), AddUser(b), UpdateUser(b, ib)];
    var reset := ResetUsers([b, n]);
    assert setup + [reset] == [AddUser(a), UpdateUser(a, ia), AddUser(b), UpdateUser(b, ib), reset];
    assert [Added(a, ia), Added(b, ib)] + [Removed(a)] == [Added(a, ia), Added(b, ib), Removed(a)];
    var c4 := Cache([Entry(a, ia), Entry(b, ib)], true);
    var s5 := Step(Cache([Entry(b, ib), Entry(n, Blank)], false), [Removed(a)]);
    TwoCompleteFriends(a, b, ia, ib);
    ResetMixedScenario(a, b, n, ia, ib);
    RunOne(c4, reset);
    RunAppend(Fresh, setup, [reset], Step(c4, [Added(a, ia), Added(b, ib)]), s5);
  }
}
