# FriendsCache, modelled in Dafny

The friends cache of the Steam integration keeps an insertion-ordered roster
of the user's friends. Each friend has a `UserInfo` record with two optional
fields, a name and a persona state. The record fills in piecemeal as messages
arrive, and the cache tells its owner about changes through three handlers:

- `added(id, info)` fires when a friend's record becomes complete.
- `updated(id, info)` fires when a complete record changes.
- `removed(id)` fires when an announced friend leaves.

The cache also has a `ready` flag. A new cache is not ready. After every
mutating call the flag says whether every record is complete, so an empty
roster is ready once something has been applied to it.

Each of the four mutating calls is a pure function from a cache to a `Step`:
the next cache plus the handler calls, in order.

- `UserInfos`: user records, completeness, and the field-by-field merge that
  `update_info` applies.
- `Roster`: the ordered (id, record) sequence and the edits the calls are
  built from.
- `FriendsCache`: `add`, `update_info`, `remove` and `reset`, the ready flag,
  and the handler events.
- `ResetSteps`: `reset` explained as a series of `remove` calls followed by a
  series of `add` calls.
- `Listener`: what an observer wired to the three handlers knows.
- `Session`: arbitrary sequences of calls. The main theorem is that a
  listener's view always equals the set of complete records in the cache.
- `Scenarios`: each test case of the cache, stated for all ids, names and
  states, as the complete outcome of a run from a new cache.

`list(cache)` is the `entries` sequence of the model, and `id in cache` is
`Contains`.

## Model

| member | source | states |
|---|---|---|
| UserInfos.Merge | tests/test_friends_cache.py:61-68 | The merged record carries every field the update sets, and keeps the old value of every field the update leaves unset; if either side is complete, the result is complete |
| UserInfos.MergeCompletes | tests/test_friends_cache.py:63-68 | A merge yields a complete record exactly when, between them, the old record and the update know both the name and the state |
| UserInfos.MergeAssociative | tests/test_friends_cache.py:63-66 | Applying two partial updates in turn gives the same record as applying one update that carries both |
| FriendsCache.ReadyByLookup | tests/test_friends_cache.py:67-68 | Once any call has been applied, the cache is ready exactly when every id in it has a complete record |
| FriendsCache.Add | tests/test_friends_cache.py:41-47 | Afterwards the id is in the cache and the membership is the old one plus that id. A new id is appended with a blank record; a present id leaves the roster unchanged. The cache is ready exactly when the id was already present and every record was complete. No handler fires, and unique ids are kept |
| FriendsCache.UpdateInfo | tests/test_friends_cache.py:50-81 | An absent id gives exactly the error `UnknownUser(id)`. Otherwise: the ids are unchanged; the id's record becomes the merge and every other record is untouched; at most one event, and it is `added(id, merged)` or `updated(id, merged)`, never an event with any other record. `added(id, merged)` fires iff the record goes from incomplete to complete; `updated(id, merged)` fires iff a complete record changes. The ready flag is recomputed |
| FriendsCache.Remove | tests/test_friends_cache.py:84-100 | The id is gone and every other record is untouched; an absent id changes nothing. `removed(id)` fires iff the id was present with a complete record, and it is the only possible event. The ready flag is recomputed. In a reachable cache, removing a present id cuts its one entry out of the roster: the entries before and after it keep their order |
| FriendsCache.Gone | tests/test_friends_cache.py:109-117 | The removals a reset fires are for ids of the roster that the snapshot lacks. With unique ids: one per such id whose record is complete, none repeated |
| FriendsCache.Reset | tests/test_friends_cache.py:103-118 | The membership afterwards is exactly the snapshot. Kept ids keep their records, and ids new to the roster get blank records. The only events are removals of present ids the snapshot lacks; with unique ids, exactly one per such id whose record was complete. The ready flag is recomputed |
| ResetSteps.ResetIsRemovesThenAdds | tests/test_friends_cache.py:109-118 | A reset leaves the same roster, and fires the same events, as removing each id the snapshot lacks (in roster order) and then adding each id of the snapshot (in snapshot order) |
| ResetSteps.RemoveAbsent | tests/test_friends_cache.py:116-117 | Removing the ids a snapshot lacks, one at a time, keeps exactly the entries the snapshot names and fires exactly one removal per complete dropped entry |
| ResetSteps.AddEachAppends | tests/test_friends_cache.py:116-118 | Adding the ids of a snapshot one at a time appends one blank entry per id the roster lacked, in first-occurrence order |
| Listener.AddInSync | tests/test_friends_cache.py:41-47 | `add` leaves a listener's view equal to the complete records of the cache |
| Listener.UpdateInSync | tests/test_friends_cache.py:50-81 | The events of `update_info` take a listener's view of the complete records before the call to the view after it, without ever re-adding an announced friend or updating an unannounced one |
| Listener.RemoveInSync | tests/test_friends_cache.py:84-100 | The events of `remove` take a listener's view of the complete records before the call to the view after it, and never remove an unannounced friend |
| Listener.ResetInSync | tests/test_friends_cache.py:109-118 | The events of `reset` take a listener's view of the complete records before the call to the view after it |
| Session.Apply | tests/test_friends_cache.py:41-118 | A call fails exactly when it updates an absent id. After any successful call, the ready flag says whether every record is complete, and unique ids are kept |
| Session.Run | tests/test_friends_cache.py:41-118 | A run of calls keeps unique ids. After a non-empty successful run, the ready flag says whether every record is complete. A failed run failed on an update of some id it names |
| Session.RunAppend | tests/test_friends_cache.py:109-116 | Running two sequences of calls back to back is one run of their concatenation: final cache of the second, events of both in order |
| Session.RunInSync | tests/test_friends_cache.py:41-118 | Over any successful run, a listener's view of the complete records before the run is taken to the view after it, with no protocol violation |
| Session.ListenerMirrorsCache | tests/test_friends_cache.py:41-118 | A listener attached to a new cache ends any successful run knowing exactly the friends with complete records, with those records |
| Scenarios.FreshCache | tests/test_friends_cache.py:36-38 | A new cache is empty and not ready |
| Scenarios.AddUserScenario | tests/test_friends_cache.py:41-47 | After `add(id)`: the id is in the cache, the roster is `[(id, blank)]`, the cache is not ready, and nothing fires |
| Scenarios.UpdateNotReadyScenario | tests/test_friends_cache.py:50-58 | After `add` and a name-only update: the roster holds the name-only record, the cache is not ready, and nothing fires |
| Scenarios.UpdateReadyScenario | tests/test_friends_cache.py:61-70 | After a name-only update and then a state-only update: the record holds both, the cache is ready, `added` has fired once with the merged record, and `updated` never fired |
| Scenarios.UpdateAllDataScenario | tests/test_friends_cache.py:73-81 | A single full update: the cache is ready, `added(id, record)` has fired once, and `updated` never fired |
| Scenarios.OneCompleteFriend | tests/test_friends_cache.py:73-81 | Adding one friend and completing its record gives a ready one-entry roster, with one `added` event |
| Scenarios.RemoveNotReadyScenario | tests/test_friends_cache.py:84-90 | Removing a friend that was never completed empties the roster, makes the cache ready, and fires nothing |
| Scenarios.RemoveReadyScenario | tests/test_friends_cache.py:93-100 | Removing a complete friend empties the roster, and `removed(id)` fires exactly once |
| Scenarios.ResetEmptyScenario | tests/test_friends_cache.py:103-106 | `reset([])` on a new cache leaves it empty and ready |
| Scenarios.TwoCompleteFriends | tests/test_friends_cache.py:110-114 | Adding and completing two friends in turn gives a ready roster of both, with their two `added` events in order |
| Scenarios.ResetMixedScenario | tests/test_friends_cache.py:116-118 | A reset of two complete friends `a`, `b` to `[b, n]` fires `removed(a)` once, keeps `b` with its record, appends `n` blank, and leaves the cache not ready |
| Scenarios.ResetMixedRun | tests/test_friends_cache.py:109-118 | The whole reset test as one run from a new cache: the final roster is `[(b, info), (n, blank)]`, the cache is not ready, and the events are `added(a)`, `added(b)`, `removed(a)` |

## Left out

- `friends_cache.py`, the implementation itself, is not part of this model. The model follows the behaviour its test file pins down, and fills the gaps with the rules stated below.
- The pytest fixtures and `MagicMock` handler slots (tests/test_friends_cache.py:10-33). Handlers are modelled as the returned event sequence; assigning or replacing a handler object is not modelled.
- The meaning of `EPersonaState` and of any `UserInfo` field other than name and state. A persona state is an opaque integer, and only whether it is known matters.
- Handler reentrancy, concurrency, and the protocol layer that feeds the cache. The model is sequential.
- FriendsCache.UpdateInfo: the tests only show that `updated` does not fire when a record first becomes complete. The model makes its own choice here: it fires when an already complete record is changed by the merge, and not when the merge leaves it unchanged.
- FriendsCache.UpdateInfo: the tests never update an absent id. The model returns the error `UnknownUser(id)` and leaves the cache as it was; the implementation's exception type is not modelled.
- FriendsCache.Remove: the tests never remove an absent id. The model leaves the roster unchanged and fires nothing, but still recomputes the ready flag, which makes an untouched new cache ready.
- FriendsCache.Reset: the tests do not fix the order of the roster after a reset or the order of several removals. The model keeps surviving entries in roster order and appends new ids in snapshot order, skipping duplicates; removals fire in roster order.
- Scenarios: the tests use the sample ids 1423, 15, 17 and 29 and the names "Jan" and "Ula". The lemmas state the same outcomes for every id, name and persona state, with distinct ids where the tests use distinct ids.
