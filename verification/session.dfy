/** A session with the cache: any sequence of the four mutating calls,
    applied in order until one fails, with the handler calls concatenated. */
module Session {
  import opened UserInfos
  import opened Roster
  import opened FriendsCache
  import opened Listener

  /** One mutating call on the cache. */
  datatype Op =
    | AddUser(id: UserId)
    | UpdateUser(id: UserId, info: UserInfo)
    | RemoveUser(id: UserId)
    | ResetUsers(ids: seq<UserId>)

  function Apply(c: Cache, op: Op): (r: Result<Step>)
    ensures r.Err? <==> op.UpdateUser? && !Contains(c, op.id)
    ensures r.Ok? ==> r.value.cache.ready == AllComplete(r.value.cache.entries)
    ensures r.Ok? && Valid(c) ==> Valid(r.value.cache)
  {
    match op
    case AddUser(id) => Ok(Add(c, id))
    case UpdateUser(id, info) => UpdateInfo(c, id, info)
    case RemoveUser(id) => Ok(Remove(c, id))
    case ResetUsers(ids) => Ok(Reset(c, ids))
  }

  /** The calls of `ops` in order; the first failing call fails the run. */
  function Run(c: Cache, ops: seq<Op>): (r: Result<Step>)
    ensures r.Ok? && Valid(c) ==> Valid(r.value.cache)
    ensures r.Ok? && ops != [] ==> r.value.cache.ready == AllComplete(r.value.cache.entries)
    ensures r.Err? ==> exists k :: 0 <= k < |ops| && ops[k].UpdateUser? && r.error == UnknownUser(ops[k].id)
    decreases |ops|
  {
    if ops == [] then Ok(Step(c, []))
    else
      match Apply(c, ops[0])
      case Err(e) => Err(e)
      case Ok(first) =>
        match Run(first.cache, ops[1..])
        case Err(e) => Err(e)
        case Ok(rest) => Ok(Step(rest.cache, first.events + rest.events))
  }

  /** A run is its first call followed by the run of the rest. */
  lemma RunCons(c: Cache, op: Op, ops: seq<Op>, first: Step, rest: Step)
    requires Apply(c, op) == Ok(first)
    requires Run(first.cache, ops) == Ok(rest)
    ensures Run(c, [op] + ops) == Ok(Step(rest.cache, first.events + rest.events))
  {
    assert ([op] + ops)[0] == op && ([op] + ops)[1..] == ops;
  }

  /** A run of one call is that call. */
  lemma RunOne(c: Cache, op: Op)
    requires Apply(c, op).Ok?
    ensures Run(c, [op]) == Apply(c, op)
  {
    var first := Apply(c, op).value;
    RunCons(c, op, [], first, Step(first.cache, []));
    assert [op] + [] == [op];
    assert first.events + [] == first.events;
  }

  /** A successful run of at least one call is a successful first call
      followed by a successful run of the rest. */
  lemma RunUncons(c: Cache, ops: seq<Op>)
    requires ops != [] && Run(c, ops).Ok?
    ensures Apply(c, ops[0]).Ok?
    ensures Run(Apply(c, ops[0]).value.cache, ops[1..]).Ok?
    ensures Run(c, ops).value
            == Step(Run(Apply(c, ops[0]).value.cache, ops[1..]).value.cache,
                    Apply(c, ops[0]).value.events + Run(Apply(c, ops[0]).value.cache, ops[1..]).value.events)
  {
  }

  lemma ConsAppend(ops: seq<Op>, more: seq<Op>)
    requires ops != []
    ensures [ops[0]] + (ops[1..] + more) == ops + more
  {
    SeqAssoc([ops[0]], ops[1..], more);
    assert [ops[0]] + ops[1..] == ops;
  }

  /** A run of `ops` then `more` is the run of `ops` continued by `more`. */
  lemma {:induction false} RunAppend(c: Cache, ops: seq<Op>, more: seq<Op>, done: Step, rest: Step)
    requires Run(c, ops) == Ok(done)
    requires Run(done.cache, more) == Ok(rest)
    ensures Run(c, ops + more) == Ok(Step(rest.cache, done.events + rest.events))
    decreases |ops|
  {
    if ops == [] {
      assert ops + more == more;
      assert [] + rest.events == rest.events;
    } else {
      RunUncons(c, ops);
      var first := Apply(c, ops[0]).value;
      var mid := Run(first.cache, ops[1..]).value;
      RunAppend(first.cache, ops[1..], more, mid, rest);
      RunCons(c, ops[0], ops[1..] + more, first, Step(rest.cache, mid.events + rest.events));
      ConsAppend(ops, more);
      SeqAssoc(first.events, mid.events, rest.events);
    }
  }

  lemma ApplyInSync(c: Cache, op: Op)
    requires Valid(c)
    requires Apply(c, op).Ok?
    ensures HearAll(Announced(c.entries), Apply(c, op).value.events) == Some(Announced(Apply(c, op).value.cache.entries))
  {
    match op
    case AddUser(id) => AddInSync(c, id);
    case UpdateUser(id, info) => UpdateInSync(c, id, info);
    case RemoveUser(id) => RemoveInSync(c, id);
    case ResetUsers(ids) => ResetInSync(c, ids);
  }

  /** Over any run, the handler calls keep a listener's view equal to the
      complete entries of the cache, and never break the protocol. */
  lemma {:induction false} RunInSync(c: Cache, ops: seq<Op>)
    requires Valid(c)
    ensures Run(c, ops).Ok? ==>
              HearAll(Announced(c.entries), Run(c, ops).value.events) == Some(Announced(Run(c, ops).value.cache.entries))
    decreases |ops|
  {
    if ops != [] && Run(c, ops).Ok? {
      var first := Apply(c, ops[0]).value;
      ApplyInSync(c, ops[0]);
      RunInSync(first.cache, ops[1..]);
      HearAllAppend(Announced(c.entries), first.events, Run(first.cache, ops[1..]).value.events);
    }
  }

  /** A listener attached to a fresh cache ends every run knowing exactly
      the friends whose records are complete, with those records: each was
      announced by `added` once it became complete, and is retracted by
      `removed` only after that. */
  lemma ListenerMirrorsCache(ops: seq<Op>)
    ensures Run(Fresh, ops).Ok? ==>
              HearAll(map[], Run(Fresh, ops).value.events) == Some(Announced(Run(Fresh, ops).value.cache.entries))
  {
    RunInSync(Fresh, ops);
    assert Announced(Fresh.entries) == map[];
  }
}
