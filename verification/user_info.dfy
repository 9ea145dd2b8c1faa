/** What the friends cache knows about one friend: two attributes that arrive
    piecemeal, from different messages, and are overlaid field by field. */
module UserInfos {

  datatype Option<+T> = None | Some(value: T)

  /** A friend's account id; supplied by the caller, never generated here. */
  type UserId = int

  /** A persona state code (online, offline, ...). Its meaning plays no part in
      the cache: only whether it is known matters. */
  type PersonaState = int

  /** A possibly partial description of a friend; `None` marks a field that
      has not been received yet. */
  datatype UserInfo = UserInfo(name: Option<string>, state: Option<PersonaState>)

  /** The record `add` stores: nothing known yet. */
  const Blank: UserInfo := UserInfo(None, None)

  /** A record is complete when every field is known. */
  predicate Complete(info: UserInfo) {
    info.name.Some? && info.state.Some?
  }

  /** `more` carries every value `less` carries. */
  predicate Extends(more: UserInfo, less: UserInfo) {
    && (less.name.Some? ==> more.name == less.name)
    && (less.state.Some? ==> more.state == less.state)
  }

  /** `more` knows every field `less` knows, possibly with other values. */
  predicate KnowsAtLeast(more: UserInfo, less: UserInfo) {
    && (less.name.Some? ==> more.name.Some?)
    && (less.state.Some? ==> more.state.Some?)
  }

  /** Overlays the fields `partial` carries onto `base`. The fields `partial`
      leaves unset keep their old values: a merge never forgets anything. */
  function Merge(base: UserInfo, partial: UserInfo): (r: UserInfo)
    ensures Extends(r, partial)
    ensures KnowsAtLeast(r, base)
    ensures partial.name.None? ==> r.name == base.name
    ensures partial.state.None? ==> r.state == base.state
    ensures Complete(base) || Complete(partial) ==> Complete(r)
  {
    UserInfo(
      if partial.name.Some? then partial.name else base.name,
      if partial.state.Some? then partial.state else base.state)
  }

  /** Merging nothing changes nothing, and merging into a blank record
      yields the partial record itself. */
  lemma MergeBlank(info: UserInfo)
    ensures Merge(info, Blank) == info
    ensures Merge(Blank, info) == info
  {
  }

  /** Repeating an update is harmless. */
  lemma MergeIdempotent(base: UserInfo, partial: UserInfo)
    ensures Merge(Merge(base, partial), partial) == Merge(base, partial)
  {
  }

  /** Two partial updates in a row amount to one update carrying both; in
      particular a name-only update followed by a state-only update gives
      the same record as one update with both fields. */
  lemma MergeAssociative(base: UserInfo, p: UserInfo, q: UserInfo)
    ensures Merge(Merge(base, p), q) == Merge(base, Merge(p, q))
  {
  }

  /** A merge completes a record exactly when, between them, the old record
      and the update know every field. */
  lemma MergeCompletes(base: UserInfo, partial: UserInfo)
    ensures Complete(Merge(base, partial)) <==>
              (base.name.Some? || partial.name.Some?) && (base.state.Some? || partial.state.Some?)
  {
  }
}
