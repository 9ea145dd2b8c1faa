/** The roster: an insertion-ordered sequence of (user id, record) entries,
    with the lookups and edits the cache's operations are built from. */
module Roster {
  import opened UserInfos

  datatype Entry = Entry(id: UserId, info: UserInfo)

  /** The ids of a roster, in iteration order. */
  function Ids(es: seq<Entry>): (r: seq<UserId>)
    ensures |r| == |es|
    ensures forall i :: 0 <= i < |es| ==> r[i] == es[i].id
  {
    if es == [] then [] else [es[0].id] + Ids(es[1..])
  }

  /** No id occurs twice. */
  predicate Unique(es: seq<Entry>) {
    es == [] || (es[0].id !in Ids(es[1..]) && Unique(es[1..]))
  }

  /** Every entry's record is complete (vacuously so for an empty roster). */
  predicate AllComplete(es: seq<Entry>) {
    forall i :: 0 <= i < |es| ==> Complete(es[i].info)
  }

  /** The record stored under `id`, if any. */
  function Lookup(es: seq<Entry>, id: UserId): (r: Option<UserInfo>)
    ensures r.Some? <==> id in Ids(es)
    ensures r.Some? ==> Entry(id, r.value) in es
  {
    if es == [] then None
    else if es[0].id == id then Some(es[0].info)
    else Lookup(es[1..], id)
  }

  /** In a roster without duplicates, the lookup finds the one entry there is. */
  lemma {:induction false} LookupUnique(es: seq<Entry>, i: nat)
    requires Unique(es)
    requires i < |es|
    ensures Lookup(es, es[i].id) == Some(es[i].info)
  {
    if i > 0 {
      assert es[i].id == Ids(es[1..])[i - 1];
      LookupUnique(es[1..], i - 1);
    }
  }

  /** A roster is complete exactly when every id it holds looks up a complete record. */
  lemma AllCompleteByLookup(es: seq<Entry>)
    requires Unique(es)
    ensures AllComplete(es) <==> forall x :: x in Ids(es) ==> Complete(Lookup(es, x).value)
  {
    if !AllComplete(es) {
      var i :| 0 <= i < |es| && !Complete(es[i].info);
      LookupUnique(es, i);
      assert es[i].id == Ids(es)[i];
    }
  }

  lemma {:induction false} IdsAppend(a: seq<Entry>, b: seq<Entry>)
    ensures Ids(a + b) == Ids(a) + Ids(b)
  {
    if a != [] {
      assert (a + b)[1..] == a[1..] + b;
      IdsAppend(a[1..], b);
    }
  }

  lemma {:induction false} LookupAppend(a: seq<Entry>, b: seq<Entry>, x: UserId)
    ensures Lookup(a + b, x) == if x in Ids(a) then Lookup(a, x) else Lookup(b, x)
  {
    if a == [] {
      assert a + b == b;
    } else {
      assert (a + b)[0] == a[0];
      assert (a + b)[1..] == a[1..] + b;
      assert Ids(a) == [a[0].id] + Ids(a[1..]);
      LookupAppend(a[1..], b, x);
    }
  }

  lemma LookupAppendAll(a: seq<Entry>, b: seq<Entry>)
    ensures forall x :: Lookup(a + b, x) == if x in Ids(a) then Lookup(a, x) else Lookup(b, x)
  {
    forall x {
      LookupAppend(a, b, x);
    }
  }

  lemma {:induction false} UniqueAppend(a: seq<Entry>, b: seq<Entry>)
    requires Unique(a) && Unique(b)
    requires forall x :: x in Ids(a) ==> x !in Ids(b)
    ensures Unique(a + b)
  {
    if a == [] {
      assert a + b == b;
    } else {
      assert (a + b)[0] == a[0];
      assert (a + b)[1..] == a[1..] + b;
      assert Ids(a) == [a[0].id] + Ids(a[1..]);
      UniqueAppend(a[1..], b);
      IdsAppend(a[1..], b);
      assert a[0].id !in Ids(b);
    }
  }

  /** The roster with every entry for `id` deleted, the others in their order. */
  function Without(es: seq<Entry>, id: UserId): (r: seq<Entry>)
    ensures forall x :: x in Ids(r) <==> x in Ids(es) && x != id
    ensures forall x :: x != id ==> Lookup(r, x) == Lookup(es, x)
    ensures id !in Ids(es) ==> r == es
    ensures Unique(es) ==> Unique(r)
    ensures Unique(es) ==> |r| == |es| - (if id in Ids(es) then 1 else 0)
  {
    if es == [] then []
    else if es[0].id == id then Without(es[1..], id)
    else [es[0]] + Without(es[1..], id)
  }

  /** In a roster without duplicates, deleting the id at index `i` cuts out
      that one entry and leaves the entries before and after it in order. */
  lemma {:induction false} WithoutAt(es: seq<Entry>, i: nat)
    requires Unique(es) && i < |es|
    ensures Without(es, es[i].id) == es[..i] + es[i + 1..]
  {
    var id := es[i].id;
    if i == 0 {
      WithoutHead(es);
      assert es[..0] + es[1..] == es[1..];
    } else {
      assert id in Ids(es[1..]) by {
        assert Ids(es[1..])[i - 1] == es[1..][i - 1].id;
      }
      assert Without(es, id) == [es[0]] + Without(es[1..], id);
      WithoutAt(es[1..], i - 1);
      CutBehindHead(es, i - 1);
    }
  }

  /** Deleting the first id of a roster without duplicates drops the head. */
  lemma WithoutHead(es: seq<Entry>)
    requires Unique(es) && es != []
    ensures Without(es, es[0].id) == es[1..]
  {
    assert Without(es, es[0].id) == Without(es[1..], es[0].id);
  }

  /** Cutting index `j` out of a sequence's tail, then putting the head back,
      is cutting index `j + 1` out of the whole. */
  lemma CutBehindHead<T>(s: seq<T>, j: nat)
    requires j + 1 < |s|
    ensures [s[0]] + (s[1..][..j] + s[1..][j + 1..]) == s[..j + 1] + s[j + 2..]
  {
    assert s[..j + 1] == [s[0]] + s[1..][..j];
    assert s[j + 2..] == s[1..][j + 1..];
    SeqAssoc([s[0]], s[1..][..j], s[1..][j + 1..]);
  }

  lemma SeqAssoc<T>(a: seq<T>, b: seq<T>, c: seq<T>)
    ensures a + (b + c) == (a + b) + c
  {
  }

  lemma WithoutPast(p: seq<Entry>, t: seq<Entry>, x: UserId)
    requires p != [] && p[0].id != x
    ensures Without(p + t, x) == [p[0]] + Without(p[1..] + t, x)
  {
    assert (p + t)[0] == p[0] && (p + t)[1..] == p[1..] + t;
  }

  /** Deleting an id a prefix lacks leaves the prefix in place. */
  lemma {:induction false} WithoutBehind(p: seq<Entry>, t: seq<Entry>, x: UserId)
    requires x !in Ids(p)
    ensures Without(p + t, x) == p + Without(t, x)
  {
    if p == [] {
      assert p + t == t;
    } else {
      assert p[0].id != x by {
        assert Ids(p)[0] == p[0].id;
      }
      assert x !in Ids(p[1..]) by {
        assert Ids(p) == [p[0].id] + Ids(p[1..]);
      }
      WithoutBehind(p[1..], t, x);
      WithoutPast(p, t, x);
      SeqAssoc([p[0]], p[1..], Without(t, x));
      assert [p[0]] + p[1..] == p;
    }
  }

  /** The roster with the record of `id` replaced by `info`, order unchanged. */
  function Put(es: seq<Entry>, id: UserId, info: UserInfo): (r: seq<Entry>)
    ensures Ids(r) == Ids(es)
    ensures id in Ids(es) ==> Lookup(r, id) == Some(info)
    ensures forall x :: x != id ==> Lookup(r, x) == Lookup(es, x)
    ensures forall i :: 0 <= i < |es| && es[i].id != id ==> r[i] == es[i]
    ensures Unique(es) ==> Unique(r)
  {
    if es == [] then []
    else [if es[0].id == id then Entry(id, info) else es[0]] + Put(es[1..], id, info)
  }

  /** The entries whose id is in `ids`, in roster order. */
  function Keep(es: seq<Entry>, ids: seq<UserId>): (r: seq<Entry>)
    ensures forall x :: x in Ids(r) <==> x in Ids(es) && x in ids
    ensures forall x :: x in ids ==> Lookup(r, x) == Lookup(es, x)
    ensures Unique(es) ==> Unique(r)
  {
    if es == [] then []
    else if es[0].id in ids then [es[0]] + Keep(es[1..], ids)
    else Keep(es[1..], ids)
  }

  /** No id occurs twice in `xs`. */
  predicate Distinct(xs: seq<UserId>) {
    forall i, j :: 0 <= i < j < |xs| ==> xs[i] != xs[j]
  }

  /** The ids of `ids` not in `known`, each taken once, in the order of their
      first occurrence. */
  function NewIds(ids: seq<UserId>, known: seq<UserId>): (r: seq<UserId>)
    ensures forall x :: x in r <==> x in ids && x !in known
    ensures Distinct(r)
  {
    if ids == [] then []
    else if ids[0] in known then NewIds(ids[1..], known)
    else
      var rest := NewIds(ids[1..], known + [ids[0]]);
      assert ids[0] !in rest;
      [ids[0]] + rest
  }

  /** One blank entry per id. */
  function Blanks(xs: seq<UserId>): (r: seq<Entry>)
    ensures Ids(r) == xs
    ensures forall x :: x in xs ==> Lookup(r, x) == Some(Blank)
    ensures Distinct(xs) ==> Unique(r)
  {
    if xs == [] then []
    else
      var rest := Blanks(xs[1..]);
      assert Ids([Entry(xs[0], Blank)] + rest) == [xs[0]] + xs[1..];
      assert Distinct(xs) ==> Distinct(xs[1..]) && xs[0] !in xs[1..];
      [Entry(xs[0], Blank)] + rest
  }
}
