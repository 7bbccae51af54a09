/**
 * The listing query `find({"user_id": uid}).sort("created_at", -1).to_list(1000)`:
 * the caller's links, newest first, at most `ListLimit` of them.
 */
module Listing {
  import opened Records

  /** The stored links owned by `uid`, in store order. */
  function Owned(links: seq<VaultLink>, uid: string): (r: seq<VaultLink>)
    ensures forall l :: l in r <==> l in links && l.userId == uid
    ensures multiset(r) <= multiset(links)
  {
    if links == [] then []
    else
      assert links == [links[0]] + links[1..];
      (if links[0].userId == uid then [links[0]] else []) + Owned(links[1..], uid)
  }

  /** Non-increasing in `createdAt`. */
  predicate NewestFirst(s: seq<VaultLink>)
  {
    forall i, j :: 0 <= i < j < |s| ==> s[i].createdAt >= s[j].createdAt
  }

  /** No element of `s` is newer than `t`. */
  predicate NoNewerThan(s: seq<VaultLink>, t: Time)
  {
    forall e :: e in s ==> e.createdAt <= t
  }

  /** A head no older than every element of a newest-first tail gives a newest-first sequence. */
  lemma ConsNewestFirst(h: VaultLink, t: seq<VaultLink>)
    requires NewestFirst(t) && NoNewerThan(t, h.createdAt)
    ensures NewestFirst([h] + t)
  {
    var r := [h] + t;
    forall i, j | 0 <= i < j < |r| ensures r[i].createdAt >= r[j].createdAt {
      assert r[j] == t[j - 1];
      if i > 0 {
        assert r[i] == t[i - 1];
      } else {
        assert r[j] in t;
      }
    }
  }

  /** In a newest-first sequence the head is no older than any element. */
  lemma HeadIsNewest(s: seq<VaultLink>)
    requires |s| > 0 && NewestFirst(s)
    ensures NoNewerThan(s, s[0].createdAt)
  {
    forall e | e in s ensures e.createdAt <= s[0].createdAt {
      var j :| 0 <= j < |s| && s[j] == e;
    }
  }

  /** Every element of what `Insert` builds is `x` or an element of `s`, hence bounded as they are. */
  lemma InsertBounded(x: VaultLink, s: seq<VaultLink>, r: seq<VaultLink>, t: Time)
    requires multiset(r) == multiset(s) + multiset{x}
    requires NoNewerThan(s, t) && x.createdAt <= t
    ensures NoNewerThan(r, t)
  {
    forall e | e in r ensures e.createdAt <= t {
      assert e in multiset(r);
    }
  }

  /**
   * Inserts `x` into a newest-first sequence, ahead of every element that is not newer than it,
   * so that among equal timestamps earlier insertions stay in front.
   */
  function Insert(x: VaultLink, s: seq<VaultLink>): (r: seq<VaultLink>)
    requires NewestFirst(s)
    ensures NewestFirst(r)
    ensures multiset(r) == multiset(s) + multiset{x}
    ensures |r| == |s| + 1
  {
    if s == [] then [x]
    else if s[0].createdAt <= x.createdAt then
      HeadIsNewest(s);
      ConsNewestFirst(x, s);
      [x] + s
    else
      var tail := s[1..];
      assert s == [s[0]] + tail;
      assert NewestFirst(tail);
      var rest := Insert(x, tail);
      HeadIsNewest(s);
      assert NoNewerThan(tail, s[0].createdAt);
      InsertBounded(x, tail, rest, s[0].createdAt);
      ConsNewestFirst(s[0], rest);
      [s[0]] + rest
  }

  /** The query's sort on `createdAt`, descending. */
  function SortNewestFirst(s: seq<VaultLink>): (r: seq<VaultLink>)
    ensures NewestFirst(r)
    ensures multiset(r) == multiset(s)
    ensures |r| == |s|
  {
    if s == [] then []
    else
      assert s == [s[0]] + s[1..];
      Insert(s[0], SortNewestFirst(s[1..]))
  }

  /** `sort("created_at", -1).to_list(ListLimit)` on the filtered links. */
  function Newest(s: seq<VaultLink>): (r: seq<VaultLink>)
    ensures NewestFirst(r)
    ensures |r| == if |s| <= ListLimit then |s| else ListLimit
    ensures multiset(r) <= multiset(s)
    ensures |s| <= ListLimit ==> multiset(r) == multiset(s)
  {
    var sorted := SortNewestFirst(s);
    if |sorted| <= ListLimit then sorted
    else
      SplitAt(sorted, ListLimit);
      sorted[..ListLimit]
  }

  /** The whole query: filter by owner, sort newest first, keep the first `ListLimit`. */
  function ListFor(links: seq<VaultLink>, uid: string): (r: seq<VaultLink>)
    ensures forall l :: l in r ==> l in links && l.userId == uid
    ensures NewestFirst(r)
    ensures |r| <= ListLimit
    ensures multiset(r) <= multiset(Owned(links, uid))
    ensures |Owned(links, uid)| <= ListLimit ==> multiset(r) == multiset(Owned(links, uid))
    ensures |Owned(links, uid)| > ListLimit ==> |r| == ListLimit
  {
    var r := Newest(Owned(links, uid));
    assert forall l :: l in r ==> l in multiset(Owned(links, uid));
    r
  }

  /** A sequence is its prefix followed by the rest, so the prefix holds part of its elements. */
  lemma SplitAt(s: seq<VaultLink>, n: nat)
    requires n <= |s|
    ensures multiset(s[..n]) + multiset(s[n..]) == multiset(s)
    ensures forall l :: l in s[..n] ==> l in s
  {
    assert s == s[..n] + s[n..];
  }

  /**
   * Truncation keeps the newest: every owned link that the cap leaves out is no newer than
   * every link the listing returns.
   */
  lemma ListKeepsNewest(links: seq<VaultLink>, uid: string, dropped: VaultLink, kept: VaultLink)
    requires dropped in multiset(Owned(links, uid)) - multiset(ListFor(links, uid))
    requires kept in ListFor(links, uid)
    ensures dropped.createdAt <= kept.createdAt
  {
    NewestKeepsNewest(Owned(links, uid), dropped, kept);
  }

  lemma NewestKeepsNewest(s: seq<VaultLink>, dropped: VaultLink, kept: VaultLink)
    requires dropped in multiset(s) - multiset(Newest(s))
    requires kept in Newest(s)
    ensures dropped.createdAt <= kept.createdAt
  {
    var sorted := SortNewestFirst(s);
    var r := sorted[..ListLimit];
    var rest := sorted[ListLimit..];
    assert |sorted| > ListLimit && Newest(s) == r;
    SplitAt(sorted, ListLimit);
    assert multiset(s) - multiset(r) == multiset(rest);
    PrefixNoOlder(sorted, ListLimit, dropped, kept);
  }

  /** In a newest-first sequence nothing after position `n` is newer than anything before it. */
  lemma PrefixNoOlder(sorted: seq<VaultLink>, n: nat, dropped: VaultLink, kept: VaultLink)
    requires NewestFirst(sorted) && n <= |sorted|
    requires dropped in sorted[n..] && kept in sorted[..n]
    ensures dropped.createdAt <= kept.createdAt
  {
    var j :| 0 <= j < |sorted[n..]| && sorted[n..][j] == dropped;
    var i :| 0 <= i < n && sorted[..n][i] == kept;
    assert sorted[i] == kept && sorted[n + j] == dropped;
  }

  /** Filtering distributes over concatenation. */
  lemma {:induction false} OwnedAppend(a: seq<VaultLink>, b: seq<VaultLink>, uid: string)
    ensures Owned(a + b, uid) == Owned(a, uid) + Owned(b, uid)
  {
    if a == [] {
      assert a + b == b;
    } else {
      assert (a + b)[1..] == a[1..] + b;
      OwnedAppend(a[1..], b, uid);
    }
  }

  /** Another user's new link never shows in, or changes, the caller's listing. */
  lemma ListIgnoresOthersInsert(links: seq<VaultLink>, l: VaultLink, uid: string)
    requires l.userId != uid
    ensures ListFor(links + [l], uid) == ListFor(links, uid)
  {
    OwnedAppend(links, [l], uid);
    assert Owned([l], uid) == [];
    assert Owned(links + [l], uid) == Owned(links, uid);
  }

  /** Removing another user's link does not change the caller's listing. */
  lemma ListIgnoresOthersRemoval(links: seq<VaultLink>, i: nat, uid: string)
    requires i < |links| && links[i].userId != uid
    ensures ListFor(links[..i] + links[i + 1..], uid) == ListFor(links, uid)
  {
    OwnedIgnoresRemoval(links, i, uid);
  }

  lemma OwnedIgnoresRemoval(links: seq<VaultLink>, i: nat, uid: string)
    requires i < |links| && links[i].userId != uid
    ensures Owned(links[..i] + links[i + 1..], uid) == Owned(links, uid)
  {
    var front, back := links[..i], links[i + 1..];
    calc {
      Owned(links, uid);
      == { assert links == front + ([links[i]] + back); }
      Owned(front + ([links[i]] + back), uid);
      == { OwnedAppend(front, [links[i]] + back, uid); }
      Owned(front, uid) + Owned([links[i]] + back, uid);
      == { assert ([links[i]] + back)[1..] == back; }
      Owned(front, uid) + Owned(back, uid);
      == { OwnedAppend(front, back, uid); }
      Owned(front + back, uid);
    }
  }

  /** A caller with no links who creates one then lists exactly that one. */
  lemma ListAfterFirstCreate(links: seq<VaultLink>, l: VaultLink)
    requires Owned(links, l.userId) == []
    ensures ListFor(links + [l], l.userId) == [l]
  {
    OwnedAppend(links, [l], l.userId);
    assert Owned([l], l.userId) == [l];
  }
}
