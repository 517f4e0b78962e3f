/**
 * Membership guards of the dashboard (app/dashboard/page.tsx).
 *
 * The user's mirror list of memberships is checked against the
 * community's own member documents; each listener callback records in
 * the guard map whether that member document still exists (`false` on a
 * read error). Memberships whose guard is exactly `false` are stale and
 * scheduled for cleanup; all others, including those not checked yet,
 * are shown.
 */
module MembershipGuards {

  /** A `users/{uid}/memberships/{communityId}` mirror document. */
  datatype Membership = Membership(communityId: string, name: string, inviteCode: string)

  /** `membershipGuards`: community id to "member document exists". */
  type Guards = map<string, bool>

  /** The listener's success callback: `{...prev, [communityId]: snap.exists()}`. */
  function OnSnapshot(prev: Guards, communityId: string, docExists: bool): (next: Guards)
    ensures next.Keys == prev.Keys + {communityId}
    ensures next[communityId] == docExists
    ensures forall id :: id in prev && id != communityId ==> next[id] == prev[id]
  {
    prev[communityId := docExists]
  }

  /** The listener's error callback: `{...prev, [communityId]: false}`. */
  function OnError(prev: Guards, communityId: string): (next: Guards)
    ensures next.Keys == prev.Keys + {communityId}
    ensures !next[communityId]
    ensures forall id :: id in prev && id != communityId ==> next[id] == prev[id]
  {
    prev[communityId := false]
  }

  /** `membershipGuards[m.communityId] === false`; a membership without a guard entry is not stale. */
  predicate IsStale(guards: Guards, m: Membership): (stale: bool)
    ensures m.communityId !in guards ==> !stale
    ensures m.communityId in guards ==> (stale <==> !guards[m.communityId])
  {
    m.communityId in guards && !guards[m.communityId]
  }

  /** `memberships.filter((m) => membershipGuards[m.communityId] === false)` */
  function Stale(ms: seq<Membership>, guards: Guards): (r: seq<Membership>)
    ensures |r| <= |ms|
  {
    if ms == [] then []
    else (if IsStale(guards, ms[0]) then [ms[0]] else []) + Stale(ms[1..], guards)
  }

  /** `memberships.filter((m) => membershipGuards[m.communityId] !== false)` */
  function Visible(ms: seq<Membership>, guards: Guards): (r: seq<Membership>)
    ensures |r| <= |ms|
  {
    if ms == [] then []
    else (if !IsStale(guards, ms[0]) then [ms[0]] else []) + Visible(ms[1..], guards)
  }

  /** Whether the "No communities yet" line is shown: it looks at the unfiltered list. */
  predicate ShowsNoCommunities(ms: seq<Membership>): (empty: bool)
    ensures empty ==> forall guards :: Visible(ms, guards) == [] && Stale(ms, guards) == []
  {
    |ms| == 0
  }

  /** The stale memberships are exactly the listed ones whose guard is `false`. */
  lemma {:induction false} StaleMembers(ms: seq<Membership>, guards: Guards, m: Membership)
    ensures m in Stale(ms, guards) <==> m in ms && IsStale(guards, m)
  {
    if ms != [] {
      StaleMembers(ms[1..], guards, m);
      assert ms == [ms[0]] + ms[1..];
    }
  }

  /** The visible memberships are exactly the listed ones whose guard is not `false`. */
  lemma {:induction false} VisibleMembers(ms: seq<Membership>, guards: Guards, m: Membership)
    ensures m in Visible(ms, guards) <==> m in ms && !IsStale(guards, m)
  {
    if ms != [] {
      VisibleMembers(ms[1..], guards, m);
      assert ms == [ms[0]] + ms[1..];
    }
  }

  /** Stale and visible memberships split the list: together they are the list, entry for entry. */
  lemma {:induction false} StaleVisiblePartition(ms: seq<Membership>, guards: Guards)
    ensures |Stale(ms, guards)| + |Visible(ms, guards)| == |ms|
    ensures multiset(Stale(ms, guards)) + multiset(Visible(ms, guards)) == multiset(ms)
  {
    if ms != [] {
      var h, t := ms[0], ms[1..];
      var s, v := Stale(ms, guards), Visible(ms, guards);
      var s', v' := Stale(t, guards), Visible(t, guards);
      StaleVisiblePartition(t, guards);
      assert ms == [h] + t;
      if IsStale(guards, h) {
        assert s == [h] + s' && v == v';
      } else {
        assert s == s' && v == [h] + v';
      }
    }
  }

  /** Every membership of the list is in exactly one of the two. */
  lemma StaleOrVisible(ms: seq<Membership>, guards: Guards, m: Membership)
    requires m in ms
    ensures m in Stale(ms, guards) <==> m !in Visible(ms, guards)
  {
    StaleMembers(ms, guards, m);
    VisibleMembers(ms, guards, m);
  }

  /** A membership without a guard entry is shown and not cleaned up. */
  lemma UncheckedIsVisible(ms: seq<Membership>, guards: Guards, m: Membership)
    requires m in ms && m.communityId !in guards
    ensures m in Visible(ms, guards) && m !in Stale(ms, guards)
  {
    StaleMembers(ms, guards, m);
    VisibleMembers(ms, guards, m);
  }

  /** A guard update for one community changes the classification of that community's memberships only. */
  lemma GuardUpdateEffect(ms: seq<Membership>, prev: Guards, communityId: string, docExists: bool, m: Membership)
    requires m in ms
    ensures var next := OnSnapshot(prev, communityId, docExists);
            m.communityId != communityId ==>
              && (m in Stale(ms, next) <==> m in Stale(ms, prev))
              && (m in Visible(ms, next) <==> m in Visible(ms, prev))
    ensures m.communityId == communityId ==>
              && (m in Visible(ms, OnSnapshot(prev, communityId, docExists)) <==> docExists)
              && m in Stale(ms, OnError(prev, communityId))
    ensures var failed := OnError(prev, communityId);
            m.communityId != communityId ==>
              && (m in Stale(ms, failed) <==> m in Stale(ms, prev))
              && (m in Visible(ms, failed) <==> m in Visible(ms, prev))
  {
    var next := OnSnapshot(prev, communityId, docExists);
    StaleMembers(ms, next, m);
    StaleMembers(ms, prev, m);
    VisibleMembers(ms, next, m);
    VisibleMembers(ms, prev, m);
    StaleMembers(ms, OnError(prev, communityId), m);
    VisibleMembers(ms, OnError(prev, communityId), m);
  }

  /** The empty-list line ignores the guards: when every membership is stale nothing is shown, not even that line. */
  lemma {:induction false} AllStaleShowsNothing(ms: seq<Membership>, guards: Guards)
    requires ms != []
    requires forall m :: m in ms ==> IsStale(guards, m)
    ensures Visible(ms, guards) == []
    ensures !ShowsNoCommunities(ms)
  {
    assert ms[0] in ms;
    if ms[1..] != [] {
      assert forall m :: m in ms[1..] ==> m in ms;
      AllStaleShowsNothing(ms[1..], guards);
    }
  }
}
