/** A Nostr relay as a paging client sees it, and the set arithmetic of walking
    its stored events backwards with `limit` and an inclusive `until`.

    The relay stores a fixed finite set of events. One answer is the newest
    events at or before `until`, as many as the smaller of the client's limit and
    a hidden cap of the relay's own. When a second holds more events than fit,
    the relay may choose among them, differently on every request. */
module StoredEvents {
  import opened Common

  /** An event id is its hex spelling read as a number: the spellings have one
      fixed width, so their order is the numeric one. */
  datatype Event = Event(id: nat, kind: nat, createdAt: nat)

  /** A page read through its end-of-stored-events mark, or a failed request. */
  datatype Answer = Page(events: seq<Event>) | Failed

  /** The answer to request number `n` with the wire value of `until`, where 0
      stands for a filter without `until`. */
  type Relay = (nat, nat) -> Answer

  function Min(a: nat, b: nat): nat {
    if a <= b then a else b
  }

  /** The events of `stored` a filter with this `until` matches. */
  ghost function Upto(stored: set<Event>, until: nat): set<Event> {
    if until == 0 then stored else set ev | ev in stored && ev.createdAt <= until
  }

  /** The events of `stored` stamped with second `t`. */
  ghost function At(stored: set<Event>, t: nat): set<Event> {
    set ev | ev in stored && ev.createdAt == t
  }

  ghost predicate OneSecond(stored: set<Event>) {
    forall a, b :: a in stored && b in stored ==> a.createdAt == b.createdAt
  }

  /** Some second holds at least a full answer of `k` stored events. */
  ghost predicate FullSecond(stored: set<Event>, k: nat) {
    exists t: nat :: |At(stored, t)| >= k
  }

  /** `page` is a choice of the `k` newest events of `matching`. */
  ghost predicate Newest(page: set<Event>, matching: set<Event>, k: nat) {
    && page <= matching
    && |page| == Min(k, |matching|)
    && forall a, b :: a in page && b in matching && b !in page ==> b.createdAt <= a.createdAt
  }

  ghost predicate HonestPage(events: seq<Event>, stored: set<Event>, until: nat, k: nat) {
    && |Elems(events)| == |events|
    && Newest(Elems(events), Upto(stored, until), k)
  }

  /** Every page of `relay` is honest about `stored` under the answer size `k`. */
  ghost predicate Serves(relay: Relay, stored: set<Event>, k: nat) {
    forall n: nat, until: nat {:trigger HonestPage(relay(n, until).events, stored, until, k)} ::
      relay(n, until).Page? ==> HonestPage(relay(n, until).events, stored, until, k)
  }

  /** Distinct ids, and stamps that `until` can name: 0 on the wire means no bound. */
  ghost predicate Storable(stored: set<Event>) {
    && (forall a, b :: a in stored && b in stored && a.id == b.id ==> a == b)
    && forall ev :: ev in stored ==> ev.createdAt >= 1
  }

  /** Every stored event that `seen` misses shares its second with more than `k`
      events, and `seen` holds at least `k` of them. */
  ghost predicate MissesOnlyOverfull(stored: set<Event>, seen: set<Event>, k: nat) {
    forall ev :: ev in stored && ev !in seen ==> |At(stored, ev.createdAt)| > k && |At(seen, ev.createdAt)| >= k
  }

  // ----- one page

  /** The smallest stamp of a page. */
  function OldestOf(page: seq<Event>): nat
    requires page != []
  {
    var last := page[|page| - 1].createdAt;
    if |page| == 1 then last else Min(OldestOf(page[..|page| - 1]), last)
  }

  lemma {:induction false} OldestOfPage(page: seq<Event>) returns (lowest: Event)
    requires page != []
    ensures lowest in Elems(page) && lowest.createdAt == OldestOf(page)
    ensures forall ev :: ev in Elems(page) ==> OldestOf(page) <= ev.createdAt
  {
    var last := page[|page| - 1];
    lowest := last;
    if |page| > 1 {
      var rest := page[..|page| - 1];
      assert page == rest + [last];
      var other := OldestOfPage(rest);
      lowest := if other.createdAt <= last.createdAt then other else last;
    }
  }

  // ----- the state of a walk

  /** Second `t` lies above the bound. */
  ghost predicate Passed(t: nat, until: nat) {
    until != 0 && t > until
  }

  /** Where a walk with bound `until` stands after seeing `seen`: everything seen
      is at or above the bound, and everything above the bound is seen, except in
      seconds that hold more than a full answer; of those a full answer is seen,
      and `flagged` says that such a second was stepped over. */
  ghost predicate Walked(stored: set<Event>, k: nat, seen: set<Event>, until: nat, flagged: bool) {
    && seen <= stored
    && (until == 0 ==> seen == {})
    && (forall ev :: ev in seen ==> ev.createdAt >= until)
    && (forall ev {:trigger Passed(ev.createdAt, until)} ::
          ev in stored && ev !in seen && Passed(ev.createdAt, until) ==>
          flagged && |At(stored, ev.createdAt)| > k && |At(seen, ev.createdAt)| >= k)
    && (forall t: nat {:trigger Passed(t, until)} :: Passed(t, until) && |At(stored, t)| >= k ==> flagged)
  }

  /** A page with something new moves the bound down to its oldest event. */
  lemma WalkFreshPage(stored: set<Event>, k: nat, seen: set<Event>, until: nat, flagged: bool,
                      page: set<Event>, oldest: Event)
    requires k >= 1 && Storable(stored)
    requires Walked(stored, k, seen, until, flagged)
    requires Newest(page, Upto(stored, until), k)
    requires oldest in page && forall ev :: ev in page ==> oldest.createdAt <= ev.createdAt
    ensures Walked(stored, k, seen + page, oldest.createdAt, flagged)
  {
    var seen', until' := seen + page, oldest.createdAt;
    forall ev | ev in stored && ev !in seen' && Passed(ev.createdAt, until')
      ensures flagged && |At(stored, ev.createdAt)| > k && |At(seen', ev.createdAt)| >= k
    {
      assert ev !in Upto(stored, until);
      assert Passed(ev.createdAt, until);
      assert At(seen, ev.createdAt) <= At(seen', ev.createdAt);
      SubsetSize(At(seen, ev.createdAt), At(seen', ev.createdAt));
    }
    forall t: nat | Passed(t, until') && |At(stored, t)| >= k
      ensures flagged
    {
      if !Passed(t, until) {
        assert At(stored, t) <= page - {oldest};
        SubsetSize(At(stored, t), page - {oldest});
      }
    }
  }

  /** Events a walk has already seen can only come back from the second of the bound. */
  lemma SeenPageIsOneSecond(stored: set<Event>, k: nat, seen: set<Event>, until: nat, flagged: bool, page: set<Event>)
    requires Walked(stored, k, seen, until, flagged)
    requires Newest(page, Upto(stored, until), k)
    requires page <= seen && page != {}
    ensures until != 0 && page <= At(stored, until)
    ensures |page| < k ==> page == Upto(stored, until)
  {
    var ev :| ev in page;
    if |page| < k {
      SubsetSize(page, Upto(stored, until));
    }
  }

  /** Passing a page of seen events leaves something behind only in an overfull second. */
  lemma SeenPageMisses(stored: set<Event>, k: nat, seen: set<Event>, until: nat, flagged: bool, page: set<Event>,
                       ev: Event)
    requires Walked(stored, k, seen, until, flagged)
    requires Newest(page, Upto(stored, until), k)
    requires page <= seen && page != {}
    requires ev in stored && ev !in seen && ev.createdAt >= until
    ensures |At(stored, ev.createdAt)| > k && |At(seen, ev.createdAt)| >= k
    ensures flagged || |page| == k
  {
    SeenPageIsOneSecond(stored, k, seen, until, flagged, page);
    if !Passed(ev.createdAt, until) {
      assert ev in Upto(stored, until);
      SubsetSize(page, At(seen, until));
      SubsetSize(page + {ev}, At(stored, until));
    }
  }

  /** After a page of seen events the walk may step past the second of the bound. */
  lemma WalkSeenPage(stored: set<Event>, k: nat, seen: set<Event>, until: nat, flagged: bool, page: set<Event>,
                     flagged': bool)
    requires k >= 1 && Storable(stored) && until >= 1
    requires Walked(stored, k, seen, until, flagged)
    requires Newest(page, Upto(stored, until), k)
    requires page <= seen && page != {}
    requires (flagged || |page| == k) ==> flagged'
    ensures until >= 2 ==> Walked(stored, k, seen, until - 1, flagged')
    ensures until == 1 ==> MissesOnlyOverfull(stored, seen, k)
  {
    SeenPageIsOneSecond(stored, k, seen, until, flagged, page);
    forall ev | ev in stored && ev !in seen && ev.createdAt >= until
      ensures flagged' && |At(stored, ev.createdAt)| > k && |At(seen, ev.createdAt)| >= k
    {
      SeenPageMisses(stored, k, seen, until, flagged, page, ev);
    }
    forall t: nat | t >= until && |At(stored, t)| >= k
      ensures flagged'
    {
      if !Passed(t, until) {
        SubsetSize(At(stored, t), Upto(stored, until));
      }
    }
  }

  /** The first answer to a client that has seen nothing. */
  lemma FirstPage(stored: set<Event>, k: nat, page: set<Event>)
    requires Newest(page, Upto(stored, 0), k)
    ensures |stored| >= k ==> |page| == k
    ensures |stored| <= k ==> page == stored
  {
    if |stored| <= k {
      SubsetSize(page, stored);
    }
  }

  /** An empty answer means that nothing is stored at or below the bound. */
  lemma EmptyPageEndsWalk(stored: set<Event>, k: nat, seen: set<Event>, until: nat, flagged: bool, page: set<Event>)
    requires k >= 1 && Walked(stored, k, seen, until, flagged)
    requires Newest(page, Upto(stored, until), k) && page == {}
    ensures Upto(stored, until) == {} && MissesOnlyOverfull(stored, seen, k)
    ensures !flagged ==> seen == stored && !FullSecond(stored, k)
  {
    forall ev | ev in stored
      ensures ev in seen || (flagged && |At(stored, ev.createdAt)| > k && |At(seen, ev.createdAt)| >= k)
      ensures |At(stored, ev.createdAt)| >= k ==> flagged
    {
      assert ev !in Upto(stored, until);
      assert Passed(ev.createdAt, until);
    }
    if FullSecond(stored, k) {
      var t: nat :| |At(stored, t)| >= k;
      assert At(stored, t) != {};
      var any :| any in At(stored, t);
    }
  }
}
