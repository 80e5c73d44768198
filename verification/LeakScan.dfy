/** cmd/bahia-leak-delete/scan.go: what a scan of a relay finds, and when it may say so. */
module LeakScan {
  import opened Common
  import opened StoredEvents
  import Sorting

  datatype Status = Complete | Incomplete

  datatype Scan = Scan(status: Status, truncated: bool, pages: nat, events: seq<Event>)

  /** Newest first, then by id. */
  predicate Newer(a: Event, b: Event) {
    if a.createdAt != b.createdAt then a.createdAt > b.createdAt else a.id < b.id
  }

  /** `seen` maps ids to stored events of those ids. */
  ghost predicate Indexed(seen: map<nat, Event>, stored: set<Event>) {
    forall id :: id in seen ==> seen[id] in stored && seen[id].id == id
  }

  /** What is seen after a page. */
  function Merge(seen: map<nat, Event>, page: seq<Event>): map<nat, Event> {
    if page == [] then seen
    else
      var seen' := Merge(seen, page[..|page| - 1]);
      var ev := page[|page| - 1];
      if ev.id in seen' then seen' else seen'[ev.id := ev]
  }

  lemma {:induction false} MergePage(seen: map<nat, Event>, page: seq<Event>, stored: set<Event>)
    requires Storable(stored) && Indexed(seen, stored) && Elems(page) <= stored
    ensures Indexed(Merge(seen, page), stored)
    ensures Merge(seen, page).Values == seen.Values + Elems(page)
  {
    if page == [] {
      assert Elems(page) == {};
    } else {
      var rest, ev := page[..|page| - 1], page[|page| - 1];
      assert page == rest + [ev];
      assert Elems(page) == Elems(rest) + {ev};
      MergePage(seen, rest, stored);
      var seen' := Merge(seen, rest);
      MergeOne(seen', ev, stored);
      assert Merge(seen, page).Values == seen'.Values + {ev};
    }
  }

  lemma {:induction false} MergeGrows(seen: map<nat, Event>, page: seq<Event>)
    ensures |seen| <= |Merge(seen, page)| && (|Merge(seen, page)| == |seen| ==> Merge(seen, page) == seen)
  {
    if page != [] {
      MergeGrows(seen, page[..|page| - 1]);
    }
  }

  lemma MergeOne(seen: map<nat, Event>, ev: Event, stored: set<Event>)
    requires Storable(stored) && Indexed(seen, stored) && ev in stored
    ensures ev.id in seen ==> seen.Values == seen.Values + {ev}
    ensures ev.id !in seen ==> seen[ev.id := ev].Values == seen.Values + {ev}
  {
    if ev.id in seen {
      assert seen[ev.id] == ev;
    } else {
      var seen' := seen[ev.id := ev];
      forall e | e in seen.Values + {ev}
        ensures e in seen'.Values
      {
        if e in seen.Values {
          var id :| id in seen && seen[id] == e;
          assert id in seen' && seen'[id] == e;
        } else {
          assert ev.id in seen';
        }
      }
    }
  }

  lemma {:induction false} ValuesSize(seen: map<nat, Event>, stored: set<Event>)
    requires Indexed(seen, stored)
    ensures |seen.Values| == |seen|
    decreases |seen|
  {
    if seen == map[] {
      assert seen.Values == {};
    } else {
      var id :| id in seen;
      var rest := seen - {id};
      assert seen.Keys == rest.Keys + {id};
      ValuesSize(rest, stored);
      assert seen[id] !in rest.Values;
      assert seen.Values == rest.Values + {seen[id]};
    }
  }

  /** The oldest stamp of a page as the loop tracks it, 0 standing for none yet. */
  function Lowest(page: seq<Event>): nat {
    if page == [] then 0
    else
      var oldest, last := Lowest(page[..|page| - 1]), page[|page| - 1].createdAt;
      if oldest == 0 || last < oldest then last else oldest
  }

  lemma {:induction false} LowestIsOldest(page: seq<Event>)
    requires page != [] && forall ev :: ev in page ==> ev.createdAt >= 1
    ensures Lowest(page) == OldestOf(page)
  {
    if |page| > 1 {
      var rest := page[..|page| - 1];
      LowestIsOldest(rest);
      var low := OldestOfPage(rest);
      assert low in page;
    }
  }

  /** No event is newer than the filter asked for. */
  predicate InBound(page: seq<Event>, until: nat) {
    forall i :: 0 <= i < |page| && until != 0 ==> page[i].createdAt <= until
  }

  /** Checks one page against `until` and adds what is new in it. */
  method Admit(page: seq<Event>, until: nat, seen: map<nat, Event>)
    returns (ok: bool, seen': map<nat, Event>, news: nat, oldest: nat)
    ensures ok <==> InBound(page, until)
    ensures ok ==> seen' == Merge(seen, page) && |seen'| == |seen| + news && oldest == Lowest(page)
  {
    ok, seen', news, oldest := true, seen, 0, 0;
    for i := 0 to |page|
      invariant InBound(page[..i], until)
      invariant seen' == Merge(seen, page[..i]) && |seen'| == |seen| + news
      invariant oldest == Lowest(page[..i])
    {
      var ev := page[i];
      if until != 0 && ev.createdAt > until {
        ok := false;
        return;
      }
      assert page[..i + 1][..i] == page[..i];
      if oldest == 0 || ev.createdAt < oldest {
        oldest := ev.createdAt;
      }
      if ev.id !in seen' {
        seen', news := seen'[ev.id := ev], news + 1;
      }
    }
    assert page[..|page|] == page;
  }

  /** The invariant of the scan loop after `n` pages. */
  ghost predicate Scanning(stored: set<Event>, k: nat, seen: set<Event>, until: nat, largest: nat, truncated: bool,
                           n: nat)
  {
    && Walked(stored, k, seen, until, truncated)
    && (n == 0 <==> until == 0) && (n == 0 ==> !truncated && largest == 0)
    && largest <= k
    && (n > 0 ==> largest == Min(k, |stored|) && (|stored| < k ==> seen == stored))
    && (truncated ==> AllAlarms(stored, k))
    && n <= 2 * |seen|
    && (n > 0 && !truncated ==> At(seen, until) != {})
    && (At(seen, until) != {} ==> n < 2 * |seen|)
  }

  /** When a scan says that it may be incomplete: a second holds a full answer, or
      everything stored lies in one second. */
  ghost predicate AllAlarms(stored: set<Event>, k: nat) {
    stored != {} && (OneSecond(stored) || FullSecond(stored, k))
  }

  lemma ScanFreshPage(stored: set<Event>, k: nat, seen: set<Event>, until: nat, largest: nat, truncated: bool, n: nat,
                      page: set<Event>, lowest: Event)
    requires k >= 1 && Storable(stored) && Scanning(stored, k, seen, until, largest, truncated, n)
    requires Newest(page, Upto(stored, until), k) && !(page <= seen)
    requires lowest in page && forall ev :: ev in page ==> lowest.createdAt <= ev.createdAt
    ensures Scanning(stored, k, seen + page, lowest.createdAt, if largest < |page| then |page| else largest,
                     truncated, n + 1)
    ensures |seen| < |seen + page|
  {
    WalkFreshPage(stored, k, seen, until, truncated, page, lowest);
    SubsetSize(seen, seen + page);
    SubsetSize(page, stored);
    assert lowest in At(seen + page, lowest.createdAt);
    if n == 0 {
      FirstPage(stored, k, page);
      assert seen + page == page;
    }
  }

  lemma ScanSeenPage(stored: set<Event>, k: nat, seen: set<Event>, until: nat, largest: nat, truncated: bool, n: nat,
                     page: set<Event>)
    requires k >= 1 && Storable(stored) && Scanning(stored, k, seen, until, largest, truncated, n)
    requires Newest(page, Upto(stored, until), k) && page <= seen && page != {}
    ensures n < 2 * |seen| && until >= 1
    ensures |page| >= largest && until >= 2 ==> Scanning(stored, k, seen, until - 1, largest, true, n + 1)
    ensures until == 1 ==> At(stored, 1) != {} && MissesOnlyOverfull(stored, seen, k)
  {
    SeenPageIsOneSecond(stored, k, seen, until, truncated, page);
    var any :| any in page;
    assert any in At(seen, until) && any in At(stored, until);
    WalkSeenPage(stored, k, seen, until, truncated, page, true);
    assert until >= 2 ==> At(seen, until - 1) == {};
    if |page| >= largest {
      if |stored| >= k {
        SubsetSize(page, At(stored, until));
        assert FullSecond(stored, k);
      } else {
        SubsetSize(page, stored);
      }
    }
  }

  /** To stop at a short page that brings nothing is right. */
  lemma ScanShortPage(stored: set<Event>, k: nat, seen: set<Event>, until: nat, largest: nat, truncated: bool, n: nat,
                      page: set<Event>)
    requires k >= 1 && Storable(stored) && Scanning(stored, k, seen, until, largest, truncated, n)
    requires Newest(page, Upto(stored, until), k) && page <= seen && page != {} && |page| < largest
    ensures MissesOnlyOverfull(stored, seen, k) && (!truncated ==> seen == stored)
    ensures truncated <==> AllAlarms(stored, k)
  {
    SeenPageIsOneSecond(stored, k, seen, until, truncated, page);
    forall ev | ev in stored && ev !in seen
      ensures truncated && |At(stored, ev.createdAt)| > k && |At(seen, ev.createdAt)| >= k
    {
      assert ev !in Upto(stored, until);
      assert Passed(ev.createdAt, until);
    }
    if FullSecond(stored, k) {
      var t: nat :| |At(stored, t)| >= k;
      if !Passed(t, until) {
        SubsetSize(At(stored, t), Upto(stored, until));
      }
    }
    OlderAndNewer(stored, until, page);
  }

  /** If a bound cuts some events off, they do not all share a second. */
  lemma OlderAndNewer(stored: set<Event>, until: nat, page: set<Event>)
    requires until != 0 && page == Upto(stored, until) && page != {} && |page| < |stored|
    ensures !OneSecond(stored)
  {
    var older :| older in page;
    assert |stored| == |page| + |stored - page| by { assert page + (stored - page) == stored; }
    assert stored - page != {};
    var newer :| newer in stored - page;
    assert older.createdAt != newer.createdAt;
  }

  lemma ScanEmptyPage(stored: set<Event>, k: nat, seen: set<Event>, until: nat, largest: nat, truncated: bool, n: nat,
                      page: set<Event>)
    requires k >= 1 && Storable(stored) && Scanning(stored, k, seen, until, largest, truncated, n)
    requires Newest(page, Upto(stored, until), k) && page == {}
    ensures MissesOnlyOverfull(stored, seen, k) && (!truncated ==> seen == stored)
    ensures truncated <==> AllAlarms(stored, k)
  {
    EmptyPageEndsWalk(stored, k, seen, until, truncated, page);
    if n > 0 {
      assert At(seen, until) <= Upto(stored, until);
    }
  }

  /** What holds when a scan ends with `complete`. */
  ghost predicate Finished(stored: set<Event>, k: nat, seen: set<Event>, truncated: bool) {
    && MissesOnlyOverfull(stored, seen, k)
    && (At(stored, 1) == {} ==> (!truncated ==> seen == stored) && (truncated <==> AllAlarms(stored, k)))
  }

  /** A page of seen events ends the scan rightly, or one second further down the invariant
      holds again. */
  lemma ScanSeenOrEnd(stored: set<Event>, k: nat, seen: set<Event>, until: nat, largest: nat, truncated: bool, n: nat,
                      page: set<Event>)
    requires k >= 1 && Storable(stored) && Scanning(stored, k, seen, until, largest, truncated, n)
    requires Newest(page, Upto(stored, until), k) && page <= seen && page != {}
    ensures until >= 1
    ensures if |page| < largest || until <= 1 then Finished(stored, k, seen, truncated)
            else Scanning(stored, k, seen, until - 1, largest, true, n + 1)
  {
    ScanSeenPage(stored, k, seen, until, largest, truncated, n, page);
    if |page| < largest {
      ScanShortPage(stored, k, seen, until, largest, truncated, n, page);
    }
  }

  /** What merging one answer does. */
  lemma MergedPage(stored: set<Event>, k: nat, seen: map<nat, Event>, until: nat, page: seq<Event>)
    requires Storable(stored) && Indexed(seen, stored) && HonestPage(page, stored, until, k)
    ensures forall ev :: ev in page ==> ev.createdAt >= 1 && (until != 0 ==> ev.createdAt <= until)
    ensures Indexed(Merge(seen, page), stored) && |seen.Values| == |seen|
    ensures Merge(seen, page).Values == seen.Values + Elems(page) && |Merge(seen, page)| <= |stored|
    ensures |Merge(seen, page)| == |seen| <==> Elems(page) <= seen.Values
    ensures |Merge(seen, page)| == |seen| ==> Merge(seen, page) == seen
  {
    var found, shown, seen' := seen.Values, Elems(page), Merge(seen, page);
    assert forall ev :: ev in page ==> ev in shown;
    MergePage(seen, page, stored);
    ValuesSize(seen, stored);
    ValuesSize(seen', stored);
    SubsetSize(found, found + shown);
    SubsetSize(found + shown, stored);
    assert shown <= found ==> found + shown == found;
    MergeGrows(seen, page);
  }

  lemma RangeOne(rest: map<nat, Event>, id: nat)
    requires id in rest
    ensures |rest - {id}| + 1 == |rest|
    ensures rest.Values == (rest - {id}).Values + {rest[id]}
  {
    var less := rest - {id};
    assert rest.Keys == less.Keys + {id};
    forall ev | ev in rest.Values
      ensures ev in less.Values + {rest[id]}
    {
      var i :| i in rest && rest[i] == ev;
      assert i == id || i in less;
    }
    forall ev | ev in less.Values
      ensures ev in rest.Values
    {
      var i :| i in less && less[i] == ev;
      assert i in rest;
    }
    assert rest[id] in rest.Values;
  }

  /** The events of a map, in whatever order it is ranged over. */
  method Ranged(seen: map<nat, Event>) returns (events: seq<Event>)
    ensures Elems(events) == seen.Values && |events| == |seen|
  {
    events := [];
    var rest := seen;
    while rest != map[]
      invariant forall ev :: ev in seen.Values <==> ev in Elems(events) || ev in rest.Values
      invariant |events| + |rest| == |seen|
      decreases |rest|
    {
      var id :| id in rest;
      RangeOne(rest, id);
      assert Elems(events + [rest[id]]) == Elems(events) + {rest[id]};
      events, rest := events + [rest[id]], rest - {id};
    }
    assert rest.Values == {};
  }

  /** The map's events in the order the scan reports them. */
  method Listed(seen: map<nat, Event>, ghost stored: set<Event>) returns (events: seq<Event>)
    requires Storable(stored) && Indexed(seen, stored)
    ensures Elems(events) == seen.Values && |Elems(events)| == |events|
    ensures Sorting.Sorted(events, Newer)
  {
    var unsorted := Ranged(seen);
    ValuesSize(seen, stored);
    assert forall ev :: ev in unsorted ==> ev in Elems(unsorted);
    events := Sorting.Sort(unsorted, Newer);
    Sorting.SortSorts(unsorted, Newer);
    assert forall ev :: ev in events <==> ev in multiset(unsorted);
    assert Elems(events) == Elems(unsorted);
  }

  // ----- a scan, request by request

  /** The scan loop between two requests. */
  datatype State = State(seen: map<nat, Event>, until: nat, largestPage: nat, truncated: bool)

  predicate Goes(st: State, answer: Answer) {
    && answer.Page? && answer.events != [] && InBound(answer.events, st.until)
    && (|Merge(st.seen, answer.events)| != |st.seen| || (|answer.events| >= st.largestPage && st.until > 1))
  }

  function Step(st: State, page: seq<Event>): State
    requires Goes(st, Page(page))
  {
    var seen' := Merge(st.seen, page);
    if |seen'| == |st.seen| then State(seen', st.until - 1, st.largestPage, true)
    else State(seen', Lowest(page), if st.largestPage < |page| then |page| else st.largestPage, st.truncated)
  }

  /** The state of the loop after `n` requests. */
  function StateAt(relay: Relay, n: nat): State {
    if n == 0 then State(map[], 0, 0, false)
    else
      var st := StateAt(relay, n - 1);
      var answer := relay(n - 1, st.until);
      if Goes(st, answer) then Step(st, answer.events) else st
  }

  predicate GoesAt(relay: Relay, n: nat) {
    Goes(StateAt(relay, n), relay(n, StateAt(relay, n).until))
  }

  ghost predicate InScan(stored: set<Event>, k: nat, n: nat, st: State) {
    Indexed(st.seen, stored) && Scanning(stored, k, st.seen.Values, st.until, st.largestPage, st.truncated, n)
  }

  lemma StepSeen(stored: set<Event>, k: nat, n: nat, st: State, page: seq<Event>, st': State)
    requires k >= 1 && Storable(stored) && InScan(stored, k, n, st) && HonestPage(page, stored, st.until, k)
    requires page != [] && Elems(page) <= st.seen.Values && |page| >= st.largestPage && st.until > 1
    requires st'.seen == st.seen && st'.until == st.until - 1 && st'.largestPage == st.largestPage && st'.truncated
    ensures InScan(stored, k, n + 1, st')
  {
    assert page[0] in Elems(page);
    ScanSeenOrEnd(stored, k, st.seen.Values, st.until, st.largestPage, st.truncated, n, Elems(page));
  }

  lemma StepFresh(stored: set<Event>, k: nat, n: nat, st: State, page: seq<Event>)
    requires k >= 1 && Storable(stored) && InScan(stored, k, n, st) && HonestPage(page, stored, st.until, k)
    requires page != [] && |Merge(st.seen, page)| != |st.seen|
    ensures var largest := if st.largestPage < |page| then |page| else st.largestPage;
      InScan(stored, k, n + 1, State(Merge(st.seen, page), Lowest(page), largest, st.truncated))
  {
    MergedPage(stored, k, st.seen, st.until, page);
    LowestIsOldest(page);
    var lowest := OldestOfPage(page);
    ScanFreshPage(stored, k, st.seen.Values, st.until, st.largestPage, st.truncated, n, Elems(page), lowest);
  }

  lemma StepEmpty(stored: set<Event>, k: nat, n: nat, st: State, page: seq<Event>)
    requires k >= 1 && Storable(stored) && InScan(stored, k, n, st) && HonestPage(page, stored, st.until, k)
    requires page == []
    ensures Finished(stored, k, Merge(st.seen, page).Values, st.truncated)
  {
    ScanEmptyPage(stored, k, st.seen.Values, st.until, st.largestPage, st.truncated, n, Elems(page));
  }

  lemma ScanStep(stored: set<Event>, k: nat, n: nat, st: State, page: seq<Event>)
    requires k >= 1 && Storable(stored) && InScan(stored, k, n, st)
    requires HonestPage(page, stored, st.until, k) && Goes(st, Page(page))
    ensures InScan(stored, k, n + 1, Step(st, page))
  {
    MergedPage(stored, k, st.seen, st.until, page);
    if |Merge(st.seen, page)| == |st.seen| {
      StepSeen(stored, k, n, st, page, Step(st, page));
    } else {
      StepFresh(stored, k, n, st, page);
    }
  }

  /** An honest answer the scan does not go on from ends it rightly. */
  lemma StepEnds(stored: set<Event>, k: nat, n: nat, st: State, page: seq<Event>)
    requires k >= 1 && Storable(stored) && InScan(stored, k, n, st)
    requires HonestPage(page, stored, st.until, k) && !Goes(st, Page(page))
    ensures InBound(page, st.until) && Indexed(Merge(st.seen, page), stored)
    ensures Finished(stored, k, Merge(st.seen, page).Values, st.truncated)
  {
    MergedPage(stored, k, st.seen, st.until, page);
    assert forall i :: 0 <= i < |page| ==> page[i] in page;
    if page == [] {
      StepEmpty(stored, k, n, st, page);
    } else {
      assert page[0] in Elems(page);
      ScanSeenOrEnd(stored, k, st.seen.Values, st.until, st.largestPage, st.truncated, n, Elems(page));
    }
  }

  /** The invariant holds after every request of every scan of an honest relay. */
  lemma {:induction false} AlwaysScanning(relay: Relay, stored: set<Event>, k: nat, n: nat)
    requires k >= 1 && Storable(stored) && Serves(relay, stored, k)
    requires forall m: nat :: m < n ==> GoesAt(relay, m)
    ensures InScan(stored, k, n, StateAt(relay, n))
  {
    if n == 0 {
      assert At({}, 0) == {};
      assert StateAt(relay, 0).seen.Values == {};
    } else {
      AlwaysScanning(relay, stored, k, n - 1);
      assert GoesAt(relay, n - 1);
      var st := StateAt(relay, n - 1);
      assert HonestPage(relay(n - 1, st.until).events, stored, st.until, k);
      ScanStep(stored, k, n - 1, st, relay(n - 1, st.until).events);
    }
  }

  /** What is left has become less: more events are seen, or as many and `until` is lower. */
  predicate Further(st: State, st': State) {
    |st.seen| < |st'.seen| || (|st.seen| == |st'.seen| && st'.until < st.until)
  }

  lemma GoesFurther(st: State, page: seq<Event>)
    requires Goes(st, Page(page))
    ensures Further(st, Step(st, page))
  {
    MergeGrows(st.seen, page);
  }

  /** Each request that goes on leaves less to do, and there are at most two per event. */
  lemma ScanProgress(relay: Relay, stored: set<Event>, k: nat, n: nat)
    requires k >= 1 && Storable(stored) && Serves(relay, stored, k)
    requires forall m: nat :: m < n ==> GoesAt(relay, m)
    ensures Indexed(StateAt(relay, n).seen, stored)
    ensures |StateAt(relay, n).seen| <= |stored| && n <= 2 * |StateAt(relay, n).seen|
    ensures n > 0 ==> Further(StateAt(relay, n - 1), StateAt(relay, n))
  {
    AlwaysScanning(relay, stored, k, n);
    if n > 0 {
      assert GoesAt(relay, n - 1);
      GoesFurther(StateAt(relay, n - 1), relay(n - 1, StateAt(relay, n - 1).until).events);
    }
    ValuesSize(StateAt(relay, n).seen, stored);
    SubsetSize(StateAt(relay, n).seen.Values, stored);
  }

  /** The answer to request `m` showed this event. */
  ghost predicate ShownAt(relay: Relay, m: nat, ev: Event) {
    relay(m, StateAt(relay, m).until).Page? && ev in relay(m, StateAt(relay, m).until).events
  }

  ghost predicate Shown(relay: Relay, n: nat, ev: Event) {
    exists m: nat :: m < n && ShownAt(relay, m, ev)
  }

  lemma ShownMore(relay: Relay, n: nat, ev: Event)
    ensures Shown(relay, n + 1, ev) <==> Shown(relay, n, ev) || ShownAt(relay, n, ev)
  {
    if Shown(relay, n, ev) {
      var m: nat :| m < n && ShownAt(relay, m, ev);
      assert m < n + 1;
    }
  }

  lemma MergedIsShown(seen: map<nat, Event>, page: seq<Event>, stored: set<Event>, ev: Event)
    requires Storable(stored) && Indexed(seen, stored) && Elems(page) <= stored
    ensures ev in Merge(seen, page).Values <==> ev in seen.Values || ev in page
  {
    MergePage(seen, page, stored);
    assert ev in page <==> ev in Elems(page);
  }

  lemma ShownNext(relay: Relay, stored: set<Event>, k: nat, n: nat, st: State, ev: Event)
    requires Storable(stored) && Serves(relay, stored, k) && Indexed(st.seen, stored) && st == StateAt(relay, n)
    requires relay(n, st.until).Page? && (ev in st.seen.Values <==> Shown(relay, n, ev))
    ensures ev in Merge(st.seen, relay(n, st.until).events).Values <==> Shown(relay, n + 1, ev)
  {
    ShownMore(relay, n, ev);
    assert HonestPage(relay(n, st.until).events, stored, st.until, k);
    MergedIsShown(st.seen, relay(n, st.until).events, stored, ev);
  }

  lemma StepMerges(relay: Relay, n: nat)
    requires GoesAt(relay, n)
    ensures var st := StateAt(relay, n);
      relay(n, st.until).Page? && StateAt(relay, n + 1).seen == Merge(st.seen, relay(n, st.until).events)
  {
  }

  lemma AlwaysIndexed(relay: Relay, stored: set<Event>, k: nat, n: nat)
    requires k >= 1 && Storable(stored) && Serves(relay, stored, k)
    requires forall m: nat :: m < n ==> GoesAt(relay, m)
    ensures Indexed(StateAt(relay, n).seen, stored)
  {
    AlwaysScanning(relay, stored, k, n);
  }

  lemma SeenNext(relay: Relay, stored: set<Event>, k: nat, n: nat, ev: Event)
    requires Storable(stored) && Serves(relay, stored, k) && n > 0 && GoesAt(relay, n - 1)
    requires Indexed(StateAt(relay, n - 1).seen, stored)
    requires ev in StateAt(relay, n - 1).seen.Values <==> Shown(relay, n - 1, ev)
    ensures ev in StateAt(relay, n).seen.Values <==> Shown(relay, n, ev)
  {
    StepMerges(relay, n - 1);
    ShownNext(relay, stored, k, n - 1, StateAt(relay, n - 1), ev);
  }

  /** What is seen is exactly what the answers so far showed. */
  lemma {:induction false} SeenIsShown(relay: Relay, stored: set<Event>, k: nat, n: nat, ev: Event)
    requires k >= 1 && Storable(stored) && Serves(relay, stored, k)
    requires forall m: nat :: m < n ==> GoesAt(relay, m)
    ensures ev in StateAt(relay, n).seen.Values <==> Shown(relay, n, ev)
  {
    if n == 0 {
      assert StateAt(relay, 0).seen.Values == {};
    } else {
      SeenIsShown(relay, stored, k, n - 1, ev);
      AlwaysIndexed(relay, stored, k, n - 1);
      SeenNext(relay, stored, k, n, ev);
    }
  }

  /** The scan made these requests, one page each, and the last one failed. */
  ghost predicate LastFailed(relay: Relay, pages: nat) {
    && pages >= 1 && relay(pages - 1, StateAt(relay, pages - 1).until).Failed?
    && forall m: nat :: m + 1 < pages ==> GoesAt(relay, m)
  }

  /** What a scan may claim when it ends. */
  ghost predicate Claims(relay: Relay, stored: set<Event>, k: nat, status: Status, truncated: bool, pages: nat,
                         seen: map<nat, Event>)
  {
    && Indexed(seen, stored)
    && (status.Incomplete? <==> LastFailed(relay, pages))
    && (status.Complete? ==> Finished(stored, k, seen.Values, truncated))
    && (truncated ==> AllAlarms(stored, k))
    && pages <= 2 * |stored| + 1
  }

  /** It holds what the answers showed, and nothing else. */
  ghost predicate Reports(relay: Relay, pages: nat, seen: map<nat, Event>) {
    forall ev :: ev in seen.Values <==> Shown(relay, pages, ev)
  }

  /** The guarantees at the request a scan ends with. */
  lemma ScanGuarantees(relay: Relay, stored: set<Event>, k: nat, n: nat)
    requires k >= 1 && Storable(stored) && Serves(relay, stored, k)
    requires forall m: nat :: m < n ==> GoesAt(relay, m)
    requires !GoesAt(relay, n)
    ensures var (st, answer) := (StateAt(relay, n), relay(n, StateAt(relay, n).until));
            if answer.Failed? then Claims(relay, stored, k, Incomplete, st.truncated, n + 1, st.seen)
            else
              && InBound(answer.events, st.until)
              && Claims(relay, stored, k, Complete, st.truncated, n + 1, Merge(st.seen, answer.events))
  {
    AlwaysScanning(relay, stored, k, n);
    ScanProgress(relay, stored, k, n);
    var st := StateAt(relay, n);
    if relay(n, st.until).Page? {
      var page := relay(n, st.until).events;
      assert HonestPage(relay(n, st.until).events, stored, st.until, k);
      StepEnds(stored, k, n, st, page);
    }
  }

  /** What the loop is left with on an answer it does not go on from. */
  ghost predicate Leaves(st: State, answer: Answer, status: Status, seen: map<nat, Event>) {
    if answer.Failed? then status == Incomplete && seen == st.seen
    else if InBound(answer.events, st.until) then status == Complete && seen == Merge(st.seen, answer.events)
    else status == Incomplete
  }

  /** One turn of the loop. */
  method Turn(answer: Answer, st: State) returns (goes: bool, status: Status, st': State)
    ensures goes <==> Goes(st, answer)
    ensures goes ==> st' == Step(st, answer.events)
    ensures !goes ==> st'.truncated == st.truncated && Leaves(st, answer, status, st'.seen)
  {
    if answer.Failed? {
      return false, Incomplete, st;
    }
    var State(seen, until, largestPage, truncated) := st;
    var page := answer.events;
    var ok, news, oldest;
    ok, seen, news, oldest := Admit(page, until, seen);
    if !ok {
      return false, Incomplete, State(seen, until, largestPage, truncated);
    }
    if |page| == 0 {
      return false, Complete, State(seen, until, largestPage, truncated);
    }
    if news == 0 {
      if |page| < largestPage || until <= 1 {
        return false, Complete, State(seen, until, largestPage, truncated);
      }
      truncated := true;
      until := until - 1;
    } else {
      largestPage := if largestPage < |page| then |page| else largestPage;
      until := oldest;
    }
    return true, Complete, State(seen, until, largestPage, truncated);
  }

  lemma NextState(relay: Relay, n: nat, st: State)
    requires st == StateAt(relay, n) && Goes(st, relay(n, st.until))
    ensures GoesAt(relay, n) && StateAt(relay, n + 1) == Step(st, relay(n, st.until).events)
  {
  }

  lemma LeavesRightly(relay: Relay, stored: set<Event>, k: nat, n: nat, st: State, status: Status,
                      seen: map<nat, Event>)
    requires k >= 1 && Storable(stored) && Serves(relay, stored, k)
    requires forall m: nat :: m < n ==> GoesAt(relay, m)
    requires st == StateAt(relay, n) && !Goes(st, relay(n, st.until)) && Leaves(st, relay(n, st.until), status, seen)
    ensures Claims(relay, stored, k, status, st.truncated, n + 1, seen)
  {
    ScanGuarantees(relay, stored, k, n);
  }

  /** What a scan that ends at request `n` reports. */
  lemma LeavesShown(relay: Relay, stored: set<Event>, k: nat, n: nat, st: State, status: Status, seen: map<nat, Event>)
    requires k >= 1 && Storable(stored) && Serves(relay, stored, k)
    requires forall m: nat :: m < n ==> GoesAt(relay, m)
    requires st == StateAt(relay, n) && Leaves(st, relay(n, st.until), status, seen)
    ensures Reports(relay, n + 1, seen)
  {
    AlwaysIndexed(relay, stored, k, n);
    forall ev
      ensures ev in seen.Values <==> Shown(relay, n + 1, ev)
    {
      SeenIsShown(relay, stored, k, n, ev);
      if relay(n, st.until).Page? {
        ShownNext(relay, stored, k, n, st, ev);
        assert HonestPage(relay(n, st.until).events, stored, st.until, k);
        MergedPage(stored, k, st.seen, st.until, relay(n, st.until).events);
      } else {
        ShownMore(relay, n, ev);
      }
    }
  }

  lemma ScanBound(relay: Relay, stored: set<Event>, k: nat, n: nat)
    requires k >= 1 && Storable(stored) && Serves(relay, stored, k)
    requires forall m: nat :: m < n ==> GoesAt(relay, m)
    ensures n <= 2 * |stored|
  {
    ScanProgress(relay, stored, k, n);
  }

  /** The scan ends at request `n` with these results. */
  ghost predicate Ended(relay: Relay, n: nat, status: Status, truncated: bool, seen: map<nat, Event>) {
    && (forall m: nat :: m < n ==> GoesAt(relay, m))
    && var st := StateAt(relay, n);
    !Goes(st, relay(n, st.until)) && Leaves(st, relay(n, st.until), status, seen) && truncated == st.truncated
  }

  lemma EndedRightly(relay: Relay, stored: set<Event>, k: nat, n: nat, status: Status, truncated: bool,
                     seen: map<nat, Event>)
    requires k >= 1 && Storable(stored) && Serves(relay, stored, k) && Ended(relay, n, status, truncated, seen)
    ensures Claims(relay, stored, k, status, truncated, n + 1, seen)
  {
    LeavesRightly(relay, stored, k, n, StateAt(relay, n), status, seen);
  }

  lemma EndedShown(relay: Relay, stored: set<Event>, k: nat, n: nat, status: Status, truncated: bool,
                   seen: map<nat, Event>)
    requires k >= 1 && Storable(stored) && Serves(relay, stored, k) && Ended(relay, n, status, truncated, seen)
    ensures Reports(relay, n + 1, seen)
  {
    LeavesShown(relay, stored, k, n, StateAt(relay, n), status, seen);
  }

  /** The paging loop of a scan. */
  method Walk(relay: Relay, ghost stored: set<Event>, ghost k: nat)
    returns (status: Status, truncated: bool, pages: nat, seen: map<nat, Event>)
    requires k >= 1 && Storable(stored) && Serves(relay, stored, k)
    ensures pages >= 1 && Ended(relay, pages - 1, status, truncated, seen)
  {
    var st, goes, next := State(map[], 0, 0, false), true, State(map[], 0, 0, false);
    pages := 0;
    while true
      invariant st == StateAt(relay, pages)
      invariant forall m: nat :: m < pages ==> GoesAt(relay, m)
      decreases 2 * |stored| - pages
    {
      goes, status, next := Turn(relay(pages, st.until), st);
      if !goes {
        return status, next.truncated, pages + 1, next.seen;
      }
      NextState(relay, pages, st);
      pages, st := pages + 1, next;
      ScanBound(relay, stored, k, pages);
    }
  }

  /** What the paging loop ends with is true. */
  method ScanPages(relay: Relay, ghost stored: set<Event>, ghost k: nat)
    returns (status: Status, truncated: bool, pages: nat, seen: map<nat, Event>)
    requires k >= 1 && Storable(stored) && Serves(relay, stored, k)
    ensures pages >= 1 && Claims(relay, stored, k, status, truncated, pages, seen)
    ensures Reports(relay, pages, seen)
  {
    status, truncated, pages, seen := Walk(relay, stored, k);
    EndedRightly(relay, stored, k, pages - 1, status, truncated, seen);
    EndedShown(relay, stored, k, pages - 1, status, truncated, seen);
  }

  /** The newest come first, those of one second by id. */
  ghost predicate NewestFirst(events: seq<Event>) {
    forall i, j :: 0 <= i < j < |events| ==>
      && events[i].createdAt >= events[j].createdAt
      && (events[i].createdAt == events[j].createdAt ==> events[i].id <= events[j].id)
  }

  lemma SortedNewest(events: seq<Event>)
    requires Sorting.Sorted(events, Newer)
    ensures NewestFirst(events)
  {
    forall i, j | 0 <= i < j < |events|
      ensures !Newer(events[j], events[i])
    {
    }
  }

  /** Scans one relay.

      A complete scan misses only events of seconds that hold more than one answer.
      If nothing is stamped 1, a complete scan that does not say `truncated` holds
      every stored event once, and it says `truncated` exactly when a second holds a
      full answer or everything stored lies in one second. */
  method ScanRelay(relay: Relay, pageLimit: nat, ghost stored: set<Event>, ghost cap: nat) returns (scan: Scan)
    requires pageLimit >= 1 && cap >= 1
    requires Storable(stored) && Serves(relay, stored, Min(pageLimit, cap))
    ensures Elems(scan.events) <= stored && |Elems(scan.events)| == |scan.events|
    ensures forall ev :: ev in scan.events <==> Shown(relay, scan.pages, ev)
    ensures Sorting.Sorted(scan.events, Newer) && NewestFirst(scan.events)
    ensures scan.status.Incomplete? <==> LastFailed(relay, scan.pages)
    ensures scan.status.Complete? ==> MissesOnlyOverfull(stored, Elems(scan.events), Min(pageLimit, cap))
    ensures scan.status.Complete? && At(stored, 1) == {} && !scan.truncated ==> Elems(scan.events) == stored
    ensures scan.status.Complete? && At(stored, 1) == {} ==>
      (scan.truncated <==> AllAlarms(stored, Min(pageLimit, cap)))
    ensures scan.truncated ==> AllAlarms(stored, Min(pageLimit, cap))
    ensures 1 <= scan.pages <= 2 * |stored| + 1
  {
    var status, truncated, pages, seen := ScanPages(relay, stored, Min(pageLimit, cap));
    var events := Listed(seen, stored);
    SortedNewest(events);
    scan := Scan(status, truncated, pages, events);
  }

  /** A scan that says `truncated` and holds everything: one event, and a relay that answers
      with one at a time. */
  method TruncatedWhole(ev: Event) returns (scan: Scan)
    requires ev.createdAt >= 2
    ensures scan.status.Complete? && scan.truncated && scan.events == [ev]
  {
    var relay: Relay := (n, until) => Page(if until == 0 || until >= ev.createdAt then [ev] else []);
    ghost var stored := {ev};
    OneEventServed(relay, ev);
    scan := ScanRelay(relay, 1, stored, 1);
    OneEventScanned(scan.events, ev);
  }

  lemma OneEventServed(relay: Relay, ev: Event)
    requires ev.createdAt >= 2
    requires forall n: nat, until: nat ::
      relay(n, until) == Page(if until == 0 || until >= ev.createdAt then [ev] else [])
    ensures Storable({ev}) && Serves(relay, {ev}, 1) && At({ev}, 1) == {} && AllAlarms({ev}, 1)
  {
    assert Elems([ev]) == {ev};
    forall n: nat, until: nat
      ensures HonestPage(relay(n, until).events, {ev}, until, 1)
    {
      if until == 0 || until >= ev.createdAt {
        assert Upto({ev}, until) == {ev};
      } else {
        assert Upto({ev}, until) == {};
      }
    }
  }

  lemma OneEventScanned(events: seq<Event>, ev: Event)
    requires Elems(events) <= {ev} && |Elems(events)| == |events| && MissesOnlyOverfull({ev}, Elems(events), 1)
    ensures events == [ev]
  {
    SubsetSize(At({ev}, ev.createdAt), {ev});
    assert ev in Elems(events);
    assert Elems(events) == {ev};
  }
}
