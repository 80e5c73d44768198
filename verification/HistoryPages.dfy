/** cmd/bahia-assistant-reencrypt/history.go: paging through what a relay stores when its answers
    may be shorter than asked for. What the read misses and what it reports is settled here. */
module HistoryPages {
  import opened Common
  import opened StoredEvents

  /** The outcome of a read: everything collected, the report that a second cannot
      be paged completely, or a failed request. */
  datatype Read = Events(events: seq<Event>) | Crowded(second: nat) | Broken

  /** `seen` holds the ids of exactly the collected events. */
  ghost predicate Indexes(seen: set<nat>, out: seq<Event>, stored: set<Event>) {
    && Elems(out) <= stored && |Elems(out)| == |out|
    && forall ev :: ev in stored ==> (ev.id in seen <==> ev in out)
  }

  lemma IndexOne(seen: set<nat>, out: seq<Event>, stored: set<Event>, ev: Event)
    requires Storable(stored) && Indexes(seen, out, stored) && ev in stored
    ensures ev.id in seen ==> Elems(out) + {ev} == Elems(out)
    ensures Elems(out + [ev]) == Elems(out) + {ev}
    ensures ev.id !in seen ==> Indexes(seen + {ev.id}, out + [ev], stored)
  {
    assert Elems(out + [ev]) == Elems(out) + {ev};
  }

  /** The ids seen and the events collected, after the events of one page. */
  function Collect(seen: set<nat>, out: seq<Event>, page: seq<Event>): (set<nat>, seq<Event>) {
    if page == [] then (seen, out)
    else
      var (seen', out') := Collect(seen, out, page[..|page| - 1]);
      var ev := page[|page| - 1];
      if ev.id in seen' then (seen', out') else (seen' + {ev.id}, out' + [ev])
  }

  lemma LastElement(page: seq<Event>)
    requires page != []
    ensures Elems(page) == Elems(page[..|page| - 1]) + {page[|page| - 1]}
  {
    assert page == page[..|page| - 1] + [page[|page| - 1]];
  }

  lemma {:induction false} CollectPage(seen: set<nat>, out: seq<Event>, page: seq<Event>, stored: set<Event>)
    requires Storable(stored) && Indexes(seen, out, stored) && Elems(page) <= stored
    ensures var (seen', out') := Collect(seen, out, page);
            && Indexes(seen', out', stored)
            && |out| <= |out'|
            && Elems(out') == Elems(out) + Elems(page)
  {
    if page == [] {
      assert Elems(out) + {} == Elems(out);
    } else {
      var rest, ev := page[..|page| - 1], page[|page| - 1];
      LastElement(page);
      CollectPage(seen, out, rest, stored);
      var (seen', out') := Collect(seen, out, rest);
      IndexOne(seen', out', stored, ev);
    }
  }

  /** Adds the events of one page that were not seen yet, in page order. */
  method Absorb(page: seq<Event>, seen: set<nat>, out: seq<Event>)
    returns (seen': set<nat>, out': seq<Event>, news: nat, oldest: nat)
    requires page != []
    ensures (seen', out') == Collect(seen, out, page)
    ensures news == |out'| - |out|
    ensures oldest == OldestOf(page)
  {
    seen', out', news, oldest := seen, out, 0, page[0].createdAt;
    for i := 0 to |page|
      invariant (seen', out') == Collect(seen, out, page[..i])
      invariant news == |out'| - |out|
      invariant oldest == if i == 0 then page[0].createdAt else OldestOf(page[..i])
    {
      var ev := page[i];
      assert page[..i + 1][..i] == page[..i];
      oldest := Min(oldest, ev.createdAt);
      if ev.id !in seen' {
        seen', out', news := seen' + {ev.id}, out' + [ev], news + 1;
      }
    }
    assert page[..|page|] == page;
  }

  /** The variables of the read loop beside the collected events. */
  datatype Cursor = Cursor(until: nat, largest: nat, capped: bool, lastShort: bool, crowded: nat, crowdedFull: bool)

  const START := Cursor(0, 0, false, false, 0, false)

  /** All that was seen is one answer from one second, and nothing is newer. */
  ghost predicate LoneAnswer(stored: set<Event>, k: nat, seen: set<Event>, c: Cursor) {
    && c.until + 1 == c.crowded && |seen| == k
    && (forall ev :: ev in stored ==> ev.createdAt <= c.crowded)
    && (forall ev :: ev in seen ==> ev.createdAt == c.crowded)
  }

  /** How the crowding flags relate to what a relay of answer size `k` stores,
      after `n` requests of which the first brought `first`. */
  ghost predicate Flags(stored: set<Event>, k: nat, pageLimit: nat, seen: set<Event>, first: set<Event>, n: nat,
                        c: Cursor)
  {
    && c.largest <= k <= pageLimit
    && (n == 0 ==> c == START)
    && (n > 0 ==>
          && c.until != 0 && Newest(first, stored, k) && first <= seen && c.largest >= |first|
          && (k < pageLimit ==> c.lastShort))
    && (c.capped ==> first != seen)
    && (c.crowdedFull ==> FullSecond(stored, k))
    && (c.crowded != 0 && |stored| >= k ==>
          |At(stored, c.crowded)| >= k && FullSecond(stored, k) && (k == pageLimit ==> c.crowdedFull))
    && (n > 0 && k < pageLimit && !c.capped ==> seen == first)
    && (c.crowded != 0 && k < pageLimit && !c.capped && |stored| >= k ==> LoneAnswer(stored, k, seen, c))
  }

  /** A page that brought something new, oldest first stamped `oldest`. */
  function FreshCursor(c: Cursor, size: nat, oldest: nat, pageLimit: nat): Cursor {
    Cursor(oldest, if c.largest < size then size else c.largest, c.capped || c.lastShort, size < pageLimit,
           c.crowded, c.crowdedFull)
  }

  /** A page that brought nothing new from the second `oldest`. */
  function SeenCursor(c: Cursor, size: nat, oldest: nat, pageLimit: nat): Cursor
    requires oldest >= 1
  {
    Cursor(oldest - 1, if c.largest < size then size else c.largest, c.capped, size < pageLimit,
           if size >= c.largest then oldest else c.crowded, c.crowdedFull || (size >= c.largest && size >= pageLimit))
  }

  function NextCursor(c: Cursor, size: nat, news: nat, oldest: nat, pageLimit: nat): Cursor
    requires news == 0 ==> oldest >= 1
  {
    if news > 0 then FreshCursor(c, size, oldest, pageLimit) else SeenCursor(c, size, oldest, pageLimit)
  }

  /** Moves the loop variables over a page of `size` events of which `news` were new. */
  method Advance(c: Cursor, size: nat, news: nat, oldest: nat, pageLimit: nat) returns (stop: bool, c': Cursor)
    ensures stop <==> news == 0 && oldest <= 1
    ensures !stop ==> c' == NextCursor(c, size, news, oldest, pageLimit)
  {
    var Cursor(_, largest, capped, lastShort, crowded, crowdedFull) := c;
    if news > 0 && lastShort {
      capped := true;
    }
    if news == 0 && size >= largest {
      crowded := oldest;
      crowdedFull := crowdedFull || size >= pageLimit;
    }
    lastShort := size < pageLimit;
    largest := if largest < size then size else largest;
    var next := oldest;
    if news == 0 {
      if oldest <= 1 {
        return true, c;
      }
      next := oldest - 1;
    }
    stop, c' := false, Cursor(next, largest, capped, lastShort, crowded, crowdedFull);
  }

  // ----- a read, request by request

  /** The read loop between two requests. */
  datatype State = State(seen: set<nat>, out: seq<Event>, c: Cursor)

  /** A page of events already seen that reaches second 1 or 0 ends the read. */
  predicate Bottoms(st: State, page: seq<Event>)
    requires page != []
  {
    |Collect(st.seen, st.out, page).1| <= |st.out| && OldestOf(page) <= 1
  }

  function Step(st: State, page: seq<Event>, pageLimit: nat): State
    requires page != [] && !Bottoms(st, page)
  {
    var (seen', out') := Collect(st.seen, st.out, page);
    var news := if |out'| >= |st.out| then |out'| - |st.out| else 0;
    State(seen', out', NextCursor(st.c, |page|, news, OldestOf(page), pageLimit))
  }

  predicate Goes(st: State, answer: Answer) {
    answer.Page? && answer.events != [] && !Bottoms(st, answer.events)
  }

  /** What the loop returns on an answer it does not go on from. */
  function Result(st: State, answer: Answer): Read {
    if answer.Failed? then Broken
    else if answer.events == [] then
      if st.c.crowded != 0 && (st.c.capped || st.c.crowdedFull) then Crowded(st.c.crowded) else Events(st.out)
    else Events(Collect(st.seen, st.out, answer.events).1)
  }

  /** The state of the loop after `n` requests. */
  function StateAt(relay: Relay, pageLimit: nat, n: nat): State {
    if n == 0 then State({}, [], START)
    else
      var st := StateAt(relay, pageLimit, n - 1);
      var answer := relay(n - 1, st.c.until);
      if Goes(st, answer) then Step(st, answer.events, pageLimit) else st
  }

  function AnswerAt(relay: Relay, pageLimit: nat, n: nat): Answer {
    relay(n, StateAt(relay, pageLimit, n).c.until)
  }

  predicate GoesAt(relay: Relay, pageLimit: nat, n: nat) {
    Goes(StateAt(relay, pageLimit, n), AnswerAt(relay, pageLimit, n))
  }

  /** The read issues exactly `n + 1` requests and returns `r`. */
  ghost predicate Ends(relay: Relay, pageLimit: nat, n: nat, r: Read) {
    && (forall m: nat :: m < n ==> GoesAt(relay, pageLimit, m))
    && !GoesAt(relay, pageLimit, n)
    && r == Result(StateAt(relay, pageLimit, n), AnswerAt(relay, pageLimit, n))
  }

  /** A read ends at one request only. */
  lemma EndsOnce(relay: Relay, pageLimit: nat, n: nat, r: Read, n': nat, r': Read)
    requires Ends(relay, pageLimit, n, r) && Ends(relay, pageLimit, n', r')
    ensures n == n' && r == r'
  {
    assert !(n < n') && !(n' < n);
  }

  // ----- what every read of an honest relay keeps

  lemma FlagsFreshPage(stored: set<Event>, k: nat, pageLimit: nat, seen: set<Event>, first: set<Event>, n: nat,
                       c: Cursor,
                       page: set<Event>, oldest: nat)
    requires Walked(stored, k, seen, c.until, c.crowded != 0) && oldest >= 1
    requires Flags(stored, k, pageLimit, seen, first, n, c)
    requires Newest(page, Upto(stored, c.until), k) && !(page <= seen)
    ensures Flags(stored, k, pageLimit, seen + page, if n == 0 then page else first, n + 1,
                  FreshCursor(c, |page|, oldest, pageLimit))
  {
    if n == 0 {
      assert seen + page == page;
    } else {
      assert seen + page != first;
    }
  }

  lemma FlagsSeenPage(stored: set<Event>, k: nat, pageLimit: nat, seen: set<Event>, first: set<Event>, n: nat,
                      c: Cursor,
                      page: set<Event>)
    requires Walked(stored, k, seen, c.until, c.crowded != 0) && n > 0 && c.until >= 2
    requires Flags(stored, k, pageLimit, seen, first, n, c)
    requires Newest(page, Upto(stored, c.until), k) && page <= seen && page != {}
    ensures Flags(stored, k, pageLimit, seen, first, n + 1, SeenCursor(c, |page|, c.until, pageLimit))
  {
    var until := c.until;
    SeenPageIsOneSecond(stored, k, seen, until, c.crowded != 0, page);
    var any :| any in page;
    SubsetSize(page, At(stored, until));
    if |page| >= c.largest && |stored| >= k {
      assert |page| == k;
      assert FullSecond(stored, k);
      if k < pageLimit && !c.capped {
        SubsetSize(page, first);
      }
    }
    if |page| >= pageLimit {
      assert FullSecond(stored, k);
    }
  }

  /** The invariant of the loop after `n` requests, the first of which brought `first`. */
  ghost predicate Reading(stored: set<Event>, k: nat, pageLimit: nat, first: set<Event>, n: nat, st: State) {
    var seen := Elems(st.out);
    && Indexes(st.seen, st.out, stored)
    && Walked(stored, k, seen, st.c.until, st.c.crowded != 0)
    && Flags(stored, k, pageLimit, seen, first, n, st.c)
    && n <= 2 * |st.out|
    && (At(seen, st.c.until) != {} ==> n < 2 * |st.out|)
  }

  lemma ReadFreshPage(stored: set<Event>, k: nat, pageLimit: nat, first: set<Event>, n: nat, st: State,
                      page: seq<Event>)
    requires k >= 1 && Storable(stored) && Reading(stored, k, pageLimit, first, n, st)
    requires page != [] && HonestPage(page, stored, st.c.until, k) && !(Elems(page) <= Elems(st.out))
    requires n == 0 ==> first == Elems(page)
    ensures !Bottoms(st, page) && |st.out| < |Step(st, page, pageLimit).out|
    ensures Reading(stored, k, pageLimit, first, n + 1, Step(st, page, pageLimit))
  {
    var seen, shown := Elems(st.out), Elems(page);
    CollectPage(st.seen, st.out, page, stored);
    var lowest := OldestOfPage(page);
    WalkFreshPage(stored, k, seen, st.c.until, st.c.crowded != 0, shown, lowest);
    FlagsFreshPage(stored, k, pageLimit, seen, first, n, st.c, shown, lowest.createdAt);
    SubsetSize(seen, seen + shown);
  }

  lemma {:induction false} SeenCollects(seen: set<nat>, out: seq<Event>, page: seq<Event>, stored: set<Event>)
    requires Indexes(seen, out, stored) && Elems(page) <= Elems(out)
    ensures Collect(seen, out, page) == (seen, out)
  {
    if page != [] {
      var rest, ev := page[..|page| - 1], page[|page| - 1];
      assert page == rest + [ev];
      assert ev in Elems(page);
      SeenCollects(seen, out, rest, stored);
    }
  }

  /** What a page of events already seen is. */
  lemma SeenPageFacts(stored: set<Event>, k: nat, pageLimit: nat, first: set<Event>, n: nat, st: State,
                      page: seq<Event>)
    requires k >= 1 && Storable(stored) && Reading(stored, k, pageLimit, first, n, st)
    requires page != [] && HonestPage(page, stored, st.c.until, k) && Elems(page) <= Elems(st.out)
    ensures Collect(st.seen, st.out, page) == (st.seen, st.out)
    ensures OldestOf(page) == st.c.until >= 1 && At(stored, st.c.until) != {}
    ensures n < 2 * |st.out|
  {
    SeenCollects(st.seen, st.out, page, stored);
    var lowest := OldestOfPage(page);
    SeenPageIsOneSecond(stored, k, Elems(st.out), st.c.until, st.c.crowded != 0, Elems(page));
    assert lowest in At(Elems(st.out), st.c.until);
    assert lowest in At(stored, st.c.until);
  }

  /** A page of events already seen: the bottom of the history, or one second further down. */
  lemma ReadSeenPage(stored: set<Event>, k: nat, pageLimit: nat, first: set<Event>, n: nat, st: State, page: seq<Event>)
    requires k >= 1 && Storable(stored) && Reading(stored, k, pageLimit, first, n, st)
    requires page != [] && HonestPage(page, stored, st.c.until, k) && Elems(page) <= Elems(st.out)
    ensures Collect(st.seen, st.out, page) == (st.seen, st.out) && n < 2 * |st.out|
    ensures Bottoms(st, page) ==> At(stored, 1) != {} && MissesOnlyOverfull(stored, Elems(st.out), k)
    ensures !Bottoms(st, page) ==>
      && Reading(stored, k, pageLimit, first, n + 1, Step(st, page, pageLimit))
      && Step(st, page, pageLimit).c.until < st.c.until
  {
    SeenPageFacts(stored, k, pageLimit, first, n, st, page);
    SeenPageEffect(stored, k, pageLimit, first, n, st, Elems(page));
  }

  lemma SeenPageEffect(stored: set<Event>, k: nat, pageLimit: nat, first: set<Event>, n: nat, st: State,
                       page: set<Event>)
    requires k >= 1 && Storable(stored) && Reading(stored, k, pageLimit, first, n, st)
    requires Newest(page, Upto(stored, st.c.until), k) && page <= Elems(st.out) && page != {}
    requires st.c.until >= 1 && n < 2 * |st.out|
    ensures st.c.until == 1 ==> MissesOnlyOverfull(stored, Elems(st.out), k)
    ensures st.c.until >= 2 ==>
      Reading(stored, k, pageLimit, first, n + 1,
              State(st.seen, st.out, SeenCursor(st.c, |page|, st.c.until, pageLimit)))
  {
    var seen, c := Elems(st.out), st.c;
    WalkSeenPage(stored, k, seen, c.until, c.crowded != 0, page, c.crowded != 0 || |page| >= c.largest);
    if c.until >= 2 {
      FlagsSeenPage(stored, k, pageLimit, seen, first, n, c, page);
      StepBack(stored, k, pageLimit, first, n, st, SeenCursor(c, |page|, c.until, pageLimit));
    }
  }

  lemma StepBack(stored: set<Event>, k: nat, pageLimit: nat, first: set<Event>, n: nat, st: State, c': Cursor)
    requires Reading(stored, k, pageLimit, first, n, st) && n < 2 * |st.out|
    requires c'.until + 1 == st.c.until
    requires Walked(stored, k, Elems(st.out), c'.until, c'.crowded != 0)
    requires Flags(stored, k, pageLimit, Elems(st.out), first, n + 1, c')
    ensures Reading(stored, k, pageLimit, first, n + 1, State(st.seen, st.out, c'))
  {
    assert At(Elems(st.out), c'.until) == {};
  }

  ghost function FirstAnswer(relay: Relay): set<Event> {
    if relay(0, 0).Page? then Elems(relay(0, 0).events) else {}
  }

  /** What is left has become less: more events are seen, or as many and `until` is lower. */
  predicate Further(st: State, st': State) {
    |st.out| < |st'.out| || (|st.out| == |st'.out| && st'.c.until < st.c.until)
  }

  /** A request that goes on keeps the invariant and leaves less to do. */
  lemma ReadOn(stored: set<Event>, k: nat, pageLimit: nat, first: set<Event>, n: nat, st: State, page: seq<Event>)
    requires k >= 1 && Storable(stored) && Reading(stored, k, pageLimit, first, n, st)
    requires HonestPage(page, stored, st.c.until, k) && Goes(st, Page(page)) && (n == 0 ==> first == Elems(page))
    ensures Reading(stored, k, pageLimit, first, n + 1, Step(st, page, pageLimit))
    ensures Further(st, Step(st, page, pageLimit))
    ensures |st.out| == |Step(st, page, pageLimit).out| ==> n < 2 * |st.out|
  {
    if Elems(page) <= Elems(st.out) {
      ReadSeenPage(stored, k, pageLimit, first, n, st, page);
    } else {
      ReadFreshPage(stored, k, pageLimit, first, n, st, page);
    }
  }

  lemma ReadStarts(stored: set<Event>, k: nat, pageLimit: nat, first: set<Event>)
    requires 1 <= k <= pageLimit
    ensures Reading(stored, k, pageLimit, first, 0, State({}, [], START))
  {
    assert At({}, 0) == {};
  }

  lemma ReadNext(relay: Relay, stored: set<Event>, k: nat, pageLimit: nat, n: nat)
    requires k >= 1 && Storable(stored) && Serves(relay, stored, k) && n > 0 && GoesAt(relay, pageLimit, n - 1)
    requires Reading(stored, k, pageLimit, FirstAnswer(relay), n - 1, StateAt(relay, pageLimit, n - 1))
    ensures Reading(stored, k, pageLimit, FirstAnswer(relay), n, StateAt(relay, pageLimit, n))
    ensures var st, st' := StateAt(relay, pageLimit, n - 1), StateAt(relay, pageLimit, n);
      Further(st, st') && (|st.out| == |st'.out| ==> n <= 2 * |st.out|)
  {
    var st := StateAt(relay, pageLimit, n - 1);
    assert HonestPage(relay(n - 1, st.c.until).events, stored, st.c.until, k);
    ReadOn(stored, k, pageLimit, FirstAnswer(relay), n - 1, st, relay(n - 1, st.c.until).events);
  }

  /** The invariant holds after every request of every read of an honest relay. */
  lemma {:induction false} AlwaysReading(relay: Relay, stored: set<Event>, k: nat, pageLimit: nat, n: nat)
    requires 1 <= k <= pageLimit && Storable(stored) && Serves(relay, stored, k)
    requires forall m: nat :: m < n ==> GoesAt(relay, pageLimit, m)
    ensures Reading(stored, k, pageLimit, FirstAnswer(relay), n, StateAt(relay, pageLimit, n))
  {
    if n == 0 {
      ReadStarts(stored, k, pageLimit, FirstAnswer(relay));
    } else {
      AlwaysReading(relay, stored, k, pageLimit, n - 1);
      ReadNext(relay, stored, k, pageLimit, n);
    }
  }

  /** Every request that is not the last brings something new, or lowers `until` after one that
      did. */
  lemma ReadProgress(relay: Relay, stored: set<Event>, k: nat, pageLimit: nat, n: nat)
    requires 1 <= k <= pageLimit && Storable(stored) && Serves(relay, stored, k)
    requires forall m: nat :: m <= n ==> GoesAt(relay, pageLimit, m)
    ensures var st, st' := StateAt(relay, pageLimit, n), StateAt(relay, pageLimit, n + 1);
      && n + 1 <= 2 * |st'.out| && |st'.out| <= |stored|
      && Further(st, st') && (|st.out| == |st'.out| ==> n < 2 * |st.out|)
  {
    AlwaysReading(relay, stored, k, pageLimit, n);
    ReadNext(relay, stored, k, pageLimit, n + 1);
    SubsetSize(Elems(StateAt(relay, pageLimit, n + 1).out), stored);
  }

  /** A history that lies in one second and is larger than one answer of a relay
      that caps its answers below the page limit. */
  ghost predicate Undetectable(stored: set<Event>, cap: nat, pageLimit: nat) {
    cap < pageLimit && OneSecond(stored) && |stored| > cap
  }

  /** What a read may claim when no stored event is stamped 1: it is complete, with
      every event once, except for an undetectable history, of which it holds one
      answer; it reports a crowded second exactly when some second holds a full answer of
      events, that family excepted; and the second it names is one. */
  ghost predicate Verdict(stored: set<Event>, cap: nat, pageLimit: nat, r: Read) {
    && (r.Events? && !Undetectable(stored, cap, pageLimit) ==> Elems(r.events) == stored)
    && (r.Events? && Elems(r.events) != stored ==> |r.events| == cap)
    && (r.Crowded? ==> |At(stored, r.second)| >= Min(pageLimit, cap))
    && (r.Events? && FullSecond(stored, Min(pageLimit, cap)) ==> cap < pageLimit && OneSecond(stored))
  }

  /** What the flags say about a walk that is over. */
  lemma FlagsVerdict(stored: set<Event>, cap: nat, pageLimit: nat, seen: set<Event>, first: set<Event>, n: nat,
                     c: Cursor)
    requires pageLimit >= 1 && cap >= 1 && seen <= stored
    requires Flags(stored, Min(pageLimit, cap), pageLimit, seen, first, n, c)
    requires n == 0 ==> stored == {}
    requires forall ev :: ev in stored ==> Passed(ev.createdAt, c.until)
    requires c.crowded == 0 ==> seen == stored && !FullSecond(stored, Min(pageLimit, cap))
    ensures c.crowded != 0 && (c.capped || c.crowdedFull) ==> |At(stored, c.crowded)| >= Min(pageLimit, cap)
    ensures !(c.crowded != 0 && (c.capped || c.crowdedFull)) ==>
              || (seen == stored && !FullSecond(stored, Min(pageLimit, cap)))
              || (cap < pageLimit && OneSecond(stored) && |seen| == cap)
  {
    var k := Min(pageLimit, cap);
    if n > 0 {
      FirstPage(stored, k, first);
      SubsetSize(first, seen);
      SubsetSize(seen, stored);
    }
    if |stored| < k {
      forall t: nat
        ensures |At(stored, t)| < k
      {
        SubsetSize(At(stored, t), stored);
      }
    }
  }

  /** An empty page ends the read: what it then claims. */
  lemma EmptyPageVerdict(stored: set<Event>, cap: nat, pageLimit: nat, first: set<Event>, n: nat, st: State)
    requires pageLimit >= 1 && cap >= 1 && Storable(stored)
    requires Reading(stored, Min(pageLimit, cap), pageLimit, first, n, st)
    requires HonestPage([], stored, st.c.until, Min(pageLimit, cap))
    ensures MissesOnlyOverfull(stored, Elems(st.out), Min(pageLimit, cap)) && At(stored, 1) == {}
    ensures Verdict(stored, cap, pageLimit, Result(st, Page([])))
  {
    var k, seen, c := Min(pageLimit, cap), Elems(st.out), st.c;
    EmptyPageEndsWalk(stored, k, seen, c.until, c.crowded != 0, Elems([]));
    forall ev | ev in stored
      ensures Passed(ev.createdAt, c.until)
    {
      assert ev !in Upto(stored, c.until);
    }
    FlagsVerdict(stored, cap, pageLimit, seen, first, n, c);
    SubsetSize(seen, stored);
  }

  /** The guarantees of a read, whatever the relay's cap and tie choices: it misses
      only events of seconds that hold more than one answer; the verdict is right
      unless an event is stamped 1, which silences the report; and it issues at most
      two requests per stored event and one more. */
  lemma ReadGuarantees(relay: Relay, stored: set<Event>, cap: nat, pageLimit: nat, n: nat, r: Read)
    requires pageLimit >= 1 && cap >= 1
    requires Storable(stored) && Serves(relay, stored, Min(pageLimit, cap))
    requires Ends(relay, pageLimit, n, r)
    ensures r.Events? ==> Elems(r.events) <= stored && |Elems(r.events)| == |r.events|
    ensures r.Events? ==> MissesOnlyOverfull(stored, Elems(r.events), Min(pageLimit, cap))
    ensures At(stored, 1) == {} ==> Verdict(stored, cap, pageLimit, r)
    ensures At(stored, 1) != {} ==> !r.Crowded?
    ensures r.Broken? <==> relay(n, StateAt(relay, pageLimit, n).c.until).Failed?
    ensures n + 1 <= 2 * |stored| + 1
  {
    var k := Min(pageLimit, cap);
    AlwaysReading(relay, stored, k, pageLimit, n);
    var st, answer := StateAt(relay, pageLimit, n), AnswerAt(relay, pageLimit, n);
    SubsetSize(Elems(st.out), stored);
    if answer.Page? {
      assert HonestPage(relay(n, st.c.until).events, stored, st.c.until, k);
      if answer.events == [] {
        EmptyPageVerdict(stored, cap, pageLimit, FirstAnswer(relay), n, st);
      } else if Elems(answer.events) <= Elems(st.out) {
        ReadSeenPage(stored, k, pageLimit, FirstAnswer(relay), n, st, answer.events);
      } else {
        ReadFreshPage(stored, k, pageLimit, FirstAnswer(relay), n, st, answer.events);
        assert false;
      }
    }
  }

  /** Every request of a read is answered. */
  ghost predicate Answers(relay: Relay) {
    forall n: nat, until: nat :: relay(n, until).Page?
  }

  /** An ordinary history: no second holds a full answer, and nothing is stamped 1. */
  ghost predicate Plain(stored: set<Event>, k: nat) {
    At(stored, 1) == {} && !FullSecond(stored, k)
  }

  /** A read gives up only for a reason: a request that was not answered, or a second that holds
      a full answer. So an ordinary history is read whole from every relay that answers. */
  lemma ReadsPlain(relay: Relay, stored: set<Event>, cap: nat, pageLimit: nat, n: nat, r: Read)
    requires pageLimit >= 1 && cap >= 1
    requires Storable(stored) && Serves(relay, stored, Min(pageLimit, cap))
    requires Ends(relay, pageLimit, n, r)
    ensures r.Broken? ==> !Answers(relay)
    ensures r.Crowded? ==> FullSecond(stored, Min(pageLimit, cap))
    ensures Answers(relay) && Plain(stored, Min(pageLimit, cap)) ==> r.Events? && Elems(r.events) == stored
  {
    ReadGuarantees(relay, stored, cap, pageLimit, n, r);
    if OneSecond(stored) && |stored| > cap {
      var any :| any in stored;
      assert At(stored, any.createdAt) == stored;
    }
  }

  /** The paging loop, with what its result means for the events stored. */
  method Pages(relay: Relay, pageLimit: nat, ghost stored: set<Event>, ghost cap: nat)
    returns (r: Read, requests: nat)
    requires pageLimit >= 1 && cap >= 1
    requires Storable(stored) && Serves(relay, stored, Min(pageLimit, cap))
    ensures requests >= 1 && Ends(relay, pageLimit, requests - 1, r)
    ensures r.Events? ==> Elems(r.events) <= stored && |Elems(r.events)| == |r.events|
    ensures r.Events? ==> MissesOnlyOverfull(stored, Elems(r.events), Min(pageLimit, cap))
    ensures At(stored, 1) == {} ==> Verdict(stored, cap, pageLimit, r)
    ensures r.Broken? ==> !Answers(relay)
    ensures r.Crowded? ==> FullSecond(stored, Min(pageLimit, cap))
    ensures Answers(relay) && Plain(stored, Min(pageLimit, cap)) ==> r.Events? && Elems(r.events) == stored
    ensures requests <= 2 * |stored| + 1
  {
    var seen: set<nat> := {};
    var out: seq<Event> := [];
    var c := START;
    requests := 0;
    while true
      invariant State(seen, out, c) == StateAt(relay, pageLimit, requests)
      invariant forall m: nat :: m < requests ==> GoesAt(relay, pageLimit, m)
      invariant |out| <= |stored| && requests <= 2 * |out|
      decreases |stored| - |out|, 2 * |out| - requests
    {
      var answer := relay(requests, c.until);
      if answer.Failed? {
        r := Broken;
        break;
      }
      var page := answer.events;
      if |page| == 0 {
        if c.crowded != 0 && (c.capped || c.crowdedFull) {
          r := Crowded(c.crowded);
        } else {
          r := Events(out);
        }
        break;
      }
      var news, oldest, stop;
      seen, out, news, oldest := Absorb(page, seen, out);
      stop, c := Advance(c, |page|, news, oldest, pageLimit);
      if stop {
        r := Events(out);
        break;
      }
      ReadProgress(relay, stored, Min(pageLimit, cap), pageLimit, requests);
      requests := requests + 1;
    }
    ReadGuarantees(relay, stored, cap, pageLimit, requests, r);
    ReadsPlain(relay, stored, cap, pageLimit, requests, r);
    requests := requests + 1;
  }

  /** The first three requests succeed and the second one repeats the first answer. */
  ghost predicate Repeats(relay: Relay, second: nat) {
    && second >= 2
    && relay(0, 0).Page? && relay(1, second).Page? && relay(2, second - 1).Page?
    && Elems(relay(1, second).events) == Elems(relay(0, 0).events)
  }

  lemma RepeatFirst(relay: Relay, stored: set<Event>, cap: nat, pageLimit: nat, t: nat) returns (st: State)
    requires pageLimit >= 1 && cap >= 1 && Storable(stored) && Serves(relay, stored, cap)
    requires Undetectable(stored, cap, pageLimit) && At(stored, t) == stored && Repeats(relay, t)
    ensures GoesAt(relay, pageLimit, 0) && st == StateAt(relay, pageLimit, 1)
    ensures Indexes(st.seen, st.out, stored) && |st.out| == cap && Elems(st.out) == Elems(relay(0, 0).events)
    ensures st.c == Cursor(t, cap, false, true, 0, false)
  {
    var first := relay(0, 0).events;
    assert HonestPage(relay(0, 0).events, stored, 0, cap);
    var oldest := OldestOfPage(first);
    assert oldest in At(stored, t);
    CollectPage({}, [], first, stored);
    assert Elems([]) + Elems(first) == Elems(first);
    assert StateAt(relay, pageLimit, 0) == State({}, [], START);
    st := StateAt(relay, pageLimit, 1);
  }

  lemma RepeatSecond(relay: Relay, stored: set<Event>, cap: nat, pageLimit: nat, t: nat, st: State)
    requires pageLimit >= 1 && cap >= 1 && Serves(relay, stored, cap)
    requires Undetectable(stored, cap, pageLimit) && At(stored, t) == stored && Repeats(relay, t)
    requires st == StateAt(relay, pageLimit, 1)
    requires Indexes(st.seen, st.out, stored) && |st.out| == cap && Elems(st.out) == Elems(relay(0, 0).events)
    requires st.c == Cursor(t, cap, false, true, 0, false)
    ensures GoesAt(relay, pageLimit, 1)
    ensures StateAt(relay, pageLimit, 2) == State(st.seen, st.out, Cursor(t - 1, cap, false, true, t, false))
  {
    var again := relay(1, t).events;
    assert HonestPage(relay(1, t).events, stored, t, cap);
    assert again != [];
    var oldest := OldestOfPage(again);
    assert oldest in At(stored, t);
    SeenCollects(st.seen, st.out, again, stored);
    assert !Bottoms(st, again);
    assert AnswerAt(relay, pageLimit, 1) == Page(again);
  }

  lemma RepeatThird(relay: Relay, stored: set<Event>, cap: nat, t: nat)
    requires cap >= 1 && Serves(relay, stored, cap) && At(stored, t) == stored && Repeats(relay, t)
    ensures relay(2, t - 1) == Page([])
  {
    assert HonestPage(relay(2, t - 1).events, stored, t - 1, cap);
    assert Upto(stored, t - 1) == {} by {
      forall ev | ev in stored
        ensures ev !in Upto(stored, t - 1)
      {
        assert ev in At(stored, t);
      }
    }
  }

  /** A relay that repeats its answer is read short: the loop ends at the third
      request with one answer and no error. */
  lemma RepeatedAnswerIsReadShort(relay: Relay, stored: set<Event>, cap: nat, pageLimit: nat, t: nat)
    requires pageLimit >= 1 && cap >= 1
    requires Storable(stored) && Serves(relay, stored, Min(pageLimit, cap))
    requires Undetectable(stored, cap, pageLimit) && At(stored, t) == stored && Repeats(relay, t)
    ensures Ends(relay, pageLimit, 2, Result(StateAt(relay, pageLimit, 2), AnswerAt(relay, pageLimit, 2)))
    ensures var r := Result(StateAt(relay, pageLimit, 2), AnswerAt(relay, pageLimit, 2));
            r.Events? && |r.events| == cap && Elems(r.events) != stored
  {
    var st := RepeatFirst(relay, stored, cap, pageLimit, t);
    RepeatSecond(relay, stored, cap, pageLimit, t, st);
    RepeatThird(relay, stored, cap, t);
  }

  /** `k` events of a set, as a list. */
  lemma {:induction false} Choose(events: set<Event>, k: nat) returns (chosen: seq<Event>)
    requires k <= |events|
    ensures Elems(chosen) <= events && |chosen| == k == |Elems(chosen)|
    decreases k
  {
    if k == 0 {
      chosen := [];
    } else {
      assert events != {};
      var ev :| ev in events;
      var rest := Choose(events - {ev}, k - 1);
      chosen := rest + [ev];
      assert Elems(chosen) == Elems(rest) + {ev};
    }
  }

  /** Every undetectable history has an honest relay that reads it short. */
  lemma FoolingRelay(stored: set<Event>, cap: nat, pageLimit: nat, t: nat) returns (relay: Relay)
    requires Storable(stored) && At(stored, t) == stored && t != 1 && cap >= 1
    requires Undetectable(stored, cap, pageLimit)
    ensures Serves(relay, stored, Min(pageLimit, cap)) && Repeats(relay, t)
    ensures exists r :: Ends(relay, pageLimit, 2, r) && r.Events? && |r.events| == cap && Elems(r.events) != stored
  {
    var any :| any in stored;
    assert any in At(stored, t);
    var answer := Choose(stored, cap);
    relay := (n, until) => Page(if until == 0 || until >= t then answer else []);
    forall n: nat, until: nat
      ensures HonestPage(relay(n, until).events, stored, until, cap)
    {
      if until == 0 || until >= t {
        assert Upto(stored, until) == stored;
      } else {
        assert Upto(stored, until) == {};
      }
    }
    RepeatedAnswerIsReadShort(relay, stored, cap, pageLimit, t);
  }
}
