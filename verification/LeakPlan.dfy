/** cmd/bahia-leak-delete/report.go and delete.go: which deletion requests the
    scanned events still need. */
module LeakPlan {
  import opened Common
  import opened StoredEvents
  import Sorting

  datatype Tag = E(id: nat) | K(kind: nat) | Other(name: string)

  /** A NIP-09 deletion request. */
  datatype Request = Request(author: string, createdAt: nat, tags: seq<Tag>)

  datatype Deletion = Deletion(request: Request, targets: seq<Event>)

  /** What the last scan of a relay found. */
  datatype RelayScan = RelayScan(relay: string, events: seq<Event>)

  // ----- what the report names

  function Scanned(scans: seq<RelayScan>): seq<Event> {
    if scans == [] then [] else Scanned(scans[..|scans| - 1]) + scans[|scans| - 1].events
  }

  function Targeted(deletions: seq<Deletion>): seq<Event> {
    if deletions == [] then [] else Targeted(deletions[..|deletions| - 1]) + deletions[|deletions| - 1].targets
  }

  /** The events by id; a later mention wins. */
  function ById(events: seq<Event>): map<nat, Event> {
    if events == [] then map[]
    else ById(events[..|events| - 1])[events[|events| - 1].id := events[|events| - 1]]
  }

  function Targets(scans: seq<RelayScan>, deletions: seq<Deletion>): map<nat, Event> {
    ById(Scanned(scans) + Targeted(deletions))
  }

  ghost function IdsOf(events: seq<Event>): set<nat> {
    set ev | ev in events :: ev.id
  }

  /** How often each id is mentioned. */
  ghost function IdBag(events: seq<Event>): multiset<nat> {
    if events == [] then multiset{} else IdBag(events[..|events| - 1]) + multiset{events[|events| - 1].id}
  }

  lemma {:induction false} ByIdEvents(events: seq<Event>)
    ensures ById(events).Keys == IdsOf(events)
    ensures forall id :: id in ById(events) ==> ById(events)[id] in events && ById(events)[id].id == id
  {
    if events != [] {
      var rest, last := events[..|events| - 1], events[|events| - 1];
      assert events == rest + [last];
      ByIdEvents(rest);
      assert IdsOf(events) == IdsOf(rest) + {last.id};
    }
  }

  /** The event of an id is its last mention. */
  lemma {:induction false} LastMention(events: seq<Event>, k: nat)
    requires k < |events| && forall m :: k < m < |events| ==> events[m].id != events[k].id
    ensures events[k].id in ById(events) && ById(events)[events[k].id] == events[k]
  {
    var n := |events| - 1;
    if k < n {
      LastMention(events[..n], k);
    }
  }

  lemma {:induction false} BagIds(events: seq<Event>)
    ensures forall id :: id in IdBag(events) <==> id in IdsOf(events)
  {
    if events != [] {
      var rest, last := events[..|events| - 1], events[|events| - 1];
      assert events == rest + [last];
      BagIds(rest);
      assert IdsOf(events) == IdsOf(rest) + {last.id};
    }
  }

  lemma {:induction false} BagConcat(a: seq<Event>, b: seq<Event>)
    ensures IdBag(a + b) == IdBag(a) + IdBag(b)
  {
    if b == [] {
      assert a + b == a;
    } else {
      var rest, last := b[..|b| - 1], b[|b| - 1];
      assert (a + b)[..|a + b| - 1] == a + rest;
      BagConcat(a, rest);
    }
  }

  lemma {:induction false} TargetedConcat(a: seq<Deletion>, b: seq<Deletion>)
    ensures Targeted(a + b) == Targeted(a) + Targeted(b)
  {
    if b == [] {
      assert a + b == a;
    } else {
      assert (a + b)[..|a + b| - 1] == a + b[..|b| - 1];
      TargetedConcat(a, b[..|b| - 1]);
    }
  }

  /** A list of every element of a set, each once. */
  ghost function Listing(events: set<Event>): (s: seq<Event>)
    ensures multiset(s) == multiset(events)
  {
    if events == {} then []
    else
      var ev :| ev in events;
      Listing(events - {ev}) + [ev]
  }

  /** Lists of distinct events with distinct ids mention each id once. */
  lemma {:induction false} BagOfSet(order: seq<Event>, events: set<Event>)
    requires multiset(order) == multiset(events)
    requires forall a, b :: a in events && b in events && a.id == b.id ==> a == b
    ensures IdBag(order) == multiset(set ev | ev in events :: ev.id)
  {
    if order == [] {
      assert |multiset(events)| == 0;
      assert events == {};
    } else {
      var rest, last := order[..|order| - 1], order[|order| - 1];
      assert order == rest + [last];
      assert last in multiset(events);
      WithoutOne(events, last);
      BagOfSet(rest, events - {last});
    }
  }

  lemma WithoutOne(events: set<Event>, last: Event)
    requires last in events
    requires forall a, b :: a in events && b in events && a.id == b.id ==> a == b
    ensures multiset(events - {last}) == multiset(events) - multiset{last}
    ensures multiset(set ev | ev in events :: ev.id)
      == multiset(set ev | ev in events - {last} :: ev.id) + multiset{last.id}
  {
    var ids, ids' := (set ev | ev in events :: ev.id), (set ev | ev in events - {last} :: ev.id);
    assert last.id !in ids';
    assert ids == ids' + {last.id};
  }

  // ----- requests

  function KindsOf(targets: seq<Event>): seq<nat> {
    if targets == [] then []
    else
      var rest, kind := KindsOf(targets[..|targets| - 1]), targets[|targets| - 1].kind;
      if kind in rest then rest else rest + [kind]
  }

  function ETags(targets: seq<Event>): seq<Tag> {
    seq(|targets|, i requires 0 <= i < |targets| => E(targets[i].id))
  }

  function KTags(kinds: seq<nat>): seq<Tag> {
    seq(|kinds|, i requires 0 <= i < |kinds| => K(kinds[i]))
  }

  predicate Less(a: nat, b: nat) {
    a < b
  }

  function RequestFor(author: string, targets: seq<Event>, createdAt: nat): Request {
    Request(author, createdAt, ETags(targets) + KTags(Sorting.Sort(KindsOf(targets), Less)))
  }

  /** The ids are named first, event by event; the kinds among them follow, each once and
      increasing. */
  ghost predicate TagsOf(tags: seq<Tag>, targets: seq<Event>, kinds: seq<nat>) {
    && tags == ETags(targets) + KTags(kinds)
    && (forall i, j :: 0 <= i < j < |kinds| ==> kinds[i] < kinds[j])
    && (forall kind :: kind in kinds <==> exists i :: 0 <= i < |targets| && targets[i].kind == kind)
  }

  lemma {:induction false} KindsOnce(targets: seq<Event>)
    ensures Sorting.Distinct(KindsOf(targets))
    ensures forall kind :: kind in KindsOf(targets) <==> exists i :: 0 <= i < |targets| && targets[i].kind == kind
  {
    if targets != [] {
      var n := |targets| - 1;
      KindsOnce(targets[..n]);
      assert forall i :: 0 <= i < n ==> targets[..n][i] == targets[i];
    }
  }

  lemma LessOrders(kinds: seq<nat>)
    ensures Sorting.Orders(Less, kinds)
  {
  }

  lemma RequestTags(author: string, targets: seq<Event>, createdAt: nat)
    ensures TagsOf(RequestFor(author, targets, createdAt).tags, targets, Sorting.Sort(KindsOf(targets), Less))
  {
    var kinds := KindsOf(targets);
    KindsOnce(targets);
    Sorting.SortedElements(kinds, Less);
    LessOrders(kinds);
    Sorting.SortStrict(kinds, Less);
  }

  /** The e tags of the events, and the kinds among them in the order they come up. */
  method TagsAndKinds(targets: seq<Event>) returns (tags: seq<Tag>, kinds: seq<nat>)
    ensures tags == ETags(targets) && kinds == KindsOf(targets)
  {
    tags, kinds := [], [];
    for i := 0 to |targets|
      invariant tags == ETags(targets[..i]) && kinds == KindsOf(targets[..i])
    {
      assert targets[..i + 1][..i] == targets[..i];
      tags := tags + [E(targets[i].id)];
      if targets[i].kind !in kinds {
        kinds := kinds + [targets[i].kind];
      }
    }
    assert targets[..|targets|] == targets;
  }

  method WithKinds(tags: seq<Tag>, kinds: seq<nat>) returns (all: seq<Tag>)
    ensures all == tags + KTags(kinds)
  {
    all := tags;
    for i := 0 to |kinds|
      invariant all == tags + KTags(kinds[..i])
    {
      all := all + [K(kinds[i])];
    }
    assert kinds[..|kinds|] == kinds;
  }

  /** The loops build the specified request, whose tags are as they should be. */
  method BuildRequest(author: string, targets: seq<Event>, createdAt: nat) returns (r: Request)
    ensures r == RequestFor(author, targets, createdAt)
    ensures r.author == author && r.createdAt == createdAt && exists kinds :: TagsOf(r.tags, targets, kinds)
  {
    var tags, kinds := TagsAndKinds(targets);
    kinds := Sorting.Sort(kinds, Less);
    tags := WithKinds(tags, kinds);
    r := Request(author, createdAt, tags);
    RequestTags(author, targets, createdAt);
  }

  /** The ids the e tags name, in order. */
  function Named(tags: seq<Tag>): seq<nat> {
    if tags == [] then []
    else Named(tags[..|tags| - 1]) + match tags[|tags| - 1] case E(id) => [id] case _ => []
  }

  ghost predicate Repeats(ids: seq<nat>) {
    exists i, j :: 0 <= i < j < |ids| && ids[i] == ids[j]
  }

  /** What the agreement check checks: the e tags name only targets, and there are as
      many e tags as targets and as many targets as ids. */
  ghost predicate Agrees(r: Request, targets: seq<Event>) {
    && (forall id :: id in Named(r.tags) ==> id in IdsOf(targets))
    && |Named(r.tags)| == |IdsOf(targets)| == |targets|
  }

  lemma {:induction false} IdsSize(ids: seq<nat>)
    ensures |Elems(ids)| <= |ids|
    ensures |Elems(ids)| == |ids| <==> !Repeats(ids)
  {
    if ids != [] {
      var rest, last := ids[..|ids| - 1], ids[|ids| - 1];
      assert ids == rest + [last];
      assert Elems(ids) == Elems(rest) + {last};
      IdsSize(rest);
      if last in rest {
        var i :| 0 <= i < |rest| && rest[i] == last;
        assert ids[i] == ids[|ids| - 1];
      } else if Repeats(rest) {
        var i, j :| 0 <= i < j < |rest| && rest[i] == rest[j];
        assert ids[i] == ids[j];
      }
    }
  }

  /** A request that passes the check names exactly its targets if and only if none of
      its e tags is repeated. */
  lemma AgreementIsExact(r: Request, targets: seq<Event>)
    requires Agrees(r, targets)
    ensures Elems(Named(r.tags)) == IdsOf(targets) <==> !Repeats(Named(r.tags))
  {
    IdsSize(Named(r.tags));
    SubsetSize(Elems(Named(r.tags)), IdsOf(targets));
  }

  /** A repeated e tag passes the check and leaves a target unnamed. */
  lemma RepeatedTagPasses(a: Event, b: Event, author: string, createdAt: nat)
    requires a.id != b.id
    ensures var r := Request(author, createdAt, [E(a.id), E(a.id)]);
            Agrees(r, [a, b]) && b.id !in Named(r.tags)
  {
    var tags := [E(a.id), E(a.id)];
    var one := [E(a.id)];
    assert one[..0] == [] && Named(one) == [a.id];
    assert tags[..|tags| - 1] == one;
    assert Named(tags) == [a.id, a.id];
    assert IdsOf([a, b]) == {a.id, b.id} by {
      assert a in [a, b] && b in [a, b];
    }
  }

  /** Whether the recorded request and its recorded targets agree. */
  method NamesExactly(r: Request, targets: seq<Event>) returns (ok: bool)
    ensures ok <==> Agrees(r, targets)
  {
    var want: set<nat> := {};
    for i := 0 to |targets|
      invariant want == IdsOf(targets[..i])
    {
      assert targets[..i + 1] == targets[..i] + [targets[i]];
      want := want + {targets[i].id};
    }
    assert targets[..|targets|] == targets;
    var named := 0;
    for i := 0 to |r.tags|
      invariant named == |Named(r.tags[..i])|
      invariant forall id :: id in Named(r.tags[..i]) ==> id in want
    {
      assert r.tags[..i + 1][..i] == r.tags[..i];
      match r.tags[i] {
        case E(id) =>
          if id !in want {
            NamedPrefix(r.tags, i);
            return false;
          }
          named := named + 1;
        case _ =>
      }
    }
    assert r.tags[..|r.tags|] == r.tags;
    ok := named == |want| && named == |targets|;
  }

  lemma {:induction false} NamedPrefix(tags: seq<Tag>, i: nat)
    requires i < |tags| && tags[i].E?
    ensures tags[i].id in Named(tags)
    decreases |tags|
  {
    if i < |tags| - 1 {
      NamedPrefix(tags[..|tags| - 1], i);
    }
  }

  // ----- the plan

  /** The order of the plan: kinds increasing, stamps decreasing within a kind, ids last. */
  predicate Before(a: Event, b: Event) {
    if a.kind != b.kind then a.kind < b.kind
    else if a.createdAt != b.createdAt then a.createdAt > b.createdAt
    else a.id < b.id
  }

  function Batch(targets: seq<Event>, author: string, createdAt: nat): Deletion {
    Deletion(RequestFor(author, targets, createdAt), targets)
  }

  /** Requests of `n` events each, the last of what is left. */
  function Batches(events: seq<Event>, n: nat, author: string, createdAt: nat): seq<Deletion>
    requires n >= 1
    decreases |events|
  {
    if events == [] then []
    else if |events| <= n then [Batch(events, author, createdAt)]
    else [Batch(events[..n], author, createdAt)] + Batches(events[n..], n, author, createdAt)
  }

  /** The targets still without a deletion. */
  ghost function Uncovered(scans: seq<RelayScan>, deletions: seq<Deletion>): set<Event> {
    var targets := Targets(scans, deletions);
    set id | id in targets && id !in IdsOf(Targeted(deletions)) :: targets[id]
  }

  /** The one list a plan goes through, whatever order a map is ranged over. */
  ghost function PlanOrder(scans: seq<RelayScan>, deletions: seq<Deletion>): seq<Event> {
    Sorting.Sort(Listing(Uncovered(scans, deletions)), Before)
  }

  ghost function PlanOf(scans: seq<RelayScan>, deletions: seq<Deletion>, author: string, n: nat,
                        createdAt: nat): seq<Deletion>
    requires n >= 1
  {
    Batches(PlanOrder(scans, deletions), n, author, createdAt)
  }

  lemma UncoveredIds(scans: seq<RelayScan>, deletions: seq<Deletion>)
    ensures forall a, b ::
      a in Uncovered(scans, deletions) && b in Uncovered(scans, deletions) && a.id == b.id ==> a == b
    ensures (set ev | ev in Uncovered(scans, deletions) :: ev.id)
      == Targets(scans, deletions).Keys - IdsOf(Targeted(deletions))
  {
    var targets, covered, un := Targets(scans, deletions), IdsOf(Targeted(deletions)), Uncovered(scans, deletions);
    ByIdEvents(Scanned(scans) + Targeted(deletions));
    forall id | id in targets.Keys - covered
      ensures exists ev :: ev in un && ev.id == id
    {
      assert targets[id] in un;
    }
  }

  lemma BeforeOrders(s: seq<Event>)
    requires forall a, b :: a in s && b in s && a.id == b.id ==> a == b
    ensures Sorting.Orders(Before, s)
  {
  }

  lemma {:induction false} BatchAt(events: seq<Event>, n: nat, author: string, createdAt: nat, i: nat)
    requires n >= 1 && i < |Batches(events, n, author, createdAt)|
    ensures var b := Batches(events, n, author, createdAt);
            && b[i].request == RequestFor(author, b[i].targets, createdAt)
            && 1 <= |b[i].targets| <= n && (i < |b| - 1 ==> |b[i].targets| == n)
    decreases |events|
  {
    if |events| > n && i > 0 {
      BatchAt(events[n..], n, author, createdAt, i - 1);
    }
  }

  lemma OneBatch(d: Deletion)
    ensures Targeted([d]) == d.targets
  {
    assert [d][..0] == [];
  }

  /** Batching loses nothing and keeps the order. */
  lemma {:induction false} BatchesFlat(events: seq<Event>, n: nat, author: string, createdAt: nat)
    requires n >= 1
    ensures Targeted(Batches(events, n, author, createdAt)) == events
    decreases |events|
  {
    if events == [] {
    } else if |events| <= n {
      OneBatch(Batch(events, author, createdAt));
    } else {
      var head, tail := Batch(events[..n], author, createdAt), events[n..];
      BatchesFlat(tail, n, author, createdAt);
      OneBatch(head);
      TargetedConcat([head], Batches(tail, n, author, createdAt));
    }
  }

  // A request built for targets with distinct ids names exactly them.

  lemma {:induction false} NamedByETags(targets: seq<Event>)
    ensures |Named(ETags(targets))| == |targets|
    ensures Elems(Named(ETags(targets))) == IdsOf(targets)
    ensures forall i :: 0 <= i < |targets| ==> Named(ETags(targets))[i] == targets[i].id
  {
    if targets != [] {
      var rest, last := targets[..|targets| - 1], targets[|targets| - 1];
      assert targets == rest + [last];
      assert ETags(targets)[..|targets| - 1] == ETags(rest);
      NamedByETags(rest);
      assert IdsOf(targets) == IdsOf(rest) + {last.id};
    }
  }

  lemma {:induction false} KTagsNameNothing(tags: seq<Tag>, kinds: seq<nat>)
    ensures Named(tags + KTags(kinds)) == Named(tags)
  {
    if kinds == [] {
      assert tags + KTags(kinds) == tags;
    } else {
      var rest := kinds[..|kinds| - 1];
      assert (tags + KTags(kinds))[..|tags| + |kinds| - 1] == tags + KTags(rest);
      KTagsNameNothing(tags, rest);
    }
  }

  /** No id is mentioned twice. */
  ghost predicate EachOnce(bag: multiset<nat>) {
    forall id :: bag[id] <= 1
  }

  lemma {:induction false} EachOnceSize(events: seq<Event>)
    requires EachOnce(IdBag(events))
    ensures |IdsOf(events)| == |events|
  {
    if events != [] {
      var rest, last := events[..|events| - 1], events[|events| - 1];
      assert events == rest + [last];
      assert forall id :: IdBag(rest)[id] <= IdBag(events)[id];
      EachOnceSize(rest);
      BagIds(rest);
      assert last.id !in IdsOf(rest) by {
        assert IdBag(events)[last.id] == IdBag(rest)[last.id] + 1;
      }
      assert IdsOf(events) == IdsOf(rest) + {last.id};
    }
  }

  lemma RequestAgrees(author: string, targets: seq<Event>, createdAt: nat)
    requires EachOnce(IdBag(targets))
    ensures Agrees(RequestFor(author, targets, createdAt), targets)
    ensures !Repeats(Named(RequestFor(author, targets, createdAt).tags))
  {
    var kinds := Sorting.Sort(KindsOf(targets), Less);
    KTagsNameNothing(ETags(targets), kinds);
    NamedByETags(targets);
    EachOnceSize(targets);
    var named := Named(ETags(targets));
    assert forall id :: id in named ==> id in Elems(named);
    IdsSize(named);
  }

  lemma PartOnce(a: multiset<nat>, b: multiset<nat>)
    requires EachOnce(a + b)
    ensures EachOnce(a) && EachOnce(b)
  {
    assert forall id :: (a + b)[id] == a[id] + b[id];
  }

  lemma {:induction false} BatchInBag(deletions: seq<Deletion>, i: nat)
    requires i < |deletions| && EachOnce(IdBag(Targeted(deletions)))
    ensures EachOnce(IdBag(deletions[i].targets))
    decreases |deletions|
  {
    var rest, last := deletions[..|deletions| - 1], deletions[|deletions| - 1];
    BagConcat(Targeted(rest), last.targets);
    PartOnce(IdBag(Targeted(rest)), IdBag(last.targets));
    if i < |rest| {
      BatchInBag(rest, i);
    }
  }

  /** A complete cover: the deletions name every target of the report, each exactly once. */
  ghost predicate ExactCover(scans: seq<RelayScan>, deletions: seq<Deletion>) {
    IdBag(Targeted(deletions)) == multiset(Targets(scans, deletions).Keys)
  }

  lemma PlanBag(scans: seq<RelayScan>, deletions: seq<Deletion>)
    ensures IdBag(PlanOrder(scans, deletions)) == multiset(Targets(scans, deletions).Keys - IdsOf(Targeted(deletions)))
  {
    var un := Uncovered(scans, deletions);
    UncoveredIds(scans, deletions);
    BagOfSet(PlanOrder(scans, deletions), un);
  }

  /** A batch holds 1 to `n` events and its request names exactly them, each once. */
  ghost predicate GoodBatch(d: Deletion, n: nat) {
    1 <= |d.targets| <= n && Agrees(d.request, d.targets) && !Repeats(Named(d.request.tags))
  }

  /** Planning covers exactly: with recorded deletions that name no event twice, recorded
      and planned deletions together name every target exactly once, every batch holds
      1 to `n` events, all but the last hold `n`, and every request names its batch. */
  lemma PlanCoversExactly(scans: seq<RelayScan>, deletions: seq<Deletion>, author: string, n: nat, createdAt: nat)
    requires n >= 1 && EachOnce(IdBag(Targeted(deletions)))
    ensures var planned := PlanOf(scans, deletions, author, n, createdAt);
            && ExactCover(scans, deletions + planned)
            && Targets(scans, deletions + planned).Keys == Targets(scans, deletions).Keys
            && (forall i :: 0 <= i < |planned| ==> GoodBatch(planned[i], n))
            && (forall i :: 0 <= i < |planned| - 1 ==> |planned[i].targets| == n)
            && (forall i :: 0 <= i < |planned| ==> Requests(planned[i], author, createdAt))
            && InPlanOrder(Targeted(planned))
  {
    var order := PlanOrder(scans, deletions);
    var planned := PlanOf(scans, deletions, author, n, createdAt);
    BatchesFlat(order, n, author, createdAt);
    PlannedCover(scans, deletions, planned);
    forall i | 0 <= i < |planned|
      ensures GoodBatch(planned[i], n) && (i < |planned| - 1 ==> |planned[i].targets| == n)
      ensures Requests(planned[i], author, createdAt)
    {
      PlannedBatch(scans, deletions, author, n, createdAt, i);
    }
    PlanOrdered(scans, deletions);
  }

  /** The events come by kind, within a kind the newest first, and then by id. */
  ghost predicate InPlanOrder(events: seq<Event>) {
    forall i, j :: 0 <= i < j < |events| ==>
      var a, b := events[i], events[j];
      && a.kind <= b.kind
      && (a.kind == b.kind ==> a.createdAt >= b.createdAt)
      && (a.kind == b.kind && a.createdAt == b.createdAt ==> a.id <= b.id)
  }

  lemma PlanOrdered(scans: seq<RelayScan>, deletions: seq<Deletion>)
    ensures InPlanOrder(PlanOrder(scans, deletions))
  {
    var un := Listing(Uncovered(scans, deletions));
    UncoveredIds(scans, deletions);
    assert forall ev :: ev in un ==> ev in multiset(Uncovered(scans, deletions));
    BeforeOrders(un);
    Sorting.SortSorts(un, Before);
    var order := PlanOrder(scans, deletions);
    forall i, j | 0 <= i < j < |order|
      ensures !Before(order[j], order[i])
    {
    }
  }

  /** The request is the author's, of this time, and names its targets and their kinds. */
  ghost predicate Requests(d: Deletion, author: string, createdAt: nat) {
    && d.request.author == author && d.request.createdAt == createdAt
    && exists kinds :: TagsOf(d.request.tags, d.targets, kinds)
  }

  lemma PlannedBatch(scans: seq<RelayScan>, deletions: seq<Deletion>, author: string, n: nat, createdAt: nat, i: nat)
    requires n >= 1 && i < |PlanOf(scans, deletions, author, n, createdAt)|
    ensures var planned := PlanOf(scans, deletions, author, n, createdAt);
            GoodBatch(planned[i], n) && (i < |planned| - 1 ==> |planned[i].targets| == n)
    ensures Requests(PlanOf(scans, deletions, author, n, createdAt)[i], author, createdAt)
  {
    var order, planned := PlanOrder(scans, deletions), PlanOf(scans, deletions, author, n, createdAt);
    BatchesFlat(order, n, author, createdAt);
    BatchAt(order, n, author, createdAt, i);
    PlanBag(scans, deletions);
    BatchInBag(planned, i);
    RequestAgrees(author, planned[i].targets, createdAt);
    RequestTags(author, planned[i].targets, createdAt);
  }

  lemma PlannedCover(scans: seq<RelayScan>, deletions: seq<Deletion>, planned: seq<Deletion>)
    requires EachOnce(IdBag(Targeted(deletions))) && Targeted(planned) == PlanOrder(scans, deletions)
    ensures ExactCover(scans, deletions + planned)
    ensures Targets(scans, deletions + planned).Keys == Targets(scans, deletions).Keys
  {
    var covered, keys := IdsOf(Targeted(deletions)), Targets(scans, deletions).Keys;
    TargetedConcat(deletions, planned);
    BagConcat(Targeted(deletions), Targeted(planned));
    PlanBag(scans, deletions);
    CoveredBag(scans, deletions);
    BagIds(Targeted(planned));
    SameTargets(scans, deletions, planned);
    assert multiset(keys) == multiset(covered) + multiset(keys - covered);
  }

  lemma CoveredBag(scans: seq<RelayScan>, deletions: seq<Deletion>)
    requires EachOnce(IdBag(Targeted(deletions)))
    ensures IdBag(Targeted(deletions)) == multiset(IdsOf(Targeted(deletions)))
    ensures IdsOf(Targeted(deletions)) <= Targets(scans, deletions).Keys
  {
    BagIds(Targeted(deletions));
    ByIdEvents(Scanned(scans) + Targeted(deletions));
  }

  /** Planned deletions name no id that was not a target before. */
  lemma SameTargets(scans: seq<RelayScan>, deletions: seq<Deletion>, planned: seq<Deletion>)
    requires IdsOf(Targeted(planned)) <= Targets(scans, deletions).Keys
    ensures Targets(scans, deletions + planned).Keys == Targets(scans, deletions).Keys
  {
    TargetIds(scans, deletions);
    TargetIds(scans, deletions + planned);
    TargetedConcat(deletions, planned);
    IdsConcat(Targeted(deletions), Targeted(planned));
  }

  lemma TargetIds(scans: seq<RelayScan>, deletions: seq<Deletion>)
    ensures Targets(scans, deletions).Keys == IdsOf(Scanned(scans)) + IdsOf(Targeted(deletions))
  {
    ByIdEvents(Scanned(scans) + Targeted(deletions));
    IdsConcat(Scanned(scans), Targeted(deletions));
  }

  lemma IdsConcat(a: seq<Event>, b: seq<Event>)
    ensures IdsOf(a + b) == IdsOf(a) + IdsOf(b)
  {
    forall id | id in IdsOf(a) + IdsOf(b)
      ensures id in IdsOf(a + b)
    {
      if id in IdsOf(a) {
        var ev :| ev in a && ev.id == id;
        assert ev in a + b;
      } else {
        var ev :| ev in b && ev.id == id;
        assert ev in a + b;
      }
    }
  }

  /** Once the plan is appended, planning again gives nothing. */
  lemma ReplanIsEmpty(scans: seq<RelayScan>, deletions: seq<Deletion>, author: string, n: nat, createdAt: nat)
    requires n >= 1 && ExactCover(scans, deletions)
    ensures PlanOf(scans, deletions, author, n, createdAt) == []
  {
    BagIds(Targeted(deletions));
    assert forall id :: id in Targets(scans, deletions).Keys ==> id in IdBag(Targeted(deletions));
    assert Uncovered(scans, deletions) == {};
    assert |Listing({})| == 0 by { assert |multiset(Listing({}))| == 0; }
  }

  /** An id a deletion names stays a target, whatever later scans see. */
  lemma NamedStaysTarget(scans: seq<RelayScan>, deletions: seq<Deletion>, id: nat)
    requires id in IdsOf(Targeted(deletions))
    ensures id in Targets(scans, deletions)
  {
    IdsConcat(Scanned(scans), Targeted(deletions));
    ByIdEvents(Scanned(scans) + Targeted(deletions));
  }

  // ----- runs of scans and deletes

  predicate RelayBefore(a: RelayScan, b: RelayScan) {
    Sorting.StringLess(a.relay, b.relay)
  }

  /** The first scan of a relay, or the end of the list. */
  function Find(scans: seq<RelayScan>, relay: string): (i: nat)
    ensures i <= |scans| && (i < |scans| ==> scans[i].relay == relay)
    ensures forall j :: 0 <= j < i ==> scans[j].relay != relay
  {
    if scans == [] || scans[0].relay == relay then 0 else 1 + Find(scans[1..], relay)
  }

  /** The scans with this one in the place of its relay. */
  function WithScan(scans: seq<RelayScan>, scan: RelayScan): seq<RelayScan> {
    var i := Find(scans, scan.relay);
    if i < |scans| then scans[i := scan] else Sorting.Sort(scans + [scan], RelayBefore)
  }

  /** The scans are sorted by relay, one for each. */
  ghost predicate OnePerRelay(scans: seq<RelayScan>) {
    forall i, j :: 0 <= i < j < |scans| ==> RelayBefore(scans[i], scans[j])
  }

  lemma RelaysApart(scans: seq<RelayScan>)
    requires OnePerRelay(scans)
    ensures forall a, b :: a in scans && b in scans && a.relay == b.relay ==> a == b
    ensures Sorting.Distinct(scans)
  {
    forall i, j | 0 <= i < j < |scans|
      ensures scans[i].relay != scans[j].relay
    {
      Sorting.StringLessTotal(scans[i].relay, scans[i].relay);
    }
  }

  lemma RelayOrders(scans: seq<RelayScan>)
    requires forall a, b :: a in scans && b in scans && a.relay == b.relay ==> a == b
    ensures Sorting.Orders(RelayBefore, scans)
  {
    Sorting.StringsOrdered([]);
    forall a, b: RelayScan
      ensures !RelayBefore(a, a) && (a.relay != b.relay ==> RelayBefore(a, b) || RelayBefore(b, a))
    {
      Sorting.StringLessTotal(a.relay, b.relay);
    }
    forall a, b, c | RelayBefore(a, b) && RelayBefore(b, c)
      ensures RelayBefore(a, c)
    {
      Sorting.StringLessTrans(a.relay, b.relay, c.relay);
    }
  }

  lemma SameRelaySorted(scans: seq<RelayScan>, scan: RelayScan, i: nat)
    requires OnePerRelay(scans) && i < |scans| && scans[i].relay == scan.relay
    ensures OnePerRelay(scans[i := scan])
    ensures forall x :: x in scans[i := scan] <==> x == scan || (x in scans && x.relay != scan.relay)
  {
    var put := scans[i := scan];
    RelaysApart(scans);
    forall a, b | 0 <= a < b < |put|
      ensures RelayBefore(put[a], put[b])
    {
      assert RelayBefore(scans[a], scans[b]);
    }
    assert forall j :: 0 <= j < |scans| && j != i ==>
      put[j] == scans[j] && scans[j] in scans && scans[j].relay != scan.relay;
    forall x | x == scan || (x in scans && x.relay != scan.relay)
      ensures x in put
    {
      if x == scan {
        assert put[i] == x;
      } else {
        var j :| 0 <= j < |scans| && scans[j] == x;
        assert put[j] == x;
      }
    }
  }

  lemma RelayIsNew(scans: seq<RelayScan>, scan: RelayScan)
    requires OnePerRelay(scans) && forall i :: 0 <= i < |scans| ==> scans[i].relay != scan.relay
    ensures Sorting.Distinct(scans + [scan])
    ensures forall a, b :: a in scans + [scan] && b in scans + [scan] && a.relay == b.relay ==> a == b
  {
    RelaysApart(scans);
  }

  lemma NewRelaySorted(scans: seq<RelayScan>, scan: RelayScan)
    requires OnePerRelay(scans) && forall i :: 0 <= i < |scans| ==> scans[i].relay != scan.relay
    ensures OnePerRelay(Sorting.Sort(scans + [scan], RelayBefore))
  {
    var more := scans + [scan];
    RelayIsNew(scans, scan);
    RelayOrders(more);
    Sorting.SortStrict(more, RelayBefore);
  }

  /** Putting a scan keeps the scans sorted, one per relay: the new scan is its relay's,
      and the other relays keep theirs. */
  lemma PutKeepsOrder(scans: seq<RelayScan>, scan: RelayScan)
    requires OnePerRelay(scans)
    ensures OnePerRelay(WithScan(scans, scan))
    ensures forall x :: x in WithScan(scans, scan) <==> x == scan || (x in scans && x.relay != scan.relay)
  {
    var i := Find(scans, scan.relay);
    if i < |scans| {
      SameRelaySorted(scans, scan, i);
    } else {
      NewRelaySorted(scans, scan);
      Sorting.SortedElements(scans + [scan], RelayBefore);
      assert forall x :: x in scans ==> x.relay != scan.relay;
    }
  }

  datatype State = State(scans: seq<RelayScan>, deletions: seq<Deletion>)

  datatype Action = Scan(scan: RelayScan) | Delete(author: string, batchSize: nat, createdAt: nat)

  ghost predicate Next(s: State, a: Action, s': State) {
    match a
    case Scan(scan) => s' == s.(scans := WithScan(s.scans, scan))
    case Delete(author, n, createdAt) =>
      n >= 1 && s' == s.(deletions := s.deletions + PlanOf(s.scans, s.deletions, author, n, createdAt))
  }

  ghost predicate StepAt(states: seq<State>, actions: seq<Action>, k: nat)
    requires k < |actions| && |states| == |actions| + 1
  {
    Next(states[k], actions[k], states[k + 1])
  }

  ghost predicate IsRun(states: seq<State>, actions: seq<Action>) {
    && |states| == |actions| + 1 && states[0] == State([], [])
    && forall k {:trigger StepAt(states, actions, k)} :: 0 <= k < |actions| ==> StepAt(states, actions, k)
  }

  lemma StepKeepsOnce(s: State, a: Action, s': State)
    requires Next(s, a, s') && EachOnce(IdBag(Targeted(s.deletions)))
    ensures EachOnce(IdBag(Targeted(s'.deletions)))
    ensures a.Delete? ==> ExactCover(s'.scans, s'.deletions)
  {
    if a.Delete? {
      PlanCoversExactly(s.scans, s.deletions, a.author, a.batchSize, a.createdAt);
    }
  }

  lemma NthStepOnce(states: seq<State>, actions: seq<Action>, k: nat)
    requires IsRun(states, actions) && k < |actions| && EachOnce(IdBag(Targeted(states[k].deletions)))
    ensures EachOnce(IdBag(Targeted(states[k + 1].deletions)))
    ensures actions[k].Delete? ==> ExactCover(states[k + 1].scans, states[k + 1].deletions)
  {
    assert StepAt(states, actions, k);
    StepKeepsOnce(states[k], actions[k], states[k + 1]);
  }

  /** In every run of scans and deletes no event is ever named by two deletions, and
      right after a delete the deletions name every target exactly once. */
  lemma {:induction false} RunCoversExactly(states: seq<State>, actions: seq<Action>, n: nat)
    requires IsRun(states, actions) && n < |states|
    ensures EachOnce(IdBag(Targeted(states[n].deletions)))
    ensures n > 0 && actions[n - 1].Delete? ==> ExactCover(states[n].scans, states[n].deletions)
  {
    if n > 0 {
      RunCoversExactly(states, actions, n - 1);
      NthStepOnce(states, actions, n - 1);
    }
  }

  lemma StepKeepsScansSorted(s: State, a: Action, s': State)
    requires Next(s, a, s') && OnePerRelay(s.scans)
    ensures OnePerRelay(s'.scans)
  {
    if a.Scan? {
      PutKeepsOrder(s.scans, a.scan);
    }
  }

  lemma NthStepSorted(states: seq<State>, actions: seq<Action>, k: nat)
    requires IsRun(states, actions) && k < |actions| && OnePerRelay(states[k].scans)
    ensures OnePerRelay(states[k + 1].scans)
  {
    assert StepAt(states, actions, k);
    StepKeepsScansSorted(states[k], actions[k], states[k + 1]);
  }

  /** In every run the scans are sorted by relay, one for each. */
  lemma {:induction false} RunKeepsScansSorted(states: seq<State>, actions: seq<Action>, n: nat)
    requires IsRun(states, actions) && n < |states|
    ensures OnePerRelay(states[n].scans)
  {
    if n > 0 {
      RunKeepsScansSorted(states, actions, n - 1);
      NthStepSorted(states, actions, n - 1);
    }
  }

  lemma StepKeepsDeletions(s: State, a: Action, s': State)
    requires Next(s, a, s')
    ensures s.deletions <= s'.deletions
  {
  }

  lemma NthStepKeeps(states: seq<State>, actions: seq<Action>, k: nat)
    requires IsRun(states, actions) && k < |actions|
    ensures states[k].deletions <= states[k + 1].deletions
  {
    assert StepAt(states, actions, k);
    StepKeepsDeletions(states[k], actions[k], states[k + 1]);
  }

  lemma {:induction false} RunKeepsDeletions(states: seq<State>, actions: seq<Action>, m: nat, n: nat)
    requires IsRun(states, actions) && m <= n < |states|
    ensures states[m].deletions <= states[n].deletions
  {
    if m < n {
      RunKeepsDeletions(states, actions, m, n - 1);
      NthStepKeeps(states, actions, n - 1);
    }
  }

  /** Recorded deletions are kept, in order, and everything they named stays a target. */
  lemma RunKeepsTargets(states: seq<State>, actions: seq<Action>, m: nat, n: nat)
    requires IsRun(states, actions) && m <= n < |states|
    ensures states[m].deletions <= states[n].deletions
    ensures IdsOf(Targeted(states[m].deletions)) <= Targets(states[n].scans, states[n].deletions).Keys
  {
    RunKeepsDeletions(states, actions, m, n);
    PrefixStaysTarget(states[n].scans, states[m].deletions, states[n].deletions);
  }

  lemma PrefixStaysTarget(scans: seq<RelayScan>, before: seq<Deletion>, after: seq<Deletion>)
    requires before <= after
    ensures IdsOf(Targeted(before)) <= Targets(scans, after).Keys
  {
    var more := after[|before|..];
    assert after == before + more;
    TargetedConcat(before, more);
    IdsConcat(Targeted(before), Targeted(more));
    forall id | id in IdsOf(Targeted(before))
      ensures id in Targets(scans, after)
    {
      NamedStaysTarget(scans, after, id);
    }
  }

  // ----- the report object

  lemma ByIdConcat(events: seq<Event>, ev: Event)
    ensures ById(events + [ev]) == ById(events)[ev.id := ev]
  {
    assert (events + [ev])[..|events|] == events;
  }

  /** The events of `ids` that are not covered. */
  ghost function Picked(targets: map<nat, Event>, covered: set<nat>, ids: set<nat>): set<Event>
    requires ids <= targets.Keys
  {
    set id | id in ids && id !in covered :: targets[id]
  }

  lemma PickOne(targets: map<nat, Event>, covered: set<nat>, ids: set<nat>, id: nat)
    requires ids <= targets.Keys && id in targets && id !in ids
    requires forall i :: i in targets ==> targets[i].id == i
    ensures Picked(targets, covered, ids + {id})
      == if id in covered then Picked(targets, covered, ids) else Picked(targets, covered, ids) + {targets[id]}
    ensures targets[id] !in Picked(targets, covered, ids)
  {
    var more, picked := Picked(targets, covered, ids + {id}), Picked(targets, covered, ids);
    forall ev | ev in picked
      ensures ev in more
    {
      var i :| i in ids && i !in covered && targets[i] == ev;
      assert i in ids + {id};
    }
    if id !in covered {
      assert id in ids + {id};
    }
  }

  lemma PickInto(targets: map<nat, Event>, covered: set<nat>, ids: set<nat>, id: nat, uncovered: seq<Event>)
    requires ids <= targets.Keys && id in targets && id !in ids
    requires forall i :: i in targets ==> targets[i].id == i
    requires multiset(uncovered) == multiset(Picked(targets, covered, ids))
    ensures multiset(if id in covered then uncovered else uncovered + [targets[id]])
      == multiset(Picked(targets, covered, ids + {id}))
  {
    PickOne(targets, covered, ids, id);
  }

  /** The uncovered targets in the order the map happens to be ranged over. */
  method RangeUncovered(targets: map<nat, Event>, covered: set<nat>) returns (uncovered: seq<Event>)
    requires forall i :: i in targets ==> targets[i].id == i
    ensures multiset(uncovered) == multiset(Picked(targets, covered, targets.Keys))
  {
    uncovered := [];
    var rest := targets.Keys;
    ghost var taken: set<nat> := {};
    while rest != {}
      invariant taken !! rest && taken + rest == targets.Keys
      invariant multiset(uncovered) == multiset(Picked(targets, covered, taken))
      decreases |rest|
    {
      var id :| id in rest;
      PickInto(targets, covered, taken, id, uncovered);
      if id !in covered {
        uncovered := uncovered + [targets[id]];
      }
      taken, rest := taken + {id}, rest - {id};
    }
    assert taken == targets.Keys;
  }

  lemma OrderDetermined(scans: seq<RelayScan>, deletions: seq<Deletion>, uncovered: seq<Event>)
    requires multiset(uncovered)
      == multiset(Picked(Targets(scans, deletions), IdsOf(Targeted(deletions)), Targets(scans, deletions).Keys))
    ensures Sorting.Sort(uncovered, Before) == PlanOrder(scans, deletions)
  {
    var un := Uncovered(scans, deletions);
    UncoveredIds(scans, deletions);
    assert Picked(Targets(scans, deletions), IdsOf(Targeted(deletions)), Targets(scans, deletions).Keys) == un;
    assert forall ev :: ev in uncovered ==> ev in multiset(un);
    BeforeOrders(uncovered);
    Sorting.SortDetermined(uncovered, Listing(un), Before);
  }

  lemma NextBatch(planned: seq<Deletion>, rest: seq<Event>, n: nat, batchSize: nat, author: string, createdAt: nat)
    requires batchSize >= 1 && rest != [] && n == if |rest| <= batchSize then |rest| else batchSize
    ensures planned + Batches(rest, batchSize, author, createdAt)
         == planned + [Deletion(RequestFor(author, rest[..n], createdAt), rest[..n])]
            + Batches(rest[n..], batchSize, author, createdAt)
  {
    assert |rest| <= batchSize ==> rest[..n] == rest;
  }

  /** Cuts the sorted targets into requests. */
  method Chunked(events: seq<Event>, author: string, batchSize: nat, createdAt: nat) returns (planned: seq<Deletion>)
    requires batchSize >= 1
    ensures planned == Batches(events, batchSize, author, createdAt)
  {
    planned := [];
    var rest := events;
    while rest != []
      invariant planned + Batches(rest, batchSize, author, createdAt) == Batches(events, batchSize, author, createdAt)
      decreases |rest|
    {
      var batch := rest[..if |rest| <= batchSize then |rest| else batchSize];
      var request := BuildRequest(author, batch, createdAt);
      NextBatch(planned, rest, |batch|, batchSize, author, createdAt);
      planned, rest := planned + [Deletion(request, batch)], rest[|batch|..];
    }
  }

  class Report {
    var scans: seq<RelayScan>
    var deletions: seq<Deletion>

    constructor ()
      ensures scans == [] && deletions == []
    {
      scans, deletions := [], [];
    }

    method PutScan(scan: RelayScan)
      modifies this`scans
      ensures scans == WithScan(old(scans), scan)
      ensures OnePerRelay(old(scans)) ==>
                && OnePerRelay(scans)
                && forall x :: x in scans <==> x == scan || (x in old(scans) && x.relay != scan.relay)
    {
      if OnePerRelay(scans) {
        PutKeepsOrder(scans, scan);
      }
      for i := 0 to |scans|
        invariant scans == old(scans)
        invariant forall j :: 0 <= j < i ==> scans[j].relay != scan.relay
      {
        if scans[i].relay == scan.relay {
          scans := scans[i := scan];
          return;
        }
      }
      scans := Sorting.Sort(scans + [scan], RelayBefore);
    }

    /** Adds the events to the map, a later mention winning. */
    static method Add(out: map<nat, Event>, events: seq<Event>, ghost before: seq<Event>)
      returns (out': map<nat, Event>)
      requires out == ById(before)
      ensures out' == ById(before + events)
    {
      out' := out;
      assert before + events[..0] == before;
      for i := 0 to |events|
        invariant out' == ById(before + events[..i])
      {
        ByIdConcat(before + events[..i], events[i]);
        assert before + events[..i + 1] == before + events[..i] + [events[i]];
        out' := out'[events[i].id := events[i]];
      }
      assert events[..|events|] == events;
    }

    method TargetMap() returns (out: map<nat, Event>)
      ensures out == Targets(scans, deletions)
    {
      out := map[];
      for i := 0 to |scans|
        invariant out == ById(Scanned(scans[..i]))
      {
        out := Add(out, scans[i].events, Scanned(scans[..i]));
        assert scans[..i + 1][..i] == scans[..i];
      }
      assert scans[..|scans|] == scans;
      assert Scanned(scans) + Targeted(deletions[..0]) == Scanned(scans);
      for i := 0 to |deletions|
        invariant out == ById(Scanned(scans) + Targeted(deletions[..i]))
      {
        out := Add(out, deletions[i].targets, Scanned(scans) + Targeted(deletions[..i]));
        assert deletions[..i + 1][..i] == deletions[..i];
        assert Scanned(scans) + Targeted(deletions[..i]) + deletions[i].targets
          == Scanned(scans) + Targeted(deletions[..i + 1]);
      }
      assert deletions[..|deletions|] == deletions;
    }

    /** The ids that recorded deletions name. */
    method CoveredIds() returns (covered: set<nat>)
      ensures covered == IdsOf(Targeted(deletions))
    {
      covered := {};
      for i := 0 to |deletions|
        invariant covered == IdsOf(Targeted(deletions[..i]))
      {
        assert deletions[..i + 1][..i] == deletions[..i];
        IdsConcat(Targeted(deletions[..i]), deletions[i].targets);
        covered := covered + set ev | ev in deletions[i].targets :: ev.id;
      }
      assert deletions[..|deletions|] == deletions;
    }

    /** The loops compute the specified plan. The
        result does not depend on the order in which maps are ranged over. */
    method PlanDeletions(author: string, batchSize: nat, createdAt: nat) returns (planned: seq<Deletion>)
      requires batchSize >= 1
      ensures planned == PlanOf(scans, deletions, author, batchSize, createdAt)
    {
      var covered := CoveredIds();
      var targets := TargetMap();
      ByIdEvents(Scanned(scans) + Targeted(deletions));
      var uncovered := RangeUncovered(targets, covered);
      OrderDetermined(scans, deletions, uncovered);
      planned := Chunked(Sorting.Sort(uncovered, Before), author, batchSize, createdAt);
    }

    /** `delete --execute` records what it planned. */
    method RecordPlan(author: string, batchSize: nat, createdAt: nat)
      requires batchSize >= 1
      requires EachOnce(IdBag(Targeted(deletions)))
      modifies this`deletions
      ensures deletions == old(deletions) + PlanOf(scans, old(deletions), author, batchSize, createdAt)
      ensures ExactCover(scans, deletions)
    {
      PlanCoversExactly(scans, deletions, author, batchSize, createdAt);
      var planned := PlanDeletions(author, batchSize, createdAt);
      deletions := deletions + planned;
    }
  }
}
