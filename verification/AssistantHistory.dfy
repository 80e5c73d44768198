/** cmd/bahia-assistant-reencrypt/history.go: what of an author's history lies on fewer
    relays than the quorum and still matters. */
module AssistantHistory {
  import opened Common
  import S = Sorting
  import Q = QuorumPublish

  // ----- the quorum

  const ALL_RELAYS := -1

  function PublishQuorum(configured: int, n: nat): Result<nat> {
    if configured == ALL_RELAYS then Ok(n)
    else if configured < 0 then Err
    else if configured <= 1 then Ok(1)
    else if configured > n then Err
    else Ok(configured)
  }

  /** An accepted quorum can be met by `n` relays, unless there are none and one is asked for. */
  lemma QuorumIsReachable(configured: int, n: nat)
    requires PublishQuorum(configured, n).Ok?
    ensures PublishQuorum(configured, n).value <= n <==> n > 0 || configured == ALL_RELAYS
  {
  }

  // ----- the history

  const CHECKPOINT := 4903

  /** An event of the history; `valid` if the author's and its id and signature check. The
      chain is the session and run of a checkpoint. */
  datatype Event = Event(id: nat, kind: nat, createdAt: nat, valid: bool, d: string, chain: string, revision: nat)

  datatype HeldEvent = HeldEvent(ev: Event, relays: set<string>)

  type History = map<nat, HeldEvent>

  /** Events are filed by their id. */
  ghost predicate Filed(h: History) {
    forall id :: id in h ==> h[id].ev.id == id
  }

  /** Relays are noted by their normalised URL. */
  ghost predicate Normal(h: History, norm: Norm) {
    forall id, r :: id in h && r in h[id].relays ==> norm(r) == r
  }

  predicate IsCheckpoint(x: HeldEvent) {
    x.ev.valid && x.ev.kind == CHECKPOINT
  }

  /** A transcript or a session projection: replaceable at its coordinate. */
  predicate IsReplaceable(x: HeldEvent) {
    x.ev.valid && x.ev.kind != CHECKPOINT
  }

  function Key(ev: Event): string {
    Decimal(ev.kind) + ":" + ev.d
  }

  /** The key is the coordinate: kind and d. */
  lemma KeyIsCoordinate(a: Event, b: Event)
    ensures Key(a) == Key(b) <==> a.kind == b.kind && a.d == b.d
  {
    if Key(a) == Key(b) {
      DecimalDigits(a.kind);
      DecimalDigits(b.kind);
      UptoColon(Decimal(a.kind), a.d, Decimal(b.kind), b.d);
      DecimalInjective(a.kind, b.kind);
    }
  }

  /** The event a relay keeps: the newer one, of two as old the one with the lower id. */
  predicate Beats(a: Event, b: Event) {
    a.createdAt > b.createdAt || (a.createdAt == b.createdAt && a.id < b.id)
  }

  /** The event every relay would keep at its coordinate, of all the history holds. */
  ghost predicate IsWinner(h: History, id: nat) {
    && id in h && IsReplaceable(h[id])
    && forall other :: other in h && IsReplaceable(h[other]) && Key(h[other].ev) == Key(h[id].ev) && other != id
         ==> Beats(h[id].ev, h[other].ev)
  }

  /** No event of a winner's kind and d is newer, and of those as old none has a lower id. */
  lemma WinnerIsNewest(h: History, id: nat, other: nat)
    requires IsWinner(h, id) && other in h && IsReplaceable(h[other])
    requires h[other].ev.kind == h[id].ev.kind && h[other].ev.d == h[id].ev.d
    ensures h[id].ev.createdAt >= h[other].ev.createdAt
    ensures h[id].ev.createdAt == h[other].ev.createdAt ==> h[id].ev.id <= h[other].ev.id
  {
    assert Key(h[other].ev) == Key(h[id].ev);
  }

  /** The map is walked in some order: each id once. */
  ghost predicate Walks(order: seq<nat>, h: History) {
    && (forall i :: 0 <= i < |order| ==> order[i] in h)
    && (forall id :: id in h ==> id in order)
    && (forall i, j :: 0 <= i < j < |order| ==> order[i] != order[j])
  }

  // ----- one walk over the history

  function Better(winners: map<string, HeldEvent>, x: HeldEvent): map<string, HeldEvent> {
    var key := Key(x.ev);
    if key !in winners || Beats(x.ev, winners[key].ev) then winners[key := x] else winners
  }

  function Winners(h: History, order: seq<nat>): map<string, HeldEvent>
    requires forall i :: 0 <= i < |order| ==> order[i] in h
  {
    if order == [] then map[]
    else
      var n := |order| - 1;
      var before := Winners(h, order[..n]);
      if IsReplaceable(h[order[n]]) then Better(before, h[order[n]]) else before
  }

  function Checkpoints(h: History, order: seq<nat>): seq<HeldEvent>
    requires forall i :: 0 <= i < |order| ==> order[i] in h
  {
    if order == [] then []
    else
      var n := |order| - 1;
      Checkpoints(h, order[..n]) + if IsCheckpoint(h[order[n]]) then [h[order[n]]] else []
  }

  /** The winner so far at each coordinate seen so far. */
  ghost predicate BestSoFar(h: History, seen: seq<nat>, winners: map<string, HeldEvent>) {
    && (forall key :: key in winners ==>
          var w := winners[key];
          w.ev.id in seen && w.ev.id in h && h[w.ev.id] == w && IsReplaceable(w) && Key(w.ev) == key)
    && (forall id :: id in seen && id in h && IsReplaceable(h[id]) ==>
          && Key(h[id].ev) in winners
          && (winners[Key(h[id].ev)].ev.id == id || Beats(winners[Key(h[id].ev)].ev, h[id].ev)))
  }

  lemma {:induction false} WinnersAreBest(h: History, order: seq<nat>)
    requires Filed(h) && forall i :: 0 <= i < |order| ==> order[i] in h
    ensures BestSoFar(h, order, Winners(h, order))
  {
    if order != [] {
      var n := |order| - 1;
      WinnersAreBest(h, order[..n]);
      assert order == order[..n] + [order[n]];
      BestStep(h, order[..n], Winners(h, order[..n]), order[n]);
    }
  }

  lemma BestStep(h: History, seen: seq<nat>, winners: map<string, HeldEvent>, id: nat)
    requires BestSoFar(h, seen, winners) && id in h && h[id].ev.id == id
    ensures BestSoFar(h, seen + [id], if IsReplaceable(h[id]) then Better(winners, h[id]) else winners)
  {
  }

  /** After the whole walk the winners are the winners, whatever the order. */
  lemma WinnersAreWinners(h: History, order: seq<nat>)
    requires Filed(h) && Walks(order, h)
    ensures forall id :: IsWinner(h, id) <==>
      && id in h && IsReplaceable(h[id]) && Key(h[id].ev) in Winners(h, order)
      && Winners(h, order)[Key(h[id].ev)].ev.id == id
    ensures forall key :: key in Winners(h, order) ==>
      var id := Winners(h, order)[key].ev.id; IsWinner(h, id) && h[id] == Winners(h, order)[key] && Key(h[id].ev) == key
  {
    WinnersAreBest(h, order);
  }

  lemma {:induction false} CheckpointsAll(h: History, order: seq<nat>)
    requires forall i :: 0 <= i < |order| ==> order[i] in h
    ensures forall x ::
      x in Checkpoints(h, order) <==> exists i :: 0 <= i < |order| && x == h[order[i]] && IsCheckpoint(x)
  {
    if order != [] {
      var n := |order| - 1;
      CheckpointsAll(h, order[..n]);
      assert forall i :: 0 <= i < n ==> order[..n][i] == order[i];
    }
  }

  /** Chain order: by session and run, then by revision. */
  predicate ChainLess(a: HeldEvent, b: HeldEvent) {
    if a.ev.chain != b.ev.chain then S.StringLess(a.ev.chain, b.ev.chain) else a.ev.revision < b.ev.revision
  }

  /** Within a chain the order is that of the revisions, and chains are not mixed. */
  lemma ChainMeans(a: HeldEvent, b: HeldEvent, c: HeldEvent)
    ensures a.ev.chain == b.ev.chain ==> (ChainLess(a, b) <==> a.ev.revision < b.ev.revision)
    ensures a.ev.chain == c.ev.chain && !ChainLess(b, a) && !ChainLess(c, b) ==> b.ev.chain == a.ev.chain
  {
    S.StringLessTotal(a.ev.chain, b.ev.chain);
    if S.StringLess(a.ev.chain, b.ev.chain) && S.StringLess(b.ev.chain, a.ev.chain) {
      S.StringLessTrans(a.ev.chain, b.ev.chain, a.ev.chain);
      S.StringLessTotal(a.ev.chain, a.ev.chain);
    }
  }

  lemma ChainRanks()
    ensures S.Ranks(ChainLess)
  {
    S.StringsOrdered([]);
    forall a, b
      ensures ChainLess(a, b) ==> !ChainLess(b, a)
    {
      S.StringLessTotal(a.ev.chain, b.ev.chain);
    }
    forall a, b, c | !ChainLess(a, b) && !ChainLess(b, c)
      ensures !ChainLess(a, c)
    {
      S.StringLessTotal(a.ev.chain, b.ev.chain);
      S.StringLessTotal(b.ev.chain, c.ev.chain);
      S.StringLessTotal(c.ev.chain, a.ev.chain);
    }
  }

  // ----- what is under quorum

  /** Those of the list that too few relays hold. */
  function Under(list: seq<HeldEvent>, quorum: nat): seq<Q.Pending> {
    if list == [] then []
    else
      var n := |list| - 1;
      Under(list[..n], quorum) + if |list[n].relays| < quorum then [Q.Pending(list[n].ev.id, list[n].relays)] else []
  }

  function Lookup(winners: map<string, HeldEvent>, keys: seq<string>): seq<HeldEvent>
    requires forall i :: 0 <= i < |keys| ==> keys[i] in winners
  {
    if keys == [] then [] else Lookup(winners, keys[..|keys| - 1]) + [winners[keys[|keys| - 1]]]
  }

  lemma {:induction false} UnderAll(list: seq<HeldEvent>, quorum: nat)
    ensures forall p :: p in Under(list, quorum) <==>
      exists i :: 0 <= i < |list| && |list[i].relays| < quorum && p == Q.Pending(list[i].ev.id, list[i].relays)
  {
    if list != [] {
      var n := |list| - 1;
      UnderAll(list[..n], quorum);
      assert forall i :: 0 <= i < n ==> list[..n][i] == list[i];
    }
  }

  lemma {:induction false} LookupAll(winners: map<string, HeldEvent>, keys: seq<string>)
    requires forall i :: 0 <= i < |keys| ==> keys[i] in winners
    ensures forall x :: x in Lookup(winners, keys) <==> exists i :: 0 <= i < |keys| && x == winners[keys[i]]
  {
    if keys != [] {
      var n := |keys| - 1;
      LookupAll(winners, keys[..n]);
      assert forall i :: 0 <= i < n ==> keys[..n][i] == keys[i];
    }
  }

  /** Everything that matters and lies under quorum, and nothing else. */
  ghost predicate IsTopUp(h: History, quorum: nat, out: seq<Q.Pending>) {
    && (forall id :: id in h && (IsCheckpoint(h[id]) || IsWinner(h, id)) && |h[id].relays| < quorum
          ==> Q.Pending(id, h[id].relays) in out)
    && (forall i :: 0 <= i < |out| ==>
          && out[i].id in h && out[i].held == h[out[i].id].relays && |out[i].held| < quorum
          && (IsCheckpoint(h[out[i].id]) || IsWinner(h, out[i].id)))
  }

  predicate NotAfter(a: HeldEvent, b: HeldEvent) {
    !ChainLess(b, a)
  }

  predicate KeyBefore(a: HeldEvent, b: HeldEvent) {
    S.StringLess(Key(a.ev), Key(b.ev))
  }

  ghost predicate InOrderAt(h: History, out: seq<Q.Pending>, i: nat, j: nat)
    requires i < |out| && j < |out|
  {
    && out[i].id in h && out[j].id in h
    && if IsCheckpoint(h[out[j].id]) then IsCheckpoint(h[out[i].id]) && NotAfter(h[out[i].id], h[out[j].id])
       else IsCheckpoint(h[out[i].id]) || KeyBefore(h[out[i].id], h[out[j].id])
  }

  /** Checkpoints come first and in chain order, then winners in the order of their keys. */
  ghost predicate InOrder(h: History, out: seq<Q.Pending>) {
    forall i, j {:trigger InOrderAt(h, out, i, j)} :: 0 <= i < j < |out| ==> InOrderAt(h, out, i, j)
  }

  ghost predicate Before(h: History, out: seq<Q.Pending>, i: nat, j: nat, before: (HeldEvent, HeldEvent) -> bool)
    requires i < |out| && j < |out|
  {
    out[i].id in h && out[j].id in h && before(h[out[i].id], h[out[j].id])
  }

  ghost predicate AllBefore(h: History, out: seq<Q.Pending>, before: (HeldEvent, HeldEvent) -> bool) {
    forall i, j {:trigger Before(h, out, i, j, before)} :: 0 <= i < j < |out| ==> Before(h, out, i, j, before)
  }

  /** Leaving some of a list out keeps the order of the others. */
  lemma {:induction false} UnderKeeps(h: History, list: seq<HeldEvent>, quorum: nat,
                                      before: (HeldEvent, HeldEvent) -> bool)
    requires Own(h, list) && forall i, j :: 0 <= i < j < |list| ==> before(list[i], list[j])
    ensures AllBefore(h, Under(list, quorum), before)
  {
    if list != [] {
      var n := |list| - 1;
      assert forall i :: 0 <= i < n ==> list[..n][i] == list[i];
      UnderKeeps(h, list[..n], quorum, before);
      var out, all := Under(list[..n], quorum), Under(list, quorum);
      forall i, j | 0 <= i < j < |all|
        ensures Before(h, all, i, j, before)
      {
        assert all[i] == out[i];
        if j < |out| {
          assert Before(h, out, i, j, before);
        } else {
          assert out[i] in out;
          UnderOwn(h, list[..n], quorum, out[i]);
          var k :| 0 <= k < n && list[..n][k] == h[out[i].id];
          assert before(list[k], list[n]);
        }
      }
    }
  }

  /** The sorted checkpoints: all of them, in chain order. */
  lemma SortedCheckpoints(h: History, order: seq<nat>)
    requires Filed(h) && Walks(order, h)
    ensures var cs := S.Sort(Checkpoints(h, order), ChainLess);
      && S.Sorted(cs, ChainLess)
      && Own(h, cs) && (forall x :: x in cs ==> IsCheckpoint(x))
      && (forall id :: id in h && IsCheckpoint(h[id]) ==> h[id] in cs)
  {
    var cs := S.Sort(Checkpoints(h, order), ChainLess);
    ChainRanks();
    S.SortRanked(Checkpoints(h, order), ChainLess);
    S.SortedElements(Checkpoints(h, order), ChainLess);
    CheckpointsAll(h, order);
    assert forall i :: 0 <= i < |cs| ==> cs[i] in cs;
    forall id | id in h && IsCheckpoint(h[id])
      ensures h[id] in cs
    {
      assert id in order;
    }
  }

  ghost predicate Names(keys: seq<string>, winners: map<string, HeldEvent>) {
    && (forall i :: 0 <= i < |keys| ==> keys[i] in winners)
    && (forall key :: key in winners ==> key in keys)
    && (forall i, j :: 0 <= i < j < |keys| ==> S.StringLess(keys[i], keys[j]))
  }

  lemma {:induction false} LookupAt(winners: map<string, HeldEvent>, keys: seq<string>, i: nat)
    requires i < |keys| && forall i :: 0 <= i < |keys| ==> keys[i] in winners
    ensures |Lookup(winners, keys)| == |keys| && Lookup(winners, keys)[i] == winners[keys[i]]
  {
    var n := |keys| - 1;
    if n > 0 {
      LookupAt(winners, keys[..n], if i < n then i else 0);
    }
  }

  lemma LookedUp(h: History, order: seq<nat>, keys: seq<string>)
    requires Filed(h) && Walks(order, h) && Names(keys, Winners(h, order))
    ensures var ws := Lookup(Winners(h, order), keys);
      && Own(h, ws) && (forall x :: x in ws ==> IsWinner(h, x.ev.id))
      && (forall i, j :: 0 <= i < j < |ws| ==> KeyBefore(ws[i], ws[j]))
      && (forall id :: IsWinner(h, id) ==> h[id] in ws)
  {
    var winners := Winners(h, order);
    var ws := Lookup(winners, keys);
    WinnersAreWinners(h, order);
    LookupAll(winners, keys);
    forall i | 0 <= i < |ws|
      ensures ws[i].ev.id in h && h[ws[i].ev.id] == ws[i] && IsWinner(h, ws[i].ev.id)
    {
      assert ws[i] in ws;
      var k :| 0 <= k < |keys| && ws[i] == winners[keys[k]];
    }
    forall i, j | 0 <= i < j < |ws|
      ensures KeyBefore(ws[i], ws[j])
    {
      LookupAt(winners, keys, 0);
      LookupAt(winners, keys, i);
      LookupAt(winners, keys, j);
    }
    forall id | IsWinner(h, id)
      ensures h[id] in ws
    {
      var key := Key(h[id].ev);
      assert key in keys && winners[key] == h[id];
    }
  }

  /** The listed events are the history's own. */
  ghost predicate Own(h: History, list: seq<HeldEvent>) {
    forall i :: 0 <= i < |list| ==> list[i].ev.id in h && h[list[i].ev.id] == list[i]
  }

  lemma UnderOwn(h: History, list: seq<HeldEvent>, quorum: nat, p: Q.Pending)
    requires Own(h, list) && p in Under(list, quorum)
    ensures p.id in h && p.held == h[p.id].relays && |p.held| < quorum && h[p.id] in list
  {
    UnderAll(list, quorum);
    var k :| 0 <= k < |list| && |list[k].relays| < quorum && p == Q.Pending(list[k].ev.id, list[k].relays);
  }

  lemma UnderHas(h: History, list: seq<HeldEvent>, quorum: nat, id: nat)
    requires Filed(h) && id in h && h[id] in list && |h[id].relays| < quorum
    ensures Q.Pending(id, h[id].relays) in Under(list, quorum)
  {
    UnderAll(list, quorum);
    var k :| 0 <= k < |list| && list[k] == h[id];
  }

  lemma TopUpIs(h: History, cs: seq<HeldEvent>, ws: seq<HeldEvent>, quorum: nat)
    requires Filed(h) && Own(h, cs) && Own(h, ws)
    requires forall x :: x in cs ==> IsCheckpoint(x)
    requires forall id :: id in h && IsCheckpoint(h[id]) ==> h[id] in cs
    requires forall x :: x in ws ==> IsWinner(h, x.ev.id)
    requires forall id :: IsWinner(h, id) ==> h[id] in ws
    ensures IsTopUp(h, quorum, Under(cs, quorum) + Under(ws, quorum))
  {
    var a, b := Under(cs, quorum), Under(ws, quorum);
    forall p: Q.Pending | p in a + b
      ensures p.id in h && p.held == h[p.id].relays && |p.held| < quorum && (IsCheckpoint(h[p.id]) || IsWinner(h, p.id))
    {
      if p in a {
        UnderOwn(h, cs, quorum, p);
      } else {
        UnderOwn(h, ws, quorum, p);
      }
    }
    forall id | id in h && (IsCheckpoint(h[id]) || IsWinner(h, id)) && |h[id].relays| < quorum
      ensures Q.Pending(id, h[id].relays) in a + b
    {
      UnderHas(h, if IsCheckpoint(h[id]) then cs else ws, quorum, id);
    }
    assert forall i :: 0 <= i < |a + b| ==> (a + b)[i] in a + b;
  }

  lemma TopUpInOrder(h: History, cs: seq<HeldEvent>, ws: seq<HeldEvent>, quorum: nat)
    requires Filed(h) && Own(h, cs) && Own(h, ws) && S.Sorted(cs, ChainLess)
    requires forall i, j :: 0 <= i < j < |ws| ==> KeyBefore(ws[i], ws[j])
    requires forall x :: x in cs ==> IsCheckpoint(x)
    requires forall x :: x in ws ==> IsWinner(h, x.ev.id)
    ensures InOrder(h, Under(cs, quorum) + Under(ws, quorum))
  {
    var a, b := Under(cs, quorum), Under(ws, quorum);
    UnderKeeps(h, cs, quorum, NotAfter);
    UnderKeeps(h, ws, quorum, KeyBefore);
    forall p: Q.Pending | p in a
      ensures p.id in h && IsCheckpoint(h[p.id])
    {
      UnderOwn(h, cs, quorum, p);
    }
    forall p: Q.Pending | p in b
      ensures p.id in h && !IsCheckpoint(h[p.id])
    {
      UnderOwn(h, ws, quorum, p);
    }
    OneAfterTheOther(h, a, b);
  }

  lemma OneAfterTheOther(h: History, a: seq<Q.Pending>, b: seq<Q.Pending>)
    requires AllBefore(h, a, NotAfter) && AllBefore(h, b, KeyBefore)
    requires forall p :: p in a ==> p.id in h && IsCheckpoint(h[p.id])
    requires forall p :: p in b ==> p.id in h && !IsCheckpoint(h[p.id])
    ensures InOrder(h, a + b)
  {
    var out := a + b;
    forall i, j | 0 <= i < j < |out|
      ensures InOrderAt(h, out, i, j)
    {
      if j < |a| {
        assert Before(h, a, i, j, NotAfter);
        assert a[i] in a && a[j] in a;
      } else if |a| <= i {
        assert Before(h, b, i - |a|, j - |a|, KeyBefore);
        assert b[i - |a|] in b && b[j - |a|] in b;
      } else {
        assert a[i] in a && b[j - |a|] in b;
      }
    }
  }

  lemma TopUpOf(h: History, order: seq<nat>, keys: seq<string>, quorum: nat)
    requires Filed(h) && Walks(order, h) && Names(keys, Winners(h, order))
    ensures var out :=
        Under(S.Sort(Checkpoints(h, order), ChainLess), quorum) + Under(Lookup(Winners(h, order), keys), quorum);
      IsTopUp(h, quorum, out) && InOrder(h, out)
  {
    var cs, ws := S.Sort(Checkpoints(h, order), ChainLess), Lookup(Winners(h, order), keys);
    SortedCheckpoints(h, order);
    LookedUp(h, order, keys);
    TopUpIs(h, cs, ws, quorum);
    TopUpInOrder(h, cs, ws, quorum);
  }

  method UnderQuorum(h: History, order: seq<nat>, quorum: nat) returns (out: seq<Q.Pending>)
    requires Filed(h) && Walks(order, h)
    ensures IsTopUp(h, quorum, out) && InOrder(h, out)
  {
    var winners: map<string, HeldEvent> := map[];
    var checkpoints: seq<HeldEvent> := [];
    for i := 0 to |order|
      invariant winners == Winners(h, order[..i]) && checkpoints == Checkpoints(h, order[..i])
    {
      assert order[..i + 1][..i] == order[..i];
      var held := h[order[i]];
      var ev := held.ev;
      if !ev.valid {
        continue;
      }
      if ev.kind == CHECKPOINT {
        checkpoints := checkpoints + [held];
        continue;
      }
      var key := Key(ev);
      if key !in winners || Beats(ev, winners[key].ev) {
        winners := winners[key := held];
      }
    }
    assert order[..|order|] == order;
    var cs := S.Sort(checkpoints, ChainLess);
    out := Listed(cs, quorum);
    var keys := SortedKeys(winners);
    TopUpOf(h, order, keys, quorum);
    var rest := Listed(Lookup(winners, keys), quorum);
    out := out + rest;
  }

  method Listed(list: seq<HeldEvent>, quorum: nat) returns (out: seq<Q.Pending>)
    ensures out == Under(list, quorum)
  {
    out := [];
    for i := 0 to |list|
      invariant out == Under(list[..i], quorum)
    {
      assert list[..i + 1][..i] == list[..i];
      if |list[i].relays| < quorum {
        out := out + [Q.Pending(list[i].ev.id, list[i].relays)];
      }
    }
    assert list[..|list|] == list;
  }

  method SortedKeys(winners: map<string, HeldEvent>) returns (keys: seq<string>)
    ensures Names(keys, winners)
  {
    var left := winners.Keys;
    var some: seq<string> := [];
    while left != {}
      invariant left <= winners.Keys
      invariant forall key :: key in some <==> key in winners && key !in left
      invariant S.Distinct(some)
      decreases |left|
    {
      var key :| key in left;
      some := some + [key];
      left := left - {key};
    }
    S.StringsOrdered(some);
    S.SortStrict(some, S.StringLess);
    S.SortedElements(some, S.StringLess);
    keys := S.Sort(some, S.StringLess);
    assert forall i :: 0 <= i < |keys| ==> keys[i] in keys;
  }

  // ----- bringing it to quorum

  /** The relays that accepted an event in the run. */
  function AcceptedBy(pool: Q.Pool, work: seq<Q.Pending>, sent: seq<Q.Send>, id: nat): set<string> {
    if sent == [] then {}
    else
      var n := |sent| - 1;
      AcceptedBy(pool, work, sent[..n], id)
      + if sent[n].item < |work| && work[sent[n].item].id == id
        then Q.Accepting(pool.answers(n).results, pool.norm) else {}
  }

  /** The relay has a successful result of a publish of this very event. */
  ghost predicate Accepted(pool: Q.Pool, work: seq<Q.Pending>, sent: seq<Q.Send>, id: nat, u: string) {
    exists k ::
      && 0 <= k < |sent| && Q.Succeeds(pool, sent, sent[k].item, u, k)
      && sent[k].item < |work| && work[sent[k].item].id == id
  }

  lemma {:induction false} AcceptedMeans(pool: Q.Pool, work: seq<Q.Pending>, sent: seq<Q.Send>, id: nat, u: string)
    ensures u in AcceptedBy(pool, work, sent, id) <==> Accepted(pool, work, sent, id, u)
  {
    if sent != [] {
      var n := |sent| - 1;
      AcceptedMeans(pool, work, sent[..n], id, u);
      Q.AcceptingMeans(pool.answers(n).results, pool.norm, u);
      forall k | 0 <= k < n
        ensures Q.Succeeds(pool, sent[..n], sent[..n][k].item, u, k) <==> Q.Succeeds(pool, sent, sent[k].item, u, k)
      {
        assert sent[..n][k] == sent[k];
      }
      assert Q.Succeeds(pool, sent, sent[n].item, u, n) <==> u in Q.Accepting(pool.answers(n).results, pool.norm);
    }
  }

  /** Who counts as accepting an event did accept it. */
  ghost predicate Credited(pool: Q.Pool, work: seq<Q.Pending>, sent: seq<Q.Send>) {
    forall id, u :: u in AcceptedBy(pool, work, sent, id) <==> Accepted(pool, work, sent, id, u)
  }

  lemma AllCredited(pool: Q.Pool, work: seq<Q.Pending>, sent: seq<Q.Send>)
    ensures Credited(pool, work, sent)
  {
    forall id, u
      ensures u in AcceptedBy(pool, work, sent, id) <==> Accepted(pool, work, sent, id, u)
    {
      AcceptedMeans(pool, work, sent, id, u);
    }
  }

  /** The relays that hold an event: those the history was read from, and those that
      accepted it in the run. */
  function Holders(pool: Q.Pool, h: History, work: seq<Q.Pending>, sent: seq<Q.Send>, id: nat): set<string>
    requires id in h
  {
    h[id].relays + AcceptedBy(pool, work, sent, id)
  }

  lemma {:induction false} HeldIsHolders(pool: Q.Pool, h: History, work: seq<Q.Pending>, sent: seq<Q.Send>, i: nat)
    requires i < |work| && work[i].id in h && work[i].held == h[work[i].id].relays && Normal(h, pool.norm)
    ensures Q.Held(pool, work, sent, i) <= Holders(pool, h, work, sent, work[i].id)
  {
    if sent != [] {
      HeldIsHolders(pool, h, work, sent[..|sent| - 1], i);
    }
  }

  /** Once the top-ups at the head of the work are published, every valid checkpoint and
      every winner is held by quorum relays. */
  lemma TopUpsReachQuorum(pool: Q.Pool, h: History, topUps: seq<Q.Pending>, more: seq<Q.Pending>, sent: seq<Q.Send>,
                          published: nat, quorum: nat, id: nat)
    requires Normal(h, pool.norm) && IsTopUp(h, quorum, topUps)
    requires Q.Stopped(pool, topUps + more, sent, published, quorum) && |topUps| <= published
    requires id in h && (IsCheckpoint(h[id]) || IsWinner(h, id))
    ensures |Holders(pool, h, topUps + more, sent, id)| >= quorum
  {
    var work := topUps + more;
    if |h[id].relays| < quorum {
      var i :| 0 <= i < |topUps| && topUps[i] == Q.Pending(id, h[id].relays);
      assert work[i] == topUps[i];
      HeldIsHolders(pool, h, work, sent, i);
      SubsetSize(Q.Held(pool, work, sent, i), Holders(pool, h, work, sent, id));
    } else {
      SubsetSize(h[id].relays, Holders(pool, h, work, sent, id));
    }
  }

  /** At the moment a checkpoint is sent, those before it in its chain that were under quorum
      have already reached it. */
  lemma PredecessorsFirst(pool: Q.Pool, h: History, topUps: seq<Q.Pending>, more: seq<Q.Pending>, sent: seq<Q.Send>,
                          published: nat, quorum: nat, i: nat, k: nat)
    requires IsTopUp(h, quorum, topUps) && InOrder(h, topUps)
    requires Q.Stopped(pool, topUps + more, sent, published, quorum) && k < |sent| && sent[k].item < |topUps|
    requires i < |topUps|
    requires var a, b := h[topUps[i].id], h[topUps[sent[k].item].id];
      IsCheckpoint(a) && IsCheckpoint(b) && ChainLess(a, b)
    ensures i < published && |Q.Held(pool, topUps + more, sent[..k], i)| >= quorum
  {
    assert topUps[i].id in h && topUps[sent[k].item].id in h;
    assert sent[k].item < i ==> InOrderAt(h, topUps, sent[k].item, i);
    ChainRanks();
    assert i < sent[k].item;
    Q.EarlierFirst(pool, topUps + more, sent, published, quorum, i, k);
  }

  /** The top-ups in their order, then the planned events. */
  ghost predicate WorkOf(h: History, quorum: nat, planned: seq<nat>, topUps: seq<Q.Pending>, work: seq<Q.Pending>) {
    && IsTopUp(h, quorum, topUps) && InOrder(h, topUps)
    && |work| == |topUps| + |planned| && work[..|topUps|] == topUps
    && forall i :: 0 <= i < |planned| ==> work[|topUps| + i] == Q.Pending(planned[i], {})
  }

  /** The whole step: the top-ups first, then the planned events. */
  method TopUp(run: Q.Run, pool: Q.Pool, h: History, order: seq<nat>, planned: seq<nat>, quorum: nat, maxAttempts: nat)
    returns (work: seq<Q.Pending>, published: nat, ok: bool)
    requires Filed(h) && Normal(h, pool.norm) && Walks(order, h) && run.sent == [] && run.budgets == []
    requires maxAttempts >= 1
    modifies run
    ensures exists topUps :: WorkOf(h, quorum, planned, topUps, work)
    ensures Q.Stopped(pool, work, run.sent, published, quorum) && Q.Budgeted(run.sent, run.budgets)
    ensures ok ==> published == |work| && Q.Going(pool, run.sent) && Q.Admitted(pool, run.budgets)
    ensures Q.HoldersCounted(pool, work, run.sent) && Credited(pool, work, run.sent)
    ensures !ok ==>
      && published < |work|
      && (!pool.admits(|run.budgets|) || Q.ItemFailed(pool, work, run.sent, published, quorum, maxAttempts))
    ensures ok ==> forall id :: id in h && (IsCheckpoint(h[id]) || IsWinner(h, id)) ==>
      |Holders(pool, h, work, run.sent, id)| >= quorum
  {
    var topUps := UnderQuorum(h, order, quorum);
    var events := Fresh(planned);
    work := topUps + events;
    assert WorkOf(h, quorum, planned, topUps, work);
    published, ok := run.PublishInOrder(pool, work, quorum, maxAttempts);
    AllCredited(pool, work, run.sent);
    if ok {
      forall id | id in h && (IsCheckpoint(h[id]) || IsWinner(h, id))
        ensures |Holders(pool, h, work, run.sent, id)| >= quorum
      {
        TopUpsReachQuorum(pool, h, topUps, events, run.sent, published, quorum, id);
      }
    }
  }

  method Fresh(ids: seq<nat>) returns (out: seq<Q.Pending>)
    ensures |out| == |ids| && forall i :: 0 <= i < |ids| ==> out[i] == Q.Pending(ids[i], {})
  {
    out := [];
    for i := 0 to |ids|
      invariant |out| == i && forall k :: 0 <= k < i ==> out[k] == Q.Pending(ids[k], {})
    {
      out := out + [Q.Pending(ids[i], {})];
    }
  }
}
