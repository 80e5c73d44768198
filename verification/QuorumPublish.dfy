/** cmd/bahia-assistant-reencrypt/publish.go: events are brought to quorum one after the
    other, inside bounded admission operations. */
module QuorumPublish {

  import opened Common

  /** One item of work: an event, and where it was found. */
  datatype Pending = Pending(id: nat, held: set<string>)

  datatype RelayResult = RelayResult(relay: string, ok: bool)

  /** What a publish came to: each relay's result, whether the kill switch stopped it, and
      whether the wait before the next attempt is cut short. */
  datatype Answer = Answer(results: seq<RelayResult>, killed: bool, waits: bool)

  /** One publish: the operation it was charged to, the item, and the relays addressed. */
  datatype Send = Send(op: nat, item: nat, targets: seq<string>)

  /** What a run meets: how relay URLs are normalised, the pool's relays, the answer to each
      publish and which operations are admitted. */
  datatype Pool = Pool(norm: Norm, urls: seq<string>, answers: nat -> Answer, admits: nat -> bool)

  datatype Outcome = Reached | Killed | Exhausted | Interrupted

  const BULK := 2048

  function Normalised(held: set<string>, norm: Norm): set<string> {
    set r | r in held :: norm(r)
  }

  function Accepting(results: seq<RelayResult>, norm: Norm): set<string> {
    if results == [] then {}
    else
      var n := |results| - 1;
      Accepting(results[..n], norm) + if results[n].ok then {norm(results[n].relay)} else {}
  }

  /** The relays that hold an item: those known to from the start, and those that accepted
      it, or answered that they have it, since. */
  function Held(pool: Pool, work: seq<Pending>, sent: seq<Send>, item: nat): set<string>
    requires item < |work|
  {
    if sent == [] then Normalised(work[item].held, pool.norm)
    else
      var n := |sent| - 1;
      Held(pool, work, sent[..n], item)
      + if sent[n].item == item then Accepting(pool.answers(n).results, pool.norm) else {}
  }

  /** A successful result is one of a relay that accepted, or answered that it has the item. */
  lemma {:induction false} AcceptingMeans(results: seq<RelayResult>, norm: Norm, u: string)
    ensures u in Accepting(results, norm) <==>
      exists i :: 0 <= i < |results| && results[i].ok && norm(results[i].relay) == u
  {
    if results != [] {
      var n := |results| - 1;
      AcceptingMeans(results[..n], norm, u);
      if i :| 0 <= i < |results| && results[i].ok && norm(results[i].relay) == u {
        assert i < n ==> results[..n][i] == results[i];
      }
    }
  }

  /** The k-th publish was of this item, and this relay's result was a success. */
  ghost predicate Succeeds(pool: Pool, sent: seq<Send>, item: nat, u: string, k: nat)
    requires k < |sent|
  {
    && sent[k].item == item
    && var results := pool.answers(k).results;
    exists i :: 0 <= i < |results| && results[i].ok && pool.norm(results[i].relay) == u
  }

  /** The relay was known to hold the item, or has a successful result of a publish of it. */
  ghost predicate Holds(pool: Pool, work: seq<Pending>, sent: seq<Send>, item: nat, u: string)
    requires item < |work|
  {
    || (exists r :: r in work[item].held && pool.norm(r) == u)
    || (exists k :: 0 <= k < |sent| && Succeeds(pool, sent, item, u, k))
  }

  /** Those counted are those that hold it. */
  lemma {:induction false} HeldMeans(pool: Pool, work: seq<Pending>, sent: seq<Send>, item: nat, u: string)
    requires item < |work|
    ensures u in Held(pool, work, sent, item) <==> Holds(pool, work, sent, item, u)
  {
    if sent != [] {
      var n := |sent| - 1;
      HeldMeans(pool, work, sent[..n], item, u);
      AcceptingMeans(pool.answers(n).results, pool.norm, u);
      forall k | 0 <= k < n
        ensures Succeeds(pool, sent[..n], item, u, k) <==> Succeeds(pool, sent, item, u, k)
      {
        assert sent[..n][k] == sent[k];
      }
      assert Succeeds(pool, sent, item, u, n) <==>
        sent[n].item == item && u in Accepting(pool.answers(n).results, pool.norm);
    }
  }

  /** An item counts as held by exactly the relays it started on and those a publish of it succeeded at. */
  ghost predicate HoldersCounted(pool: Pool, work: seq<Pending>, sent: seq<Send>) {
    forall item: nat, u :: item < |work| ==> (u in Held(pool, work, sent, item) <==> Holds(pool, work, sent, item, u))
  }

  lemma AllHeldMean(pool: Pool, work: seq<Pending>, sent: seq<Send>)
    ensures HoldersCounted(pool, work, sent)
  {
    forall item: nat, u | item < |work|
      ensures u in Held(pool, work, sent, item) <==> Holds(pool, work, sent, item, u)
    {
      HeldMeans(pool, work, sent, item, u);
    }
  }

  /** Whom a publish addresses: the pool in its order, less the holders. */
  function Targets(pool: Pool, held: set<string>, n: nat): seq<string>
    requires n <= |pool.urls|
  {
    if n == 0 then []
    else Targets(pool, held, n - 1) + if pool.norm(pool.urls[n - 1]) in held then [] else [pool.urls[n - 1]]
  }

  /** A relay is addressed exactly if it is in the pool and no holder. */
  lemma {:induction false} TargetsAreMissing(pool: Pool, held: set<string>, n: nat, url: string)
    requires n <= |pool.urls|
    ensures url in Targets(pool, held, n) <==> url in pool.urls[..n] && pool.norm(url) !in held
  {
    if n > 0 {
      TargetsAreMissing(pool, held, n - 1, url);
      assert pool.urls[..n] == pool.urls[..n - 1] + [pool.urls[n - 1]];
    }
  }

  function Charged(sent: seq<Send>, op: nat): nat {
    if sent == [] then 0
    else Charged(sent[..|sent| - 1], op) + if sent[|sent| - 1].op == op then 1 else 0
  }

  /** The publishes of an operation. */
  ghost function ChargedTo(sent: seq<Send>, op: nat): set<nat> {
    set k | 0 <= k < |sent| && sent[k].op == op
  }

  lemma {:induction false} ChargedMeans(sent: seq<Send>, op: nat)
    ensures Charged(sent, op) == |ChargedTo(sent, op)|
  {
    if sent == [] {
      assert ChargedTo(sent, op) == {};
    } else {
      var n := |sent| - 1;
      ChargedMeans(sent[..n], op);
      assert ChargedTo(sent, op) == ChargedTo(sent[..n], op) + if sent[n].op == op then {n} else {};
    }
  }

  /** The publishes from `from` on were all for one item of one operation. */
  ghost predicate AllFor(sent: seq<Send>, from: nat, op: nat, item: nat) {
    forall k :: from <= k < |sent| ==> sent[k].op == op && sent[k].item == item
  }

  /** Nothing keeps an item from being sent next: the last publish was not stopped, and if it was
      of this item the wait after it was over. */
  ghost predicate MaySend(pool: Pool, sent: seq<Send>, item: nat) {
    sent != [] ==>
      && !pool.answers(|sent| - 1).killed
      && (sent[|sent| - 1].item == item ==> pool.answers(|sent| - 1).waits)
  }

  /** A publish was of an item under quorum, when nothing kept it from being sent, and went to
      exactly the relays that did not hold it by then. */
  ghost predicate Justified(pool: Pool, work: seq<Pending>, sent: seq<Send>, quorum: nat, k: nat)
    requires k < |sent|
  {
    && sent[k].item < |work| && MaySend(pool, sent[..k], sent[k].item)
    && var held := Held(pool, work, sent[..k], sent[k].item);
      |held| < quorum && sent[k].targets == Targets(pool, held, |pool.urls|)
  }

  ghost predicate AllJustified(pool: Pool, work: seq<Pending>, sent: seq<Send>, quorum: nat) {
    forall k {:trigger Justified(pool, work, sent, quorum, k)} :: 0 <= k < |sent| ==>
      Justified(pool, work, sent, quorum, k)
  }

  lemma OneMoreJustified(pool: Pool, work: seq<Pending>, sent: seq<Send>, quorum: nat, op: nat, item: nat)
    requires item < |work| && AllJustified(pool, work, sent, quorum)
    requires MaySend(pool, sent, item) && |Held(pool, work, sent, item)| < quorum
    ensures var send := Send(op, item, Targets(pool, Held(pool, work, sent, item), |pool.urls|));
      AllJustified(pool, work, sent + [send], quorum)
  {
    var more := sent + [Send(op, item, Targets(pool, Held(pool, work, sent, item), |pool.urls|))];
    forall k | 0 <= k < |more|
      ensures Justified(pool, work, more, quorum, k)
    {
      assert more[..k] == sent[..k];
      assert sent[..|sent|] == sent;
      if k < |sent| {
        assert Justified(pool, work, sent, quorum, k);
      }
    }
  }

  lemma OneMoreFor(before: seq<Send>, sent: seq<Send>, n: nat, op: nat, item: nat)
    requires n <= |before| && |sent| == |before| + 1 && sent[..|before|] == before
    requires AllFor(before, n, op, item) && sent[|before|].op == op && sent[|before|].item == item
    ensures AllFor(sent, n, op, item) && sent[..n] == before[..n]
  {
    assert forall k :: 0 <= k < |before| ==> sent[k] == before[k];
  }

  lemma OneMoreHeld(pool: Pool, work: seq<Pending>, sent: seq<Send>, send: Send, item: nat)
    requires item < |work| && send.item == item
    ensures Held(pool, work, sent + [send], item)
      == Held(pool, work, sent, item) + Accepting(pool.answers(|sent|).results, pool.norm)
  {
    assert (sent + [send])[..|sent|] == sent;
  }

  /** Why an item did not get to quorum: the kill switch stopped its last publish, the wait
      after it was cut short, or all attempts were made. */
  ghost predicate GaveUp(pool: Pool, work: seq<Pending>, before: seq<Send>, sent: seq<Send>, item: nat, quorum: nat,
                         maxAttempts: nat)
    requires item < |work|
  {
    && |before| < |sent|
    && (pool.answers(|sent| - 1).killed
        || (|Held(pool, work, sent, item)| < quorum
              && (!pool.answers(|sent| - 1).waits || |sent| == |before| + maxAttempts)))
  }

  /** What an attempt decides, if it does: `held` are the relays that hold the item after it. */
  function Decided(a: Answer, held: set<string>, quorum: nat, last: bool): Option<Outcome> {
    if a.killed then Some(Killed)
    else if |held| >= quorum then Some(Reached)
    else if last then Some(Exhausted)
    else if a.waits then None else Some(Interrupted)
  }

  /** The kill switch did not stop the last publish. */
  ghost predicate Going(pool: Pool, sent: seq<Send>) {
    sent != [] ==> !pool.answers(|sent| - 1).killed
  }

  /** The attempts at one item so far. */
  ghost predicate Trying(pool: Pool, work: seq<Pending>, before: seq<Send>, sent: seq<Send>, op: nat, item: nat,
                         quorum: nat, held: set<string>)
    requires item < |work|
  {
    && |before| <= |sent| && sent[..|before|] == before && AllFor(sent, |before|, op, item)
    && AllJustified(pool, work, sent, quorum) && held == Held(pool, work, sent, item)
  }

  ghost predicate Ended(pool: Pool, work: seq<Pending>, before: seq<Send>, sent: seq<Send>, item: nat, quorum: nat,
                        maxAttempts: nat, r: Outcome)
    requires item < |work|
  {
    if r.Reached? then |Held(pool, work, sent, item)| >= quorum && Going(pool, sent)
    else GaveUp(pool, work, before, sent, item, quorum, maxAttempts)
  }

  lemma TryingMore(pool: Pool, work: seq<Pending>, before: seq<Send>, last: seq<Send>, sent: seq<Send>, op: nat,
                   item: nat, quorum: nat)
    requires item < |work| && Trying(pool, work, before, last, op, item, quorum, Held(pool, work, last, item))
    requires |sent| == |last| + 1 && sent[..|last|] == last && sent[|last|].op == op && sent[|last|].item == item
    requires AllJustified(pool, work, sent, quorum)
    ensures Trying(pool, work, before, sent, op, item, quorum, Held(pool, work, sent, item))
  {
    OneMoreFor(last, sent, |before|, op, item);
  }

  lemma DecidedMeans(pool: Pool, work: seq<Pending>, before: seq<Send>, sent: seq<Send>, held: set<string>, item: nat,
                     quorum: nat, maxAttempts: nat, r: Option<Outcome>)
    requires item < |work| && |before| < |sent| <= |before| + maxAttempts && held == Held(pool, work, sent, item)
    requires r == Decided(pool.answers(|sent| - 1), held, quorum, |sent| == |before| + maxAttempts)
    ensures r.None? ==> |sent| < |before| + maxAttempts && |held| < quorum && MaySend(pool, sent, item)
    ensures r.Some? ==> Ended(pool, work, before, sent, item, quorum, maxAttempts, r.value)
  {
  }

  ghost predicate Unsent(sent: seq<Send>, item: nat) {
    forall k :: 0 <= k < |sent| ==> sent[k].item != item
  }

  lemma {:induction false} UnsentHeld(pool: Pool, work: seq<Pending>, sent: seq<Send>, item: nat)
    requires item < |work| && Unsent(sent, item)
    ensures Held(pool, work, sent, item) == Normalised(work[item].held, pool.norm)
  {
    if sent != [] {
      UnsentHeld(pool, work, sent[..|sent| - 1], item);
    }
  }

  lemma {:induction false} HeldGrows(pool: Pool, work: seq<Pending>, sent: seq<Send>, more: seq<Send>, item: nat)
    requires item < |work| && sent <= more
    ensures Held(pool, work, sent, item) <= Held(pool, work, more, item)
    decreases |more|
  {
    if |sent| < |more| {
      HeldGrows(pool, work, sent, more[..|more| - 1], item);
    } else {
      assert sent == more;
    }
  }

  class Run {
    var sent: seq<Send>
    var budgets: seq<nat>

    constructor ()
      ensures sent == [] && budgets == []
    {
      sent, budgets := [], [];
    }

    method Publish(pool: Pool, op: nat, item: nat, targets: seq<string>) returns (a: Answer)
      modifies this`sent
      ensures sent == old(sent) + [Send(op, item, targets)] && a == pool.answers(|old(sent)|)
    {
      a := pool.answers(|sent|);
      sent := sent + [Send(op, item, targets)];
    }

    /** One justified publish to whom lacks the item, and what it decides. */
    method Attempt(pool: Pool, work: seq<Pending>, op: nat, item: nat, quorum: nat, held: set<string>, last: bool,
                   ghost before: seq<Send>)
      returns (r: Option<Outcome>, now: set<string>)
      requires item < |work| && Trying(pool, work, before, sent, op, item, quorum, held)
      requires |held| < quorum && MaySend(pool, sent, item)
      modifies this`sent
      ensures |sent| == |old(sent)| + 1 && sent[..|old(sent)|] == old(sent)
      ensures Trying(pool, work, before, sent, op, item, quorum, now)
      ensures r == Decided(pool.answers(|sent| - 1), now, quorum, last)
    {
      ghost var was := sent;
      var targets := MissingFrom(pool, held);
      OneMoreJustified(pool, work, sent, quorum, op, item);
      OneMoreHeld(pool, work, sent, Send(op, item, targets), item);
      var a := Publish(pool, op, item, targets);
      TryingMore(pool, work, before, was, sent, op, item, quorum);
      var accepted := Successes(pool, a.results);
      now := held + accepted;
      if a.killed {
        return Some(Killed), now;
      }
      if |now| >= quorum {
        return Some(Reached), now;
      }
      if last {
        return Some(Exhausted), now;
      }
      return if a.waits then None else Some(Interrupted), now;
    }

    /** One attempt, after which it is known whether there is another. */
    method Try(pool: Pool, work: seq<Pending>, op: nat, item: nat, quorum: nat, maxAttempts: nat,
               held: set<string>, attempt: nat, ghost before: seq<Send>)
      returns (decided: Option<Outcome>, now: set<string>)
      requires item < |work| && Trying(pool, work, before, sent, op, item, quorum, held)
      requires 1 <= attempt <= maxAttempts && |sent| == |before| + attempt - 1
      requires |held| < quorum && MaySend(pool, sent, item)
      modifies this`sent
      ensures Trying(pool, work, before, sent, op, item, quorum, now) && |sent| == |before| + attempt
      ensures decided.None? ==> attempt < maxAttempts && |now| < quorum && MaySend(pool, sent, item)
      ensures decided.Some? ==> Ended(pool, work, before, sent, item, quorum, maxAttempts, decided.value)
    {
      decided, now := Attempt(pool, work, op, item, quorum, held, attempt >= maxAttempts, before);
      DecidedMeans(pool, work, before, sent, now, item, quorum, maxAttempts, decided);
    }

    /** The attempts at one item: they end at quorum, or for a reason. */
    method ToQuorum(pool: Pool, work: seq<Pending>, op: nat, item: nat, quorum: nat, maxAttempts: nat)
      returns (r: Outcome)
      requires item < |work| && maxAttempts >= 1 && Unsent(sent, item) && Going(pool, sent)
      requires AllJustified(pool, work, sent, quorum)
      modifies this`sent
      ensures |old(sent)| <= |sent| <= |old(sent)| + maxAttempts && sent[..|old(sent)|] == old(sent)
      ensures AllFor(sent, |old(sent)|, op, item) && AllJustified(pool, work, sent, quorum)
      ensures r.Reached? ==> |Held(pool, work, sent, item)| >= quorum && Going(pool, sent)
      ensures !r.Reached? ==> GaveUp(pool, work, old(sent), sent, item, quorum, maxAttempts)
    {
      var held := Normalised(work[item].held, pool.norm);
      UnsentHeld(pool, work, sent, item);
      ghost var before := sent;
      if |held| >= quorum {
        return Reached;
      }
      var decided := None;
      var attempt := 1;
      while decided.None?
        invariant Trying(pool, work, before, sent, op, item, quorum, held) && |sent| == |before| + attempt - 1
        invariant 1 <= attempt <= maxAttempts + 1 && (decided.None? ==> attempt <= maxAttempts)
        invariant decided.None? ==> |held| < quorum && MaySend(pool, sent, item)
        invariant decided.Some? ==> Ended(pool, work, before, sent, item, quorum, maxAttempts, decided.value)
        decreases maxAttempts + 1 - attempt
      {
        decided, held := Try(pool, work, op, item, quorum, maxAttempts, held, attempt, before);
        attempt := attempt + 1;
      }
      return decided.value;
    }

    /** One item of an operation, charged to what is left of its budget. */
    method PublishItem(pool: Pool, work: seq<Pending>, item: nat, quorum: nat, maxAttempts: nat, ghost spent: nat)
      returns (ok: bool)
      requires item < |work| && maxAttempts >= 1 && Progress(pool, work, sent, item, quorum)
      requires budgets != [] && Budgeted(sent, budgets)
      requires Charged(sent, |budgets| - 1) <= spent && spent + maxAttempts <= budgets[|budgets| - 1]
      modifies this`sent
      ensures Stopped(pool, work, sent, item, quorum)
      ensures Budgeted(sent, budgets) && Charged(sent, |budgets| - 1) <= spent + maxAttempts
      ensures ok ==> Progress(pool, work, sent, item + 1, quorum)
      ensures !ok ==> ItemFailed(pool, work, sent, item, quorum, maxAttempts)
    {
      ghost var before, op := sent, |budgets| - 1;
      var r := ToQuorum(pool, work, |budgets| - 1, item, quorum, maxAttempts);
      ItemStops(pool, work, before, sent, op, item, quorum);
      ItemCharged(before, sent, budgets, op, maxAttempts, spent);
      if !r.Reached? {
        assert sent[..|before|] == before;
        return false;
      }
      ItemProgress(pool, work, sent, item + 1, quorum);
      return true;
    }

    /** The items of one operation. */
    method PublishBatch(pool: Pool, work: seq<Pending>, start: nat, end: nat, quorum: nat, maxAttempts: nat)
      returns (published: nat, ok: bool)
      requires start <= end <= |work| && maxAttempts >= 1 && Progress(pool, work, sent, start, quorum)
      requires budgets != [] && budgets[|budgets| - 1] == (end - start) * maxAttempts
      requires Budgeted(sent, budgets) && Charged(sent, |budgets| - 1) == 0
      modifies this`sent
      ensures start <= published <= end && (ok ==> published == end && Progress(pool, work, sent, published, quorum))
      ensures Stopped(pool, work, sent, published, quorum) && Budgeted(sent, budgets)
      ensures !ok ==> published < end && ItemFailed(pool, work, sent, published, quorum, maxAttempts)
    {
      published := start;
      ghost var spent: nat := 0;
      while published < end
        invariant start <= published <= end && spent == (published - start) * maxAttempts
        invariant Progress(pool, work, sent, published, quorum)
        invariant Budgeted(sent, budgets) && Charged(sent, |budgets| - 1) <= spent
      {
        Room(published, start, end, maxAttempts);
        ok := PublishItem(pool, work, published, quorum, maxAttempts, spent);
        if !ok {
          return published, false;
        }
        published, spent := published + 1, spent + maxAttempts;
      }
      return published, true;
    }

    /** One operation: admitted with a budget of all the attempts its items may take. */
    method Operate(pool: Pool, work: seq<Pending>, start: nat, end: nat, quorum: nat, maxAttempts: nat)
      returns (published: nat, ok: bool)
      requires start < end <= |work| && maxAttempts >= 1 && Progress(pool, work, sent, start, quorum)
      requires maxAttempts <= BULK ==> (end - start) * maxAttempts <= BULK
      requires Budgeted(sent, budgets) && Admitted(pool, budgets) && WithinBulk(budgets, maxAttempts)
      modifies this
      ensures Stopped(pool, work, sent, published, quorum) && Budgeted(sent, budgets)
      ensures WithinBulk(budgets, maxAttempts)
      ensures start <= published <= end
      ensures budgets == old(budgets) || budgets == old(budgets) + [(end - start) * maxAttempts]
      ensures ok ==> budgets == old(budgets) + [(end - start) * maxAttempts]
      ensures ok ==> published == end && Progress(pool, work, sent, end, quorum) && Admitted(pool, budgets)
      ensures !ok ==> published < end
      ensures !ok ==> !pool.admits(|budgets|) || ItemFailed(pool, work, sent, published, quorum, maxAttempts)
    {
      if !pool.admits(|budgets|) {
        return start, false;
      }
      var budget: nat := (end - start) * maxAttempts;
      Opened(pool, sent, budgets, budget, maxAttempts);
      budgets := budgets + [budget];
      published, ok := PublishBatch(pool, work, start, end, quorum, maxAttempts);
    }

    /** The items one after the other, operation by operation, up to the first that fails. */
    method PublishInOrder(pool: Pool, work: seq<Pending>, quorum: nat, maxAttempts: nat)
      returns (published: nat, ok: bool)
      requires sent == [] && budgets == [] && maxAttempts >= 1
      modifies this
      ensures Stopped(pool, work, sent, published, quorum)
      ensures Budgeted(sent, budgets) && WithinBulk(budgets, maxAttempts)
      ensures FilledUp(budgets, |budgets| - 1, maxAttempts) && HoldersCounted(pool, work, sent)
      ensures forall o :: 0 <= o < |budgets| ==> |ChargedTo(sent, o)| <= budgets[o]
      ensures ok ==> published == |work| && Going(pool, sent) && Admitted(pool, budgets)
      ensures !ok ==> published < |work|
      ensures !ok ==> !pool.admits(|budgets|) || ItemFailed(pool, work, sent, published, quorum, maxAttempts)
    {
      var chunk := if BULK / maxAttempts > 1 then BULK / maxAttempts else 1;
      published := 0;
      while published < |work|
        invariant Progress(pool, work, sent, published, quorum)
        invariant Budgeted(sent, budgets) && Admitted(pool, budgets) && WithinBulk(budgets, maxAttempts)
        invariant FilledUp(budgets, if published < |work| then |budgets| else |budgets| - 1, maxAttempts)
      {
        var end := if published + chunk < |work| then published + chunk else |work|;
        BudgetFits(end - published, chunk, maxAttempts);
        NoneMoreFits(chunk, maxAttempts);
        published, ok := Operate(pool, work, published, end, quorum, maxAttempts);
        if !ok {
          Accounts(pool, work, sent, budgets);
          return published, false;
        }
      }
      Accounts(pool, work, sent, budgets);
      return published, true;
    }
  }

  method MissingFrom(pool: Pool, held: set<string>) returns (targets: seq<string>)
    ensures targets == Targets(pool, held, |pool.urls|)
  {
    targets := [];
    for i := 0 to |pool.urls|
      invariant targets == Targets(pool, held, i)
    {
      if pool.norm(pool.urls[i]) !in held {
        targets := targets + [pool.urls[i]];
      }
    }
  }

  method Successes(pool: Pool, results: seq<RelayResult>) returns (held: set<string>)
    ensures held == Accepting(results, pool.norm)
  {
    held := {};
    for i := 0 to |results|
      invariant held == Accepting(results[..i], pool.norm)
    {
      assert results[..i + 1][..i] == results[..i];
      if results[i].ok {
        held := held + {pool.norm(results[i].relay)};
      }
    }
    assert results[..|results|] == results;
  }

  /** The first `published` items are at quorum; the items were sent in their order, none past the
      next one, each only while under quorum and to the relays that did not hold it. */
  ghost predicate Stopped(pool: Pool, work: seq<Pending>, sent: seq<Send>, published: nat, quorum: nat) {
    && published <= |work|
    && (forall i :: 0 <= i < published ==> |Held(pool, work, sent, i)| >= quorum)
    && (forall k :: 0 <= k < |sent| ==> sent[k].item <= published && sent[k].item < |work|)
    && (forall k, l {:trigger Precedes(sent, k, l)} :: 0 <= k < l < |sent| ==> Precedes(sent, k, l))
    && AllJustified(pool, work, sent, quorum)
  }

  ghost predicate Precedes(sent: seq<Send>, k: nat, l: nat)
    requires k < |sent| && l < |sent|
  {
    sent[k].item <= sent[l].item
  }

  /** The publishes of this item came to nothing. */
  ghost predicate ItemFailed(pool: Pool, work: seq<Pending>, sent: seq<Send>, item: nat, quorum: nat,
                             maxAttempts: nat)
  {
    item < |work| && exists n: nat ::
      n <= |sent| && Unsent(sent[..n], item) && GaveUp(pool, work, sent[..n], sent, item, quorum, maxAttempts)
  }

  /** The same with nothing sent past the published items and nothing stopped. */
  ghost predicate Progress(pool: Pool, work: seq<Pending>, sent: seq<Send>, published: nat, quorum: nat) {
    Stopped(pool, work, sent, published, quorum) && Unsent(sent, published) && Going(pool, sent)
  }

  /** Every publish is charged to an operation, none beyond its budget. */
  ghost predicate Budgeted(sent: seq<Send>, budgets: seq<nat>) {
    && (forall k :: 0 <= k < |sent| ==> sent[k].op < |budgets|)
    && (forall o :: 0 <= o < |budgets| ==> Charged(sent, o) <= budgets[o])
  }

  /** Every operation so far was admitted. */
  ghost predicate Admitted(pool: Pool, budgets: seq<nat>) {
    forall o :: 0 <= o < |budgets| ==> pool.admits(o)
  }

  /** No operation asked for more than the bulk limit, unless one item alone may take more. */
  ghost predicate WithinBulk(budgets: seq<nat>, maxAttempts: nat) {
    maxAttempts <= BULK ==> forall o :: 0 <= o < |budgets| ==> budgets[o] <= BULK
  }

  /** No operation but the last could have taken one more item within the limit. */
  ghost predicate FilledUp(budgets: seq<nat>, n: int, maxAttempts: nat) {
    forall o :: 0 <= o < n && o < |budgets| ==> budgets[o] + maxAttempts > BULK
  }

  lemma Accounts(pool: Pool, work: seq<Pending>, sent: seq<Send>, budgets: seq<nat>)
    requires Budgeted(sent, budgets)
    ensures HoldersCounted(pool, work, sent)
    ensures forall o :: 0 <= o < |budgets| ==> |ChargedTo(sent, o)| <= budgets[o]
  {
    AllHeldMean(pool, work, sent);
    forall o | 0 <= o < |budgets|
      ensures |ChargedTo(sent, o)| <= budgets[o]
    {
      ChargedMeans(sent, o);
    }
  }

  lemma ItemStops(pool: Pool, work: seq<Pending>, before: seq<Send>, sent: seq<Send>, op: nat, item: nat, quorum: nat)
    requires item < |work| && |before| <= |sent| && sent[..|before|] == before
    requires Progress(pool, work, before, item, quorum) && AllFor(sent, |before|, op, item)
    requires AllJustified(pool, work, sent, quorum)
    ensures Stopped(pool, work, sent, item, quorum)
  {
    assert forall k :: 0 <= k < |before| ==> sent[k] == before[k];
    forall k, l | 0 <= k < l < |sent|
      ensures Precedes(sent, k, l)
    {
      assert l < |before| ==> Precedes(before, k, l);
    }
    forall i | 0 <= i < item
      ensures |Held(pool, work, sent, i)| >= quorum
    {
      HeldGrows(pool, work, before, sent, i);
      SubsetSize(Held(pool, work, before, i), Held(pool, work, sent, i));
    }
  }

  lemma {:induction false} HeldSince(pool: Pool, work: seq<Pending>, sent: seq<Send>, k: nat, item: nat)
    requires item < |work| && k <= |sent| && forall l :: k <= l < |sent| ==> sent[l].item != item
    ensures Held(pool, work, sent[..k], item) == Held(pool, work, sent, item)
    decreases |sent|
  {
    var n := |sent| - 1;
    if k <= n {
      HeldSince(pool, work, sent[..n], k, item);
      assert sent[..n][..k] == sent[..k];
    } else {
      assert sent[..k] == sent;
    }
  }

  /** By the time an item is sent, every item before it is at quorum. */
  lemma EarlierFirst(pool: Pool, work: seq<Pending>, sent: seq<Send>, published: nat, quorum: nat, i: nat, k: nat)
    requires Stopped(pool, work, sent, published, quorum) && k < |sent| && i < sent[k].item
    ensures i < published && |Held(pool, work, sent[..k], i)| >= quorum
  {
    forall l | k <= l < |sent|
      ensures sent[l].item != i
    {
      assert k < l ==> Precedes(sent, k, l);
    }
    HeldSince(pool, work, sent, k, i);
  }

  lemma ItemProgress(pool: Pool, work: seq<Pending>, sent: seq<Send>, published: nat, quorum: nat)
    requires 0 < published <= |work| && Stopped(pool, work, sent, published - 1, quorum)
    requires |Held(pool, work, sent, published - 1)| >= quorum && Going(pool, sent)
    ensures Progress(pool, work, sent, published, quorum)
  {
  }

  lemma Room(item: nat, start: nat, end: nat, m: nat)
    requires start <= item < end
    ensures (item - start) * m + m == (item + 1 - start) * m <= (end - start) * m
  {
  }

  lemma ItemCharged(before: seq<Send>, sent: seq<Send>, budgets: seq<nat>, op: nat, maxAttempts: nat, spent: nat)
    requires |before| <= |sent| <= |before| + maxAttempts && sent[..|before|] == before
    requires (forall k :: |before| <= k < |sent| ==> sent[k].op == op)
    requires Budgeted(before, budgets) && op < |budgets| && Charged(before, op) <= spent
    requires spent + maxAttempts <= budgets[op]
    ensures Budgeted(sent, budgets) && Charged(sent, op) <= spent + maxAttempts
  {
    assert forall k :: 0 <= k < |before| ==> sent[k] == before[k];
    forall o | 0 <= o < |budgets|
      ensures Charged(sent, o) <= budgets[o]
      ensures o == op ==> Charged(sent, o) <= spent + maxAttempts
    {
      ChargedMore(before, sent, op, o);
    }
  }

  lemma BudgetFits(n: nat, chunk: nat, maxAttempts: nat)
    requires maxAttempts >= 1 && n <= chunk == if BULK / maxAttempts > 1 then BULK / maxAttempts else 1
    ensures maxAttempts <= BULK ==> n * maxAttempts <= BULK
  {
    if maxAttempts <= BULK {
      var q := BULK / maxAttempts;
      assert q * maxAttempts <= BULK;
      assert n * maxAttempts <= chunk * maxAttempts;
    }
  }

  lemma NoneMoreFits(chunk: nat, maxAttempts: nat)
    requires maxAttempts >= 1 && chunk == if BULK / maxAttempts > 1 then BULK / maxAttempts else 1
    ensures chunk * maxAttempts + maxAttempts > BULK
  {
    assert (BULK / maxAttempts) * maxAttempts + maxAttempts > BULK;
    assert chunk * maxAttempts >= (BULK / maxAttempts) * maxAttempts;
  }

  /** A further operation with nothing charged to it yet. */
  lemma Opened(pool: Pool, sent: seq<Send>, budgets: seq<nat>, budget: nat, maxAttempts: nat)
    requires Budgeted(sent, budgets) && Admitted(pool, budgets) && WithinBulk(budgets, maxAttempts)
    requires pool.admits(|budgets|) && (maxAttempts <= BULK ==> budget <= BULK)
    ensures var more := budgets + [budget];
      && Budgeted(sent, more) && Admitted(pool, more) && WithinBulk(more, maxAttempts)
      && Charged(sent, |more| - 1) == 0
  {
    ChargedNone(sent, |budgets|);
  }

  lemma {:induction false} ChargedNone(sent: seq<Send>, op: nat)
    requires forall k :: 0 <= k < |sent| ==> sent[k].op != op
    ensures Charged(sent, op) == 0
  {
    if sent != [] {
      ChargedNone(sent[..|sent| - 1], op);
    }
  }

  lemma {:induction false} ChargedMore(before: seq<Send>, sent: seq<Send>, op: nat, o: nat)
    requires before <= sent && forall k :: |before| <= k < |sent| ==> sent[k].op == op
    ensures Charged(sent, o) == Charged(before, o) + if o == op then |sent| - |before| else 0
    decreases |sent|
  {
    if |before| < |sent| {
      ChargedMore(before, sent[..|sent| - 1], op, o);
    } else {
      assert before == sent;
    }
  }
}
