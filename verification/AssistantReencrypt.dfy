/** cmd/bahia-assistant-reencrypt: reading every relay's history, then bringing what lies
    under quorum to quorum. */
module AssistantReencrypt {
  import opened Common
  import opened StoredEvents
  import H = AssistantHistory
  import P = HistoryPages
  import Q = QuorumPublish

  /** One read: a relay by its URL, and how it answers the read's filter. */
  datatype Source = Source(url: string, relay: Relay)

  datatype Reading = Reading(url: string, events: seq<Event>)

  /** What a source stores and how many events it returns at once. */
  datatype Shelf = Shelf(stored: set<Event>, cap: nat)

  ghost predicate Honest(sources: seq<Source>, shelves: seq<Shelf>, pageLimit: nat) {
    && |sources| == |shelves| && pageLimit >= 1
    && forall i :: 0 <= i < |sources| ==>
         && shelves[i].cap >= 1 && Storable(shelves[i].stored)
         && Serves(sources[i].relay, shelves[i].stored, Min(pageLimit, shelves[i].cap))
  }

  /** A read of this shelf without error is complete. */
  ghost predicate Readable(shelf: Shelf, pageLimit: nat) {
    At(shelf.stored, 1) == {} && !P.Undetectable(shelf.stored, shelf.cap, pageLimit)
  }

  /** Reading the source comes to this. */
  ghost predicate ComesTo(source: Source, pageLimit: nat, read: P.Read) {
    exists n: nat :: P.Ends(source.relay, pageLimit, n, read)
  }

  /** The reading is the source's: it holds only what is stored, and all of it if the shelf can be
      read. */
  ghost predicate Reads(reading: Reading, source: Source, shelf: Shelf, pageLimit: nat) {
    && reading.url == source.url && ComesTo(source, pageLimit, P.Events(reading.events))
    && Elems(reading.events) <= shelf.stored
    && (Readable(shelf, pageLimit) ==> Elems(reading.events) == shelf.stored)
  }

  /** A read of this source may fail: a request is not answered, or a second holds a full answer. */
  ghost predicate Unreadable(source: Source, shelf: Shelf, pageLimit: nat)
    requires shelf.cap >= 1 && pageLimit >= 1
  {
    !P.Answers(source.relay) || FullSecond(shelf.stored, Min(pageLimit, shelf.cap))
  }

  /** Reads every source; the first read that fails ends it. */
  method ReadAll(sources: seq<Source>, pageLimit: nat, ghost shelves: seq<Shelf>) returns (r: Result<seq<Reading>>)
    requires Honest(sources, shelves, pageLimit)
    ensures r.Ok? ==>
      && |r.value| == |sources|
      && forall i :: 0 <= i < |sources| ==> Reads(r.value[i], sources[i], shelves[i], pageLimit)
    ensures r.Err? ==> exists i, read ::
      && 0 <= i < |sources| && ComesTo(sources[i], pageLimit, read) && !read.Events?
      && Unreadable(sources[i], shelves[i], pageLimit)
  {
    var readings := [];
    for i := 0 to |sources|
      invariant |readings| == i && forall k :: 0 <= k < i ==> Reads(readings[k], sources[k], shelves[k], pageLimit)
    {
      var read, requests := P.Pages(sources[i].relay, pageLimit, shelves[i].stored, shelves[i].cap);
      assert P.Ends(sources[i].relay, pageLimit, requests - 1, read);
      assert ComesTo(sources[i], pageLimit, read);
      if !read.Events? {
        assert Unreadable(sources[i], shelves[i], pageLimit);
        return Err;
      }
      readings := readings + [Reading(sources[i].url, read.events)];
    }
    return Ok(readings);
  }

  // ----- filing what was read

  /** Whose events are filed, and the event with an id. */
  datatype Author = Author(own: nat -> bool, event: nat -> H.Event)

  ghost predicate Consistent(a: Author) {
    forall id :: a.event(id).id == id
  }

  function Relays(h: H.History, id: nat): set<string> {
    if id in h then h[id].relays else {}
  }

  function Note(h: H.History, a: Author, url: string, id: nat): H.History {
    if !a.own(id) then h else h[id := H.HeldEvent(a.event(id), Relays(h, id) + {url})]
  }

  function NoteAll(h: H.History, a: Author, url: string, events: seq<Event>): H.History {
    if events == [] then h
    else Note(NoteAll(h, a, url, events[..|events| - 1]), a, url, events[|events| - 1].id)
  }

  function HistoryOf(readings: seq<Reading>, a: Author, norm: Norm): H.History {
    if readings == [] then map[]
    else
      var last := readings[|readings| - 1];
      NoteAll(HistoryOf(readings[..|readings| - 1], a, norm), a, norm(last.url), last.events)
  }

  method FileAll(readings: seq<Reading>, a: Author, norm: Norm) returns (h: H.History)
    ensures h == HistoryOf(readings, a, norm)
  {
    h := map[];
    for i := 0 to |readings|
      invariant h == HistoryOf(readings[..i], a, norm)
    {
      assert readings[..i + 1][..i] == readings[..i];
      ghost var before := h;
      var url, events := norm(readings[i].url), readings[i].events;
      for j := 0 to |events|
        invariant h == NoteAll(before, a, url, events[..j])
      {
        assert events[..j + 1][..j] == events[..j];
        var id := events[j].id;
        if !a.own(id) {
          continue;
        }
        if id !in h {
          h := h[id := H.HeldEvent(a.event(id), {})];
        }
        h := h[id := H.HeldEvent(a.event(id), h[id].relays + {url})];
      }
      assert events[..|events|] == events;
    }
    assert readings[..|readings|] == readings;
  }

  ghost function IdsOf(events: set<Event>): set<nat> {
    set ev | ev in events :: ev.id
  }

  /** Every filed event is the author's event of that id. */
  ghost predicate FiledFor(h: H.History, a: Author) {
    forall id :: id in h ==> a.own(id) && h[id].ev == a.event(id)
  }

  lemma {:induction false} NoteAllMeans(h: H.History, a: Author, url: string, events: seq<Event>, id: nat)
    requires FiledFor(h, a)
    ensures FiledFor(NoteAll(h, a, url, events), a)
    ensures id in NoteAll(h, a, url, events) <==> id in h || (a.own(id) && id in IdsOf(Elems(events)))
    ensures Relays(NoteAll(h, a, url, events), id)
      == Relays(h, id) + if a.own(id) && id in IdsOf(Elems(events)) then {url} else {}
  {
    if events != [] {
      var n := |events| - 1;
      NoteAllMeans(h, a, url, events[..n], id);
      LastId(events, id);
    }
  }

  lemma LastId(events: seq<Event>, id: nat)
    requires events != []
    ensures id in IdsOf(Elems(events)) <==> id in IdsOf(Elems(events[..|events| - 1])) || id == events[|events| - 1].id
  {
    var n := |events| - 1;
    assert events == events[..n] + [events[n]];
    if id in IdsOf(Elems(events)) {
      var ev :| ev in events && ev.id == id;
      assert ev in events[..n] || ev == events[n];
    }
    if id in IdsOf(Elems(events[..n])) {
      var ev :| ev in events[..n] && ev.id == id;
      assert ev in events;
    }
    if id == events[n].id {
      assert events[n] in events;
    }
  }

  /** The relays whose reading mentions an id. */
  ghost function MentionedBy(readings: seq<Reading>, norm: Norm, id: nat): set<string> {
    set i | 0 <= i < |readings| && id in IdsOf(Elems(readings[i].events)) :: norm(readings[i].url)
  }

  lemma OneMoreMention(readings: seq<Reading>, norm: Norm, id: nat)
    requires readings != []
    ensures var n := |readings| - 1;
      MentionedBy(readings, norm, id) == MentionedBy(readings[..n], norm, id)
        + if id in IdsOf(Elems(readings[n].events)) then {norm(readings[n].url)} else {}
  {
    var n := |readings| - 1;
    assert forall i :: 0 <= i < n ==> readings[..n][i] == readings[i];
  }

  /** The history files exactly the author's events that some relay was read to hold, each
      with the relays it was read from. */
  lemma {:induction false} HistoryMeans(readings: seq<Reading>, a: Author, norm: Norm, id: nat)
    ensures FiledFor(HistoryOf(readings, a, norm), a)
    ensures id in HistoryOf(readings, a, norm) <==> a.own(id) && MentionedBy(readings, norm, id) != {}
    ensures Relays(HistoryOf(readings, a, norm), id) == if a.own(id) then MentionedBy(readings, norm, id) else {}
  {
    if readings != [] {
      var n := |readings| - 1;
      HistoryMeans(readings[..n], a, norm, id);
      NoteAllMeans(HistoryOf(readings[..n], a, norm), a, norm(readings[n].url), readings[n].events, id);
      OneMoreMention(readings, norm, id);
    }
  }

  // ----- the whole run

  /** The relays that store an event. */
  ghost function StoredOn(sources: seq<Source>, shelves: seq<Shelf>, norm: Norm, id: nat): set<string>
    requires |sources| == |shelves|
  {
    set i | 0 <= i < |sources| && id in IdsOf(shelves[i].stored) :: norm(sources[i].url)
  }

  /** A valid checkpoint of the author, or the event every relay would keep at its
      coordinate, of all that is stored anywhere. */
  ghost predicate Matters(sources: seq<Source>, shelves: seq<Shelf>, norm: Norm, a: Author, id: nat)
    requires |sources| == |shelves|
  {
    && a.own(id) && StoredOn(sources, shelves, norm, id) != {} && a.event(id).valid
    && (a.event(id).kind != H.CHECKPOINT ==>
          forall other :: other != id && a.own(other) && StoredOn(sources, shelves, norm, other) != {}
            && a.event(other).valid && a.event(other).kind != H.CHECKPOINT
            && H.Key(a.event(other)) == H.Key(a.event(id))
            ==> H.Beats(a.event(id), a.event(other)))
  }

  lemma MentionedIsStored(sources: seq<Source>, shelves: seq<Shelf>, readings: seq<Reading>, norm: Norm,
                          pageLimit: nat, id: nat)
    requires |sources| == |shelves| == |readings|
    requires forall i ::
      0 <= i < |sources| ==> Reads(readings[i], sources[i], shelves[i], pageLimit) && Readable(shelves[i], pageLimit)
    ensures MentionedBy(readings, norm, id) == StoredOn(sources, shelves, norm, id)
  {
    forall i | 0 <= i < |sources|
      ensures Elems(readings[i].events) == shelves[i].stored && readings[i].url == sources[i].url
    {
      assert Reads(readings[i], sources[i], shelves[i], pageLimit) && Readable(shelves[i], pageLimit);
    }
  }

  /** After complete reads the history says what matters. */
  lemma MattersIsFiled(sources: seq<Source>, shelves: seq<Shelf>, readings: seq<Reading>, a: Author, norm: Norm,
                       pageLimit: nat, id: nat)
    requires |sources| == |shelves| == |readings| && Consistent(a)
    requires forall i ::
      0 <= i < |sources| ==> Reads(readings[i], sources[i], shelves[i], pageLimit) && Readable(shelves[i], pageLimit)
    requires Matters(sources, shelves, norm, a, id)
    ensures var h := HistoryOf(readings, a, norm);
      id in h && h[id].relays == StoredOn(sources, shelves, norm, id) && (H.IsCheckpoint(h[id]) || H.IsWinner(h, id))
  {
    var h := HistoryOf(readings, a, norm);
    HistoryMeans(readings, a, norm, id);
    MentionedIsStored(sources, shelves, readings, norm, pageLimit, id);
    forall other | other in h && H.IsReplaceable(h[other]) && H.Key(h[other].ev) == H.Key(h[id].ev)
                   && other != id && !H.IsCheckpoint(h[id])
      ensures H.Beats(h[id].ev, h[other].ev)
    {
      HistoryMeans(readings, a, norm, other);
      MentionedIsStored(sources, shelves, readings, norm, pageLimit, other);
    }
  }

  lemma HistoryIsProper(readings: seq<Reading>, a: Author, norm: Norm)
    requires Consistent(a) && Idempotent(norm)
    ensures H.Filed(HistoryOf(readings, a, norm)) && H.Normal(HistoryOf(readings, a, norm), norm)
  {
    var h := HistoryOf(readings, a, norm);
    forall id | id in h
      ensures h[id].ev.id == id && forall r :: r in h[id].relays ==> norm(r) == r
    {
      HistoryMeans(readings, a, norm, id);
      assert Relays(h, id) == MentionedBy(readings, norm, id);
    }
  }

  method Walk(h: H.History) returns (order: seq<nat>)
    ensures H.Walks(order, h)
  {
    order := [];
    var left := h.Keys;
    while left != {}
      invariant left <= h.Keys && forall id :: id in order <==> id in h && id !in left
      invariant forall i, j :: 0 <= i < j < |order| ==> order[i] != order[j]
      decreases |left|
    {
      var id :| id in left;
      order, left := order + [id], left - {id};
    }
  }

  /** The whole run over the current identity's history: read every relay, top up what lies
      under quorum, then publish what was planned. With a nil error, and relays that can be
      read completely, every valid checkpoint and every coordinate's winner of all that was
      stored anywhere is held by quorum relays: relays that stored it or accepted it. */
  method Reestablish(run: Q.Run, pool: Q.Pool, sources: seq<Source>, pageLimit: nat, a: Author, planned: seq<nat>,
                     quorum: nat, maxAttempts: nat, ghost shelves: seq<Shelf>)
    returns (r: Result<nat>, work: seq<Q.Pending>)
    requires Honest(sources, shelves, pageLimit) && Consistent(a) && Idempotent(pool.norm)
    requires run.sent == [] && run.budgets == [] && maxAttempts >= 1
    modifies run
    ensures r.Ok? && (forall i :: 0 <= i < |shelves| ==> Readable(shelves[i], pageLimit)) ==>
      forall id :: Matters(sources, shelves, pool.norm, a, id) ==>
        |StoredOn(sources, shelves, pool.norm, id) + H.AcceptedBy(pool, work, run.sent, id)| >= quorum
    ensures r.Ok? ==> r.value == |work| && Q.Going(pool, run.sent) && Q.Admitted(pool, run.budgets)
    ensures H.Credited(pool, work, run.sent)
    ensures r.Ok? ==>
      forall i :: 0 <= i < |sources| ==> exists events :: ComesTo(sources[i], pageLimit, P.Events(events))
    ensures r.Err? ==>
      || (exists i, read ::
            && 0 <= i < |sources| && ComesTo(sources[i], pageLimit, read) && !read.Events?
            && Unreadable(sources[i], shelves[i], pageLimit))
      || (exists n: nat :: Q.Stopped(pool, work, run.sent, n, quorum) && n < |work|
                      && (!pool.admits(|run.budgets|) || Q.ItemFailed(pool, work, run.sent, n, quorum, maxAttempts)))
  {
    work := [];
    var readings := ReadAll(sources, pageLimit, shelves);
    if readings.Err? {
      H.AllCredited(pool, work, run.sent);
      return Err, work;
    }
    assert forall i :: 0 <= i < |sources| ==> Reads(readings.value[i], sources[i], shelves[i], pageLimit);
    var h := FileAll(readings.value, a, pool.norm);
    HistoryIsProper(readings.value, a, pool.norm);
    var order := Walk(h);
    var published, ok;
    work, published, ok := H.TopUp(run, pool, h, order, planned, quorum, maxAttempts);
    if !ok {
      return Err, work;
    }
    if forall i :: 0 <= i < |shelves| ==> Readable(shelves[i], pageLimit) {
      forall id | Matters(sources, shelves, pool.norm, a, id)
        ensures |StoredOn(sources, shelves, pool.norm, id) + H.AcceptedBy(pool, work, run.sent, id)| >= quorum
      {
        MattersIsFiled(sources, shelves, readings.value, a, pool.norm, pageLimit, id);
      }
    }
    return Ok(published), work;
  }
}
