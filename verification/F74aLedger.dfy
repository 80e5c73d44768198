/** cmd/bahia-migrate/f74a_proof.go, the delivery ledger: durable receipts, one a
    coordinate, that say which signed event stands there and whether a quorum of
    the policy's write relays accepted it. */
module F74aLedger {
  import opened Common
  import opened F74aPolicy

  type Id = nat

  const CONTROL_STATE := 30900
  const ORG_KEY_ENVELOPE := 32010
  const LLM_RELEASE := 32015
  const ARTIFACT_SIGNATURE := 32016
  const ARTIFACT_SBOM := 32017
  const SBOM_PACKAGE := 32018
  const RUNTIME_OBSERVATION := 32019

  const FAMILIES: set<int> := {LLM_RELEASE, ARTIFACT_SIGNATURE, ARTIFACT_SBOM, SBOM_PACKAGE, RUNTIME_OBSERVATION,
    ORG_KEY_ENVELOPE}

  /** A signed control-state event: its `d`, `legacy_kind` and `deleted` tags, the key
      version its content names, and whether id and signature check. A legacy kind
      that is no number is `None`; `plain` says that it is spelled without sign or
      leading zeros. */
  datatype Event = Event(id: Id, author: string, kind: int, d: string, legacyKind: Option<int>, plain: bool,
                         deleted: bool, envelopeVersion: Option<int>, signed: bool)

  datatype Receipt = Receipt(eventId: Option<Id>, accepted: bool, failed: bool, deleted: bool, ockVersion: int,
                             sourceHash: string, policy: PolicyId)

  const NO_RECEIPT := Receipt(None, false, false, false, 0, "", Unscoped)

  /** A control record that decodes to a receipt, or not. */
  datatype Record = Corrupt | Stored(receipt: Receipt)

  type Store = map<string, Record>

  /** One durable outbox entry: its delivery policy and the relays whose acceptance it recorded. */
  datatype Entry = Entry(event: Event, delivered: bool, target: string, writeRelays: seq<string>, required: int,
                         acks: set<string>)

  type Outbox = map<Id, Entry>

  /** The service identity and relay policy one run of the importer works with. */
  datatype Config = Config(author: string, policy: PolicyId)

  // ----- receipt keys

  /** A kind is never negative on the wire. */
  function ReceiptKey(author: string, kind: nat, d: string): string {
    author + ":" + Decimal(kind) + ":" + d
  }

  /** Coordinates of authors with names of one length never share a key. */
  lemma KeyInjective(author: string, kind: nat, d: string, author': string, kind': nat, d': string)
    requires |author| == |author'|
    requires ReceiptKey(author, kind, d) == ReceiptKey(author', kind', d')
    ensures author == author' && kind == kind' && d == d'
  {
    var key, n := ReceiptKey(author, kind, d), |author|;
    assert key[..n] == author && key[..n] == author';
    assert key[n + 1..] == Decimal(kind) + ":" + d && key[n + 1..] == Decimal(kind') + ":" + d';
    DecimalDigits(kind);
    DecimalDigits(kind');
    UptoColon(Decimal(kind), d, Decimal(kind'), d');
    DecimalInjective(kind, kind');
  }

  // ----- one mutation of a receipt

  /** The coordinate an event stands for, if the ledger tracks it. */
  function Coordinate(l: Config, ev: Event): Option<(nat, string)> {
    if ev.author != l.author || ev.kind != CONTROL_STATE || ev.d == "" then None
    else match ev.legacyKind
      case None => None
      case Some(kind) => if kind in FAMILIES then Some((kind, ev.d)) else None
  }

  /** How many of the listed relays an entry recorded as accepting. */
  function CountAcks(relays: seq<string>, acks: set<string>): nat {
    if relays == [] then 0
    else CountAcks(relays[..|relays| - 1], acks) + if relays[|relays| - 1] in acks then 1 else 0
  }

  /** The outbox holds a delivered control-plane round of the event that met its quorum
      under exactly this policy. */
  predicate RoundRecorded(l: Config, id: Id, outbox: Option<Outbox>, norm: Norm) {
    && outbox.Some? && id in outbox.value
    && var entry := outbox.value[id];
    && entry.delivered && entry.target == "control-plane"
    && 1 <= entry.required <= |entry.writeRelays|
    && PolicyOf(l.author, entry.writeRelays, entry.required, norm) == Ok(l.policy)
    && CountAcks(entry.writeRelays, entry.acks) >= entry.required
  }

  /** The receipt after one mutation; `Ok(None)` leaves it as it is. */
  function Revise(policy: PolicyId, ev: Event, kind: nat, accepted: bool, stage: bool, hash: string,
                  current: Receipt): Result<Option<Receipt>>
  {
    if !stage && current.eventId.Some? && current.eventId != Some(ev.id) then Ok(None)
    else if stage && current.eventId == Some(ev.id) then Ok(None)
    else if accepted && current.eventId == Some(ev.id) && current.policy != policy then Ok(None)
    else
      var next := Receipt(Some(ev.id), accepted, !stage && !accepted, ev.deleted, 0,
                          if stage && kind != ORG_KEY_ENVELOPE then hash else current.sourceHash,
                          if accepted || stage then policy else current.policy);
      if kind != LLM_RELEASE then Ok(Some(next))
      else match ev.envelopeVersion
        case None => Err
        case Some(version) => Ok(Some(next.(ockVersion := version)))
  }

  /** The store after `stage`, `accepted` or `abandoned`, and whether the call failed. */
  function Mutated(l: Config, ev: Event, accepted: bool, stage: bool, hash: string, outbox: Option<Outbox>,
                   store: Store, norm: Norm): (bool, Store)
  {
    match Coordinate(l, ev)
    case None => (true, store)
    case Some((kind, d)) =>
      var key := ReceiptKey(l.author, kind, d);
      if accepted && l.policy.Scoped? && !RoundRecorded(l, ev.id, outbox, norm) then (false, store)
      else if key in store && store[key].Corrupt? then (false, store)
      else
        match Revise(l.policy, ev, kind, accepted, stage, hash, if key in store then store[key].receipt else NO_RECEIPT)
        case Err => (false, store)
        case Ok(None) => (true, store)
        case Ok(Some(receipt)) => (true, store[key := Stored(receipt)])
  }

  // ----- proof by inspection or by a fresh publish

  datatype Verdict = Proved | Unproved | Failure | NeedsPublish(event: Event)

  /** What a receipt proves by itself, and otherwise the signed event whose publication could
      prove it. `retained` is the local event store. */
  function Inspect(l: Config, kind: nat, d: string, rec: Receipt, outbox: Option<Outbox>, canReverify: bool,
                   retained: map<Id, Event>): Verdict
  {
    if rec.failed then Unproved
    else if l.policy.Unscoped? then Failure
    else if rec.policy == l.policy then (if rec.accepted then Proved else Unproved)
    else if !canReverify || outbox.None? || rec.eventId.None? then Unproved
    else
      var id, entries := rec.eventId.value, outbox.value;
      if !rec.accepted && (id !in entries || !entries[id].delivered) then Unproved
      else
        var found :=
          if id in entries && entries[id].event.id == id then Some(entries[id].event)
          else if id in retained && retained[id].id == id then Some(retained[id])
          else None;
        match found
        case None => Failure
        case Some(ev) =>
          if ev.signed && ev.author == l.author && ev.kind == CONTROL_STATE && ev.d == d
             && ev.legacyKind == Some(kind) && ev.plain && ev.deleted == rec.deleted
          then NeedsPublish(ev) else Failure
  }

  /** The receipt may still be upgraded: it did not change since it was inspected. */
  predicate StillMatches(current: Receipt, rec: Receipt) {
    && current.eventId == rec.eventId && current.sourceHash == rec.sourceHash && current.deleted == rec.deleted
    && current.accepted == rec.accepted && !current.failed
  }

  /** The store after a successful publish, and whether the upgrade took effect. */
  function Upgraded(l: Config, key: string, rec: Receipt, store: Store): (bool, Store) {
    if key in store && store[key].Stored? && StillMatches(store[key].receipt, rec)
    then (true, store[key := Stored(store[key].receipt.(accepted := true, policy := l.policy))])
    else (false, store)
  }

  // ----- runs

  /** What was staged where: the event, the digest of its source row, its deleted flag. */
  datatype Staged = Staged(key: string, id: Id, hash: string, deleted: bool)

  /** The durable store, what was ever staged, and which relay accepted which event. */
  datatype World = World(store: Store, staged: set<Staged>, accepts: set<(string, Id)>)

  /** One atomic step. The configuration may differ from step to step: a restart under
      another relay policy. `Upgrade` comes at any time after the receipt `rec` was
      inspected. */
  datatype Action =
    | Stage(l: Config, ev: Event, hash: string)
    | Accepted(l: Config, ev: Event, outbox: Option<Outbox>)
    | Abandoned(l: Config, ev: Event)
    | Accepts(relay: string, id: Id)
    | Upgrade(l: Config, kind: nat, d: string, rec: Receipt, relays: seq<string>, quorum: int,
              results: seq<PublishResult>)

  /** A signed event is determined by its id. */
  type Catalog = Id -> Event

  /** Recorded acceptances happened, and write sets hold distinct normalised URLs. */
  ghost predicate TruthfulOutbox(outbox: Option<Outbox>, accepts: set<(string, Id)>, norm: Norm) {
    outbox.Some? ==> forall id :: id in outbox.value ==>
      var entry := outbox.value[id];
      && (forall u :: u in entry.acks ==> (u, id) in accepts)
      && (forall u :: u in entry.writeRelays ==> norm(u) == u)
      && |entry.writeRelays| == |Elems(entry.writeRelays)|
  }

  ghost predicate TruthfulResults(results: seq<PublishResult>, id: Id, accepts: set<(string, Id)>, norm: Norm) {
    forall i :: 0 <= i < |results| && results[i].succeeded ==> (norm(results[i].url), id) in accepts
  }

  ghost predicate Next(w: World, a: Action, w': World, cat: Catalog, norm: Norm) {
    match a
    case Stage(l, ev, hash) =>
      && |l.author| == 64 && ev == cat(ev.id) && w'.accepts == w.accepts
      && w'.store == Mutated(l, ev, false, true, hash, None, w.store, norm).1
      && w'.staged == w.staged + (match Coordinate(l, ev)
                                  case None => {}
                                  case Some((kind, d)) =>
                                    {Staged(ReceiptKey(l.author, kind, d), ev.id, hash, ev.deleted)})
    case Accepted(l, ev, outbox) =>
      && |l.author| == 64 && ev == cat(ev.id) && TruthfulOutbox(outbox, w.accepts, norm)
      && w' == w.(store := Mutated(l, ev, true, false, "", outbox, w.store, norm).1)
    case Abandoned(l, ev) =>
      |l.author| == 64 && ev == cat(ev.id) && w' == w.(store := Mutated(l, ev, false, false, "", None, w.store, norm).1)
    case Accepts(relay, id) => w' == w.(accepts := w.accepts + {(relay, id)})
    case Upgrade(l, kind, d, rec, relays, quorum, results) =>
      && rec.eventId.Some? && PolicyOf(l.author, relays, quorum, norm) == Ok(l.policy)
      && TruthfulResults(results, rec.eventId.value, w.accepts, norm)
      && Suffices(quorum, Accepting(results, WriteSet(relays, norm), norm), WriteSet(relays, norm))
      && w' == w.(store := Upgraded(l, ReceiptKey(l.author, kind, d), rec, w.store).1)
  }

  /** At least the required number of distinct write relays of `policy` accepted `id`. */
  ghost predicate AtQuorum(accepts: set<(string, Id)>, policy: PolicyId, id: Id) {
    policy.Scoped? && |set u | u in policy.relays && (u, id) in accepts| >= policy.required >= 1
  }

  /** A key of the key-envelope family, whose receipts carry no source digest. */
  ghost predicate EnvelopeKey(key: string) {
    exists author, d :: |author| == 64 && key == ReceiptKey(author, ORG_KEY_ENVELOPE, d)
  }

  /** What every reachable receipt means. */
  ghost predicate SoundReceipt(key: string, rec: Receipt, w: World, cat: Catalog) {
    && rec.eventId.Some?
    && rec.deleted == cat(rec.eventId.value).deleted
    && (EnvelopeKey(key) ==> rec.sourceHash == "")
    && (rec.sourceHash != "" ==> Staged(key, rec.eventId.value, rec.sourceHash, rec.deleted) in w.staged)
    && (rec.accepted && rec.policy.Scoped? ==> AtQuorum(w.accepts, rec.policy, rec.eventId.value))
  }

  ghost predicate Sound(w: World, cat: Catalog) {
    forall key :: key in w.store && w.store[key].Stored? ==> SoundReceipt(key, w.store[key].receipt, w, cat)
  }

  lemma {:induction false} AcksCounted(relays: seq<string>, acks: set<string>)
    requires |relays| == |Elems(relays)|
    ensures CountAcks(relays, acks) == |Elems(relays) * acks|
  {
    if relays != [] {
      var rest, last := relays[..|relays| - 1], relays[|relays| - 1];
      assert relays == rest + [last];
      assert Elems(relays) == Elems(rest) + {last};
      SizeAtMost(rest);
      assert last !in Elems(rest);
      AcksCounted(rest, acks);
      if last in acks {
        assert Elems(relays) * acks == Elems(rest) * acks + {last};
      } else {
        assert Elems(relays) * acks == Elems(rest) * acks;
      }
    }
  }

  lemma MoreRelays(some: set<string>, accepts: set<(string, Id)>, policy: PolicyId, id: Id)
    requires policy.Scoped? && policy.required >= 1 && |some| >= policy.required
    requires forall u :: u in some ==> u in policy.relays && (u, id) in accepts
    ensures AtQuorum(accepts, policy, id)
  {
    var all := set u | u in policy.relays && (u, id) in accepts;
    assert some <= all;
    assert |all| == |some| + |all - some| by { assert some + (all - some) == all; }
  }

  /** A recorded round is a quorum under the policy it was recorded with. */
  lemma RoundIsQuorum(l: Config, id: Id, outbox: Option<Outbox>, accepts: set<(string, Id)>, norm: Norm)
    requires l.policy.Scoped? && RoundRecorded(l, id, outbox, norm) && TruthfulOutbox(outbox, accepts, norm)
    ensures AtQuorum(accepts, l.policy, id)
  {
    var entry := outbox.value[id];
    PolicyNamesWriteSet(l.author, entry.writeRelays, entry.required, norm);
    assert WriteSet(entry.writeRelays, norm) == Elems(entry.writeRelays);
    AcksCounted(entry.writeRelays, entry.acks);
    forall u | u in Elems(entry.writeRelays) * entry.acks
      ensures u in l.policy.relays && (u, id) in accepts
    {
      assert u in Elems(l.policy.relays);
    }
    MoreRelays(Elems(entry.writeRelays) * entry.acks, accepts, l.policy, id);
  }

  /** A fresh publish that re-verification accepts is a quorum under the current policy. */
  lemma PublishIsQuorum(l: Config, id: Id, relays: seq<string>, quorum: int, results: seq<PublishResult>,
                        accepts: set<(string, Id)>, norm: Norm)
    requires PolicyOf(l.author, relays, quorum, norm) == Ok(l.policy) && TruthfulResults(results, id, accepts, norm)
    requires Suffices(quorum, Accepting(results, WriteSet(relays, norm), norm), WriteSet(relays, norm))
    ensures AtQuorum(accepts, l.policy, id)
  {
    PolicyNamesWriteSet(l.author, relays, quorum, norm);
    ThresholdMeans(quorum, Accepting(results, WriteSet(relays, norm), norm), WriteSet(relays, norm));
    var some := Accepting(results, WriteSet(relays, norm), norm);
    forall u | u in some
      ensures u in l.policy.relays && (u, id) in accepts
    {
      assert u in Elems(l.policy.relays);
      var i :| 0 <= i < |results| && norm(results[i].url) == u && results[i].succeeded
               && Unanswered(results[..i], u, norm);
    }
    MoreRelays(some, accepts, l.policy, id);
  }

  lemma MoreAccepts(accepts: set<(string, Id)>, accepts': set<(string, Id)>, policy: PolicyId, id: Id)
    requires AtQuorum(accepts, policy, id) && accepts <= accepts'
    ensures AtQuorum(accepts', policy, id)
  {
    MoreRelays((set u | u in policy.relays && (u, id) in accepts), accepts', policy, id);
  }

  lemma EnvelopeKeyKind(author: string, kind: nat, d: string)
    requires |author| == 64 && EnvelopeKey(ReceiptKey(author, kind, d))
    ensures kind == ORG_KEY_ENVELOPE
  {
    var author', d' :| |author'| == 64 && ReceiptKey(author, kind, d) == ReceiptKey(author', ORG_KEY_ENVELOPE, d');
    KeyInjective(author, kind, d, author', ORG_KEY_ENVELOPE, d');
  }

  /** A revised receipt means what receipts mean, given what the mutation checked. */
  lemma ReviseSound(l: Config, ev: Event, kind: nat, d: string, accepted: bool, stage: bool, hash: string, w: World,
                    w': World, cat: Catalog)
    requires |l.author| == 64 && ev == cat(ev.id) && !(accepted && stage)
    requires w.staged <= w'.staged && w.accepts == w'.accepts
    requires stage ==> Staged(ReceiptKey(l.author, kind, d), ev.id, hash, ev.deleted) in w'.staged
    requires accepted && l.policy.Scoped? ==> AtQuorum(w.accepts, l.policy, ev.id)
    requires var key := ReceiptKey(l.author, kind, d);
      key in w.store ==> w.store[key].Stored? && SoundReceipt(key, w.store[key].receipt, w, cat)
    ensures var key := ReceiptKey(l.author, kind, d);
            var was := if key in w.store then w.store[key].receipt else NO_RECEIPT;
            var r := Revise(l.policy, ev, kind, accepted, stage, hash, was);
            r.Ok? && r.value.Some? ==> SoundReceipt(key, r.value.value, w', cat)
  {
    if EnvelopeKey(ReceiptKey(l.author, kind, d)) {
      EnvelopeKeyKind(l.author, kind, d);
    }
    if kind == ORG_KEY_ENVELOPE {
      assert EnvelopeKey(ReceiptKey(l.author, kind, d));
    }
  }

  lemma MutateSound(l: Config, ev: Event, accepted: bool, stage: bool, hash: string, outbox: Option<Outbox>, w: World,
                    w': World, cat: Catalog, norm: Norm)
    requires Sound(w, cat) && |l.author| == 64 && ev == cat(ev.id) && !(accepted && stage)
    requires w.staged <= w'.staged && w.accepts == w'.accepts
    requires stage && Coordinate(l, ev).Some? ==>
               var (kind, d) := Coordinate(l, ev).value;
               Staged(ReceiptKey(l.author, kind, d), ev.id, hash, ev.deleted) in w'.staged
    requires TruthfulOutbox(outbox, w.accepts, norm)
    requires w'.store == Mutated(l, ev, accepted, stage, hash, outbox, w.store, norm).1
    ensures Sound(w', cat)
  {
    if Coordinate(l, ev).Some? && w'.store != w.store {
      var (kind, d) := Coordinate(l, ev).value;
      if accepted && l.policy.Scoped? {
        RoundIsQuorum(l, ev.id, outbox, w.accepts, norm);
      }
      ReviseSound(l, ev, kind, d, accepted, stage, hash, w, w', cat);
    }
    forall key | key in w'.store && w'.store[key].Stored?
      ensures SoundReceipt(key, w'.store[key].receipt, w', cat)
    {
      if key in w.store && w.store[key] == w'.store[key] {
        assert SoundReceipt(key, w.store[key].receipt, w, cat);
      }
    }
  }

  /** Every step keeps every receipt true, under whatever policy it is taken. */
  lemma StepSound(w: World, a: Action, w': World, cat: Catalog, norm: Norm)
    requires Sound(w, cat) && Next(w, a, w', cat, norm)
    ensures Sound(w', cat)
  {
    match a
    case Stage(l, ev, hash) => MutateSound(l, ev, false, true, hash, None, w, w', cat, norm);
    case Accepted(l, ev, outbox) => MutateSound(l, ev, true, false, "", outbox, w, w', cat, norm);
    case Abandoned(l, ev) => MutateSound(l, ev, false, false, "", None, w, w', cat, norm);
    case Accepts(relay, id) =>
      forall key | key in w'.store && w'.store[key].Stored?
        ensures SoundReceipt(key, w'.store[key].receipt, w', cat)
      {
        var rec := w.store[key].receipt;
        assert SoundReceipt(key, rec, w, cat);
        if rec.accepted && rec.policy.Scoped? {
          MoreAccepts(w.accepts, w'.accepts, rec.policy, rec.eventId.value);
        }
      }
    case Upgrade(l, kind, d, rec, relays, quorum, results) =>
      PublishIsQuorum(l, rec.eventId.value, relays, quorum, results, w.accepts, norm);
      forall key | key in w'.store && w'.store[key].Stored?
        ensures SoundReceipt(key, w'.store[key].receipt, w', cat)
      {
        assert SoundReceipt(key, w.store[key].receipt, w, cat);
      }
  }

  /** The states of a run from an empty store. */
  ghost predicate IsRun(worlds: seq<World>, actions: seq<Action>, cat: Catalog, norm: Norm) {
    && |worlds| == |actions| + 1 && worlds[0] == World(map[], {}, {})
    && forall k :: 0 <= k < |actions| ==> Next(worlds[k], actions[k], worlds[k + 1], cat, norm)
  }

  lemma NthStepSound(worlds: seq<World>, actions: seq<Action>, cat: Catalog, norm: Norm, k: nat)
    requires IsRun(worlds, actions, cat, norm) && k < |actions| && Sound(worlds[k], cat)
    ensures Sound(worlds[k + 1], cat)
  {
    StepSound(worlds[k], actions[k], worlds[k + 1], cat, norm);
  }

  lemma {:induction false} RunSound(worlds: seq<World>, actions: seq<Action>, cat: Catalog, norm: Norm, n: nat)
    requires IsRun(worlds, actions, cat, norm) && n < |worlds|
    ensures Sound(worlds[n], cat)
  {
    if n > 0 {
      RunSound(worlds, actions, cat, norm, n - 1);
      NthStepSound(worlds, actions, cat, norm, n - 1);
    }
  }

  /** `prove` reads this receipt as a proof for a row with this digest and deleted flag. */
  predicate ReadsAsProof(l: Config, rec: Receipt, hash: string, deleted: bool) {
    && rec.sourceHash == hash && rec.deleted == deleted && !rec.failed
    && l.policy.Scoped? && rec.policy == l.policy && rec.accepted
  }

  /** Safety of proofs. In every run, with restarts under any policies, a receipt that
      proves a row names an event that was staged at that coordinate with the row's
      digest and deleted flag, and at least the required number of distinct write
      relays of the current policy accepted that event. */
  lemma ProofIsSound(worlds: seq<World>, actions: seq<Action>, cat: Catalog, norm: Norm, n: nat, l: Config,
                     key: string, hash: string, deleted: bool)
    requires IsRun(worlds, actions, cat, norm) && n < |worlds|
    requires key in worlds[n].store && worlds[n].store[key].Stored? && hash != ""
    requires ReadsAsProof(l, worlds[n].store[key].receipt, hash, deleted)
    ensures var rec := worlds[n].store[key].receipt;
            && rec.eventId.Some? && Staged(key, rec.eventId.value, hash, deleted) in worlds[n].staged
            && AtQuorum(worlds[n].accepts, l.policy, rec.eventId.value)
  {
    RunSound(worlds, actions, cat, norm, n);
    assert SoundReceipt(key, worlds[n].store[key].receipt, worlds[n], cat);
  }

  // ----- replaced events

  /** The step neither stages at `key` nor speaks for event `id`. */
  ghost predicate SpeaksForOthers(a: Action, key: string, id: Id) {
    match a
    case Stage(l, ev, hash) =>
      Coordinate(l, ev).None? || ReceiptKey(l.author, Coordinate(l, ev).value.0, Coordinate(l, ev).value.1) != key
    case Accepted(l, ev, _) => ev.id != id
    case Abandoned(l, ev) => ev.id != id
    case Accepts(_, _) => true
    case Upgrade(_, _, _, rec, _, _, _) => rec.eventId != Some(id)
  }

  lemma OtherStep(w: World, a: Action, w': World, cat: Catalog, norm: Norm, key: string, id: Id)
    requires Next(w, a, w', cat, norm) && SpeaksForOthers(a, key, id)
    requires key in w.store && w.store[key].Stored? && w.store[key].receipt.eventId == Some(id)
    ensures key in w'.store && w'.store[key] == w.store[key]
  {
  }

  lemma NthStepOther(worlds: seq<World>, actions: seq<Action>, cat: Catalog, norm: Norm, k: nat, key: string, id: Id)
    requires IsRun(worlds, actions, cat, norm) && k < |actions| && SpeaksForOthers(actions[k], key, id)
    requires key in worlds[k].store && worlds[k].store[key].Stored? && worlds[k].store[key].receipt.eventId == Some(id)
    ensures key in worlds[k + 1].store && worlds[k + 1].store[key] == worlds[k].store[key]
  {
    OtherStep(worlds[k], actions[k], worlds[k + 1], cat, norm, key, id);
  }

  /** Once an event stands on a coordinate, callbacks for other events, also for the
      one it replaced, leave the receipt alone until the next staging. */
  lemma {:induction false} OthersChangeNothing(worlds: seq<World>, actions: seq<Action>, cat: Catalog, norm: Norm,
                                               from: nat, n: nat, key: string, id: Id)
    requires IsRun(worlds, actions, cat, norm) && from <= n < |worlds|
    requires key in worlds[from].store && worlds[from].store[key].Stored?
    requires worlds[from].store[key].receipt.eventId == Some(id)
    requires forall k :: from <= k < n ==> SpeaksForOthers(actions[k], key, id)
    ensures key in worlds[n].store && worlds[n].store[key] == worlds[from].store[key]
  {
    if from < n {
      OthersChangeNothing(worlds, actions, cat, norm, from, n - 1, key, id);
      NthStepOther(worlds, actions, cat, norm, n - 1, key, id);
    }
  }

  /** A newly staged event is unproved, and stays so while only other events are heard of. */
  lemma ReplacedCannotProve(worlds: seq<World>, actions: seq<Action>, cat: Catalog, norm: Norm, from: nat, n: nat,
                            l: Config, ev: Event, hash: string,
                            l': Config, hash': string, deleted': bool)
    requires IsRun(worlds, actions, cat, norm) && from < n < |worlds|
    requires actions[from] == Stage(l, ev, hash) && Coordinate(l, ev).Some?
    requires var key := ReceiptKey(l.author, Coordinate(l, ev).value.0, Coordinate(l, ev).value.1);
             && key in worlds[from + 1].store && worlds[from + 1].store[key].Stored?
             && worlds[from + 1].store[key].receipt.eventId == Some(ev.id)
             && (key in worlds[from].store ==>
                   worlds[from].store[key].Stored? && worlds[from].store[key].receipt.eventId != Some(ev.id))
             && forall k :: from < k < n ==> SpeaksForOthers(actions[k], key, ev.id)
    ensures var key := ReceiptKey(l.author, Coordinate(l, ev).value.0, Coordinate(l, ev).value.1);
            && key in worlds[n].store && worlds[n].store[key].Stored?
            && !ReadsAsProof(l', worlds[n].store[key].receipt, hash', deleted')
  {
    var key := ReceiptKey(l.author, Coordinate(l, ev).value.0, Coordinate(l, ev).value.1);
    assert Next(worlds[from], actions[from], worlds[from + 1], cat, norm);
    OthersChangeNothing(worlds, actions, cat, norm, from + 1, n, key, ev.id);
  }

  /** The policy of a receipt that names an event changes only when another event is staged or a
      fresh publish of this one suffices: old acceptances never widen what was accepted. */
  lemma ScopeKept(w: World, a: Action, w': World, cat: Catalog, norm: Norm, key: string)
    requires Next(w, a, w', cat, norm) && key in w.store && w.store[key].Stored? && w.store[key].receipt.eventId.Some?
    ensures key in w'.store && w'.store[key].Stored? && w'.store[key].receipt.eventId.Some?
    ensures var rec, rec' := w.store[key].receipt, w'.store[key].receipt;
      && (rec'.policy != rec.policy ==> a.Upgrade? || a.Stage?)
      && (rec'.eventId != rec.eventId ==> a.Stage?)
      && (rec'.policy != rec.policy && a.Upgrade? ==> rec'.eventId == rec.eventId == a.rec.eventId)
      && (rec'.policy != rec.policy && a.Stage? ==> rec'.eventId == Some(a.ev.id) && rec.eventId != Some(a.ev.id))
  {
    match a
    case Stage(l, ev, hash) => ScopeByMutation(l, ev, false, true, hash, None, w.store, norm, key);
    case Accepted(l, ev, outbox) => ScopeByMutation(l, ev, true, false, "", outbox, w.store, norm, key);
    case Abandoned(l, ev) => ScopeByMutation(l, ev, false, false, "", None, w.store, norm, key);
    case Accepts(_, _) =>
    case Upgrade(l, kind, d, rec, _, _, _) =>
  }

  lemma ScopeByMutation(l: Config, ev: Event, accepted: bool, stage: bool, hash: string, outbox: Option<Outbox>,
                        store: Store, norm: Norm, key: string)
    requires key in store && store[key].Stored? && store[key].receipt.eventId.Some?
    ensures var store' := Mutated(l, ev, accepted, stage, hash, outbox, store, norm).1;
      && key in store' && store'[key].Stored? && store'[key].receipt.eventId.Some?
      && var rec, rec' := store[key].receipt, store'[key].receipt;
      && (rec'.policy != rec.policy || rec'.eventId != rec.eventId ==> stage)
      && (rec' != rec && stage ==> rec'.eventId == Some(ev.id) && rec.eventId != Some(ev.id))
  {
  }

  /** An acceptance is taken only of an entry whose own round was a quorum of the policy. */
  lemma AcceptanceMeans(l: Config, ev: Event, stage: bool, hash: string, outbox: Option<Outbox>, store: Store,
                        norm: Norm)
    requires Coordinate(l, ev).Some? && l.policy.Scoped?
    requires Mutated(l, ev, true, stage, hash, outbox, store, norm).0
    ensures outbox.Some? && ev.id in outbox.value
    ensures var entry := outbox.value[ev.id];
      && entry.delivered && entry.target == "control-plane" && 1 <= entry.required <= |entry.writeRelays|
      && CountAcks(entry.writeRelays, entry.acks) >= entry.required
  {
    assert RoundRecorded(l, ev.id, outbox, norm);
  }

  /** Which events have receipts: the author's control states of the six families. */
  lemma CoordinateMeans(l: Config, ev: Event)
    ensures Coordinate(l, ev).Some? <==>
      && ev.author == l.author && ev.kind == CONTROL_STATE && ev.d != ""
      && ev.legacyKind in {Some(LLM_RELEASE), Some(ARTIFACT_SIGNATURE), Some(ARTIFACT_SBOM), Some(SBOM_PACKAGE),
                           Some(RUNTIME_OBSERVATION), Some(ORG_KEY_ENVELOPE)}
    ensures Coordinate(l, ev).Some? ==> var (kind, d) := Coordinate(l, ev).value;
      ev.legacyKind == Some(kind as int) && d == ev.d
  {
  }

  // ----- delivered events

  /** What the receipt of an event says once it was staged here and not heard of since. */
  ghost predicate Awaits(store: Store, key: string, l: Config, ev: Event, hash: string) {
    && key in store && store[key].Stored?
    && var rec := store[key].receipt;
    && rec.eventId == Some(ev.id) && rec.sourceHash == hash && rec.deleted == ev.deleted
    && rec.policy == l.policy && !rec.accepted && !rec.failed && NamesVersion(rec, ev)
  }

  /** The receipt of a release carries the key version its content names, any other none. */
  ghost predicate NamesVersion(rec: Receipt, ev: Event) {
    && (ev.legacyKind == Some(LLM_RELEASE) ==> ev.envelopeVersion == Some(rec.ockVersion))
    && (ev.legacyKind != Some(LLM_RELEASE) ==> rec.ockVersion == 0)
  }

  /** Staging an event that is new at its coordinate notes it with the digest of its row. */
  lemma StagedAwaits(l: Config, ev: Event, hash: string, outbox: Option<Outbox>, store: Store, norm: Norm)
    requires Coordinate(l, ev).Some? && Coordinate(l, ev).value.0 != ORG_KEY_ENVELOPE
    requires Coordinate(l, ev).value.0 == LLM_RELEASE ==> ev.envelopeVersion.Some?
    requires var key := ReceiptKey(l.author, Coordinate(l, ev).value.0, Coordinate(l, ev).value.1);
      key in store ==> store[key].Stored? && store[key].receipt.eventId != Some(ev.id)
    ensures var key := ReceiptKey(l.author, Coordinate(l, ev).value.0, Coordinate(l, ev).value.1);
      var (ok, store') := Mutated(l, ev, false, true, hash, outbox, store, norm);
      ok && Awaits(store', key, l, ev, hash) && store' == store[key := store'[key]]
  {
  }

  /** A recorded round of the awaited event makes its receipt a proof, and its failure makes it
      none. */
  lemma HeardOf(l: Config, ev: Event, hash: string, outbox: Option<Outbox>, store: Store, norm: Norm)
    requires Coordinate(l, ev).Some? && l.policy.Scoped?
    requires Coordinate(l, ev).value.0 == LLM_RELEASE ==> ev.envelopeVersion.Some?
    requires Awaits(store, ReceiptKey(l.author, Coordinate(l, ev).value.0, Coordinate(l, ev).value.1), l, ev, hash)
    ensures var key := ReceiptKey(l.author, Coordinate(l, ev).value.0, Coordinate(l, ev).value.1);
      var (ok, store') := Mutated(l, ev, true, false, "", outbox, store, norm);
      && (ok <==> RoundRecorded(l, ev.id, outbox, norm))
      && (if ok then Delivered(store', key, l, ev, hash) else store' == store)
    ensures var key := ReceiptKey(l.author, Coordinate(l, ev).value.0, Coordinate(l, ev).value.1);
      var (ok, store') := Mutated(l, ev, false, false, "", outbox, store, norm);
      ok && key in store' && store'[key].Stored? && store'[key].receipt.failed
  {
  }

  /** The receipt proves the row, for everyone who asks under this policy. */
  ghost predicate Delivered(store: Store, key: string, l: Config, ev: Event, hash: string) {
    && key in store && store[key].Stored?
    && store[key].receipt.eventId == Some(ev.id) && ReadsAsProof(l, store[key].receipt, hash, ev.deleted)
    && NamesVersion(store[key].receipt, ev)
  }

  /** Liveness. In every run, an event that is staged, then accepted in a recorded round, and
      otherwise not spoken for, proves its row. */
  lemma DeliveredProves(worlds: seq<World>, actions: seq<Action>, cat: Catalog, norm: Norm, from: nat, at: nat, n: nat,
                        l: Config, ev: Event, hash: string, outbox: Option<Outbox>)
    requires IsRun(worlds, actions, cat, norm) && from < at < n < |worlds| && l.policy.Scoped?
    requires actions[from] == Stage(l, ev, hash) && actions[at] == Accepted(l, ev, outbox)
    requires RoundRecorded(l, ev.id, outbox, norm)
    requires Coordinate(l, ev).Some? && Coordinate(l, ev).value.0 != ORG_KEY_ENVELOPE
    requires Coordinate(l, ev).value.0 == LLM_RELEASE ==> ev.envelopeVersion.Some?
    requires var key := ReceiptKey(l.author, Coordinate(l, ev).value.0, Coordinate(l, ev).value.1);
      && (key in worlds[from].store ==>
            worlds[from].store[key].Stored? && worlds[from].store[key].receipt.eventId != Some(ev.id))
      && forall k :: from < k < n && k != at ==> SpeaksForOthers(actions[k], key, ev.id)
    ensures var (kind, d) := Coordinate(l, ev).value;
      var key := ReceiptKey(l.author, kind, d);
      && Delivered(worlds[n].store, key, l, ev, hash)
      && forall outbox', wiring, retained ::
           Provable(l, kind, d, worlds[n].store[key].receipt, outbox', wiring, retained, norm)
  {
    var (kind, d) := Coordinate(l, ev).value;
    var key := ReceiptKey(l.author, kind, d);
    assert Next(worlds[from], actions[from], worlds[from + 1], cat, norm);
    StagedAwaits(l, ev, hash, None, worlds[from].store, norm);
    OthersChangeNothing(worlds, actions, cat, norm, from + 1, at, key, ev.id);
    assert Next(worlds[at], actions[at], worlds[at + 1], cat, norm);
    HeardOf(l, ev, hash, outbox, worlds[at].store, norm);
    OthersChangeNothing(worlds, actions, cat, norm, at + 1, n, key, ev.id);
  }

  // ----- the ledger object

  /** The fleet key manifest: one envelope coordinate a recipient. */
  datatype Manifest = Manifest(version: nat, keyHash: string, recipients: seq<string>, coordinates: seq<string>,
                               policy: PolicyId)

  /** The stored manifest: none, one that does not decode, or one. */
  datatype ManifestRecord = NoManifest | Undecodable | Kept(value: Manifest)

  /** No entry is empty and none is listed twice. */
  ghost predicate DistinctEntries(entries: seq<string>) {
    "" !in entries && forall i, j :: 0 <= i < j < |entries| ==> entries[i] != entries[j]
  }

  method Distinctly(entries: seq<string>) returns (ok: bool)
    ensures ok <==> DistinctEntries(entries)
  {
    var seen: set<string> := {};
    for i := 0 to |entries|
      invariant DistinctEntries(entries[..i])
      invariant forall e :: e in seen <==> e in entries[..i]
    {
      var entry := entries[i];
      assert entries[..i + 1] == entries[..i] + [entry];
      if entry == "" {
        assert entries[i] in entries;
        return false;
      }
      if entry in seen {
        var j :| 0 <= j < i && entries[j] == entry;
        return false;
      }
      seen := seen + {entry};
    }
    assert entries[..|entries|] == entries;
    return true;
  }

  function EnvelopePrefix(version: nat): string {
    "org-key:fleet:v" + Decimal(version) + ":"
  }

  /** A coordinate is of one key version only. */
  lemma EnvelopeVersion(v: nat, v': nat, d: string)
    requires EnvelopePrefix(v) <= d && EnvelopePrefix(v') <= d
    ensures v == v'
  {
    var start, a, b := "org-key:fleet:v", EnvelopePrefix(v), EnvelopePrefix(v');
    var n := |start|;
    DecimalDigits(v);
    DecimalDigits(v');
    assert a[n..] == Decimal(v) + ":" && b[n..] == Decimal(v') + ":";
    assert d[n..] == Decimal(v) + ":" + d[|a|..] && d[n..] == Decimal(v') + ":" + d[|b|..];
    UptoColon(Decimal(v), d[|a|..], Decimal(v'), d[|b|..]);
    DecimalInjective(v, v');
  }

  /** The relays and quorum a ledger was configured with, and what a fresh publish of an event answers. */
  datatype Wiring = Wiring(relays: seq<string>, quorum: int, publish: Id -> seq<PublishResult>)

  /** The relays that accept a fresh publish of the event are as many as the quorum asks for. */
  ghost predicate Enough(wiring: Wiring, id: Id, norm: Norm) {
    var write := WriteSet(wiring.relays, norm);
    Suffices(wiring.quorum, Accepting(wiring.publish(id), write, norm), write)
  }

  ghost predicate BackedReceipt(rec: Receipt, accepts: set<(string, Id)>) {
    rec.accepted && rec.policy.Scoped? ==> rec.eventId.Some? && AtQuorum(accepts, rec.policy, rec.eventId.value)
  }

  ghost predicate BackedStore(store: Store, accepts: set<(string, Id)>) {
    forall key :: key in store && store[key].Stored? ==> BackedReceipt(store[key].receipt, accepts)
  }

  lemma StoreStillBacked(store: Store, accepts: set<(string, Id)>, accepts': set<(string, Id)>)
    requires BackedStore(store, accepts) && accepts <= accepts'
    ensures BackedStore(store, accepts')
  {
    forall key | key in store && store[key].Stored?
      ensures BackedReceipt(store[key].receipt, accepts')
    {
      StillBacked(store[key].receipt, accepts, accepts');
    }
  }

  /** An upgraded receipt has the quorum it claims. */
  lemma UpgradeIsBacked(l: Config, key: string, rec: Receipt, store: Store, accepts: set<(string, Id)>, id: Id,
                        wiring: Wiring, norm: Norm)
    requires BackedStore(store, accepts) && rec.eventId == Some(id)
    requires PolicyOf(l.author, wiring.relays, wiring.quorum, norm) == Ok(l.policy)
    requires TruthfulResults(wiring.publish(id), id, accepts, norm)
    requires Enough(wiring, id, norm)
    ensures BackedStore(Upgraded(l, key, rec, store).1, accepts) && l.policy.Scoped?
  {
    PublishIsQuorum(l, id, wiring.relays, wiring.quorum, wiring.publish(id), accepts, norm);
  }

  lemma StillBacked(rec: Receipt, accepts: set<(string, Id)>, accepts': set<(string, Id)>)
    requires BackedReceipt(rec, accepts) && accepts <= accepts'
    ensures BackedReceipt(rec, accepts')
  {
    if rec.accepted && rec.policy.Scoped? {
      MoreAccepts(accepts, accepts', rec.policy, rec.eventId.value);
    }
  }

  /** The family a phase of the import proves, and whether it proves a deletion. */
  function PhaseFamily(phase: string): Option<(nat, bool)> {
    if phase == "releases" then Some((LLM_RELEASE, false))
    else if phase == "signatures" then Some((ARTIFACT_SIGNATURE, false))
    else if phase == "sboms" then Some((ARTIFACT_SBOM, false))
    else if phase == "semantic_packages" then Some((SBOM_PACKAGE, false))
    else if phase == "legacy_packages" then Some((SBOM_PACKAGE, true))
    else if phase == "observations" then Some((RUNTIME_OBSERVATION, false))
    else None
  }

  /** Whether a receipt can be proved now: by what it says, or by a fresh publish that enough
      distinct write relays accept. */
  ghost predicate Provable(l: Config, kind: nat, d: string, rec: Receipt, outbox: Option<Outbox>,
                           wiring: Option<Wiring>,
                     retained: map<Id, Event>, norm: Norm)
  {
    match Inspect(l, kind, d, rec, outbox, wiring.Some?, retained)
    case Proved => true
    case Unproved => false
    case Failure => false
    case NeedsPublish(ev) =>
      wiring.Some? && Enough(wiring.value, ev.id, norm)
  }

  /** The signed event a receipt names is at hand, and it is one of this coordinate. */
  ghost predicate AtHand(l: Config, kind: nat, d: string, rec: Receipt, outbox: Outbox, retained: map<Id, Event>,
                         id: Id, ev: Event)
  {
    && ev.id == id
    && (if id in outbox && outbox[id].event.id == id then ev == outbox[id].event
        else id in retained && ev == retained[id])
    && ev.signed && ev.author == l.author && ev.kind == CONTROL_STATE && ev.d == d
    && ev.legacyKind == Some(kind) && ev.plain && ev.deleted == rec.deleted
  }

  /** Exactly when a receipt can be proved. It never can after a failure or without a policy;
      under its own policy by its acceptance alone; under another one by a fresh publish that
      suffices, of an event that is at hand and was accepted or at least delivered. */
  lemma ProvableMeans(l: Config, kind: nat, d: string, rec: Receipt, outbox: Option<Outbox>, wiring: Option<Wiring>,
                      retained: map<Id, Event>, norm: Norm)
    ensures Provable(l, kind, d, rec, outbox, wiring, retained, norm) <==>
      && !rec.failed && l.policy.Scoped?
      && (rec.policy == l.policy ==> rec.accepted)
      && (rec.policy != l.policy ==>
            && wiring.Some? && outbox.Some? && rec.eventId.Some?
            && var id := rec.eventId.value;
            && (rec.accepted || (id in outbox.value && outbox.value[id].delivered))
            && Enough(wiring.value, id, norm)
            && exists ev :: AtHand(l, kind, d, rec, outbox.value, retained, id, ev))
  {
    if !rec.failed && l.policy.Scoped? && rec.policy != l.policy && outbox.Some? && rec.eventId.Some? {
      var id, entries := rec.eventId.value, outbox.value;
      if id in entries && entries[id].event.id == id {
        assert AtHand(l, kind, d, rec, entries, retained, id, entries[id].event)
          <==> exists ev :: AtHand(l, kind, d, rec, entries, retained, id, ev);
      } else if id in retained {
        assert AtHand(l, kind, d, rec, entries, retained, id, retained[id])
          <==> exists ev :: AtHand(l, kind, d, rec, entries, retained, id, ev);
      }
    }
  }

  /** What proving a receipt did to the store: nothing, or, after a fresh publish whose
      acceptances are known, the upgrade of that receipt. */
  ghost predicate ProvesTo(l: Config, kind: nat, d: string, rec: Receipt, outbox: Option<Outbox>,
                           wiring: Option<Wiring>,
                           retained: map<Id, Event>, norm: Norm, accepts: set<(string, Id)>, store: Store,
                           store': Store)
  {
    match Inspect(l, kind, d, rec, outbox, wiring.Some?, retained)
    case NeedsPublish(ev) =>
      && rec.eventId == Some(ev.id) && wiring.Some?
      && TruthfulResults(wiring.value.publish(ev.id), ev.id, accepts, norm)
      && store' == Upgraded(l, ReceiptKey(l.author, kind, d), rec, store).1
    case _ => store' == store
  }

  lemma SoundWithMore(w: World, accepts: set<(string, Id)>, cat: Catalog)
    requires Sound(w, cat) && w.accepts <= accepts
    ensures Sound(w.(accepts := accepts), cat)
  {
    forall key | key in w.store && w.store[key].Stored?
      ensures SoundReceipt(key, w.store[key].receipt, w.(accepts := accepts), cat)
    {
      var rec := w.store[key].receipt;
      assert SoundReceipt(key, rec, w, cat);
      if rec.accepted && rec.policy.Scoped? {
        MoreAccepts(w.accepts, accepts, rec.policy, rec.eventId.value);
      }
    }
  }

  /** A successful proof that publishes is an upgrade step of a run. */
  lemma ProofIsStep(w: World, l: Config, kind: nat, d: string, rec: Receipt, outbox: Option<Outbox>, wiring: Wiring,
                    retained: map<Id, Event>, norm: Norm, store': Store, cat: Catalog)
    requires PolicyOf(l.author, wiring.relays, wiring.quorum, norm) == Ok(l.policy)
    requires Inspect(l, kind, d, rec, outbox, true, retained).NeedsPublish?
    requires Provable(l, kind, d, rec, outbox, Some(wiring), retained, norm)
    requires ProvesTo(l, kind, d, rec, outbox, Some(wiring), retained, norm, w.accepts, w.store, store')
    ensures var ev := Inspect(l, kind, d, rec, outbox, true, retained).event;
      var upgrade := Upgrade(l, kind, d, rec, wiring.relays, wiring.quorum, wiring.publish(ev.id));
      Next(w, upgrade, w.(store := store'), cat, norm)
  {
  }

  /** Proving a row, in a world some run has reached, leaves a world with only true receipts;
      the event it proves by was staged with the row's digest and deleted flag, and a quorum
      of the current policy's relays accepted it. */
  lemma ProvedRow(w: World, accepts: set<(string, Id)>, l: Config, kind: nat, d: string, hash: string,
                  outbox: Option<Outbox>,
                  wiring: Option<Wiring>, retained: map<Id, Event>, norm: Norm, store': Store, cat: Catalog)
    requires Sound(w, cat) && w.accepts <= accepts && hash != ""
    requires wiring.Some? ==> PolicyOf(l.author, wiring.value.relays, wiring.value.quorum, norm) == Ok(l.policy)
    requires var key := ReceiptKey(l.author, kind, d);
      && key in w.store && w.store[key].Stored? && w.store[key].receipt.sourceHash == hash
      && Provable(l, kind, d, w.store[key].receipt, outbox, wiring, retained, norm)
      && ProvesTo(l, kind, d, w.store[key].receipt, outbox, wiring, retained, norm, accepts, w.store, store')
    ensures Sound(World(store', w.staged, accepts), cat)
    ensures var key := ReceiptKey(l.author, kind, d);
      && key in store' && store'[key].Stored? && store'[key].receipt.eventId.Some?
      && Staged(key, store'[key].receipt.eventId.value, hash, w.store[key].receipt.deleted) in w.staged
      && AtQuorum(accepts, l.policy, store'[key].receipt.eventId.value)
  {
    var key := ReceiptKey(l.author, kind, d);
    var rec := w.store[key].receipt;
    var w1 := w.(accepts := accepts);
    SoundWithMore(w, accepts, cat);
    if Inspect(l, kind, d, rec, outbox, wiring.Some?, retained).NeedsPublish? {
      var ev := Inspect(l, kind, d, rec, outbox, true, retained).event;
      ProofIsStep(w1, l, kind, d, rec, outbox, wiring.value, retained, norm, store', cat);
      StepSound(w1, Upgrade(l, kind, d, rec, wiring.value.relays, wiring.value.quorum, wiring.value.publish(ev.id)),
                w1.(store := store'), cat, norm);
    }
    assert World(store', w.staged, accepts) == w1.(store := store');
    assert SoundReceipt(key, store'[key].receipt, w1.(store := store'), cat);
  }

  class Ledger {
    const l: Config
    const norm: Norm
    const outbox: Option<Outbox>
    const retained: map<Id, Event>
    const wiring: Option<Wiring>
    var store: Store
    var manifest: ManifestRecord
    ghost var accepts: set<(string, Id)>

    constructor (l: Config, norm: Norm, outbox: Option<Outbox>, retained: map<Id, Event>, wiring: Option<Wiring>,
                 store: Store, manifest: ManifestRecord, ghost accepts: set<(string, Id)>)
      ensures this.l == l && this.norm == norm && this.outbox == outbox && this.retained == retained
      ensures this.wiring == wiring
      ensures this.store == store && this.manifest == manifest && this.accepts == accepts
    {
      this.l, this.norm, this.outbox, this.retained, this.wiring := l, norm, outbox, retained, wiring;
      this.store, this.manifest, this.accepts := store, manifest, accepts;
    }

    /** The policy of the ledger is that of its wiring. */
    ghost predicate Wired() {
      wiring.Some? ==> PolicyOf(l.author, wiring.value.relays, wiring.value.quorum, norm) == Ok(l.policy)
    }

    /** Every receipt that says accepted under a policy has that policy's quorum. */
    ghost predicate Backed()
      reads this
    {
      BackedStore(store, accepts)
    }

    /** `stage`, `accepted` and `abandoned`. */
    method Mutate(ev: Event, accepted: bool, stage: bool, hash: string) returns (ok: bool)
      modifies this`store
      ensures (ok, store) == Mutated(l, ev, accepted, stage, hash, outbox, old(store), norm)
    {
      if ev.author != l.author || ev.kind != CONTROL_STATE {
        return true;
      }
      if ev.d == "" {
        return true;
      }
      if ev.legacyKind.None? || ev.legacyKind.value !in FAMILIES {
        return true;
      }
      var kind := ev.legacyKind.value;
      if accepted && l.policy.Scoped? {
        if outbox.None? || ev.id !in outbox.value {
          return false;
        }
        var entry := outbox.value[ev.id];
        if !entry.delivered || entry.target != "control-plane" {
          return false;
        }
        if entry.required < 1 || entry.required > |entry.writeRelays| {
          return false;
        }
        var actual := PolicyIdOf(l.author, entry.writeRelays, entry.required, norm);
        if actual != Ok(l.policy) {
          return false;
        }
        var acceptedRelays := 0;
        for i := 0 to |entry.writeRelays|
          invariant acceptedRelays == CountAcks(entry.writeRelays[..i], entry.acks)
        {
          assert entry.writeRelays[..i + 1][..i] == entry.writeRelays[..i];
          if entry.writeRelays[i] in entry.acks {
            acceptedRelays := acceptedRelays + 1;
          }
        }
        assert entry.writeRelays[..|entry.writeRelays|] == entry.writeRelays;
        if acceptedRelays < entry.required {
          return false;
        }
      }
      ok := Write(ev, kind, accepted, stage, hash);
    }

    /** The new contents of one control record, if it changes. */
    method Rewrite(ev: Event, kind: nat, accepted: bool, stage: bool, hash: string, current: Receipt)
      returns (r: Result<Option<Receipt>>)
      ensures r == Revise(l.policy, ev, kind, accepted, stage, hash, current)
    {
      if !stage && current.eventId.Some? && current.eventId != Some(ev.id) {
        return Ok(None);
      }
      if stage && current.eventId == Some(ev.id) {
        return Ok(None);
      }
      if accepted && current.eventId == Some(ev.id) && current.policy != l.policy {
        return Ok(None);
      }
      var failed := !stage && !accepted;
      var next := Receipt(Some(ev.id), accepted, failed, ev.deleted, 0, current.sourceHash, current.policy);
      if accepted {
        next := next.(policy := l.policy);
      }
      if stage && current.eventId != Some(ev.id) {
        next := next.(policy := l.policy);
      }
      if stage && kind != ORG_KEY_ENVELOPE {
        next := next.(sourceHash := hash);
      }
      if kind == LLM_RELEASE {
        if ev.envelopeVersion.None? {
          return Err;
        }
        next := next.(ockVersion := ev.envelopeVersion.value);
      }
      return Ok(Some(next));
    }

    /** The atomic update of one control record. */
    method Write(ev: Event, kind: nat, accepted: bool, stage: bool, hash: string) returns (ok: bool)
      requires Coordinate(l, ev) == Some((kind, ev.d))
      requires accepted && l.policy.Scoped? ==> RoundRecorded(l, ev.id, outbox, norm)
      modifies this`store
      ensures (ok, store) == Mutated(l, ev, accepted, stage, hash, outbox, old(store), norm)
    {
      var key := ReceiptKey(l.author, kind, ev.d);
      var current := NO_RECEIPT;
      if key in store {
        if store[key].Corrupt? {
          return false;
        }
        current := store[key].receipt;
      }
      var next := Rewrite(ev, kind, accepted, stage, hash, current);
      match next
      case Err => return false;
      case Ok(None) => return true;
      case Ok(Some(receipt)) =>
        store := store[key := Stored(receipt)];
        return true;
    }

    /** Proves one receipt, if need be by publishing its event afresh. On success the
        receipt in the store is accepted under the current policy; no other changes. */
    method ProveReceipt(kind: nat, d: string, rec: Receipt) returns (proved: bool, err: bool)
      requires Wired() && Backed()
      requires var key := ReceiptKey(l.author, kind, d); key in store && store[key] == Stored(rec)
      modifies this`store, this`accepts
      ensures var key := ReceiptKey(l.author, kind, d);
              && key in store && store == old(store)[key := store[key]]
              && (proved ==> !err && store[key].Stored? && l.policy.Scoped?
                             && ReadsAsProof(l, store[key].receipt, rec.sourceHash, rec.deleted)
                             && store[key].receipt.eventId == rec.eventId)
              && (!proved ==> store == old(store))
      ensures proved <==> Provable(l, kind, d, rec, outbox, wiring, retained, norm)
      ensures proved ==> ProvesTo(l, kind, d, rec, outbox, wiring, retained, norm, accepts, old(store), store)
      ensures err <==> !proved && !Inspect(l, kind, d, rec, outbox, wiring.Some?, retained).Unproved?
      ensures Backed() && old(accepts) <= accepts
    {
      var key := ReceiptKey(l.author, kind, d);
      assert store == store[key := store[key]];
      match Inspect(l, kind, d, rec, outbox, wiring.Some?, retained) {
        case Proved => return true, false;
        case Unproved => return false, false;
        case Failure => return false, true;
        case NeedsPublish(ev) =>
          proved := Republish(ev, key, rec);
          return proved, !proved;
      }
    }

    /** Publishes the signed event afresh and upgrades its receipt if enough relays accept. */
    method Republish(ev: Event, key: string, rec: Receipt) returns (ok: bool)
      requires wiring.Some? && key in store && store[key] == Stored(rec) && !rec.failed && rec.eventId == Some(ev.id)
      modifies this`store, this`accepts
      ensures ok <==> Enough(wiring.value, ev.id, norm)
      ensures store == if ok then Upgraded(l, key, rec, old(store)).1 else old(store)
      ensures old(accepts) <= accepts && TruthfulResults(wiring.value.publish(ev.id), ev.id, accepts, norm)
      ensures Wired() && old(Backed()) ==> Backed() && (ok ==> l.policy.Scoped?)
    {
      var results := wiring.value.publish(ev.id);
      ghost var before := accepts;
      accepts := accepts + set i | 0 <= i < |results| && results[i].succeeded :: (norm(results[i].url), ev.id);
      if BackedStore(store, before) {
        StoreStillBacked(store, before, accepts);
      }
      ok := Reverify(wiring.value.relays, wiring.value.quorum, results, norm);
      if !ok {
        return;
      }
      if Wired() && BackedStore(store, accepts) {
        UpgradeIsBacked(l, key, rec, store, accepts, ev.id, wiring.value, norm);
      }
      var (done, next) := Upgraded(l, key, rec, store);
      store := next;
      ok := done;
    }

    /** Whether the receipt stored at a coordinate is one of this digest and can be proved. */
    ghost predicate Provably(store: Store, kind: nat, d: string, hash: string, deleted: bool) {
      var key := ReceiptKey(l.author, kind, d);
      && key in store && store[key].Stored?
      && store[key].receipt.sourceHash == hash && store[key].receipt.deleted == deleted
      && Provable(l, kind, d, store[key].receipt, outbox, wiring, retained, norm)
    }

    /** Whether the stored receipt proves the row of a phase that has coordinate `d` and
        this digest. If it does, the receipt matches the row, and a quorum of the
        current policy's write relays accepted the event it names. */
    method Prove(phase: string, d: string, hash: string) returns (proved: bool, err: bool)
      requires Wired() && Backed()
      modifies this`store, this`accepts
      ensures Backed() && (!proved ==> store == old(store)) && old(accepts) <= accepts
      ensures PhaseFamily(phase).None? ==> err && !proved
      ensures proved <==> PhaseFamily(phase).Some?
                          && Provably(old(store), PhaseFamily(phase).value.0, d, hash, PhaseFamily(phase).value.1)
      ensures proved ==>
                var (kind, deleted) := PhaseFamily(phase).value;
                var key := ReceiptKey(l.author, kind, d);
                && !err && key in store && store[key].Stored? && store == old(store)[key := store[key]]
                && ReadsAsProof(l, store[key].receipt, hash, deleted)
                && ProvesTo(l, kind, d, old(store)[key].receipt, outbox, wiring, retained, norm, accepts,
                            old(store), store)
                && store[key].receipt.eventId.Some? && AtQuorum(accepts, l.policy, store[key].receipt.eventId.value)
    {
      if PhaseFamily(phase).None? {
        return false, true;
      }
      var (kind, deleted) := PhaseFamily(phase).value;
      var key := ReceiptKey(l.author, kind, d);
      if key !in store {
        return false, false;
      }
      if store[key].Corrupt? {
        return false, true;
      }
      var rec := store[key].receipt;
      if rec.sourceHash != hash || rec.deleted != deleted {
        return false, false;
      }
      proved, err := ProveReceipt(kind, d, rec);
      if proved {
        assert BackedReceipt(store[key].receipt, accepts);
      }
    }

    /** The receipt of an envelope coordinate proves delivery. */
    ghost predicate EnvelopeProved(store: Store, d: string) {
      var key := ReceiptKey(l.author, ORG_KEY_ENVELOPE, d);
      && key in store && store[key].Stored?
      && ReadsAsProof(l, store[key].receipt, store[key].receipt.sourceHash, false)
    }

    /** ... and the policy's write relays accepted the envelope it names. */
    ghost predicate EnvelopeAtQuorum(store: Store, accepts: set<(string, Id)>, d: string) {
      && EnvelopeProved(store, d)
      && var rec := store[ReceiptKey(l.author, ORG_KEY_ENVELOPE, d)].receipt;
      rec.eventId.Some? && AtQuorum(accepts, l.policy, rec.eventId.value)
    }

    ghost predicate SameEntry(before: Store, store: Store, d: string) {
      var key := ReceiptKey(l.author, ORG_KEY_ENVELOPE, d);
      (key in store <==> key in before) && (key in store ==> store[key] == before[key])
    }

    /** Whether the receipt of an envelope coordinate is undeleted and can be proved. */
    ghost predicate EnvelopeProvable(store: Store, version: nat, d: string) {
      var key := ReceiptKey(l.author, ORG_KEY_ENVELOPE, d);
      && EnvelopePrefix(version) <= d && key in store && store[key].Stored? && !store[key].receipt.deleted
      && Provable(l, ORG_KEY_ENVELOPE, d, store[key].receipt, outbox, wiring, retained, norm)
    }

    /** One coordinate of the manifest. */
    method ProveEnvelope(version: nat, d: string) returns (proved: bool, err: bool)
      requires Wired() && Backed()
      modifies this`store, this`accepts
      ensures Backed()
      ensures proved <==> EnvelopeProvable(old(store), version, d)
      ensures proved ==> !err && EnvelopeProved(store, d)
      ensures forall key :: key != ReceiptKey(l.author, ORG_KEY_ENVELOPE, d) ==>
                (key in store <==> key in old(store)) && (key in store ==> store[key] == old(store)[key])
    {
      if !(EnvelopePrefix(version) <= d) {
        return false, false;
      }
      var key := ReceiptKey(l.author, ORG_KEY_ENVELOPE, d);
      if key !in store {
        return false, false;
      }
      if store[key].Corrupt? {
        return false, true;
      }
      var rec := store[key].receipt;
      if rec.deleted {
        return false, false;
      }
      proved, err := ProveReceipt(ORG_KEY_ENVELOPE, d, rec);
    }

    /** The manifest names as many coordinates as recipients, none twice. */
    ghost predicate Complete(m: Manifest, version: nat) {
      && m.version == version && m.keyHash != "" && |m.coordinates| == |m.recipients| >= 1
      && DistinctEntries(m.recipients) && DistinctEntries(m.coordinates)
    }

    /** Whether every recipient's key envelope is proved. It is exactly when the manifest is
        complete and each receipt can be proved by itself: proving one never disturbs
        another. On success every coordinate of
        the manifest has an undeleted receipt accepted by a quorum of the current policy, and
        there are as many coordinates as recipients, none repeated. */
    method ProveOCK(version: nat) returns (proved: bool, err: bool)
      requires Wired() && Backed()
      modifies this
      ensures Backed()
      ensures proved <==> && old(manifest).Kept? && Complete(old(manifest).value, version)
                          && forall i :: 0 <= i < |old(manifest).value.coordinates| ==>
                               EnvelopeProvable(old(store), version, old(manifest).value.coordinates[i])
      ensures proved ==>
        manifest.Kept? && old(manifest).Kept? && manifest.value == old(manifest).value.(policy := l.policy)
      ensures proved ==>
                var m := manifest.value;
                && m.version == version && |m.coordinates| == |m.recipients| >= 1
                && DistinctEntries(m.coordinates) && DistinctEntries(m.recipients)
                && forall i :: 0 <= i < |m.coordinates| ==> EnvelopeAtQuorum(store, accepts, m.coordinates[i])
      ensures !proved ==> manifest == old(manifest)
      ensures old(manifest).Undecodable? ==> err
    {
      if manifest.Undecodable? {
        return false, true;
      }
      if manifest.NoManifest? {
        return false, false;
      }
      var m := manifest.value;
      if m.version != version || m.keyHash == "" || |m.coordinates| == 0 || |m.coordinates| != |m.recipients| {
        return false, false;
      }
      var ok := Distinctly(m.recipients);
      if !ok {
        return false, false;
      }
      ok := Distinctly(m.coordinates);
      if !ok {
        return false, false;
      }
      for i := 0 to |m.coordinates|
        invariant manifest == old(manifest) && Backed()
        invariant forall j :: 0 <= j < i ==> EnvelopeProved(store, m.coordinates[j])
        invariant forall j :: 0 <= j < i ==> EnvelopeProvable(old(store), version, m.coordinates[j])
        invariant forall j :: i <= j < |m.coordinates| ==> SameEntry(old(store), store, m.coordinates[j])
      {
        assert SameEntry(old(store), store, m.coordinates[i]);
        ghost var before := store;
        var accepted, failed := ProveEnvelope(version, m.coordinates[i]);
        if failed || !accepted {
          return false, failed;
        }
        forall j | 0 <= j < |m.coordinates| && j != i
          ensures SameEntry(before, store, m.coordinates[j])
        {
          OtherCoordinate(l.author, m.coordinates[j], m.coordinates[i]);
        }
      }
      forall i | 0 <= i < |m.coordinates|
        ensures EnvelopeAtQuorum(store, accepts, m.coordinates[i])
      {
        assert EnvelopeProved(store, m.coordinates[i]);
        assert BackedReceipt(store[ReceiptKey(l.author, ORG_KEY_ENVELOPE, m.coordinates[i])].receipt, accepts);
      }
      if m.policy != l.policy {
        manifest := Kept(m.(policy := l.policy));
      }
      return true, false;
    }
  }

  lemma OtherCoordinate(author: string, d: string, d': string)
    requires d != d'
    ensures ReceiptKey(author, ORG_KEY_ENVELOPE, d) != ReceiptKey(author, ORG_KEY_ENVELOPE, d')
  {
    if ReceiptKey(author, ORG_KEY_ENVELOPE, d) == ReceiptKey(author, ORG_KEY_ENVELOPE, d') {
      KeyInjective(author, ORG_KEY_ENVELOPE, d, author, ORG_KEY_ENVELOPE, d');
    }
  }
}
