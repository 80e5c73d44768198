/** cmd/bahia-leak-delete/delete.go: delivering signed deletion requests to relays,
    round by round, recording every relay's answer. */
module LeakDelivery {
  import opened Common

  datatype Status = Pending | Accepted | Duplicate | Rejected | AuthRequired | RateLimited | Failed

  predicate Done(s: Status) {
    s.Accepted? || s.Duplicate?
  }

  /** Answers that the next round retries. */
  predicate Retryable(s: Status) {
    s.RateLimited? || s.Failed?
  }

  datatype Outcome = Outcome(status: Status, attempts: nat)

  /** What one relay answered to one publish, by the predicates its reason satisfies. */
  datatype PublishResult = PublishResult(accepted: bool, duplicate: bool, failed: bool, authRequired: bool,
                                         rateLimited: bool, errorReason: bool)

  // What a relay's result says, none standing for a relay that was not sent to.

  predicate Takes(result: Option<PublishResult>) {
    result.Some? && (result.value.accepted || result.value.duplicate)
  }

  /** The request failed on the way, was limited or met an error of the relay. */
  predicate AsksRetry(result: Option<PublishResult>) {
    !Takes(result) &&
    (result.None? || result.value.failed
     || (!result.value.authRequired && (result.value.rateLimited || result.value.errorReason)))
  }

  predicate DemandsAuth(result: Option<PublishResult>) {
    !Takes(result) && result.Some? && result.value.authRequired && !result.value.failed
  }

  /** It says nothing but no. */
  predicate Refuses(result: Option<PublishResult>) {
    result == Some(PublishResult(false, false, false, false, false, false))
  }

  /** The status records what the result says. */
  predicate Records(s: Status, result: Option<PublishResult>) {
    && (Done(s) <==> Takes(result)) && (s.Accepted? <==> result.Some? && result.value.accepted)
    && (Retryable(s) <==> AsksRetry(result)) && (s.AuthRequired? <==> DemandsAuth(result))
    && (s.Rejected? <==> Refuses(result)) && !s.Pending?
    && (s.RateLimited? ==> result.Some? && result.value.rateLimited && !result.value.failed)
  }

  function Classify(r: PublishResult): (s: Status)
    ensures Records(s, Some(r))
  {
    if r.accepted then Accepted
    else if r.duplicate then Duplicate
    else if r.failed then Failed
    else if r.authRequired then AuthRequired
    else if r.rateLimited then RateLimited
    else if r.errorReason then Failed
    else Rejected
  }

  /** One publish of one deletion: refused by the guard, stopped by the kill switch, or
      answered by some relays; then whether the report was saved and the run is live. */
  datatype Attempt = Guarded | Killed | Answered(results: map<string, PublishResult>, saved: bool, live: bool)

  /** A relay that is missing from the results was not sent to: an error. */
  function AnswerOf(results: map<string, PublishResult>, relay: string, norm: Norm): (s: Status)
    ensures Records(s, if norm(relay) in results then Some(results[norm(relay)]) else None)
  {
    if norm(relay) in results then Classify(results[norm(relay)]) else Failed
  }

  /** One publish that was answered: the deletion, the relays it went to, their answers. */
  datatype Sent = Sent(del: nat, targets: seq<string>, answers: map<string, Status>)

  ghost predicate Answers(e: Sent, relay: string, s: Status) {
    relay in e.targets && relay in e.answers && e.answers[relay] == s
  }

  // ----- what a log of publishes says

  /** The status of a pair: its last answer, or what the report recorded before. */
  ghost function StatusAfter(start: seq<map<string, Outcome>>, log: seq<Sent>, i: nat, relay: string): Status
    requires i < |start| && relay in start[i]
  {
    if log == [] then start[i][relay].status
    else
      var e := log[|log| - 1];
      if e.del == i && relay in e.targets && relay in e.answers then e.answers[relay]
      else StatusAfter(start, log[..|log| - 1], i, relay)
  }

  /** The relay demanded authentication in this run. */
  ghost predicate Stopped(log: seq<Sent>, relay: string) {
    exists k :: 0 <= k < |log| && Answers(log[k], relay, AuthRequired)
  }

  /** The relay rejected the request with this event id in this run. */
  ghost predicate RejectedIn(log: seq<Sent>, ids: seq<nat>, id: nat, relay: string) {
    exists k :: 0 <= k < |log| && log[k].del < |ids| && ids[log[k].del] == id && Answers(log[k], relay, Rejected)
  }

  /** The pair needs nothing more in this run. */
  ghost predicate Settled(start: seq<map<string, Outcome>>, log: seq<Sent>, ids: seq<nat>, i: nat, relay: string)
    requires i < |start| == |ids| && relay in start[i]
  {
    Done(StatusAfter(start, log, i, relay)) || Stopped(log, relay) || RejectedIn(log, ids, ids[i], relay)
  }

  ghost predicate Covers(start: seq<map<string, Outcome>>, relays: seq<string>) {
    forall i, j :: 0 <= i < |start| && 0 <= j < |relays| ==> relays[j] in start[i]
  }

  /** A publish goes to exactly the relays whose pair is not settled, in order. */
  ghost function Unsettled(start: seq<map<string, Outcome>>, log: seq<Sent>, ids: seq<nat>, i: nat,
                           relays: seq<string>): seq<string>
    requires i < |start| == |ids| && Covers(start, relays)
  {
    if relays == [] then []
    else
      var rest, r := relays[..|relays| - 1], relays[|relays| - 1];
      Unsettled(start, log, ids, i, rest) + if Settled(start, log, ids, i, r) then [] else [r]
  }

  /** Every publish of the log went to exactly the unsettled relays of that moment and
      has an answer of each. */
  ghost predicate Faithful(start: seq<map<string, Outcome>>, log: seq<Sent>, ids: seq<nat>, relays: seq<string>)
    requires |start| == |ids| && Covers(start, relays)
  {
    forall j :: 0 <= j < |log| ==> FaithfulAt(start, log, ids, relays, j)
  }

  ghost predicate FaithfulAt(start: seq<map<string, Outcome>>, log: seq<Sent>, ids: seq<nat>, relays: seq<string>,
                             j: nat)
    requires |start| == |ids| && Covers(start, relays) && j < |log|
  {
    && log[j].del < |start| && log[j].targets != []
    && log[j].targets == Unsettled(start, log[..j], ids, log[j].del, relays)
    && forall r :: r in log[j].targets ==> r in log[j].answers && !log[j].answers[r].Pending?
  }

  lemma {:induction false} UnsettledMembers(start: seq<map<string, Outcome>>, log: seq<Sent>, ids: seq<nat>, i: nat,
                                            relays: seq<string>)
    requires i < |start| == |ids| && Covers(start, relays)
    ensures forall r :: r in Unsettled(start, log, ids, i, relays) <==> r in relays && !Settled(start, log, ids, i, r)
  {
    if relays != [] {
      var rest, r := relays[..|relays| - 1], relays[|relays| - 1];
      assert relays == rest + [r];
      UnsettledMembers(start, log, ids, i, rest);
    }
  }

  /** Settled stays settled. */
  lemma SettledStays(start: seq<map<string, Outcome>>, log: seq<Sent>, e: Sent, ids: seq<nat>, relays: seq<string>,
                     i: nat, relay: string)
    requires i < |start| == |ids| && Covers(start, relays) && relay in relays
    requires Settled(start, log, ids, i, relay)
    requires e.del < |start| && e.targets == Unsettled(start, log, ids, e.del, relays)
    ensures Settled(start, log + [e], ids, i, relay)
  {
    var longer := log + [e];
    assert longer[..|log|] == log && longer[|log|] == e;
    UnsettledMembers(start, log, ids, e.del, relays);
    if Stopped(log, relay) {
      var k :| 0 <= k < |log| && Answers(log[k], relay, AuthRequired);
      assert longer[k] == log[k];
    }
    if RejectedIn(log, ids, ids[i], relay) {
      var k :| 0 <= k < |log| && log[k].del < |ids| && ids[log[k].del] == ids[i] && Answers(log[k], relay, Rejected);
      assert longer[k] == log[k];
    }
  }

  lemma {:induction false} SettledStaysOver(start: seq<map<string, Outcome>>, log: seq<Sent>, ids: seq<nat>,
                                            relays: seq<string>, i: nat, relay: string, m: nat, n: nat)
    requires i < |start| == |ids| && Covers(start, relays) && relay in relays
    requires Faithful(start, log, ids, relays) && m <= n <= |log|
    requires Settled(start, log[..m], ids, i, relay)
    ensures Settled(start, log[..n], ids, i, relay)
  {
    if m < n {
      SettledStaysOver(start, log, ids, relays, i, relay, m, n - 1);
      assert FaithfulAt(start, log, ids, relays, n - 1);
      assert log[..n] == log[..n - 1] + [log[n - 1]];
      SettledStays(start, log[..n - 1], log[n - 1], ids, relays, i, relay);
    }
  }

  /** What an answer settles. */
  lemma AnswerSettles(start: seq<map<string, Outcome>>, log: seq<Sent>, e: Sent, ids: seq<nat>, relay: string)
    requires e.del < |start| == |ids| && relay in start[e.del]
    requires relay in e.targets && relay in e.answers && !e.answers[relay].Pending? && !Retryable(e.answers[relay])
    ensures Settled(start, log + [e], ids, e.del, relay)
  {
    var longer := log + [e];
    assert longer[..|log|] == log && longer[|log|] == e;
    assert Answers(longer[|log|], relay, e.answers[relay]);
  }

  /** No pair is offered again after an answer that settles it: between two publishes of
      one deletion to one relay, the first answer was a retryable one. */
  lemma NeverReoffered(start: seq<map<string, Outcome>>, log: seq<Sent>, ids: seq<nat>, relays: seq<string>, k: nat,
                       j: nat, relay: string)
    requires |start| == |ids| && Covers(start, relays) && Faithful(start, log, ids, relays)
    requires k < j < |log| && log[k].del == log[j].del && relay in log[k].targets && relay in log[j].targets
    ensures relay in relays && relay in log[k].answers && Retryable(log[k].answers[relay])
  {
    assert FaithfulAt(start, log, ids, relays, k) && FaithfulAt(start, log, ids, relays, j);
    UnsettledMembers(start, log[..k], ids, log[k].del, relays);
    UnsettledMembers(start, log[..j], ids, log[j].del, relays);
    if !Retryable(log[k].answers[relay]) {
      AnswerSettles(start, log[..k], log[k], ids, relay);
      assert log[..k + 1] == log[..k] + [log[k]];
      SettledStaysOver(start, log, ids, relays, log[k].del, relay, k + 1, j);
    }
  }

  /** A pair the report records as done is never offered. */
  lemma DoneNeverOffered(start: seq<map<string, Outcome>>, log: seq<Sent>, ids: seq<nat>, relays: seq<string>, j: nat,
                         relay: string)
    requires |start| == |ids| && Covers(start, relays) && Faithful(start, log, ids, relays)
    requires j < |log| && relay in relays && log[j].del < |start| && Done(start[log[j].del][relay].status)
    ensures relay !in log[j].targets
  {
    assert FaithfulAt(start, log, ids, relays, j);
    assert log[..0] == [];
    SettledStaysOver(start, log, ids, relays, log[j].del, relay, 0, j);
    UnsettledMembers(start, log[..j], ids, log[j].del, relays);
  }

  /** A relay that demanded authentication gets nothing more, of any deletion. */
  lemma AuthStopsRelay(start: seq<map<string, Outcome>>, log: seq<Sent>, ids: seq<nat>, relays: seq<string>, k: nat,
                       j: nat, relay: string)
    requires |start| == |ids| && Covers(start, relays) && Faithful(start, log, ids, relays)
    requires k < j < |log| && Answers(log[k], relay, AuthRequired)
    ensures relay !in log[j].targets
  {
    assert FaithfulAt(start, log, ids, relays, j);
    assert log[..j][k] == log[k];
    assert Stopped(log[..j], relay);
    UnsettledMembers(start, log[..j], ids, log[j].del, relays);
  }

  // ----- recording answers

  ghost predicate HasAnswers(m: map<string, Outcome>, targets: seq<string>, answers: map<string, Status>) {
    forall j :: 0 <= j < |targets| ==> targets[j] in m && targets[j] in answers
  }

  /** A deletion's outcomes after the answers of one publish. */
  function Record(m: map<string, Outcome>, targets: seq<string>,
                  answers: map<string, Status>): (m': map<string, Outcome>)
    requires forall j :: 0 <= j < |targets| ==> targets[j] in m && targets[j] in answers
    ensures m'.Keys == m.Keys
  {
    if targets == [] then m
    else
      var m' := Record(m, targets[..|targets| - 1], answers);
      var r := targets[|targets| - 1];
      m'[r := Outcome(answers[r], m'[r].attempts + 1)]
  }

  lemma {:induction false} RecordStatus(m: map<string, Outcome>, targets: seq<string>, answers: map<string, Status>,
                                        r: string)
    requires HasAnswers(m, targets, answers) && r in m
    ensures r in targets ==> Record(m, targets, answers)[r].status == answers[r]
    ensures r !in targets ==> Record(m, targets, answers)[r] == m[r]
    ensures Record(m, targets, answers)[r].attempts == m[r].attempts + multiset(targets)[r]
  {
    if targets != [] {
      var rest, last := targets[..|targets| - 1], targets[|targets| - 1];
      assert targets == rest + [last];
      RecordStatus(m, rest, answers, r);
    }
  }

  lemma StoppedMore(log: seq<Sent>, e: Sent, r: string)
    ensures Stopped(log + [e], r) <==> Stopped(log, r) || Answers(e, r, AuthRequired)
  {
    var longer := log + [e];
    if Stopped(longer, r) {
      var k :| 0 <= k < |longer| && Answers(longer[k], r, AuthRequired);
      assert k < |log| ==> longer[k] == log[k];
    }
    if Stopped(log, r) {
      var k :| 0 <= k < |log| && Answers(log[k], r, AuthRequired);
      assert longer[k] == log[k];
    }
    assert longer[|log|] == e;
  }

  lemma RejectedMore(log: seq<Sent>, e: Sent, ids: seq<nat>, id: nat, r: string)
    ensures RejectedIn(log + [e], ids, id, r) <==>
      RejectedIn(log, ids, id, r) || (e.del < |ids| && ids[e.del] == id && Answers(e, r, Rejected))
  {
    var longer := log + [e];
    if RejectedIn(longer, ids, id, r) {
      var k :| 0 <= k < |longer| && longer[k].del < |ids| && ids[longer[k].del] == id
               && Answers(longer[k], r, Rejected);
      assert k < |log| ==> longer[k] == log[k];
    }
    if RejectedIn(log, ids, id, r) {
      var k :| 0 <= k < |log| && log[k].del < |ids| && ids[log[k].del] == id && Answers(log[k], r, Rejected);
      assert longer[k] == log[k];
    }
    assert longer[|log|] == e;
  }

  /** The log grows by a publish to exactly the unsettled relays. */
  lemma FaithfulMore(start: seq<map<string, Outcome>>, log: seq<Sent>, e: Sent, ids: seq<nat>, relays: seq<string>)
    requires |start| == |ids| && Covers(start, relays) && Faithful(start, log, ids, relays)
    requires e.del < |start| && e.targets != [] && e.targets == Unsettled(start, log, ids, e.del, relays)
    requires forall r :: r in e.targets ==> r in e.answers && !e.answers[r].Pending?
    ensures Faithful(start, log + [e], ids, relays)
  {
    var longer := log + [e];
    forall j | 0 <= j < |longer|
      ensures FaithfulAt(start, longer, ids, relays, j)
    {
      assert longer[..j] == log[..j];
      assert log[..|log|] == log;
      if j < |log| {
        assert FaithfulAt(start, log, ids, relays, j);
      }
    }
  }

  /** How often the relay was addressed with deletion `i`. */
  ghost function Addressed(log: seq<Sent>, i: nat, relay: string): nat {
    if log == [] then 0
    else
      var e := log[|log| - 1];
      Addressed(log[..|log| - 1], i, relay) + if e.del == i then multiset(e.targets)[relay] else 0
  }

  /** The recorded statuses and attempts are what the log says. */
  ghost predicate Agree(outcomes: seq<map<string, Outcome>>, start: seq<map<string, Outcome>>, log: seq<Sent>,
                        relays: seq<string>)
    requires |outcomes| == |start| && Covers(start, relays) && Covers(outcomes, relays)
  {
    forall i, j :: 0 <= i < |start| && 0 <= j < |relays| ==>
      && outcomes[i][relays[j]].status == StatusAfter(start, log, i, relays[j])
      && outcomes[i][relays[j]].attempts == start[i][relays[j]].attempts + Addressed(log, i, relays[j])
  }

  lemma AgreeMore(outcomes: seq<map<string, Outcome>>, start: seq<map<string, Outcome>>, log: seq<Sent>,
                  relays: seq<string>, e: Sent)
    requires |outcomes| == |start| && Covers(start, relays) && Covers(outcomes, relays)
    requires Agree(outcomes, start, log, relays)
    requires e.del < |start| && HasAnswers(outcomes[e.del], e.targets, e.answers)
    ensures var outcomes' := outcomes[e.del := Record(outcomes[e.del], e.targets, e.answers)];
            Covers(outcomes', relays) && Agree(outcomes', start, log + [e], relays)
  {
    var outcomes': seq<map<string, Outcome>> := outcomes[e.del := Record(outcomes[e.del], e.targets, e.answers)];
    var longer := log + [e];
    assert longer[..|log|] == log && longer[|log|] == e;
    forall i, j | 0 <= i < |start| && 0 <= j < |relays|
      ensures outcomes'[i][relays[j]].status == StatusAfter(start, longer, i, relays[j])
      ensures outcomes'[i][relays[j]].attempts == start[i][relays[j]].attempts + Addressed(longer, i, relays[j])
    {
      assert outcomes[i][relays[j]].status == StatusAfter(start, log, i, relays[j]);
      RecordStatus(outcomes[e.del], e.targets, e.answers, relays[j]);
    }
  }

  /** `stopped` and `rejected` say what the log says. */
  ghost predicate Tracks(log: seq<Sent>, ids: seq<nat>, stopped: set<string>, rejected: set<(nat, string)>) {
    && (forall r :: r in stopped <==> Stopped(log, r))
    && (forall id: nat, r :: (id, r) in rejected <==> RejectedIn(log, ids, id, r))
  }

  /** What one publish adds to them. */
  ghost predicate Adds(e: Sent, id: nat, stopped: set<string>, rejected: set<(nat, string)>, stopped': set<string>,
                       rejected': set<(nat, string)>)
  {
    && (forall r :: r in stopped' <==> r in stopped || Answers(e, r, AuthRequired))
    && (forall i: nat, r :: (i, r) in rejected' <==> (i, r) in rejected || (i == id && Answers(e, r, Rejected)))
  }

  /** The run's notes after the answers of one publish, and whether one of them is retryable. */
  function Noted(targets: seq<string>, answers: map<string, Status>, id: nat, stopped: set<string>,
                 rejected: set<(nat, string)>): (set<string>, set<(nat, string)>, bool)
    requires forall j :: 0 <= j < |targets| ==> targets[j] in answers
  {
    if targets == [] then (stopped, rejected, false)
    else
      var (stopped', rejected', retry) := Noted(targets[..|targets| - 1], answers, id, stopped, rejected);
      var r := targets[|targets| - 1];
      match answers[r]
      case AuthRequired => (stopped' + {r}, rejected', retry)
      case Rejected => (stopped', rejected' + {(id, r)}, retry)
      case RateLimited => (stopped', rejected', true)
      case Failed => (stopped', rejected', true)
      case _ => (stopped', rejected', retry)
  }

  lemma {:induction false} NotedAdds(e: Sent, id: nat, stopped: set<string>, rejected: set<(nat, string)>)
    requires forall j :: 0 <= j < |e.targets| ==> e.targets[j] in e.answers
    ensures var (stopped', rejected', retry) := Noted(e.targets, e.answers, id, stopped, rejected);
            && Adds(e, id, stopped, rejected, stopped', rejected')
            && (retry <==> exists r :: r in e.targets && Retryable(e.answers[r]))
    decreases |e.targets|
  {
    if e.targets != [] {
      var rest, last := e.targets[..|e.targets| - 1], e.targets[|e.targets| - 1];
      assert e.targets == rest + [last];
      NotedAdds(e.(targets := rest), id, stopped, rejected);
    }
  }

  lemma TracksMore(log: seq<Sent>, e: Sent, ids: seq<nat>, stopped: set<string>, rejected: set<(nat, string)>,
                   stopped': set<string>, rejected': set<(nat, string)>)
    requires Tracks(log, ids, stopped, rejected) && e.del < |ids|
    requires Adds(e, ids[e.del], stopped, rejected, stopped', rejected')
    ensures Tracks(log + [e], ids, stopped', rejected')
  {
    forall r
      ensures r in stopped' <==> Stopped(log + [e], r)
    {
      StoppedMore(log, e, r);
    }
    forall id: nat, r: string
      ensures (id, r) in rejected' <==> RejectedIn(log + [e], ids, id, r)
    {
      RejectedMore(log, e, ids, id, r);
    }
  }

  /** Every pair of the first `n` deletions is settled. */
  ghost predicate AllSettled(start: seq<map<string, Outcome>>, log: seq<Sent>, ids: seq<nat>, relays: seq<string>,
                             n: nat)
    requires n <= |start| == |ids| && Covers(start, relays)
  {
    forall i, j :: 0 <= i < n && 0 <= j < |relays| ==> Settled(start, log, ids, i, relays[j])
  }

  lemma AllSettledStays(start: seq<map<string, Outcome>>, log: seq<Sent>, e: Sent, ids: seq<nat>, relays: seq<string>,
                        n: nat)
    requires n <= |start| == |ids| && Covers(start, relays) && AllSettled(start, log, ids, relays, n)
    requires e.del < |start| && e.targets == Unsettled(start, log, ids, e.del, relays)
    ensures AllSettled(start, log + [e], ids, relays, n)
  {
    forall i, j | 0 <= i < n && 0 <= j < |relays|
      ensures Settled(start, log + [e], ids, i, relays[j])
    {
      SettledStays(start, log, e, ids, relays, i, relays[j]);
    }
  }

  lemma SettledStay(start: seq<map<string, Outcome>>, log: seq<Sent>, e: Sent, ids: seq<nat>, relays: seq<string>)
    requires e.del < |start| == |ids| && Covers(start, relays)
    requires e.targets == Unsettled(start, log, ids, e.del, relays)
    ensures forall n: nat ::
      n <= |ids| && AllSettled(start, log, ids, relays, n) ==> AllSettled(start, log + [e], ids, relays, n)
  {
    forall n: nat | n <= |ids| && AllSettled(start, log, ids, relays, n)
      ensures AllSettled(start, log + [e], ids, relays, n)
    {
      AllSettledStays(start, log, e, ids, relays, n);
    }
  }

  /** If no answer is retryable, the publish settles its whole deletion. */
  lemma PublishSettles(start: seq<map<string, Outcome>>, log: seq<Sent>, e: Sent, ids: seq<nat>, relays: seq<string>)
    requires e.del < |start| == |ids| && Covers(start, relays)
    requires e.targets == Unsettled(start, log, ids, e.del, relays)
    requires forall r :: r in e.targets ==> r in e.answers && !e.answers[r].Pending? && !Retryable(e.answers[r])
    ensures forall j :: 0 <= j < |relays| ==> Settled(start, log + [e], ids, e.del, relays[j])
  {
    UnsettledMembers(start, log, ids, e.del, relays);
    forall j | 0 <= j < |relays|
      ensures Settled(start, log + [e], ids, e.del, relays[j])
    {
      if relays[j] in e.targets {
        AnswerSettles(start, log, e, ids, relays[j]);
      } else {
        SettledStays(start, log, e, ids, relays, e.del, relays[j]);
      }
    }
  }

  /** The addressed relays have an outcome to update. */
  lemma AllAnswered(m: map<string, Outcome>, start: seq<map<string, Outcome>>, log: seq<Sent>, ids: seq<nat>, i: nat,
                    relays: seq<string>, answers: map<string, Status>)
    requires i < |start| == |ids| && Covers(start, relays) && forall j :: 0 <= j < |relays| ==> relays[j] in m
    requires answers.Keys == Elems(Unsettled(start, log, ids, i, relays))
    ensures HasAnswers(m, Unsettled(start, log, ids, i, relays), answers)
  {
    UnsettledMembers(start, log, ids, i, relays);
    var targets := Unsettled(start, log, ids, i, relays);
    forall j | 0 <= j < |targets|
      ensures targets[j] in m && targets[j] in answers
    {
      assert targets[j] in relays && targets[j] in Elems(targets);
    }
  }

  /** The record after a publish is again what the longer log says. */
  lemma RecordHolds(outcomes: seq<map<string, Outcome>>, start: seq<map<string, Outcome>>, log: seq<Sent>, e: Sent,
                    ids: seq<nat>, relays: seq<string>)
    requires |outcomes| == |start| == |ids| && Covers(start, relays) && Covers(outcomes, relays)
    requires Faithful(start, log, ids, relays) && Agree(outcomes, start, log, relays)
    requires e.del < |start| && e.targets != [] && e.targets == Unsettled(start, log, ids, e.del, relays)
    requires HasAnswers(outcomes[e.del], e.targets, e.answers)
    requires forall r :: r in e.targets ==> r in e.answers && !e.answers[r].Pending?
    ensures var outcomes' := outcomes[e.del := Record(outcomes[e.del], e.targets, e.answers)];
      && Covers(outcomes', relays) && Agree(outcomes', start, log + [e], relays)
      && Faithful(start, log + [e], ids, relays)
  {
    AgreeMore(outcomes, start, log, relays, e);
    FaithfulMore(start, log, e, ids, relays);
  }

  /** The notes after a publish again track the longer log. */
  lemma NotesHold(start: seq<map<string, Outcome>>, log: seq<Sent>, e: Sent, ids: seq<nat>, relays: seq<string>,
                  stopped: set<string>, rejected: set<(nat, string)>)
    requires e.del < |start| == |ids| && Covers(start, relays) && Tracks(log, ids, stopped, rejected)
    requires e.targets == Unsettled(start, log, ids, e.del, relays)
    requires forall r :: r in e.targets ==> r in e.answers && !e.answers[r].Pending?
    ensures var (stopped', rejected', retry) := Noted(e.targets, e.answers, ids[e.del], stopped, rejected);
      && Tracks(log + [e], ids, stopped', rejected')
      && (!retry ==> forall j :: 0 <= j < |relays| ==> Settled(start, log + [e], ids, e.del, relays[j]))
  {
    NotedAdds(e, ids[e.del], stopped, rejected);
    var (stopped', rejected', retry) := Noted(e.targets, e.answers, ids[e.del], stopped, rejected);
    TracksMore(log, e, ids, stopped, rejected, stopped', rejected');
    if !retry {
      PublishSettles(start, log, e, ids, relays);
    }
  }

  // ----- the publisher

  /** How a run ended: an error, or a nil return after this many rounds. */
  datatype End = Error | Finished(rounds: nat)

  /** The environment of a run: what the n-th publish meets, and whether waiting after a
      round succeeds. */
  datatype Env = Env(publish: nat -> Attempt, waits: nat -> bool, norm: Norm)

  /** What the addressed relays answered. */
  function AnswersTo(results: map<string, PublishResult>, targets: seq<string>, norm: Norm): map<string, Status> {
    map r | r in targets :: AnswerOf(results, r, norm)
  }

  /** Entry `k` of the log is what the k-th publish met. */
  ghost predicate TruthfulAt(env: Env, log: seq<Sent>, k: nat)
    requires k < |log|
  {
    env.publish(k).Answered? && log[k].answers == AnswersTo(env.publish(k).results, log[k].targets, env.norm)
  }

  ghost predicate Truthful(env: Env, log: seq<Sent>) {
    forall k {:trigger TruthfulAt(env, log, k)} :: 0 <= k < |log| ==> TruthfulAt(env, log, k)
  }

  lemma TruthfulMore(env: Env, log: seq<Sent>, e: Sent)
    requires Truthful(env, log) && env.publish(|log|).Answered?
    requires e.answers == AnswersTo(env.publish(|log|).results, e.targets, env.norm)
    ensures Truthful(env, log + [e])
  {
    forall k | 0 <= k < |log + [e]|
      ensures TruthfulAt(env, log + [e], k)
    {
      assert k < |log| ==> TruthfulAt(env, log, k);
    }
  }

  /** What a relay's result of the k-th publish was. */
  function ResultOf(env: Env, k: nat, relay: string): Option<PublishResult> {
    if env.publish(k).Answered? && env.norm(relay) in env.publish(k).results
    then Some(env.publish(k).results[env.norm(relay)]) else None
  }

  /** The k-th publish was the last of deletion `i` to this relay. */
  ghost predicate LastOffer(log: seq<Sent>, i: nat, relay: string, k: nat) {
    && k < |log| && log[k].del == i && relay in log[k].targets
    && forall m :: k < m < |log| && log[m].del == i ==> relay !in log[m].targets
  }

  ghost predicate NoOffer(log: seq<Sent>, i: nat, relay: string) {
    forall m :: 0 <= m < |log| && log[m].del == i ==> relay !in log[m].targets
  }

  /** The pair is over, by what relays said: it was done before or its last result took the
      deletion, the relay demanded authentication, or it refused a request of the same id. */
  ghost predicate Over(env: Env, start: seq<map<string, Outcome>>, log: seq<Sent>, ids: seq<nat>, i: nat, relay: string)
    requires i < |start| == |ids| && relay in start[i]
  {
    || (NoOffer(log, i, relay) && Done(start[i][relay].status))
    || (exists k: nat :: LastOffer(log, i, relay, k) && Takes(ResultOf(env, k, relay)))
    || (exists k :: 0 <= k < |log| && relay in log[k].targets && DemandsAuth(ResultOf(env, k, relay)))
    || (exists k ::
          && 0 <= k < |log| && log[k].del < |ids| && ids[log[k].del] == ids[i] && relay in log[k].targets
          && Refuses(ResultOf(env, k, relay)))
  }

  lemma {:induction false} StatusIsLast(start: seq<map<string, Outcome>>, log: seq<Sent>, i: nat, relay: string, k: nat)
    requires i < |start| && relay in start[i] && LastOffer(log, i, relay, k) && relay in log[k].answers
    ensures StatusAfter(start, log, i, relay) == log[k].answers[relay]
    decreases |log|
  {
    var n := |log| - 1;
    if k < n {
      StatusIsLast(start, log[..n], i, relay, k);
    }
  }

  lemma {:induction false} StatusIsOld(start: seq<map<string, Outcome>>, log: seq<Sent>, i: nat, relay: string)
    requires i < |start| && relay in start[i] && NoOffer(log, i, relay)
    ensures StatusAfter(start, log, i, relay) == start[i][relay].status
  {
    if log != [] {
      StatusIsOld(start, log[..|log| - 1], i, relay);
    }
  }

  lemma {:induction false} FindLast(log: seq<Sent>, i: nat, relay: string) returns (k: nat)
    requires !NoOffer(log, i, relay)
    ensures LastOffer(log, i, relay, k)
  {
    var n := |log| - 1;
    if log[n].del == i && relay in log[n].targets {
      k := n;
    } else {
      k := FindLast(log[..n], i, relay);
    }
  }

  /** What the log notes of a publish is what the relay's result says. */
  lemma NotedIsSaid(env: Env, start: seq<map<string, Outcome>>, log: seq<Sent>, ids: seq<nat>, relays: seq<string>,
                    k: nat, relay: string)
    requires |start| == |ids| && Covers(start, relays) && Faithful(start, log, ids, relays) && Truthful(env, log)
    requires k < |log| && relay in log[k].targets
    ensures relay in log[k].answers && Records(log[k].answers[relay], ResultOf(env, k, relay))
  {
    assert TruthfulAt(env, log, k) && FaithfulAt(start, log, ids, relays, k);
  }

  /** The status of a pair after a run is what its last result said. */
  lemma StatusIsSaid(env: Env, start: seq<map<string, Outcome>>, log: seq<Sent>, ids: seq<nat>, relays: seq<string>,
                     i: nat, relay: string, k: nat)
    requires i < |start| == |ids| && Covers(start, relays) && Faithful(start, log, ids, relays) && Truthful(env, log)
    requires relay in start[i] && LastOffer(log, i, relay, k)
    ensures Records(StatusAfter(start, log, i, relay), ResultOf(env, k, relay))
  {
    NotedIsSaid(env, start, log, ids, relays, k, relay);
    StatusIsLast(start, log, i, relay, k);
  }

  /** A settled pair is over by what relays said. */
  lemma SettledIsOver(env: Env, start: seq<map<string, Outcome>>, log: seq<Sent>, ids: seq<nat>, relays: seq<string>,
                      i: nat, relay: string)
    requires i < |start| == |ids| && Covers(start, relays) && Faithful(start, log, ids, relays) && Truthful(env, log)
    requires relay in start[i] && Settled(start, log, ids, i, relay)
    ensures Over(env, start, log, ids, i, relay)
  {
    if Done(StatusAfter(start, log, i, relay)) {
      if NoOffer(log, i, relay) {
        StatusIsOld(start, log, i, relay);
      } else {
        var k := FindLast(log, i, relay);
        StatusIsSaid(env, start, log, ids, relays, i, relay, k);
      }
    } else if Stopped(log, relay) {
      var k :| 0 <= k < |log| && Answers(log[k], relay, AuthRequired);
      NotedIsSaid(env, start, log, ids, relays, k, relay);
    } else {
      var k :| 0 <= k < |log| && log[k].del < |ids| && ids[log[k].del] == ids[i] && Answers(log[k], relay, Rejected);
      NotedIsSaid(env, start, log, ids, relays, k, relay);
    }
  }

  /** Every pair is over, and the record of each is what was said last. */
  ghost predicate AllOver(env: Env, start: seq<map<string, Outcome>>, log: seq<Sent>, ids: seq<nat>,
                          relays: seq<string>)
    requires |start| == |ids| && Covers(start, relays)
  {
    forall i, j :: 0 <= i < |start| && 0 <= j < |relays| ==> Over(env, start, log, ids, i, relays[j])
  }

  ghost predicate SaidLast(env: Env, outcomes: seq<map<string, Outcome>>, log: seq<Sent>, relays: seq<string>)
    requires Covers(outcomes, relays)
  {
    forall i, j, k: nat :: 0 <= i < |outcomes| && 0 <= j < |relays| && LastOffer(log, i, relays[j], k) ==>
      Records(outcomes[i][relays[j]].status, ResultOf(env, k, relays[j]))
  }

  lemma RecordIsSaid(env: Env, outcomes: seq<map<string, Outcome>>, start: seq<map<string, Outcome>>, log: seq<Sent>,
                     ids: seq<nat>, relays: seq<string>)
    requires |outcomes| == |start| == |ids| && Covers(start, relays) && Covers(outcomes, relays)
    requires Faithful(start, log, ids, relays) && Agree(outcomes, start, log, relays) && Truthful(env, log)
    ensures SaidLast(env, outcomes, log, relays)
    ensures AllSettled(start, log, ids, relays, |ids|) ==> AllOver(env, start, log, ids, relays)
  {
    forall i, j, k: nat | 0 <= i < |outcomes| && 0 <= j < |relays| && LastOffer(log, i, relays[j], k)
      ensures Records(outcomes[i][relays[j]].status, ResultOf(env, k, relays[j]))
    {
      StatusIsSaid(env, start, log, ids, relays, i, relays[j], k);
    }
    if AllSettled(start, log, ids, relays, |ids|) {
      forall i, j | 0 <= i < |start| && 0 <= j < |relays|
        ensures Over(env, start, log, ids, i, relays[j])
      {
        SettledIsOver(env, start, log, ids, relays, i, relays[j]);
      }
    }
  }

  /** The n-th publish was answered and recorded, and the run could go on. */
  predicate Passes(env: Env, n: nat) {
    env.publish(n).Answered? && env.publish(n).saved && env.publish(n).live
  }

  ghost predicate AllPass(env: Env, n: nat) {
    forall k: nat :: k < n ==> Passes(env, k)
  }

  /** The n-th publish was refused, or the one before it ended the run. */
  predicate Fails(env: Env, n: nat) {
    || env.publish(n).Guarded?
    || (n > 0 && match env.publish(n - 1)
                 case Guarded => false
                 case Killed => true
                 case Answered(_, saved, live) => !saved || !live)
  }

  /** How often a deletion was published. */
  function Offers(log: seq<Sent>, i: nat): nat {
    if log == [] then 0 else Offers(log[..|log| - 1], i) + if log[|log| - 1].del == i then 1 else 0
  }

  lemma OffersMore(log: seq<Sent>, e: Sent, i: nat)
    ensures Offers(log + [e], i) == Offers(log, i) + if e.del == i then 1 else 0
  {
    assert (log + [e])[..|log|] == log;
  }

  /** Every pair of one deletion is settled. */
  ghost predicate DeletionSettled(start: seq<map<string, Outcome>>, log: seq<Sent>, ids: seq<nat>,
                                  relays: seq<string>, i: nat)
    requires i < |start| == |ids| && Covers(start, relays)
  {
    forall j :: 0 <= j < |relays| ==> Settled(start, log, ids, i, relays[j])
  }

  /** Of the first `n` deletions each is settled or was published once since `before`, the
      others were not. */
  ghost predicate OfferedSince(start: seq<map<string, Outcome>>, before: seq<Sent>, log: seq<Sent>, ids: seq<nat>,
                               relays: seq<string>, n: nat)
    requires n <= |start| == |ids| && Covers(start, relays)
  {
    && (forall i :: 0 <= i < n ==>
          DeletionSettled(start, log, ids, relays, i) || Offers(log, i) == Offers(before, i) + 1)
    && (forall i :: n <= i < |ids| ==> Offers(log, i) == Offers(before, i))
  }

  lemma OfferOne(start: seq<map<string, Outcome>>, before: seq<Sent>, log: seq<Sent>, e: Sent, ids: seq<nat>,
                 relays: seq<string>, n: nat)
    requires n < |start| == |ids| && Covers(start, relays) && OfferedSince(start, before, log, ids, relays, n)
    requires e.del == n && e.targets == Unsettled(start, log, ids, n, relays)
    ensures OfferedSince(start, before, log + [e], ids, relays, n + 1)
  {
    forall i | 0 <= i < |ids|
      ensures Offers(log + [e], i) == Offers(log, i) + if i == n then 1 else 0
      ensures i < n && DeletionSettled(start, log, ids, relays, i) ==> DeletionSettled(start, log + [e], ids, relays, i)
    {
      OffersMore(log, e, i);
      if i < n && DeletionSettled(start, log, ids, relays, i) {
        forall j | 0 <= j < |relays|
          ensures Settled(start, log + [e], ids, i, relays[j])
        {
          SettledStays(start, log, e, ids, relays, i, relays[j]);
        }
      }
    }
  }

  lemma OfferNone(start: seq<map<string, Outcome>>, before: seq<Sent>, log: seq<Sent>, ids: seq<nat>,
                  relays: seq<string>, n: nat)
    requires n < |start| == |ids| && Covers(start, relays) && OfferedSince(start, before, log, ids, relays, n)
    requires Unsettled(start, log, ids, n, relays) == []
    ensures OfferedSince(start, before, log, ids, relays, n + 1)
  {
    UnsettledMembers(start, log, ids, n, relays);
  }

  /** Every deletion is settled or was published in each of the rounds so far. */
  ghost predicate Tried(start: seq<map<string, Outcome>>, log: seq<Sent>, ids: seq<nat>, relays: seq<string>,
                        rounds: nat)
    requires |start| == |ids| && Covers(start, relays)
  {
    forall i :: 0 <= i < |ids| ==> DeletionSettled(start, log, ids, relays, i) || Offers(log, i) == rounds
  }

  lemma TriedAgain(start: seq<map<string, Outcome>>, before: seq<Sent>, log: seq<Sent>, ids: seq<nat>,
                   relays: seq<string>, rounds: nat)
    requires |start| == |ids| && Covers(start, relays) && Faithful(start, log, ids, relays) && before <= log
    requires Tried(start, before, ids, relays, rounds) && OfferedSince(start, before, log, ids, relays, |ids|)
    ensures Tried(start, log, ids, relays, rounds + 1)
  {
    forall i | 0 <= i < |ids|
      ensures DeletionSettled(start, log, ids, relays, i) || Offers(log, i) == rounds + 1
    {
      if DeletionSettled(start, before, ids, relays, i) {
        assert log[..|before|] == before && log[..|log|] == log;
        forall j | 0 <= j < |relays|
          ensures Settled(start, log, ids, i, relays[j])
        {
          SettledStaysOver(start, log, ids, relays, i, relays[j], |before|, |log|);
        }
      }
    }
  }

  /** A deletion's turn: one publish to the relays that need it, or none if none does. */
  ghost predicate OneOffer(start: seq<map<string, Outcome>>, was: seq<Sent>, log: seq<Sent>, ids: seq<nat>,
                           relays: seq<string>, i: nat)
    requires i < |start| == |ids| && Covers(start, relays)
  {
    var targets := Unsettled(start, was, ids, i, relays);
    if targets == [] then log == was
    else |log| == |was| + 1 && log == was + [log[|was|]] && log[|was|].del == i && log[|was|].targets == targets
  }

  lemma OfferStep(start: seq<map<string, Outcome>>, before: seq<Sent>, was: seq<Sent>, log: seq<Sent>, ids: seq<nat>,
                  relays: seq<string>, i: nat)
    requires i < |start| == |ids| && Covers(start, relays)
    requires OfferedSince(start, before, was, ids, relays, i) && OneOffer(start, was, log, ids, relays, i)
    ensures OfferedSince(start, before, log, ids, relays, i + 1)
    ensures AllSettled(start, was, ids, relays, i) ==> AllSettled(start, log, ids, relays, i)
  {
    if Unsettled(start, was, ids, i, relays) == [] {
      OfferNone(start, before, was, ids, relays, i);
    } else {
      var e := log[|was|];
      OfferOne(start, before, was, e, ids, relays, i);
      if AllSettled(start, was, ids, relays, i) {
        AllSettledStays(start, was, e, ids, relays, i);
      }
    }
  }

  class Publisher {
    const ids: seq<nat>
    var outcomes: seq<map<string, Outcome>>
    ghost var start: seq<map<string, Outcome>>
    ghost var log: seq<Sent>

    /** The recorded statuses are what the log says, and the log is faithful. */
    ghost predicate Recorded(relays: seq<string>)
      reads this
    {
      && |outcomes| == |start| == |ids| && Covers(start, relays) && Covers(outcomes, relays)
      && Faithful(start, log, ids, relays) && Agree(outcomes, start, log, relays)
    }

    constructor (ids: seq<nat>, outcomes: seq<map<string, Outcome>>)
      ensures this.ids == ids && this.outcomes == outcomes && start == outcomes && log == []
    {
      this.ids, this.outcomes, this.start, this.log := ids, outcomes, outcomes, [];
    }

    /** The relays that still need a deletion. */
    method Needing(i: nat, relays: seq<string>, stopped: set<string>, rejected: set<(nat, string)>)
      returns (targets: seq<string>)
      requires Recorded(relays) && i < |ids| && Tracks(log, ids, stopped, rejected)
      ensures targets == Unsettled(start, log, ids, i, relays)
    {
      targets := [];
      for j := 0 to |relays|
        invariant targets == Unsettled(start, log, ids, i, relays[..j])
      {
        var relay := relays[j];
        assert relays[..j + 1][..j] == relays[..j];
        if !Done(outcomes[i][relay].status) && relay !in stopped && (ids[i], relay) !in rejected {
          targets := targets + [relay];
        }
      }
      assert relays[..|relays|] == relays;
    }

    /** Records the answers of one publish of deletion `i`. */
    method RecordAll(i: nat, targets: seq<string>, answers: map<string, Status>, stopped: set<string>,
                     rejected: set<(nat, string)>)
      returns (stopped': set<string>, rejected': set<(nat, string)>, retry: bool)
      requires i < |outcomes| && i < |ids| && HasAnswers(outcomes[i], targets, answers)
      modifies this`outcomes
      ensures HasAnswers(old(outcomes)[i], targets, answers)
      ensures outcomes == old(outcomes)[i := Record(old(outcomes)[i], targets, answers)]
      ensures (stopped', rejected', retry) == Noted(targets, answers, ids[i], stopped, rejected)
    {
      stopped', rejected', retry := stopped, rejected, false;
      for j := 0 to |targets|
        invariant outcomes == old(outcomes)[i := Record(old(outcomes)[i], targets[..j], answers)]
        invariant (stopped', rejected', retry) == Noted(targets[..j], answers, ids[i], stopped, rejected)
      {
        var relay := targets[j];
        assert targets[..j + 1][..j] == targets[..j];
        match answers[relay] {
          case AuthRequired => stopped' := stopped' + {relay};
          case Rejected => rejected' := rejected' + {(ids[i], relay)};
          case RateLimited => retry := true;
          case Failed => retry := true;
          case _ =>
        }
        outcomes := outcomes[i := outcomes[i][relay := Outcome(answers[relay], outcomes[i][relay].attempts + 1)]];
      }
      assert targets[..|targets|] == targets;
    }

    /** Publishes deletion `i` to the relays that need it and records what they answered. */
    method Deliver(i: nat, targets: seq<string>, results: map<string, PublishResult>, norm: Norm, relays: seq<string>,
                   stopped: set<string>, rejected: set<(nat, string)>)
      returns (stopped': set<string>, rejected': set<(nat, string)>, retry: bool)
      requires Recorded(relays) && i < |ids| && Tracks(log, ids, stopped, rejected)
      requires targets != [] && targets == Unsettled(start, log, ids, i, relays)
      modifies this`outcomes, this`log
      ensures Recorded(relays) && Tracks(log, ids, stopped', rejected')
      ensures |log| == |old(log)| + 1 && log == old(log) + [Sent(i, targets, AnswersTo(results, targets, norm))]
      ensures forall n: nat ::
        n <= |ids| && old(AllSettled(start, log, ids, relays, n)) ==> AllSettled(start, log, ids, relays, n)
      ensures !retry ==> forall j :: 0 <= j < |relays| ==> Settled(start, log, ids, i, relays[j])
    {
      var answers := AnswersTo(results, targets, norm);
      ghost var e := Sent(i, targets, answers);
      AllAnswered(outcomes[i], start, log, ids, i, relays, answers);
      RecordHolds(outcomes, start, log, e, ids, relays);
      NotesHold(start, log, e, ids, relays, stopped, rejected);
      SettledStay(start, log, e, ids, relays);
      stopped', rejected', retry := RecordAll(i, targets, answers, stopped, rejected);
      log := log + [e];
    }

    /** One deletion's turn in a round. */
    method Offer(i: nat, relays: seq<string>, env: Env, stopped: set<string>, rejected: set<(nat, string)>,
                 publishes: nat)
      returns (ok: bool, stopped': set<string>, rejected': set<(nat, string)>, retry: bool, publishes': nat)
      requires Recorded(relays) && i < |ids| && Tracks(log, ids, stopped, rejected)
      requires |log| == publishes && Truthful(env, log) && AllPass(env, publishes)
      modifies this`outcomes, this`log
      ensures Recorded(relays) && Tracks(log, ids, stopped', rejected') && old(log) <= log
      ensures publishes <= publishes' <= publishes + 1 && |log| <= publishes' && Truthful(env, log)
      ensures !ok ==> Fails(env, publishes')
      ensures ok ==> |log| == publishes' && AllPass(env, publishes')
      ensures ok ==> OneOffer(start, old(log), log, ids, relays, i)
      ensures ok && !retry ==> DeletionSettled(start, log, ids, relays, i)
    {
      stopped', rejected', retry, publishes' := stopped, rejected, false, publishes;
      var targets := Needing(i, relays, stopped, rejected);
      UnsettledMembers(start, log, ids, i, relays);
      if |targets| == 0 {
        return true, stopped', rejected', false, publishes';
      }
      var attempt := env.publish(publishes);
      if attempt.Guarded? {
        return false, stopped', rejected', false, publishes';
      }
      publishes' := publishes + 1;
      if attempt.Killed? {
        return false, stopped', rejected', false, publishes';
      }
      TruthfulMore(env, log, Sent(i, targets, AnswersTo(attempt.results, targets, env.norm)));
      stopped', rejected', retry := Deliver(i, targets, attempt.results, env.norm, relays, stopped, rejected);
      ok := attempt.saved && attempt.live;
    }

    /** One round: each deletion in its turn. */
    method Round(relays: seq<string>, env: Env, stopped: set<string>, rejected: set<(nat, string)>, publishes: nat)
      returns (ok: bool, stopped': set<string>, rejected': set<(nat, string)>, retry: bool, publishes': nat)
      requires Recorded(relays) && Tracks(log, ids, stopped, rejected)
      requires |log| == publishes && Truthful(env, log) && AllPass(env, publishes)
      modifies this`outcomes, this`log
      ensures Recorded(relays) && Tracks(log, ids, stopped', rejected') && old(log) <= log
      ensures publishes <= publishes' <= publishes + |ids| && |log| <= publishes' && Truthful(env, log)
      ensures ok && !retry ==> AllSettled(start, log, ids, relays, |ids|)
      ensures ok ==> OfferedSince(start, old(log), log, ids, relays, |ids|)
      ensures !ok ==> Fails(env, publishes')
      ensures ok ==> |log| == publishes' && AllPass(env, publishes')
    {
      stopped', rejected', retry, publishes' := stopped, rejected, false, publishes;
      for i := 0 to |ids|
        invariant Recorded(relays) && Tracks(log, ids, stopped', rejected') && old(log) <= log
        invariant publishes <= publishes' <= publishes + i
        invariant |log| == publishes' && Truthful(env, log) && AllPass(env, publishes')
        invariant !retry ==> AllSettled(start, log, ids, relays, i)
        invariant OfferedSince(start, old(log), log, ids, relays, i)
      {
        ghost var was := log;
        var again;
        ok, stopped', rejected', again, publishes' := Offer(i, relays, env, stopped', rejected', publishes');
        if !ok {
          return false, stopped', rejected', retry, publishes';
        }
        OfferStep(start, old(log), was, log, ids, relays, i);
        retry := retry || again;
      }
      ok := true;
    }

    /** The rounds of a run, whatever the environment does.

        It publishes at most once per deletion and round, within the admission budget.
        Every publish goes to exactly the relays whose pair is not settled. A nil return
        before the last round leaves every pair settled: done, rejected in this run, or
        on a relay that demanded authentication. Any nil return leaves a deletion
        unsettled only if it was published in every round, and means that no publish and
        no wait failed; an error return has a cause. The log holds the relays' answers. */
    method Run(relays: seq<string>, maxAttempts: nat, admitted: bool, env: Env) returns (end: End, publishes: nat)
      requires |outcomes| == |ids| && Covers(outcomes, relays) && log == [] && start == outcomes
      requires maxAttempts >= 1
      modifies this`outcomes, this`log
      ensures Recorded(relays)
      ensures |log| <= publishes <= |ids| * maxAttempts && Truthful(env, log)
      ensures end.Finished? ==> 1 <= end.rounds <= maxAttempts
      ensures end.Finished? && end.rounds < maxAttempts ==>
        AllSettled(start, log, ids, relays, |ids|) && AllOver(env, start, log, ids, relays)
      ensures SaidLast(env, outcomes, log, relays)
      ensures end.Finished? ==> Tried(start, log, ids, relays, end.rounds)
      ensures end.Finished? ==> admitted && |log| == publishes && AllPass(env, publishes)
      ensures end.Finished? ==> forall round :: 1 <= round < end.rounds ==> env.waits(round)
      ensures end.Error? ==>
        !admitted || Fails(env, publishes) || exists round: nat :: round < maxAttempts && !env.waits(round)
    {
      publishes := 0;
      if !admitted {
        RecordIsSaid(env, outcomes, start, log, ids, relays);
        return Error, 0;
      }
      var stopped: set<string>, rejected: set<(nat, string)> := {}, {};
      var round, ok, retry := 1, true, false;
      while true
        invariant 1 <= round <= maxAttempts
        invariant Recorded(relays) && Tracks(log, ids, stopped, rejected)
        invariant |log| == publishes <= |ids| * (round - 1) && Truthful(env, log) && AllPass(env, publishes)
        invariant forall r :: 1 <= r < round ==> env.waits(r)
        invariant Tried(start, log, ids, relays, round - 1)
        decreases maxAttempts - round
      {
        ghost var before := log;
        ok, stopped, rejected, retry, publishes := Round(relays, env, stopped, rejected, publishes);
        Budget(|ids|, round, maxAttempts);
        RecordIsSaid(env, outcomes, start, log, ids, relays);
        if !ok {
          return Error, publishes;
        }
        TriedAgain(start, before, log, ids, relays, round - 1);
        if !retry || round >= maxAttempts {
          return Finished(round), publishes;
        }
        if !env.waits(round) {
          return Error, publishes;
        }
        round := round + 1;
      }
    }
  }

  lemma Budget(n: nat, round: nat, max: nat)
    requires 1 <= round <= max
    ensures n * (round - 1) + n == n * round <= n * max
  {
    assert n * max == n * round + n * (max - round);
  }
}
