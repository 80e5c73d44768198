/** cmd/bahia-migrate/f74a_proof.go, the relay policy: which write set and which
    success threshold a delivery was accepted under. */
module F74aPolicy {
  import opened Common
  import opened Sorting

  /** `nostr.publish_quorum`: succeed once every write relay has accepted ... */
  const ALL_RELAYS: int := -1
  /** ... or once one has. */
  const DEFAULT_QUORUM: int := 1

  /** The identity of a policy is a collision-free digest of its author, its sorted
      write set and its threshold. An empty identity is no policy. */
  datatype PolicyId = Unscoped | Scoped(author: string, relays: seq<string>, required: nat)

  /** The write set a list of relays stands for. */
  ghost function WriteSet(relays: seq<string>, norm: Norm): set<string> {
    set r | r in relays :: norm(r)
  }

  /** The threshold that a configured quorum comes to with `n` relays. */
  function Effective(quorum: int, n: nat): nat {
    var required := if quorum == ALL_RELAYS then n else if quorum <= 0 then DEFAULT_QUORUM else quorum;
    if required <= n then required else n
  }

  /** The distinct normalised URLs, in the order of their first mention. */
  function Distinct(relays: seq<string>, norm: Norm): seq<string> {
    if relays == [] then []
    else
      var rest, url := Distinct(relays[..|relays| - 1], norm), norm(relays[|relays| - 1]);
      if url in rest then rest else rest + [url]
  }

  lemma {:induction false} DistinctIsWriteSet(relays: seq<string>, norm: Norm)
    ensures Elems(Distinct(relays, norm)) == WriteSet(relays, norm)
    ensures |Distinct(relays, norm)| == |WriteSet(relays, norm)|
  {
    if relays == [] {
      assert WriteSet(relays, norm) == {};
    } else {
      var before, last := relays[..|relays| - 1], relays[|relays| - 1];
      var rest, url := Distinct(before, norm), norm(last);
      assert relays == before + [last];
      DistinctIsWriteSet(before, norm);
      assert WriteSet(relays, norm) == WriteSet(before, norm) + {url};
      assert url in rest <==> url in Elems(rest);
      assert Elems(rest + [url]) == Elems(rest) + {url};
    }
  }

  function PolicyOf(author: string, relays: seq<string>, quorum: int, norm: Norm): Result<PolicyId> {
    if quorum < ALL_RELAYS || (exists r :: r in relays && norm(r) == "") || relays == [] then Err
    else
      var urls := Sort(Distinct(relays, norm), StringLess);
      Ok(Scoped(author, urls, Effective(quorum, |urls|)))
  }

  /** The loop over the relays computes the specified identity. */
  method PolicyIdOf(author: string, relays: seq<string>, quorum: int, norm: Norm) returns (r: Result<PolicyId>)
    ensures r == PolicyOf(author, relays, quorum, norm)
    ensures r.Err? <==> quorum < -1 || relays == [] || exists url :: url in relays && norm(url) == ""
    ensures r.Ok? ==> var n := |WriteSet(relays, norm)|;
      && (quorum == -1 ==> r.value.required == n)
      && (quorum == 0 ==> r.value.required == 1)
      && (quorum >= 1 ==> r.value.required == if quorum <= n then quorum else n)
  {
    if PolicyOf(author, relays, quorum, norm).Ok? {
      PolicyNamesWriteSet(author, relays, quorum, norm);
    }
    if quorum < ALL_RELAYS {
      return Err;
    }
    var seen: set<string>, urls: seq<string> := {}, [];
    for i := 0 to |relays|
      invariant urls == Distinct(relays[..i], norm)
      invariant forall u :: u in seen <==> u in urls
      invariant forall j :: 0 <= j < i ==> norm(relays[j]) != ""
      invariant i > 0 ==> urls != []
    {
      assert relays[..i + 1][..i] == relays[..i];
      var url := norm(relays[i]);
      if url == "" {
        assert relays[i] in relays;
        return Err;
      }
      if url !in seen {
        seen, urls := seen + {url}, urls + [url];
      }
    }
    assert relays[..|relays|] == relays;
    if |urls| == 0 {
      return Err;
    }
    urls := Sort(urls, StringLess);
    var required := quorum;
    if required == ALL_RELAYS {
      required := |urls|;
    } else if required <= 0 {
      required := DEFAULT_QUORUM;
    }
    required := if required <= |urls| then required else |urls|;
    return Ok(Scoped(author, urls, required));
  }

  /** A policy names its write set, sorted, without duplicates. */
  lemma PolicyNamesWriteSet(author: string, relays: seq<string>, quorum: int, norm: Norm)
    requires PolicyOf(author, relays, quorum, norm).Ok?
    ensures var p := PolicyOf(author, relays, quorum, norm).value;
            && p.author == author && Elems(p.relays) == WriteSet(relays, norm)
            && Sorted(p.relays, StringLess) && |p.relays| == |WriteSet(relays, norm)|
            && p.required == Effective(quorum, |WriteSet(relays, norm)|)
            && 1 <= p.required <= |p.relays|
            && (quorum == -1 ==> p.required == |p.relays|)
            && (quorum == 0 ==> p.required == 1)
            && (quorum >= 1 ==> p.required == if quorum <= |p.relays| then quorum else |p.relays|)
  {
    var urls := Distinct(relays, norm);
    DistinctIsWriteSet(relays, norm);
    StringsOrdered(urls);
    SortSorts(urls, StringLess);
    SortedElements(urls, StringLess);
    assert norm(relays[0]) in WriteSet(relays, norm);
  }

  /** Two policies are the same exactly when author, normalised write set and effective
      threshold are: relay order and repetition do not matter. */
  lemma PolicyIdentity(author: string, relays: seq<string>, quorum: int, author': string, relays': seq<string>,
                       quorum': int, norm: Norm)
    requires PolicyOf(author, relays, quorum, norm).Ok? && PolicyOf(author', relays', quorum', norm).Ok?
    ensures PolicyOf(author, relays, quorum, norm) == PolicyOf(author', relays', quorum', norm) <==>
            && author == author' && WriteSet(relays, norm) == WriteSet(relays', norm)
            && Effective(quorum, |WriteSet(relays, norm)|) == Effective(quorum', |WriteSet(relays', norm)|)
  {
    PolicyNamesWriteSet(author, relays, quorum, norm);
    PolicyNamesWriteSet(author', relays', quorum', norm);
    if WriteSet(relays, norm) == WriteSet(relays', norm) {
      var p := PolicyOf(author, relays, quorum, norm).value.relays;
      var p' := PolicyOf(author', relays', quorum', norm).value.relays;
      SameElements(p, p');
      StringsOrdered(p);
      SortedUnique(p, p', StringLess);
    }
  }

  /** A list as long as its set of elements holds each once. */
  lemma {:induction false} OnceEach(s: seq<string>)
    requires |s| == |Elems(s)|
    ensures forall u :: u in s ==> multiset(s)[u] == 1
  {
    if s != [] {
      var rest, last := s[..|s| - 1], s[|s| - 1];
      assert s == rest + [last];
      assert Elems(s) == Elems(rest) + {last};
      SizeAtMost(rest);
      assert last !in rest;
      OnceEach(rest);
    }
  }

  lemma {:induction false} SizeAtMost(s: seq<string>)
    ensures |Elems(s)| <= |s|
  {
    if s != [] {
      var rest, last := s[..|s| - 1], s[|s| - 1];
      assert s == rest + [last];
      assert Elems(s) == Elems(rest) + {last};
      SizeAtMost(rest);
    }
  }

  lemma SameElements(a: seq<string>, b: seq<string>)
    requires |a| == |Elems(a)| && |b| == |Elems(b)| && Elems(a) == Elems(b)
    ensures multiset(a) == multiset(b)
  {
    OnceEach(a);
    OnceEach(b);
    forall u
      ensures multiset(a)[u] == multiset(b)[u]
    {
      assert u in a <==> u in Elems(a);
      assert u in b <==> u in Elems(b);
      assert u !in a ==> multiset(a)[u] == 0;
      assert u !in b ==> multiset(b)[u] == 0;
    }
  }

  /** The identity of a policy's own normalised set and threshold is that policy. */
  lemma PolicyFixpoint(author: string, relays: seq<string>, quorum: int, norm: Norm)
    requires Idempotent(norm) && PolicyOf(author, relays, quorum, norm).Ok?
    ensures var p := PolicyOf(author, relays, quorum, norm).value;
            PolicyOf(author, p.relays, p.required, norm) == Ok(p)
  {
    var p := PolicyOf(author, relays, quorum, norm).value;
    PolicyNamesWriteSet(author, relays, quorum, norm);
    forall u | u in p.relays
      ensures norm(u) == u && u != ""
    {
      assert u in Elems(p.relays);
    }
    assert WriteSet(p.relays, norm) == Elems(p.relays);
    assert p.relays != [];
    PolicyIdentity(author, relays, quorum, author, p.relays, p.required, norm);
  }

  /** What a quorum asks of the relays that accepted: all write relays, one, or so many, where a
      smaller write set asks for all of it. */
  ghost predicate Suffices(quorum: int, accepted: set<string>, write: set<string>) {
    && write != {}
    && (quorum == -1 ==> accepted == write)
    && (quorum < -1 || quorum == 0 ==> accepted != {})
    && (quorum >= 1 ==> |accepted| >= quorum || accepted == write)
  }

  /** The threshold counts to exactly that. */
  lemma ThresholdMeans(quorum: int, accepted: set<string>, write: set<string>)
    requires accepted <= write
    ensures write != {} && |accepted| >= Effective(quorum, |write|) <==> Suffices(quorum, accepted, write)
  {
    SubsetSize(accepted, write);
    assert accepted != {} <==> |accepted| >= 1;
    assert write != {} <==> |write| >= 1;
  }

  // ----- re-verification: a fresh publish of a signed event

  datatype PublishResult = PublishResult(url: string, succeeded: bool)

  /** The first answer of relay `u` is an acceptance. */
  ghost predicate FirstAccepts(results: seq<PublishResult>, u: string, norm: Norm) {
    exists i ::
      0 <= i < |results| && norm(results[i].url) == u && results[i].succeeded && Unanswered(results[..i], u, norm)
  }

  ghost predicate Unanswered(results: seq<PublishResult>, u: string, norm: Norm) {
    forall j :: 0 <= j < |results| ==> norm(results[j].url) != u
  }

  /** The distinct allowed relays that accepted. */
  ghost function Accepting(results: seq<PublishResult>, allowed: set<string>, norm: Norm): set<string> {
    set u | u in allowed && FirstAccepts(results, u, norm)
  }

  lemma AcceptingOne(results: seq<PublishResult>, i: nat, allowed: set<string>, norm: Norm)
    requires i < |results|
    ensures var u := norm(results[i].url);
            var before := Accepting(results[..i], allowed, norm);
            Accepting(results[..i + 1], allowed, norm) ==
              if u in allowed && Unanswered(results[..i], u, norm) && results[i].succeeded then before + {u} else before
    ensures !Unanswered(results[..i + 1], norm(results[i].url), norm)
    ensures forall v ::
      v != norm(results[i].url) ==> (Unanswered(results[..i + 1], v, norm) <==> Unanswered(results[..i], v, norm))
  {
    var shorter, longer := results[..i], results[..i + 1];
    assert longer == shorter + [results[i]] && longer[i] == results[i] && longer[..i] == shorter;
    forall v | v in allowed
      ensures FirstAccepts(longer, v, norm) <==>
              || FirstAccepts(shorter, v, norm)
              || (v == norm(results[i].url) && results[i].succeeded && Unanswered(shorter, v, norm))
    {
      if FirstAccepts(shorter, v, norm) {
        var m :| 0 <= m < |shorter| && norm(shorter[m].url) == v && shorter[m].succeeded
                 && Unanswered(shorter[..m], v, norm);
        assert longer[..m] == shorter[..m] && longer[m] == shorter[m];
      }
      if FirstAccepts(longer, v, norm) {
        var m :| 0 <= m < |longer| && norm(longer[m].url) == v && longer[m].succeeded
                 && Unanswered(longer[..m], v, norm);
        if m < i {
          assert longer[..m] == shorter[..m] && longer[m] == shorter[m];
        }
      }
    }
  }

  lemma UnansweredNotAccepting(results: seq<PublishResult>, u: string, allowed: set<string>, norm: Norm)
    requires Unanswered(results, u, norm)
    ensures u !in Accepting(results, allowed, norm)
  {
  }

  method CountAccepting(results: seq<PublishResult>, allowed: set<string>, norm: Norm) returns (accepted: nat)
    ensures accepted == |Accepting(results, allowed, norm)|
  {
    var seen: set<string> := {};
    accepted := 0;
    ghost var accepting: set<string> := {};
    for i := 0 to |results|
      invariant forall u :: u in allowed ==> (u in seen <==> !Unanswered(results[..i], u, norm))
      invariant accepting == Accepting(results[..i], allowed, norm) && accepted == |accepting|
    {
      AcceptingOne(results, i, allowed, norm);
      var url := norm(results[i].url);
      if url in allowed && url !in seen {
        UnansweredNotAccepting(results[..i], url, allowed, norm);
        seen := seen + {url};
        if results[i].succeeded {
          accepted, accepting := accepted + 1, accepting + {url};
        }
      }
    }
    assert results[..|results|] == results;
  }

  method Allowed(relays: seq<string>, norm: Norm) returns (allowed: set<string>)
    ensures allowed == WriteSet(relays, norm)
  {
    allowed := {};
    for i := 0 to |relays|
      invariant allowed == WriteSet(relays[..i], norm)
    {
      assert relays[..i + 1] == relays[..i] + [relays[i]];
      allowed := allowed + {norm(relays[i])};
    }
    assert relays[..|relays|] == relays;
  }

  /** Counts the acceptances of one fresh publish. It succeeds exactly when as many
      distinct write relays accepted as the policy requires, and at least one. */
  method Reverify(relays: seq<string>, quorum: int, results: seq<PublishResult>, norm: Norm) returns (ok: bool)
    ensures ok <==>
            && WriteSet(relays, norm) != {}
            && |Accepting(results, WriteSet(relays, norm), norm)| >= Effective(quorum, |WriteSet(relays, norm)|)
    ensures ok <==> Suffices(quorum, Accepting(results, WriteSet(relays, norm), norm), WriteSet(relays, norm))
  {
    ThresholdMeans(quorum, Accepting(results, WriteSet(relays, norm), norm), WriteSet(relays, norm));
    var allowed := Allowed(relays, norm);
    var required := quorum;
    if required == ALL_RELAYS {
      required := |allowed|;
    } else if required <= 0 {
      required := DEFAULT_QUORUM;
    }
    required := if required <= |allowed| then required else |allowed|;
    if required < 1 {
      return false;
    }
    var accepted := CountAccepting(results, allowed, norm);
    ok := accepted >= required;
  }
}
