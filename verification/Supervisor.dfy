/** cmd/relay/main.go: reloads swap a running sidecar and its signer for new ones. Every history
    of the program is shown to close what it opened, once and in the right order. */
module Supervisor {

  import opened Common

  // ----- resources

  /** What happens to signers and runtimes, in order. */
  datatype Event =
    | OpenSigner(s: nat) | CloseSigner(s: nat)
    | Build(r: nat, with: nat) | CloseRuntime(r: nat) | Start(r: nat) | End(r: nat)

  /** The signers open and closed, which signer each built runtime signs with, and the
      runtimes that are built and idle, and that run. */
  datatype World = World(open: set<nat>, closed: set<nat>, uses: map<nat, nat>, idle: set<nat>, running: set<nat>)

  const NOTHING := World({}, {}, map[], {}, {})

  /** The event respects ownership: nothing is opened or built twice, a signer is closed
      once, and never while a runtime that signs with it is idle or running; a runtime
      is built with an open signer, is started or closed once, and runs alone. */
  predicate Legal(w: World, e: Event) {
    match e
    case OpenSigner(s) => s !in w.open && s !in w.closed
    case CloseSigner(s) => s in w.open && forall r :: r in w.idle + w.running && r in w.uses ==> w.uses[r] != s
    case Build(r, s) => r !in w.uses && s in w.open
    case CloseRuntime(r) => r in w.idle
    case Start(r) => r in w.idle && w.running == {}
    case End(r) => r in w.running
  }

  function Apply(w: World, e: Event): World {
    match e
    case OpenSigner(s) => w.(open := w.open + {s})
    case CloseSigner(s) => w.(open := w.open - {s}, closed := w.closed + {s})
    case Build(r, s) => w.(uses := w.uses[r := s], idle := w.idle + {r})
    case CloseRuntime(r) => w.(idle := w.idle - {r})
    case Start(r) => w.(idle := w.idle - {r}, running := w.running + {r})
    case End(r) => w.(running := w.running - {r})
  }

  function After(trace: seq<Event>): World {
    if trace == [] then NOTHING else Apply(After(trace[..|trace| - 1]), trace[|trace| - 1])
  }

  ghost predicate LegalAt(trace: seq<Event>, i: nat)
    requires i < |trace|
  {
    Legal(After(trace[..i]), trace[i])
  }

  ghost predicate LegalTrace(trace: seq<Event>) {
    forall i {:trigger LegalAt(trace, i)} :: 0 <= i < |trace| ==> LegalAt(trace, i)
  }

  lemma LegalMore(trace: seq<Event>, e: Event)
    requires LegalTrace(trace) && Legal(After(trace), e)
    ensures LegalTrace(trace + [e]) && After(trace + [e]) == Apply(After(trace), e)
  {
    var longer := trace + [e];
    assert longer[..|trace|] == trace && trace[..|trace|] == trace;
    forall i | 0 <= i < |longer|
      ensures LegalAt(longer, i)
    {
      assert longer[..i] == trace[..i];
      assert i < |trace| ==> LegalAt(trace, i);
    }
  }

  // What a legal trace means, event by event.

  lemma NthEvent(trace: seq<Event>, n: nat)
    requires LegalTrace(trace) && n < |trace|
    ensures Legal(After(trace[..n]), trace[n]) && After(trace[..n + 1]) == Apply(After(trace[..n]), trace[n])
  {
    assert LegalAt(trace, n);
    assert trace[..n + 1][..n] == trace[..n];
  }

  lemma {:induction false} ClosedStaysClosed(trace: seq<Event>, i: nat, n: nat, s: nat)
    requires LegalTrace(trace) && i < n <= |trace| && trace[i] == CloseSigner(s)
    ensures s in After(trace[..n]).closed && s !in After(trace[..n]).open
    decreases n
  {
    NthEvent(trace, n - 1);
    if i < n - 1 {
      ClosedStaysClosed(trace, i, n - 1, s);
    }
  }

  /** A signer is closed at most once. */
  lemma ClosedAtMostOnce(trace: seq<Event>, i: nat, j: nat, s: nat)
    requires LegalTrace(trace) && i < |trace| && j < |trace| && trace[i] == CloseSigner(s) && trace[j] == CloseSigner(s)
    ensures i == j
  {
    NthEvent(trace, i);
    NthEvent(trace, j);
    if i < j {
      ClosedStaysClosed(trace, i, j, s);
    } else if j < i {
      ClosedStaysClosed(trace, j, i, s);
    }
  }

  lemma {:induction false} Remembered(trace: seq<Event>, a: nat, n: nat, r: nat, s: nat)
    requires LegalTrace(trace) && a < n <= |trace| && trace[a] == Build(r, s)
    ensures r in After(trace[..n]).uses && After(trace[..n]).uses[r] == s
    decreases n
  {
    NthEvent(trace, n - 1);
    if a < n - 1 {
      Remembered(trace, a, n - 1, r, s);
    }
  }

  lemma {:induction false} StillRuns(trace: seq<Event>, b: nat, n: nat, r: nat)
    requires LegalTrace(trace) && b < n <= |trace| && trace[b] == Start(r)
    requires forall c :: b < c < n ==> trace[c] != End(r)
    ensures r in After(trace[..n]).running
    decreases n
  {
    NthEvent(trace, n - 1);
    if b < n - 1 {
      StillRuns(trace, b, n - 1, r);
    }
  }

  lemma {:induction false} StaysIdle(trace: seq<Event>, a: nat, n: nat, r: nat, s: nat)
    requires LegalTrace(trace) && a < n <= |trace| && trace[a] == Build(r, s)
    requires forall c :: a < c < n ==> trace[c] != Start(r) && trace[c] != CloseRuntime(r)
    ensures r in After(trace[..n]).idle
    decreases n
  {
    NthEvent(trace, n - 1);
    if a < n - 1 {
      StaysIdle(trace, a, n - 1, r, s);
    }
  }

  /** When a signer is closed, each runtime built with it was closed or started before, and if
      started has ended. */
  lemma ClosedAfterUse(trace: seq<Event>, i: nat, a: nat, r: nat, s: nat)
    requires LegalTrace(trace) && a < i < |trace| && trace[i] == CloseSigner(s) && trace[a] == Build(r, s)
    ensures exists c :: a < c < i && (trace[c] == Start(r) || trace[c] == CloseRuntime(r))
    ensures forall b :: a < b < i && trace[b] == Start(r) ==> exists c :: b < c < i && trace[c] == End(r)
  {
    NthEvent(trace, i);
    Remembered(trace, a, i, r, s);
    var w := After(trace[..i]);
    assert r !in w.idle && r !in w.running;
    if forall c :: a < c < i ==> trace[c] != Start(r) && trace[c] != CloseRuntime(r) {
      StaysIdle(trace, a, i, r, s);
    }
    forall b | a < b < i && trace[b] == Start(r)
      ensures exists c :: b < c < i && trace[c] == End(r)
    {
      if forall c :: b < c < i ==> trace[c] != End(r) {
        StillRuns(trace, b, i, r);
      }
    }
  }

  /** When no runtime is left idle, every built runtime was started or closed. */
  lemma BuiltIsStartedOrClosed(trace: seq<Event>, a: nat, r: nat, s: nat)
    requires LegalTrace(trace) && After(trace).idle == {} && a < |trace| && trace[a] == Build(r, s)
    ensures exists c :: a < c < |trace| && (trace[c] == Start(r) || trace[c] == CloseRuntime(r))
  {
    assert trace[..|trace|] == trace;
    if forall c :: a < c < |trace| ==> trace[c] != Start(r) && trace[c] != CloseRuntime(r) {
      StaysIdle(trace, a, |trace|, r, s);
    }
  }

  /** The events that led to a world were legal. */
  ghost predicate Reaches(trace: seq<Event>, w: World) {
    LegalTrace(trace) && After(trace) == w
  }

  // ----- the supervisor

  /** An open signer and the configuration it was opened from. */
  datatype Signer = Signer(id: nat, cfg: nat)

  /** What one reload meets: the configuration and every step that may fail. */
  datatype Reload = Reload(admission: bool, enabled: bool, keyFile: bool, preflight: bool, signerCfg: nat,
                           opens: Option<nat>, builds: Option<nat>, stops: bool)

  datatype Prepared = Failed | Ready(runtime: Option<nat>, signer: Option<Signer>)

  /** The supervisor's signer is the only open one, its active runtime the only running
      one, it signs with that signer, and no runtime idles. */
  ghost predicate Owned(w: World, active: Option<nat>, signer: Option<Signer>) {
    && w.open == (if signer.Some? then {signer.value.id} else {})
    && w.running == (if active.Some? then {active.value} else {})
    && w.idle == {}
    && (active.Some? ==> signer.Some? && active.value in w.uses && w.uses[active.value] == signer.value.id)
  }

  /** As `Owned`, with a prepared runtime idle beside the active one, and the signer it
      signs with open: the supervisor's, or a new one. */
  ghost predicate Holding(w: World, active: Option<nat>, signer: Option<Signer>, runtime: nat, next: Signer) {
    && w.open == (if signer.Some? then {signer.value.id} else {}) + {next.id}
    && w.running == (if active.Some? then {active.value} else {})
    && w.idle == {runtime}
    && runtime in w.uses && w.uses[runtime] == next.id
    && (active.Some? ==>
          && signer.Some? && active.value in w.uses && w.uses[active.value] == signer.value.id
          && active.value != runtime)
    && (signer.Some? && signer.value != next ==> signer.value.id != next.id)
  }

  ghost predicate HoldingOr(w: World, active: Option<nat>, signer: Option<Signer>, p: Prepared) {
    match p
    case Ready(Some(runtime), Some(next)) => Holding(w, active, signer, runtime, next)
    case Ready(Some(_), None) => false
    case Ready(None, next) => next.None? && Owned(w, active, signer)
    case Failed => Owned(w, active, signer)
  }

  predicate Reuses(c: Reload, signer: Option<Signer>) {
    signer.Some? && signer.value.cfg == c.signerCfg
  }

  /** Whether preparing can succeed. */
  predicate Prepares(c: Reload, signer: Option<Signer>) {
    c.admission && (c.enabled ==> c.keyFile && c.preflight && (Reuses(c, signer) || c.opens.Some?) && c.builds.Some?)
  }

  /** The signer in charge after a successful reload. */
  function NextSigner(c: Reload, signer: Option<Signer>): Option<Signer> {
    if !c.enabled then None
    else if Reuses(c, signer) then signer
    else if c.opens.Some? then Some(Signer(c.opens.value, c.signerCfg))
    else None
  }

  /** The ids a reload would bring are new ones. */
  ghost predicate NewIds(w: World, c: Reload) {
    (c.opens.Some? ==> c.opens.value !in Ids(w)) && (c.builds.Some? ==> c.builds.value !in Ids(w))
  }

  /** The ids signers and runtimes have had. */
  ghost function Ids(w: World): set<nat> {
    w.open + w.closed + w.uses.Keys
  }

  ghost function Brought(c: Reload): set<nat> {
    (if c.opens.Some? then {c.opens.value} else {}) + (if c.builds.Some? then {c.builds.value} else {})
  }

  // What the parts of a swap do to the world.

  lemma StopHolds(w: World, active: Option<nat>, signer: Option<Signer>, p: Prepared)
    requires p.Ready? && HoldingOr(w, active, signer, p)
    ensures active.Some? ==> active.value in w.running
    ensures var w' := if active.Some? then Apply(w, End(active.value)) else w;
      HoldingOr(w', None, signer, p) && Ids(w') == Ids(w)
  {
  }

  /** Giving a prepared runtime up: it is closed, then its signer if it was a new one. */
  lemma AbandonOwned(w: World, signer: Option<Signer>, p: Prepared)
    requires p.Ready? && HoldingOr(w, None, signer, p)
    ensures p.runtime.Some? ==> Legal(w, CloseRuntime(p.runtime.value))
    ensures var w' := if p.runtime.Some? then Apply(w, CloseRuntime(p.runtime.value)) else w;
      var unneeded := p.signer.Some? && p.signer != signer;
      && (unneeded ==> Legal(w', CloseSigner(p.signer.value.id)))
      && var w'' := if unneeded then Apply(w', CloseSigner(p.signer.value.id)) else w';
      Owned(w'', None, signer) && Ids(w'') == Ids(w)
  {
  }

  /** Closing the previous signer, unless it stays. */
  lemma SwapHolds(w: World, signer: Option<Signer>, p: Prepared)
    requires p.Ready? && HoldingOr(w, None, signer, p)
    ensures var stale := signer.Some? && p.signer != signer;
      && (stale ==> Legal(w, CloseSigner(signer.value.id)))
      && var w' := if stale then Apply(w, CloseSigner(signer.value.id)) else w;
      HoldingOr(w', None, p.signer, p) && Ids(w') == Ids(w)
  {
  }

  lemma StartOwned(w: World, p: Prepared)
    requires p.Ready? && HoldingOr(w, None, p.signer, p)
    ensures p.runtime.Some? ==> Legal(w, Start(p.runtime.value))
    ensures var w' := if p.runtime.Some? then Apply(w, Start(p.runtime.value)) else w;
      Owned(w', p.runtime, p.signer) && Ids(w') == Ids(w)
  {
  }

  /** What the supervisor is in charge of. */
  datatype Charge = Charge(active: Option<nat>, signer: Option<Signer>)

  /** What it is in charge of after a reload. */
  function Reloaded(was: Charge, c: Reload): Charge {
    if !Prepares(c, was.signer) then was
    else if was.active.Some? && !c.stops then Charge(None, was.signer)
    else Charge(if c.enabled then c.builds else None, NextSigner(c, was.signer))
  }

  class RuntimeSupervisor {
    var active: Option<nat>
    var signer: Option<Signer>
    ghost var trace: seq<Event>
    ghost var world: World

    ghost predicate Valid()
      reads this
    {
      Reaches(trace, world) && Owned(world, active, signer)
    }

    constructor ()
      ensures Valid() && active == None && signer == None && trace == [] && world == NOTHING
    {
      active, signer, trace, world := None, None, [], NOTHING;
    }

    /** Something happens, and it is legal. */
    ghost method Happens(e: Event)
      requires Reaches(trace, world) && Legal(world, e)
      modifies this`trace, this`world
      ensures Reaches(trace, world) && trace == old(trace) + [e] && world == Apply(old(world), e)
    {
      LegalMore(trace, e);
      trace, world := trace + [e], Apply(world, e);
    }

    /** Gets rid of a signer that was opened for nothing. */
    method Discard(s: Option<Signer>)
      requires Reaches(trace, world)
      requires s.Some? && s != signer ==> Legal(world, CloseSigner(s.value.id))
      modifies this`trace, this`world
      ensures Reaches(trace, world) && old(trace) <= trace
      ensures world == if s.Some? && s != signer then Apply(old(world), CloseSigner(s.value.id)) else old(world)
    {
      if s != signer {
        if s.Some? {
          Happens(CloseSigner(s.value.id));
        }
      }
    }

    /** The signer to sign with, the open one if the configuration left it unchanged. */
    method ChooseSigner(c: Reload) returns (chosen: Option<Signer>)
      requires Valid() && NewIds(world, c) && c.enabled
      modifies this`trace, this`world
      ensures Reaches(trace, world) && old(trace) <= trace && chosen == NextSigner(c, signer)
      ensures world == if Reuses(c, signer) || c.opens.None? then old(world)
                       else Apply(old(world), OpenSigner(c.opens.value))
    {
      chosen := signer;
      if chosen.None? || chosen.value.cfg != c.signerCfg {
        if c.opens.None? {
          return None;
        }
        Happens(OpenSigner(c.opens.value));
        chosen := Some(Signer(c.opens.value, c.signerCfg));
      }
    }

    /** Leaves either a new idle runtime with an open signer, or the world as it was but for a
        signer opened and closed again. */
    method Prepare(c: Reload) returns (p: Prepared)
      requires Valid() && NewIds(world, c)
      modifies this`trace, this`world
      ensures Reaches(trace, world) && old(trace) <= trace && HoldingOr(world, active, signer, p)
      ensures p.Ready? <==> Prepares(c, signer)
      ensures p.Ready? ==> p == Ready(if c.enabled then c.builds else None, NextSigner(c, signer))
      ensures Ids(world) <= Ids(old(world)) + Brought(c)
    {
      if !c.admission {
        return Failed;
      }
      if !c.enabled {
        return Ready(None, None);
      }
      if !c.keyFile {
        return Failed;
      }
      if !c.preflight {
        return Failed;
      }
      var chosen := ChooseSigner(c);
      if chosen.None? {
        return Failed;
      }
      if c.builds.None? {
        Discard(chosen);
        return Failed;
      }
      Happens(Build(c.builds.value, chosen.value.id));
      return Ready(c.builds, chosen);
    }

    /** Whatever the active runtime reports, it has ended. */
    method Stop(ok: bool) returns (r: bool)
      requires Reaches(trace, world) && (active.Some? ==> active.value in world.running)
      modifies this`active, this`trace, this`world
      ensures Reaches(trace, world) && old(trace) <= trace && active.None? && (r <==> old(active).None? || ok)
      ensures old(active).None? ==> trace == old(trace)
      ensures world == if old(active).Some? then Apply(old(world), End(old(active).value)) else old(world)
    {
      if active.None? {
        return true;
      }
      Happens(End(active.value));
      active := None;
      return ok;
    }

    method StartRuntime(runtime: Option<nat>)
      requires Reaches(trace, world) && active.None?
      requires runtime.Some? ==> Legal(world, Start(runtime.value))
      modifies this`active, this`trace, this`world
      ensures Reaches(trace, world) && old(trace) <= trace && active == runtime
      ensures world == if runtime.Some? then Apply(old(world), Start(runtime.value)) else old(world)
    {
      if runtime.None? {
        active := None;
        return;
      }
      active := runtime;
      Happens(Start(runtime.value));
    }

    /** A prepared runtime is not wanted any more, nor a signer opened for it. */
    method GiveUp(p: Prepared)
      requires p.Ready? && active.None? && Reaches(trace, world) && HoldingOr(world, None, signer, p)
      modifies this`trace, this`world
      ensures Valid() && old(trace) <= trace && Ids(world) == Ids(old(world))
    {
      AbandonOwned(world, signer, p);
      if p.runtime.Some? {
        Happens(CloseRuntime(p.runtime.value));
      }
      Discard(p.signer);
    }

    /** A prepared runtime takes over, with the signer it was built with. */
    method Install(p: Prepared)
      requires p.Ready? && active.None? && Reaches(trace, world) && HoldingOr(world, None, signer, p)
      modifies this
      ensures Valid() && old(trace) <= trace && Ids(world) == Ids(old(world))
      ensures active == p.runtime && signer == p.signer
    {
      SwapHolds(world, signer, p);
      if p.signer != signer {
        if signer.Some? {
          Happens(CloseSigner(signer.value.id));
        }
        signer := p.signer;
      }
      StartOwned(world, p);
      StartRuntime(p.runtime);
    }

    /** One reload. A failed preparation leaves the active
        runtime and its signer alone; when only the stop fails the signer stays and
        nothing runs; otherwise the new runtime runs with the signer it was built with. */
    method Replace(c: Reload) returns (ok: bool)
      requires Valid() && NewIds(world, c)
      modifies this
      ensures Valid() && old(trace) <= trace
      ensures ok <==> Prepares(c, old(signer)) && (old(active).None? || c.stops)
      ensures ok ==> signer == NextSigner(c, old(signer)) && active == if c.enabled then c.builds else None
      ensures !ok ==> signer == old(signer) && active == if Prepares(c, old(signer)) then None else old(active)
      ensures Ids(world) <= Ids(old(world)) + Brought(c)
      ensures Charge(active, signer) == Reloaded(Charge(old(active), old(signer)), c)
      ensures ok && c.enabled ==> active.Some? && signer.Some? && signer.value.cfg == c.signerCfg
    {
      var p := Prepare(c);
      if p.Failed? {
        return false;
      }
      StopHolds(world, active, signer, p);
      var stopped := Stop(c.stops);
      if !stopped {
        GiveUp(p);
        return false;
      }
      Install(p);
      return true;
    }

    /** Ends with nothing running and nothing open, also when it is called a second time. */
    method Shutdown(stops: bool) returns (ok: bool)
      requires Valid()
      modifies this
      ensures Valid() && old(trace) <= trace && active.None? && signer.None?
      ensures old(active).None? && old(signer).None? ==> trace == old(trace)
    {
      ok := Stop(stops);
      if signer.Some? {
        Happens(CloseSigner(signer.value.id));
      }
      signer := None;
    }

    /** The end of a runtime that nobody stopped. */
    method Exited()
      requires Valid() && active.Some?
      modifies this
      ensures Valid() && old(trace) <= trace && active.None? && signer == old(signer)
    {
      Happens(End(active.value));
      active := None;
    }
  }

  // ----- the reload loop

  /** What the reload loop is woken by. */
  datatype Wakeup = RootDone(stops: bool) | RuntimeReturned | Hangup(loads: bool, reload: Reload)

  /** The signer and the runtime a reload brings, numbered. */
  function Numbered(c: Reload, id: nat): Reload {
    c.(opens := if c.opens.Some? then Some(id) else None, builds := if c.builds.Some? then Some(id) else None)
  }

  /** What it is in charge of after the first `n` wakeups, or nothing if the program has ended. */
  function ChargeAt(first: Reload, wakeups: seq<Wakeup>, n: nat): Option<Charge>
    requires n <= |wakeups|
  {
    if n == 0 then
      if Prepares(Numbered(first, 0), None) then Some(Reloaded(Charge(None, None), Numbered(first, 0))) else None
    else
      match ChargeAt(first, wakeups, n - 1)
      case None => None
      case Some(was) =>
        match wakeups[n - 1]
        case RootDone(_) => None
        case RuntimeReturned => if was.active.Some? then None else Some(was)
        case Hangup(loads, reload) => Some(if loads then Reloaded(was, Numbered(reload, n)) else was)
  }

  /** Nothing stands in the way of this configuration. */
  predicate Sane(c: Reload) {
    c.admission && c.keyFile && c.preflight && c.opens.Some? && c.builds.Some? && c.stops
  }

  /** A configuration that loads and that nothing stands in the way of is in force after its
      hangup: its runtime runs, and with a signer of that configuration, unless it asks for none. */
  lemma HangupApplies(first: Reload, wakeups: seq<Wakeup>, n: nat, reload: Reload)
    requires 0 < n <= |wakeups| && wakeups[n - 1] == Hangup(true, reload) && Sane(reload)
    requires ChargeAt(first, wakeups, n - 1).Some?
    ensures ChargeAt(first, wakeups, n).Some?
    ensures var now := ChargeAt(first, wakeups, n).value;
      if reload.enabled then now.active == Some(n) && now.signer.Some? && now.signer.value.cfg == reload.signerCfg
      else now == Charge(None, None)
  {
  }

  /** A configuration with the signer of the one before keeps it, opening none. */
  lemma SignerKept(first: Reload, wakeups: seq<Wakeup>, n: nat, reload: Reload)
    requires 0 < n <= |wakeups| && wakeups[n - 1] == Hangup(true, reload) && ChargeAt(first, wakeups, n - 1).Some?
    requires var was := ChargeAt(first, wakeups, n - 1).value;
      was.signer.Some? && was.signer.value.cfg == reload.signerCfg
    ensures var was, now := ChargeAt(first, wakeups, n - 1).value, ChargeAt(first, wakeups, n);
      && now.Some? && (reload.enabled ==> now.value.signer == was.signer)
      && (Sane(reload.(opens := Some(0))) && reload.enabled ==> now.value.active == Some(n))
  {
  }

  /** A configuration that does not load, or cannot be prepared, changes nothing. */
  lemma HangupRefused(first: Reload, wakeups: seq<Wakeup>, n: nat, loads: bool, reload: Reload)
    requires 0 < n <= |wakeups| && wakeups[n - 1] == Hangup(loads, reload)
    requires
      || !loads || !reload.admission
      || (reload.enabled && !(reload.keyFile && reload.preflight && reload.builds.Some?))
    ensures ChargeAt(first, wakeups, n) == ChargeAt(first, wakeups, n - 1)
  {
  }

  /** The program ends with the first wakeup that tells it to stop, or that says that a running
      runtime returned. */
  lemma EndsWhen(first: Reload, wakeups: seq<Wakeup>, n: nat)
    requires 0 < n <= |wakeups| && ChargeAt(first, wakeups, n - 1).Some?
    ensures ChargeAt(first, wakeups, n).None? <==>
      || wakeups[n - 1].RootDone?
      || (wakeups[n - 1].RuntimeReturned? && ChargeAt(first, wakeups, n - 1).value.active.Some?)
  {
  }

  lemma {:induction false} EndedStays(first: Reload, wakeups: seq<Wakeup>, n: nat, m: nat)
    requires n <= m <= |wakeups| && ChargeAt(first, wakeups, n).None?
    ensures ChargeAt(first, wakeups, m).None?
  {
    if n < m {
      EndedStays(first, wakeups, n, m - 1);
    }
  }

  /** It ends for a cause: the first configuration could not be prepared, or a wakeup other than
      a hangup came. */
  lemma {:induction false} EndCause(first: Reload, wakeups: seq<Wakeup>, n: nat)
    requires n <= |wakeups|
    ensures ChargeAt(first, wakeups, n).None? ==>
      !Prepares(Numbered(first, 0), None) || exists k :: 0 <= k < n && !wakeups[k].Hangup?
    ensures ChargeAt(first, wakeups, n).Some? ==>
      Prepares(Numbered(first, 0), None) && forall k :: 0 <= k < n ==> !wakeups[k].RootDone?
  {
    if n == 0 {
    } else {
      EndCause(first, wakeups, n - 1);
    }
  }

  ghost predicate NumberedUpTo(world: World, n: nat) {
    forall id :: id in Ids(world) ==> id <= n
  }

  /** The whole program, for any first configuration and any wakeups, with failures
      anywhere. Every event on the way is legal, and once the program has finished no
      signer is open, no runtime runs, and none was left unstarted and unclosed. */
  method Program(first: Reload, wakeups: seq<Wakeup>) returns (s: RuntimeSupervisor, finished: bool)
    ensures fresh(s) && s.Valid()
    ensures finished ==> s.world.open == {} && s.world.running == {} && s.world.idle == {}
    ensures finished ==> !Prepares(Numbered(first, 0), None) || exists k :: 0 <= k < |wakeups| && !wakeups[k].Hangup?
    ensures !finished ==> Prepares(Numbered(first, 0), None) && forall k :: 0 <= k < |wakeups| ==> !wakeups[k].RootDone?
    ensures finished <==> ChargeAt(first, wakeups, |wakeups|).None?
    ensures !finished ==> ChargeAt(first, wakeups, |wakeups|) == Some(Charge(s.active, s.signer))
  {
    s := new RuntimeSupervisor();
    var ok := s.Replace(Numbered(first, 0));
    EndCause(first, wakeups, |wakeups|);
    if !ok {
      EndedStays(first, wakeups, 0, |wakeups|);
      var _ := s.Shutdown(true);
      return s, true;
    }
    for i := 0 to |wakeups|
      invariant fresh(s) && s.Valid() && NumberedUpTo(s.world, i)
      invariant ChargeAt(first, wakeups, i) == Some(Charge(s.active, s.signer))
    {
      match wakeups[i]
      case RootDone(stops) =>
        EndedStays(first, wakeups, i + 1, |wakeups|);
        var _ := s.Shutdown(stops);
        var _ := s.Shutdown(true);
        return s, true;
      case RuntimeReturned =>
        if s.active.Some? {
          EndedStays(first, wakeups, i + 1, |wakeups|);
          s.Exited();
          var _ := s.Shutdown(true);
          return s, true;
        }
      case Hangup(loads, reload) =>
        if loads {
          var _ := s.Replace(Numbered(reload, i + 1));
        }
    }
    return s, false;
  }
}
