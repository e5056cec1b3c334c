/**
 * The navigation completion bridge of `AsyncWebview`, as pure functions over its state.
 *
 * The bridge holds at most one pending record (a suspended caller and the identity of the WebKit
 * navigation it waits for). Every observable side effect -- `stopLoading`, the start callback
 * submitting a load, and the resumption of a suspended caller -- is appended to one effect trace,
 * so that the order in which they happen can be stated.
 */
module Navigation {
  import opened Wrappers

  /** The four cases of `AsyncWebviewError`; the code never throws `NoCurrentNavigation`. */
  datatype AsyncWebviewError =
    | NewRequestMade
    | MismatchedNavigationEntries
    | NoNavigationGenerated
    | NoCurrentNavigation

  /** The identity of a `WKNavigation` object; only ever compared for equality. */
  type NavId = nat

  /** A suspended caller, i.e. one `CheckedContinuation`; the n-th continuation created has id n. */
  type CallerId = nat

  /** How a continuation is resumed: `resume(returning: ())` or `resume(throwing: e)`. */
  datatype Outcome = Returned | Threw(error: AsyncWebviewError)

  /** The base URL built by `ensure(onDomain:)` from its scheme and host. */
  datatype Url = Url(scheme: string, host: string)

  /** The load that a start callback submits to WebKit. */
  datatype NavRequest =
    | Load(url: string)
    | LoadHTMLString(html: string, baseURL: Option<Url>)

  /** One observable side effect of the bridge, in the order it happens. */
  datatype Effect =
    | StopLoading
    | Started(request: NavRequest)
    | Resumed(caller: CallerId, outcome: Outcome)

  /** `AsyncWebviewNavigation`: the continuation to resume and the navigation it waits for. */
  datatype PendingNavigation = PendingNavigation(caller: CallerId, navigation: NavId)

  /** `currentNavigation`, the effects so far, and how many continuations have been created. */
  datatype Bridge = Bridge(current: Option<PendingNavigation>, effects: seq<Effect>, continuations: nat)

  /** What can happen to a bridge: a `performNavigation` call or a `didFinish` delegate event. */
  datatype Event =
    | Perform(request: NavRequest, started: Option<NavId>)
    | DidFinish(navigation: NavId)

  /** A freshly created webview: nothing pending, nothing done. */
  const Idle: Bridge := Bridge(None, [], 0)

  /** `stopCurrentNavigationIfRunning`: stop loading and fail the pending caller, keeping the record. */
  function StopCurrentNavigationIfRunning(b: Bridge): Bridge
  {
    match b.current
    case None => b
    case Some(p) => b.(effects := b.effects + [StopLoading, Resumed(p.caller, Threw(NewRequestMade))])
  }

  /**
   * `performNavigation`: supersede the pending caller (if any), create a new continuation, run the
   * start callback (which submits `request` and yields `started`), then either record the new
   * caller or fail it at once with `noNavigationGenerated`.
   */
  function PerformNavigation(b: Bridge, request: NavRequest, started: Option<NavId>): Bridge
  {
    var stopped := StopCurrentNavigationIfRunning(b);
    var caller := b.continuations;
    var running := stopped.(effects := stopped.effects + [Started(request)], continuations := caller + 1);
    match started
    case None => running.(effects := running.effects + [Resumed(caller, Threw(NoNavigationGenerated))])
    case Some(nav) => running.(current := Some(PendingNavigation(caller, nav)))
  }

  /** `didFinish`: the delegate event; the code aborts when no record is pending. */
  function DidFinishNavigation(b: Bridge, navigation: NavId): Bridge
    requires b.current.Some?
  {
    var p := b.current.value;
    if p.navigation != navigation then
      b.(effects := b.effects + [Resumed(p.caller, Threw(MismatchedNavigationEntries))])
    else
      b.(current := None, effects := b.effects + [Resumed(p.caller, Returned)])
  }

  /** The empty document `ensure(onDomain:)` loads: `""` with base URL `https://domain`. */
  function DomainRequest(domain: string): NavRequest
  {
    LoadHTMLString("", Some(Url("https", domain)))
  }

  /** `ensure(onDomain:)`: nothing when the current host is `domain`, else one navigation there. */
  function EnsureOnDomain(b: Bridge, currentHost: Option<string>, domain: string, started: Option<NavId>): Bridge
  {
    if currentHost == Some(domain) then b
    else PerformNavigation(b, DomainRequest(domain), started)
  }

  /** One event; `None` is the `fatalError` of a `didFinish` with nothing pending. */
  function Apply(b: Bridge, e: Event): Option<Bridge>
  {
    match e
    case Perform(request, started) => Some(PerformNavigation(b, request, started))
    case DidFinish(nav) => if b.current.None? then None else Some(DidFinishNavigation(b, nav))
  }

  /** A sequential interleaving of events, applied in order; `None` once one of them was fatal. */
  function Run(b: Bridge, events: seq<Event>): Option<Bridge>
  {
    if events == [] then Some(b)
    else
      match Run(b, events[..|events| - 1])
      case None => None
      case Some(before) => Apply(before, events[|events| - 1])
  }

  /** How many times `caller` has been resumed in `effects`. */
  function Resumptions(effects: seq<Effect>, caller: CallerId): nat
  {
    if effects == [] then 0
    else
      var last := effects[|effects| - 1];
      Resumptions(effects[..|effects| - 1], caller) + (if last.Resumed? && last.caller == caller then 1 else 0)
  }

  /** The resumptions in `effects`, in order, with every other effect dropped. */
  function ResumptionLog(effects: seq<Effect>): seq<Effect>
  {
    if effects == [] then []
    else
      var last := effects[|effects| - 1];
      ResumptionLog(effects[..|effects| - 1]) + (if last.Resumed? then [last] else [])
  }

  /** `caller` is the one the bridge is currently waiting to resume. */
  predicate IsPending(b: Bridge, caller: CallerId)
  {
    b.current.Some? && b.current.value.caller == caller
  }

  /**
   * Exactly-once bookkeeping: the pending caller was created and has not been resumed yet, every
   * other caller created so far has been resumed exactly once, and no other caller at all.
   */
  ghost predicate Accounted(b: Bridge)
  {
    (b.current.Some? ==> b.current.value.caller < b.continuations) &&
    forall c: CallerId {:trigger Resumptions(b.effects, c)} ::
      Resumptions(b.effects, c) == (if c < b.continuations && !IsPending(b, c) then 1 else 0)
  }

  /**
   * No caller at or past the counter has been created, so none of them has been resumed yet.
   * Weaker than `Accounted` and kept by every event, stale records included.
   */
  ghost predicate Fresh(b: Bridge)
  {
    (b.current.Some? ==> b.current.value.caller < b.continuations) &&
    forall c: CallerId {:trigger Resumptions(b.effects, c)} ::
      c >= b.continuations ==> Resumptions(b.effects, c) == 0
  }

  /**
   * An event that keeps exactly-once: a start callback that yields no navigation while a record
   * is pending, a completion for another navigation, and a completion with nothing pending are
   * the three that do not.
   */
  predicate Safe(b: Bridge, e: Event)
  {
    match e
    case Perform(_, started) => started.Some? || b.current.None?
    case DidFinish(nav) => b.current.Some? && b.current.value.navigation == nav
  }

  /** Every event of the interleaving is safe in the state it meets. */
  ghost predicate Cooperative(b: Bridge, events: seq<Event>)
  {
    events == [] ||
    (Cooperative(b, events[..|events| - 1]) &&
     Run(b, events[..|events| - 1]).Some? &&
     Safe(Run(b, events[..|events| - 1]).value, events[|events| - 1]))
  }

  /** The log of `count` superseded callers 0 .. count-1, each failed with `newRequestMade`. */
  function Superseded(count: nat): seq<Effect>
  {
    if count == 0 then [] else Superseded(count - 1) + [Resumed(count - 1, Threw(NewRequestMade))]
  }

  /** Back-to-back `performNavigation` calls whose start callbacks all yield a navigation. */
  function Overlapping(starts: seq<(NavRequest, NavId)>): seq<Event>
  {
    if starts == [] then []
    else
      var last := starts[|starts| - 1];
      Overlapping(starts[..|starts| - 1]) + [Perform(last.0, Some(last.1))]
  }

  // ---------------------------------------------------------------------------------------------
  // Counting lemmas

  lemma {:induction false} ResumptionsAppend(e: seq<Effect>, f: seq<Effect>, c: CallerId)
    ensures Resumptions(e + f, c) == Resumptions(e, c) + Resumptions(f, c)
  {
    if f == [] {
      assert e + f == e;
    } else {
      assert (e + f)[..|e + f| - 1] == e + f[..|f| - 1];
      ResumptionsAppend(e, f[..|f| - 1], c);
    }
  }

  lemma {:induction false} ResumptionLogAppend(e: seq<Effect>, f: seq<Effect>)
    ensures ResumptionLog(e + f) == ResumptionLog(e) + ResumptionLog(f)
  {
    if f == [] {
      assert e + f == e;
    } else {
      assert (e + f)[..|e + f| - 1] == e + f[..|f| - 1];
      ResumptionLogAppend(e, f[..|f| - 1]);
    }
  }

  lemma ResumptionsOfOne(x: Effect, c: CallerId)
    ensures Resumptions([x], c) == if x.Resumed? && x.caller == c then 1 else 0
    ensures ResumptionLog([x]) == if x.Resumed? then [x] else []
  {
    assert [x][..0] == [];
  }

  /** Appending one effect to a trace adds at most one resumption, of the caller it names. */
  lemma ResumptionsSnoc(e: seq<Effect>, x: Effect, c: CallerId)
    ensures Resumptions(e + [x], c) == Resumptions(e, c) + (if x.Resumed? && x.caller == c then 1 else 0)
    ensures ResumptionLog(e + [x]) == ResumptionLog(e) + (if x.Resumed? then [x] else [])
  {
    ResumptionsAppend(e, [x], c);
    ResumptionLogAppend(e, [x]);
    ResumptionsOfOne(x, c);
  }

  // ---------------------------------------------------------------------------------------------
  // One call at a time

  /**
   * Supersession: with a record pending, `performNavigation` first stops loading, then fails the
   * pending caller with `newRequestMade`, and only then runs the start callback; the effects
   * before the call are kept as they were.
   */
  lemma SupersedeBeforeStart(b: Bridge, request: NavRequest, started: Option<NavId>)
    requires b.current.Some?
    ensures var e := PerformNavigation(b, request, started).effects;
      |e| >= |b.effects| + 3 && e[..|b.effects|] == b.effects &&
      e[|b.effects|] == StopLoading &&
      e[|b.effects| + 1] == Resumed(b.current.value.caller, Threw(NewRequestMade)) &&
      e[|b.effects| + 2] == Started(request)
  {
  }

  /** With nothing pending, the start callback is the first thing `performNavigation` does. */
  lemma NothingToSupersede(b: Bridge, request: NavRequest, started: Option<NavId>)
    requires b.current.None?
    ensures var e := PerformNavigation(b, request, started).effects;
      |e| >= |b.effects| + 1 && e[..|b.effects|] == b.effects && e[|b.effects|] == Started(request)
  {
  }

  /**
   * A start callback that yields no navigation fails the new caller at once with
   * `noNavigationGenerated`, records nothing new, and leaves the previous record in place even
   * though that caller has just been resumed.
   */
  lemma NoNavigationFailsCaller(b: Bridge, request: NavRequest)
    requires Fresh(b)
    ensures var after := PerformNavigation(b, request, None);
      after.current == b.current &&
      after.continuations == b.continuations + 1 &&
      after.effects[|after.effects| - 1] == Resumed(b.continuations, Threw(NoNavigationGenerated)) &&
      Resumptions(after.effects, b.continuations) == 1
  {
    var after := PerformNavigation(b, request, None);
    var stopped := StopCurrentNavigationIfRunning(b);
    var c := b.continuations;
    assert after.effects == stopped.effects + [Started(request), Resumed(c, Threw(NoNavigationGenerated))];
    ResumptionsAppend(stopped.effects, [Started(request), Resumed(c, Threw(NoNavigationGenerated))], c);
    assert [Started(request), Resumed(c, Threw(NoNavigationGenerated))][..1] == [Started(request)];
    ResumptionsSnoc([Started(request)], Resumed(c, Threw(NoNavigationGenerated)), c);
    ResumptionsOfOne(Started(request), c);
    NotYetResumed(b, c);
  }

  /** A start callback that yields navigation `nav` records exactly (new caller, `nav`) and leaves the new caller suspended. */
  lemma NavigationRecorded(b: Bridge, request: NavRequest, nav: NavId)
    requires Fresh(b)
    ensures var after := PerformNavigation(b, request, Some(nav));
      after.current == Some(PendingNavigation(b.continuations, nav)) &&
      after.continuations == b.continuations + 1 &&
      Resumptions(after.effects, b.continuations) == 0
  {
    var after := PerformNavigation(b, request, Some(nav));
    var c := b.continuations;
    var stopped := StopCurrentNavigationIfRunning(b);
    ResumptionsSnoc(stopped.effects, Started(request), c);
    if b.current.Some? {
      ResumptionsAppend(b.effects, [StopLoading, Resumed(b.current.value.caller, Threw(NewRequestMade))], c);
      ResumptionsSnoc([StopLoading], Resumed(b.current.value.caller, Threw(NewRequestMade)), c);
      ResumptionsOfOne(StopLoading, c);
      assert [StopLoading] + [Resumed(b.current.value.caller, Threw(NewRequestMade))]
          == [StopLoading, Resumed(b.current.value.caller, Threw(NewRequestMade))];
    }
  }

  /** A caller that has not been created yet has never been resumed. */
  lemma NotYetResumed(b: Bridge, c: CallerId)
    requires b.current.Some? ==> b.current.value.caller < b.continuations
    requires c >= b.continuations
    ensures Resumptions(StopCurrentNavigationIfRunning(b).effects, c) == Resumptions(b.effects, c)
  {
    if b.current.Some? {
      var p := b.current.value;
      ResumptionsAppend(b.effects, [StopLoading, Resumed(p.caller, Threw(NewRequestMade))], c);
      assert [StopLoading, Resumed(p.caller, Threw(NewRequestMade))][..1] == [StopLoading];
      ResumptionsSnoc([StopLoading], Resumed(p.caller, Threw(NewRequestMade)), c);
      ResumptionsOfOne(StopLoading, c);
    }
  }

  /** A completion for the pending navigation clears the record and resumes its caller with success. */
  lemma FinishMatching(b: Bridge)
    requires b.current.Some?
    ensures var after := DidFinishNavigation(b, b.current.value.navigation);
      after.current.None? &&
      after.effects == b.effects + [Resumed(b.current.value.caller, Returned)] &&
      ResumptionLog(after.effects) == ResumptionLog(b.effects) + [Resumed(b.current.value.caller, Returned)] &&
      after.continuations == b.continuations
  {
    ResumptionsSnoc(b.effects, Resumed(b.current.value.caller, Returned), 0);
  }

  /**
   * A completion for any other navigation resumes the pending caller with
   * `mismatchedNavigationEntries` and leaves the record exactly as it was.
   */
  lemma FinishMismatched(b: Bridge, nav: NavId)
    requires b.current.Some? && b.current.value.navigation != nav
    ensures var after := DidFinishNavigation(b, nav);
      after.current == b.current &&
      after.effects == b.effects + [Resumed(b.current.value.caller, Threw(MismatchedNavigationEntries))] &&
      ResumptionLog(after.effects) == ResumptionLog(b.effects) + [Resumed(b.current.value.caller, Threw(MismatchedNavigationEntries))] &&
      after.continuations == b.continuations
  {
    ResumptionsSnoc(b.effects, Resumed(b.current.value.caller, Threw(MismatchedNavigationEntries)), 0);
  }

  /** A completion with nothing pending is fatal: the interleaving stops there. */
  lemma FinishWithNothingPendingIsFatal(b: Bridge, events: seq<Event>, nav: NavId)
    requires Run(b, events).Some? && Run(b, events).value.current.None?
    ensures Run(b, events + [DidFinish(nav)]).None?
  {
    assert (events + [DidFinish(nav)])[..|events|] == events;
  }

  /** Once an interleaving has hit the fatal case, nothing after it runs. */
  lemma {:induction false} FatalIsFinal(b: Bridge, events: seq<Event>, more: seq<Event>)
    requires Run(b, events).None?
    ensures Run(b, events + more).None?
  {
    if more == [] {
      assert events + more == events;
    } else {
      assert (events + more)[..|events + more| - 1] == events + more[..|more| - 1];
      FatalIsFinal(b, events, more[..|more| - 1]);
    }
  }

  /** `ensure(onDomain:)` does nothing when the current host already is `domain`. */
  lemma EnsureOnSameDomain(b: Bridge, domain: string, started: Option<NavId>)
    ensures EnsureOnDomain(b, Some(domain), domain, started) == b
  {
  }

  /**
   * Otherwise it performs exactly one navigation, the `https://domain` empty document, and its
   * outcome is whatever that navigation's caller is resumed with.
   */
  lemma EnsureOnOtherDomain(b: Bridge, currentHost: Option<string>, domain: string, started: Option<NavId>)
    requires currentHost != Some(domain)
    ensures var after := EnsureOnDomain(b, currentHost, domain, started);
      after == PerformNavigation(b, LoadHTMLString("", Some(Url("https", domain))), started) &&
      after.continuations == b.continuations + 1
  {
  }

  // ---------------------------------------------------------------------------------------------
  // Exactly-once resumption

  lemma IdleAccounted()
    ensures Accounted(Idle)
  {
    forall c: CallerId ensures Resumptions(Idle.effects, c) == 0 {
    }
  }

  /** Every event keeps `Fresh`, whether or not it is safe. */
  lemma FreshStep(b: Bridge, e: Event)
    requires Fresh(b) && Apply(b, e).Some?
    ensures Fresh(Apply(b, e).value)
  {
    match e
    case Perform(request, started) =>
      var stopped := StopCurrentNavigationIfRunning(b);
      var after := PerformNavigation(b, request, started);
      forall c: CallerId | c >= after.continuations
        ensures Resumptions(after.effects, c) == 0
      {
        NotYetResumed(b, c);
        ResumptionsSnoc(stopped.effects, Started(request), c);
        if started.None? {
          ResumptionsSnoc(stopped.effects + [Started(request)], Resumed(b.continuations, Threw(NoNavigationGenerated)), c);
        }
      }
    case DidFinish(nav) =>
      var p := b.current.value;
      var after := DidFinishNavigation(b, nav);
      var x := if p.navigation == nav then Resumed(p.caller, Returned)
               else Resumed(p.caller, Threw(MismatchedNavigationEntries));
      forall c: CallerId | c >= after.continuations
        ensures Resumptions(after.effects, c) == 0
      {
        ResumptionsSnoc(b.effects, x, c);
      }
  }

  /** Every state a fresh webview reaches without a `fatalError` is `Fresh`. */
  lemma {:induction false} FreshReachable(events: seq<Event>)
    requires Run(Idle, events).Some?
    ensures Fresh(Run(Idle, events).value)
  {
    if events != [] {
      var prefix := events[..|events| - 1];
      FreshReachable(prefix);
      FreshStep(Run(Idle, prefix).value, events[|events| - 1]);
    }
  }

  /** `stopCurrentNavigationIfRunning` on its own keeps `Fresh` too. */
  lemma StopKeepsFresh(b: Bridge)
    requires Fresh(b)
    ensures Fresh(StopCurrentNavigationIfRunning(b))
  {
    forall c: CallerId | c >= b.continuations
      ensures Resumptions(StopCurrentNavigationIfRunning(b).effects, c) == 0
    {
      NotYetResumed(b, c);
    }
  }

  /**
   * What one event does to a caller that already exists: it is resumed once more exactly when
   * it is the pending one, and it can only be pending afterwards if it was pending before.
   */
  lemma StepCounts(b: Bridge, e: Event, c: CallerId)
    requires Fresh(b) && Apply(b, e).Some? && c < b.continuations
    ensures var after := Apply(b, e).value;
      Resumptions(after.effects, c) == Resumptions(b.effects, c) + (if IsPending(b, c) then 1 else 0) &&
      (IsPending(after, c) ==> IsPending(b, c))
  {
    match e
    case Perform(request, started) =>
      var stopped := StopCurrentNavigationIfRunning(b);
      if b.current.Some? {
        var p := b.current.value;
        ResumptionsAppend(b.effects, [StopLoading, Resumed(p.caller, Threw(NewRequestMade))], c);
        assert [StopLoading, Resumed(p.caller, Threw(NewRequestMade))][..1] == [StopLoading];
        ResumptionsSnoc([StopLoading], Resumed(p.caller, Threw(NewRequestMade)), c);
        ResumptionsOfOne(StopLoading, c);
      }
      ResumptionsSnoc(stopped.effects, Started(request), c);
      if started.None? {
        ResumptionsSnoc(stopped.effects + [Started(request)], Resumed(b.continuations, Threw(NoNavigationGenerated)), c);
      }
    case DidFinish(nav) =>
      var p := b.current.value;
      var x := if p.navigation == nav then Resumed(p.caller, Returned)
               else Resumed(p.caller, Threw(MismatchedNavigationEntries));
      ResumptionsSnoc(b.effects, x, c);
  }

  /** Once exactly-once is lost, no later event restores it. */
  lemma LostStaysLost(b: Bridge, e: Event)
    requires Fresh(b) && !Accounted(b) && Apply(b, e).Some?
    ensures !Accounted(Apply(b, e).value)
  {
    var c: CallerId :| Resumptions(b.effects, c) != (if c < b.continuations && !IsPending(b, c) then 1 else 0);
    StepCounts(b, e, c);
  }

  /**
   * From an accounted state, one event keeps every caller resumed exactly once (the pending one
   * not yet) if and only if the event is safe.
   */
  lemma SafeIffAccounted(b: Bridge, e: Event)
    requires Accounted(b)
    ensures (Apply(b, e).Some? && Accounted(Apply(b, e).value)) <==> Safe(b, e)
  {
    match e
    case Perform(request, started) =>
      var after := PerformNavigation(b, request, started);
      var stopped := StopCurrentNavigationIfRunning(b);
      var c := b.continuations;
      if b.current.Some? {
        var p := b.current.value;
        forall x: CallerId
          ensures Resumptions(stopped.effects, x) == Resumptions(b.effects, x) + (if x == p.caller then 1 else 0)
        {
          ResumptionsAppend(b.effects, [StopLoading, Resumed(p.caller, Threw(NewRequestMade))], x);
          assert [StopLoading, Resumed(p.caller, Threw(NewRequestMade))][..1] == [StopLoading];
          ResumptionsSnoc([StopLoading], Resumed(p.caller, Threw(NewRequestMade)), x);
          ResumptionsOfOne(StopLoading, x);
        }
      }
      forall x: CallerId
        ensures Resumptions(stopped.effects + [Started(request)], x) == Resumptions(stopped.effects, x)
      {
        ResumptionsSnoc(stopped.effects, Started(request), x);
      }
      if started.Some? {
        forall x: CallerId
          ensures Resumptions(after.effects, x) == (if x < after.continuations && !IsPending(after, x) then 1 else 0)
        {
        }
      } else if b.current.None? {
        forall x: CallerId
          ensures Resumptions(after.effects, x) == (if x < after.continuations && !IsPending(after, x) then 1 else 0)
        {
          ResumptionsSnoc(stopped.effects + [Started(request)], Resumed(c, Threw(NoNavigationGenerated)), x);
        }
      } else {
        var p := b.current.value;
        ResumptionsSnoc(stopped.effects + [Started(request)], Resumed(c, Threw(NoNavigationGenerated)), p.caller);
        assert Resumptions(after.effects, p.caller) == 1;
      }
    case DidFinish(nav) =>
      if b.current.Some? {
        var p := b.current.value;
        var after := DidFinishNavigation(b, nav);
        var x := if p.navigation == nav then Resumed(p.caller, Returned)
                 else Resumed(p.caller, Threw(MismatchedNavigationEntries));
        forall y: CallerId
          ensures Resumptions(after.effects, y) == Resumptions(b.effects, y) + (if y == p.caller then 1 else 0)
        {
          ResumptionsSnoc(b.effects, x, y);
        }
        if p.navigation != nav {
          assert Resumptions(after.effects, p.caller) == 1;
        }
      }
  }

  /**
   * Exactly-once over a whole interleaving: when every event is safe, no `fatalError` happens,
   * and every caller created so far has been resumed exactly once, except the pending one, which
   * has not been resumed yet.
   */
  lemma {:induction false} CooperativeRunAccounted(b: Bridge, events: seq<Event>)
    requires Accounted(b) && Cooperative(b, events)
    ensures Run(b, events).Some? && Accounted(Run(b, events).value)
  {
    if events != [] {
      var prefix := events[..|events| - 1];
      CooperativeRunAccounted(b, prefix);
      SafeIffAccounted(Run(b, prefix).value, events[|events| - 1]);
    }
  }

  /** The same from a fresh webview, spelled out per caller. */
  lemma ExactlyOnceFromIdle(events: seq<Event>)
    requires Cooperative(Idle, events)
    ensures Run(Idle, events).Some?
    ensures var b := Run(Idle, events).value;
      forall c: CallerId :: c < b.continuations ==>
        Resumptions(b.effects, c) == (if IsPending(b, c) then 0 else 1)
  {
    IdleAccounted();
    CooperativeRunAccounted(Idle, events);
  }

  /**
   * The converse: when every caller from a fresh webview has been resumed exactly once (the
   * pending one not yet), every event of the interleaving was safe -- every start callback
   * yielded a navigation or met no record, and every completion matched.
   */
  lemma {:induction false} OnlyWhenCooperative(events: seq<Event>)
    requires Run(Idle, events).Some? && Accounted(Run(Idle, events).value)
    ensures Cooperative(Idle, events)
  {
    if events != [] {
      var prefix := events[..|events| - 1];
      var last := events[|events| - 1];
      assert Run(Idle, prefix).Some?;
      var b := Run(Idle, prefix).value;
      FreshReachable(prefix);
      assert Accounted(b) by {
        if !Accounted(b) {
          LostStaysLost(b, last);
        }
      }
      OnlyWhenCooperative(prefix);
      SafeIffAccounted(b, last);
    }
  }

  /** Exactly-once from a fresh webview holds if and only if every event was safe. */
  lemma ExactlyOnceIffCooperative(events: seq<Event>)
    ensures (Run(Idle, events).Some? && Accounted(Run(Idle, events).value)) <==> Cooperative(Idle, events)
  {
    if Cooperative(Idle, events) {
      IdleAccounted();
      CooperativeRunAccounted(Idle, events);
    }
    if Run(Idle, events).Some? && Accounted(Run(Idle, events).value) {
      OnlyWhenCooperative(events);
    }
  }

  /**
   * Stale record, first path: a start callback that yields no navigation while a record is
   * pending resumes that caller with `newRequestMade` but keeps the record, so the completion of
   * its navigation resumes the same caller a second time.
   */
  lemma StaleAfterNoNavigation(b: Bridge, request: NavRequest)
    requires Accounted(b) && b.current.Some?
    ensures var p := b.current.value;
      var after := PerformNavigation(b, request, None);
      after.current == b.current &&
      Resumptions(after.effects, p.caller) == 1 &&
      Resumptions(DidFinishNavigation(after, p.navigation).effects, p.caller) == 2
  {
    var p := b.current.value;
    var after := PerformNavigation(b, request, None);
    NoNavigationFailsCaller(b, request);
    var stopped := StopCurrentNavigationIfRunning(b);
    ResumptionsAppend(b.effects, [StopLoading, Resumed(p.caller, Threw(NewRequestMade))], p.caller);
    assert [StopLoading, Resumed(p.caller, Threw(NewRequestMade))][..1] == [StopLoading];
    ResumptionsSnoc([StopLoading], Resumed(p.caller, Threw(NewRequestMade)), p.caller);
    ResumptionsOfOne(StopLoading, p.caller);
    ResumptionsSnoc(stopped.effects, Started(request), p.caller);
    ResumptionsSnoc(stopped.effects + [Started(request)], Resumed(b.continuations, Threw(NoNavigationGenerated)), p.caller);
    ResumptionsSnoc(after.effects, Resumed(p.caller, Returned), p.caller);
  }

  /**
   * Stale record, second path: a completion for another navigation resumes the pending caller
   * with `mismatchedNavigationEntries` and keeps the record, so the completion of its own
   * navigation resumes the same caller a second time.
   */
  lemma StaleAfterMismatch(b: Bridge, nav: NavId)
    requires Accounted(b) && b.current.Some? && b.current.value.navigation != nav
    ensures var p := b.current.value;
      var after := DidFinishNavigation(b, nav);
      after.current == b.current &&
      Resumptions(after.effects, p.caller) == 1 &&
      Resumptions(DidFinishNavigation(after, p.navigation).effects, p.caller) == 2
  {
    var p := b.current.value;
    var after := DidFinishNavigation(b, nav);
    ResumptionsSnoc(b.effects, Resumed(p.caller, Threw(MismatchedNavigationEntries)), p.caller);
    ResumptionsSnoc(after.effects, Resumed(p.caller, Returned), p.caller);
  }

  /**
   * Stale record, third path: `stopCurrentNavigationIfRunning` on its own resumes the pending
   * caller with `newRequestMade` but keeps the record; exactly-once is lost at once, and the
   * completion of its navigation resumes the same caller a second time.
   */
  lemma StaleAfterStop(b: Bridge)
    requires Accounted(b) && b.current.Some?
    ensures var p := b.current.value;
      var after := StopCurrentNavigationIfRunning(b);
      after.current == b.current &&
      Resumptions(after.effects, p.caller) == 1 &&
      !Accounted(after) &&
      Resumptions(DidFinishNavigation(after, p.navigation).effects, p.caller) == 2
  {
    var p := b.current.value;
    var after := StopCurrentNavigationIfRunning(b);
    ResumptionsAppend(b.effects, [StopLoading, Resumed(p.caller, Threw(NewRequestMade))], p.caller);
    assert [StopLoading, Resumed(p.caller, Threw(NewRequestMade))][..1] == [StopLoading];
    ResumptionsSnoc([StopLoading], Resumed(p.caller, Threw(NewRequestMade)), p.caller);
    ResumptionsOfOne(StopLoading, p.caller);
    ResumptionsSnoc(after.effects, Resumed(p.caller, Returned), p.caller);
  }

  /**
   * Supersession resumes the recorded caller once more, whatever it has been resumed with
   * before; on a stale record that is its second resumption.
   */
  lemma SupersessionResumesPending(b: Bridge, request: NavRequest, started: Option<NavId>)
    requires Fresh(b) && b.current.Some?
    ensures var p := b.current.value;
      Resumptions(PerformNavigation(b, request, started).effects, p.caller) == Resumptions(b.effects, p.caller) + 1
  {
    var p := b.current.value;
    var stopped := StopCurrentNavigationIfRunning(b);
    ResumptionsAppend(b.effects, [StopLoading, Resumed(p.caller, Threw(NewRequestMade))], p.caller);
    assert [StopLoading, Resumed(p.caller, Threw(NewRequestMade))][..1] == [StopLoading];
    ResumptionsSnoc([StopLoading], Resumed(p.caller, Threw(NewRequestMade)), p.caller);
    ResumptionsOfOne(StopLoading, p.caller);
    ResumptionsSnoc(stopped.effects, Started(request), p.caller);
    if started.None? {
      ResumptionsSnoc(stopped.effects + [Started(request)], Resumed(b.continuations, Threw(NoNavigationGenerated)), p.caller);
    }
  }

  /**
   * N back-to-back `performNavigation` calls whose callbacks all yield a navigation leave the
   * last caller pending on the last navigation and fail the N-1 earlier callers, in order, with
   * `newRequestMade`.
   */
  lemma {:induction false} OverlappingBegins(starts: seq<(NavRequest, NavId)>)
    requires |starts| >= 1
    ensures Run(Idle, Overlapping(starts)).Some?
    ensures var b := Run(Idle, Overlapping(starts)).value;
      b.current == Some(PendingNavigation(|starts| - 1, starts[|starts| - 1].1)) &&
      b.continuations == |starts| &&
      ResumptionLog(b.effects) == Superseded(|starts| - 1)
  {
    var prefix := starts[..|starts| - 1];
    var last := starts[|starts| - 1];
    var events := Overlapping(starts);
    assert events[..|events| - 1] == Overlapping(prefix);
    assert events[|events| - 1] == Perform(last.0, Some(last.1));
    if |starts| == 1 {
      assert Overlapping(prefix) == [];
      PerformLog(Idle, last.0, last.1);
    } else {
      OverlappingBegins(prefix);
      var b := Run(Idle, Overlapping(prefix)).value;
      assert Run(Idle, events) == Some(PerformNavigation(b, last.0, Some(last.1)));
      PerformLog(b, last.0, last.1);
    }
  }

  /** The resumptions a `performNavigation` makes when its callback yields a navigation. */
  lemma PerformLog(b: Bridge, request: NavRequest, nav: NavId)
    ensures ResumptionLog(PerformNavigation(b, request, Some(nav)).effects) ==
      ResumptionLog(b.effects) + (if b.current.Some? then [Resumed(b.current.value.caller, Threw(NewRequestMade))] else [])
  {
    if b.current.Some? {
      var x := Resumed(b.current.value.caller, Threw(NewRequestMade));
      var e1 := b.effects + [StopLoading];
      var e2 := e1 + [x];
      assert PerformNavigation(b, request, Some(nav)).effects == e2 + [Started(request)];
      ResumptionsSnoc(b.effects, StopLoading, 0);
      ResumptionsSnoc(e1, x, 0);
      ResumptionsSnoc(e2, Started(request), 0);
    } else {
      ResumptionsSnoc(b.effects, Started(request), 0);
    }
  }

  /** Running one more event is applying it to the state the earlier ones reached. */
  lemma RunSnoc(b: Bridge, events: seq<Event>, e: Event)
    ensures Run(b, events + [e]) == if Run(b, events).None? then None else Apply(Run(b, events).value, e)
  {
    assert (events + [e])[..|events|] == events;
  }

  /** ... and the last caller's result is decided by its own completion event alone. */
  lemma LastDecidedByOwnCompletion(starts: seq<(NavRequest, NavId)>, nav: NavId)
    requires |starts| >= 1
    ensures Run(Idle, Overlapping(starts) + [DidFinish(nav)]).Some?
    ensures var b := Run(Idle, Overlapping(starts) + [DidFinish(nav)]).value;
      var own := starts[|starts| - 1].1;
      ResumptionLog(b.effects) ==
        Superseded(|starts| - 1) +
        [Resumed(|starts| - 1, if nav == own then Returned else Threw(MismatchedNavigationEntries))] &&
      b.current == (if nav == own then None else Some(PendingNavigation(|starts| - 1, own)))
  {
    OverlappingBegins(starts);
    var b := Run(Idle, Overlapping(starts)).value;
    RunSnoc(Idle, Overlapping(starts), DidFinish(nav));
    if nav == starts[|starts| - 1].1 {
      FinishMatching(b);
    } else {
      FinishMismatched(b, nav);
    }
  }
}
