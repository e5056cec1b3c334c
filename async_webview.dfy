/**
 * `AsyncWebview`, the `WKWebView` subclass that turns "start a navigation, wait for the delegate"
 * into one async call, with its internal navigation delegate folded in. Each method changes the
 * fields in place and is tied to the pure bridge functions of module `Navigation`.
 */
module AsyncWebviews {
  import opened Wrappers
  import opened Navigation

  /** A navigation delegate object: the webview's own internal one, or one an embedder supplies. */
  datatype Delegate = InternalDelegate | ExternalDelegate(id: nat)

  class AsyncWebview {
    /** `currentNavigation`: at most one pending record. */
    var currentNavigation: Option<PendingNavigation>
    /** Everything observable done so far: `stopLoading`, loads submitted, continuations resumed. */
    var effects: seq<Effect>
    /** How many continuations `performNavigation` has created; the next caller's id. */
    var continuations: nat
    /** `super.navigationDelegate`: the slot WebKit delivers navigation events to. */
    var superNavigationDelegate: Option<Delegate>
    /** `internalNavigationDelegate.externalNavigationDelegate`, the only thing the public property exposes. */
    var externalNavigationDelegate: Option<Delegate>

    /** The bridge state these fields hold. */
    function State(): Bridge
      reads this
    {
      Bridge(currentNavigation, effects, continuations)
    }

    /**
     * Only the internal delegate ever sits in the super slot, and a record is pending only once
     * that delegate is installed there (so its completion event can arrive).
     */
    ghost predicate Valid()
      reads this
    {
      (superNavigationDelegate.Some? ==> superNavigationDelegate.value == InternalDelegate) &&
      (currentNavigation.Some? ==>
         superNavigationDelegate == Some(InternalDelegate) && currentNavigation.value.caller < continuations)
    }

    constructor ()
      ensures Valid()
      ensures State() == Idle
      ensures superNavigationDelegate.None? && externalNavigationDelegate.None?
    {
      currentNavigation := None;
      effects := [];
      continuations := 0;
      superNavigationDelegate := None;
      externalNavigationDelegate := None;
    }

    /** `stopCurrentNavigationIfRunning`; note that the record itself is left in place. */
    method StopCurrentNavigationIfRunning()
      requires Valid()
      modifies this`effects
      ensures Valid()
      ensures State() == Navigation.StopCurrentNavigationIfRunning(old(State()))
    {
      if currentNavigation.Some? {
        var navigation := currentNavigation.value;
        effects := effects + [StopLoading];
        effects := effects + [Resumed(navigation.caller, Threw(NewRequestMade))];
        assert effects == old(effects) + [StopLoading, Resumed(navigation.caller, Threw(NewRequestMade))];
      }
    }

    /**
     * `performNavigation`: supersede the pending caller, create a continuation, install the
     * internal delegate if the super slot is empty, run the start callback (it submits `request`
     * and yields `started`), then record the new caller or fail it with `noNavigationGenerated`.
     * Returns the new caller's id; its outcome is the resumption of that id in `effects`.
     */
    method PerformNavigation(request: NavRequest, started: Option<NavId>) returns (caller: CallerId)
      requires Valid()
      modifies this`currentNavigation, this`effects, this`continuations, this`superNavigationDelegate
      ensures Valid()
      ensures caller == old(continuations)
      ensures State() == Navigation.PerformNavigation(old(State()), request, started)
      ensures superNavigationDelegate ==
        if old(superNavigationDelegate).None? then Some(InternalDelegate) else old(superNavigationDelegate)
    {
      StopCurrentNavigationIfRunning();
      caller := continuations;
      continuations := continuations + 1;
      if superNavigationDelegate.None? {
        superNavigationDelegate := Some(InternalDelegate);
      }
      effects := effects + [Started(request)];
      match started
      case None =>
        effects := effects + [Resumed(caller, Threw(NoNavigationGenerated))];
      case Some(navigation) =>
        currentNavigation := Some(PendingNavigation(caller, navigation));
    }

    /** `load(_:)`: a navigation whose start callback is `super.load(request)`. */
    method Load(url: string, started: Option<NavId>) returns (caller: CallerId)
      requires Valid()
      modifies this`currentNavigation, this`effects, this`continuations, this`superNavigationDelegate
      ensures Valid()
      ensures caller == old(continuations)
      ensures State() == Navigation.PerformNavigation(old(State()), Navigation.Load(url), started)
      ensures superNavigationDelegate == Some(InternalDelegate)
    {
      caller := PerformNavigation(Navigation.Load(url), started);
    }

    /** `loadHTMLString(_:baseURL:)`: a navigation whose start callback is `super.loadHTMLString`. */
    method LoadHTMLString(html: string, baseURL: Option<Url>, started: Option<NavId>) returns (caller: CallerId)
      requires Valid()
      modifies this`currentNavigation, this`effects, this`continuations, this`superNavigationDelegate
      ensures Valid()
      ensures caller == old(continuations)
      ensures State() == Navigation.PerformNavigation(old(State()), Navigation.LoadHTMLString(html, baseURL), started)
      ensures superNavigationDelegate == Some(InternalDelegate)
    {
      caller := PerformNavigation(Navigation.LoadHTMLString(html, baseURL), started);
    }

    /**
     * The internal delegate's `webView(_:didFinish:)` for this webview. With nothing pending the
     * code calls `fatalError`, so a pending record is required here.
     */
    method DidFinish(navigation: NavId)
      requires Valid() && currentNavigation.Some?
      modifies this`currentNavigation, this`effects
      ensures Valid()
      ensures State() == DidFinishNavigation(old(State()), navigation)
    {
      var pending := currentNavigation.value;
      if pending.navigation != navigation {
        effects := effects + [Resumed(pending.caller, Threw(MismatchedNavigationEntries))];
        return;
      }
      currentNavigation := None;
      effects := effects + [Resumed(pending.caller, Returned)];
    }

    /** Getter of the overridden `navigationDelegate`: the external delegate, never the super slot. */
    method GetNavigationDelegate() returns (d: Option<Delegate>)
      ensures d == externalNavigationDelegate
    {
      d := externalNavigationDelegate;
    }

    /** Setter of the overridden `navigationDelegate`: it touches the external delegate field only. */
    method SetNavigationDelegate(d: Option<Delegate>)
      modifies this`externalNavigationDelegate
      ensures externalNavigationDelegate == d
    {
      externalNavigationDelegate := d;
    }

    /**
     * `ensure(onDomain:)`. `currentHost` is `super.url?.host()` (`None` when there is no URL).
     * Returns `None` when no navigation was needed (the call returns at once), otherwise the id of
     * the one `loadHTMLString("", https://domain)` caller, whose resumption is this call's outcome.
     */
    method Ensure(currentHost: Option<string>, domain: string, started: Option<NavId>)
      returns (caller: Option<CallerId>)
      requires Valid()
      modifies this`currentNavigation, this`effects, this`continuations, this`superNavigationDelegate
      ensures Valid()
      ensures State() == EnsureOnDomain(old(State()), currentHost, domain, started)
      ensures caller == if currentHost == Some(domain) then None else Some(old(continuations))
      ensures currentHost == Some(domain) ==> superNavigationDelegate == old(superNavigationDelegate)
      ensures currentHost != Some(domain) ==> superNavigationDelegate == Some(InternalDelegate)
    {
      if currentHost == Some(domain) {
        return None;
      }
      var c := LoadHTMLString("", Some(Url("https", domain)), started);
      caller := Some(c);
    }
  }

  /**
   * Two overlapping loads, the first never completing and the second completing at once: the
   * first caller is failed with `newRequestMade`, the second succeeds.
   */
  method SupersededThenCompleted(first: NavId, second: NavId)
    requires first != second
  {
    var webview := new AsyncWebview();
    ghost var s0 := webview.State();
    var a := webview.Load("https://example.test/a", Some(first));
    ghost var s1 := webview.State();
    assert ResumptionLog(s1.effects) == [] by {
      PerformLog(s0, Navigation.Load("https://example.test/a"), first);
    }
    var b := webview.Load("https://example.test/b", Some(second));
    ghost var s2 := webview.State();
    assert s2.current == Some(PendingNavigation(b, second));
    assert ResumptionLog(s2.effects) == [Resumed(a, Threw(NewRequestMade))] by {
      PerformLog(s1, Navigation.Load("https://example.test/b"), second);
    }
    webview.DidFinish(second);
    assert webview.currentNavigation.None? &&
      ResumptionLog(webview.effects) == [Resumed(a, Threw(NewRequestMade)), Resumed(b, Returned)] by {
      FinishMatching(s2);
    }
  }
}
