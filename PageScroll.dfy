/** The edge-navigation gate of the page scroller: wheel, key and touch events at
    the top or bottom edge of the scroll surface push the previous or next route
    of a fixed route list, and a cooldown flag absorbs the events that follow.

    `Step` is the specification of one event; class `PageScroller` holds the
    mutable state (the busy flag, the touch start, the log of pushed routes) and
    implements one method per event handler. */
module PageScroll {
  import opened Wrappers

  const DefaultCooldownMs: int := 800
  const DefaultEdgeThreshold: int := 24
  /** Minimal vertical travel of a swipe, in pixels. */
  const Swipe: int := 40

  const DownKeys: set<string> := {"PageDown", "ArrowDown", " "}
  const UpKeys: set<string> := {"PageUp", "ArrowUp"}

  /** The scroll metrics read from the window or from the scroll container. */
  datatype Surface =
    | WindowSurface(scrollY: int, innerHeight: int, documentScrollHeight: int)
    | ElementSurface(scrollTop: int, scrollHeight: int, clientHeight: int)

  /** At most `edgeThreshold` pixels of content remain below the viewport. */
  predicate AtBottom(s: Surface, edgeThreshold: int)
    ensures s.WindowSurface? ==>
              (AtBottom(s, edgeThreshold) <==> s.scrollY + s.innerHeight >= s.documentScrollHeight - edgeThreshold)
    ensures s.ElementSurface? ==>
              (AtBottom(s, edgeThreshold) <==> s.scrollTop + s.clientHeight >= s.scrollHeight - edgeThreshold)
  {
    match s
    case WindowSurface(scrollY, innerHeight, docH) => docH - (scrollY + innerHeight) <= edgeThreshold
    case ElementSurface(scrollTop, scrollHeight, clientHeight) => scrollHeight - scrollTop - clientHeight <= edgeThreshold
  }

  /** The viewport is scrolled at most `edgeThreshold` pixels from the top. */
  predicate AtTop(s: Surface, edgeThreshold: int)
    ensures AtTop(s, edgeThreshold) <==>
              (if s.WindowSurface? then s.scrollY else s.scrollTop) <= edgeThreshold
  {
    match s
    case WindowSurface(scrollY, _, _) => scrollY <= edgeThreshold
    case ElementSurface(scrollTop, _, _) => scrollTop <= edgeThreshold
  }

  /** `routes.findIndex(r => r === pathname)`. */
  function FindIndex(routes: seq<string>, pathname: string): (idx: int)
    ensures -1 <= idx < |routes|
    ensures idx >= 0 ==> routes[idx] == pathname && forall j :: 0 <= j < idx ==> routes[j] != pathname
    ensures idx == -1 <==> pathname !in routes
  {
    if |routes| == 0 then -1
    else if routes[0] == pathname then 0
    else
      var i := FindIndex(routes[1..], pathname);
      assert routes == [routes[0]] + routes[1..];
      if i == -1 then -1 else i + 1
  }

  /** The route before the current one, if the current one is listed and not first. */
  function PrevRoute(routes: seq<string>, pathname: string): (r: Option<string>)
    ensures r.Some? ==> r.value in routes && pathname in routes && routes[0] != pathname
    ensures pathname !in routes ==> r.None?
  {
    var idx := FindIndex(routes, pathname);
    if idx > 0 then Some(routes[idx - 1]) else None
  }

  /** The route after the current one, if the current one is listed and its
      first occurrence is not last. */
  function NextRoute(routes: seq<string>, pathname: string): (r: Option<string>)
    ensures r.Some? ==> r.value in routes && pathname in routes && |routes| >= 2
    ensures pathname !in routes ==> r.None?
  {
    var idx := FindIndex(routes, pathname);
    if idx >= 0 && idx < |routes| - 1 then Some(routes[idx + 1]) else None
  }

  /** `!!route`: present and not the empty string. */
  predicate IsRoute(r: Option<string>) {
    r.Some? && r.value != ""
  }

  datatype Config = Config(routes: seq<string>, edgeThreshold: int)

  /** The scroller's mutable state: the current location, `busyRef` and `touchStartY`. */
  datatype State = State(pathname: string, busy: bool, touchStartY: Option<int>)

  /** The inputs the scroller reacts to. `insideNested` says that the wheel event
      comes from inside a `data-scroll-lock="true"` or `data-scrollable="true"`
      region; `CooldownExpire` is the cooldown timer firing; `PathnameChange` is a
      re-render at a new location, which keeps both refs. */
  datatype Event =
    | Wheel(insideNested: bool, deltaY: int, surface: Surface)
    | KeyDown(key: string, surface: Surface)
    | TouchStart(startY: int)
    | TouchEnd(endY: int, surface: Surface)
    | CooldownExpire
    | PathnameChange(newPathname: string)

  /** The state after an event, the route pushed (if any) and whether the
      browser's default action was prevented. */
  datatype Reaction = Reaction(after: State, push: Option<string>, prevented: bool)

  /** `canGoNext`: the gate is free and a non-empty route follows the first
      occurrence of the current pathname. */
  predicate CanGoNext(cfg: Config, s: State)
    ensures CanGoNext(cfg, s) <==>
              var idx := FindIndex(cfg.routes, s.pathname);
              !s.busy && 0 <= idx < |cfg.routes| - 1 && cfg.routes[idx + 1] != ""
    ensures CanGoNext(cfg, s) ==> s.pathname in cfg.routes
  {
    IsRoute(NextRoute(cfg.routes, s.pathname)) && !s.busy
  }

  /** `canGoPrev`: the gate is free and a non-empty route precedes the first
      occurrence of the current pathname. */
  predicate CanGoPrev(cfg: Config, s: State)
    ensures CanGoPrev(cfg, s) <==>
              var idx := FindIndex(cfg.routes, s.pathname);
              !s.busy && 0 < idx < |cfg.routes| && cfg.routes[idx - 1] != ""
    ensures CanGoPrev(cfg, s) ==> s.pathname in cfg.routes && cfg.routes[0] != s.pathname
  {
    IsRoute(PrevRoute(cfg.routes, s.pathname)) && !s.busy
  }

  /** The branch shared by the gesture handlers: a downward gesture at the bottom
      goes next, otherwise an upward gesture at the top goes back. */
  function Target(cfg: Config, s: State, down: bool, up: bool, surface: Surface): (r: Option<string>)
    ensures r.Some? ==> !s.busy && r.value in cfg.routes && r.value != ""
    ensures r.Some? ==>
              || (down && AtBottom(surface, cfg.edgeThreshold) && r == NextRoute(cfg.routes, s.pathname))
              || (up && AtTop(surface, cfg.edgeThreshold) && r == PrevRoute(cfg.routes, s.pathname))
    ensures s.busy || (!down && !up) ==> r.None?
  {
    if down && CanGoNext(cfg, s) && AtBottom(surface, cfg.edgeThreshold) then NextRoute(cfg.routes, s.pathname)
    else if up && CanGoPrev(cfg, s) && AtTop(surface, cfg.edgeThreshold) then PrevRoute(cfg.routes, s.pathname)
    else None
  }

  /** A handler taking a branch (`target` present): it prevents the default
      action if `prevents`, then runs `withCooldown(() => route && router.push(route))`. */
  function Trigger(s: State, target: Option<string>, prevents: bool): (r: Reaction)
    ensures r.prevented <==> target.Some? && prevents
    ensures r.push.Some? ==> !s.busy && r.push == target && r.push.value != ""
    ensures target.Some? && !s.busy ==> r.after.busy
    ensures s.busy || target.None? ==> r.after == s && r.push.None?
    ensures r.after.pathname == s.pathname && r.after.touchStartY == s.touchStartY
  {
    match target
    case None => Reaction(s, None, false)
    case Some(route) =>
      if s.busy then Reaction(s, None, prevents)
      else Reaction(s.(busy := true), if route != "" then Some(route) else None, prevents)
  }

  /** One event: the new state, the route pushed and whether the default action
      was prevented. A push needs a free gate and leaves it busy, pushes a
      non-empty listed route, and comes with `preventDefault` for wheel and key
      events; only a re-render moves the location. */
  function Step(cfg: Config, s: State, e: Event): (r: Reaction)
    ensures r.push.Some? ==> !s.busy && r.after.busy && r.push.value in cfg.routes && r.push.value != ""
    ensures r.prevented ==> r.push.Some? && (e.Wheel? || e.KeyDown?)
    ensures r.after.pathname == (if e.PathnameChange? then e.newPathname else s.pathname)
  {
    match e
    case Wheel(nested, deltaY, surface) =>
      if nested then Reaction(s, None, false)
      else Trigger(s, Target(cfg, s, deltaY > 0, deltaY < 0, surface), true)
    case KeyDown(key, surface) =>
      Trigger(s, Target(cfg, s, key in DownKeys, key in UpKeys, surface), true)
    case TouchStart(y) =>
      Reaction(s.(touchStartY := Some(y)), None, false)
    case TouchEnd(y, surface) =>
      if s.touchStartY.None? then Reaction(s, None, false)
      else
        var dy := s.touchStartY.value - y;
        var r := Trigger(s, Target(cfg, s, dy > Swipe, dy < -Swipe, surface), false);
        r.(after := r.after.(touchStartY := None))
    case CooldownExpire =>
      Reaction(s.(busy := false), None, false)
    case PathnameChange(p) =>
      Reaction(s.(pathname := p), None, false)
  }

  function PushList(push: Option<string>): seq<string> {
    if push.Some? then [push.value] else []
  }

  /** A wider threshold keeps an edge an edge; with a non-negative threshold a
      surface scrolled to 0 is at the top and one scrolled to its end is at the
      bottom. */
  lemma EdgeMonotone(s: Surface, t1: int, t2: int)
    requires t1 <= t2
    ensures AtTop(s, t1) ==> AtTop(s, t2)
    ensures AtBottom(s, t1) ==> AtBottom(s, t2)
    ensures t1 >= 0 && s.WindowSurface? && s.scrollY == 0 ==> AtTop(s, t1)
    ensures t1 >= 0 && s.ElementSurface? && s.scrollTop == 0 ==> AtTop(s, t1)
    ensures t1 >= 0 && s.WindowSurface? && s.scrollY + s.innerHeight == s.documentScrollHeight ==> AtBottom(s, t1)
    ensures t1 >= 0 && s.ElementSurface? && s.scrollTop + s.clientHeight == s.scrollHeight ==> AtBottom(s, t1)
  {
  }

  /** A sequence of events from `s`: the final state and the routes pushed, in order. */
  function Run(cfg: Config, s: State, events: seq<Event>): (State, seq<string>)
    decreases |events|
  {
    if events == [] then (s, [])
    else
      var r := Step(cfg, s, events[0]);
      var rest := Run(cfg, r.after, events[1..]);
      (rest.0, PushList(r.push) + rest.1)
  }

  // ---------------------------------------------------------------------------
  // Properties

  /** The first route has no previous one, the last no next one, an absent
      pathname has neither, and otherwise the neighbours are `routes[idx ± 1]`. */
  lemma Neighbours(routes: seq<string>, pathname: string)
    ensures var idx := FindIndex(routes, pathname);
      && (PrevRoute(routes, pathname).Some? <==> idx > 0)
      && (idx > 0 ==> PrevRoute(routes, pathname).value == routes[idx - 1])
      && (NextRoute(routes, pathname).Some? <==> 0 <= idx < |routes| - 1)
      && (0 <= idx < |routes| - 1 ==> NextRoute(routes, pathname).value == routes[idx + 1])
    ensures |routes| > 0 && pathname == routes[0] ==> PrevRoute(routes, pathname) == None
    ensures |routes| > 0 && pathname == routes[|routes| - 1] && pathname !in routes[..|routes| - 1]
            ==> NextRoute(routes, pathname) == None
    ensures pathname !in routes ==> PrevRoute(routes, pathname) == None && NextRoute(routes, pathname) == None
  {
  }

  /** What one wheel event does. */
  lemma WheelRouting(cfg: Config, s: State, insideNested: bool, deltaY: int, surface: Surface)
    ensures var r := Step(cfg, s, Wheel(insideNested, deltaY, surface));
            var routes, idx := cfg.routes, FindIndex(cfg.routes, s.pathname);
      && (insideNested ==> r == Reaction(s, None, false))
      && (deltaY == 0 ==> r == Reaction(s, None, false))
      && (r.push.None? ==> r.after == s)
      && (r.push.Some? ==> !s.busy && r.after == s.(busy := true) && r.push.value != "")
      && (r.prevented <==> r.push.Some?)
      && (deltaY > 0 ==>
            (r.push.Some? <==> !insideNested && !s.busy && 0 <= idx < |routes| - 1 && routes[idx + 1] != ""
                               && AtBottom(surface, cfg.edgeThreshold))
            && (r.push.Some? ==> r.push.value == routes[idx + 1]))
      && (deltaY < 0 ==>
            (r.push.Some? <==> !insideNested && !s.busy && idx > 0 && routes[idx - 1] != ""
                               && AtTop(surface, cfg.edgeThreshold))
            && (r.push.Some? ==> r.push.value == routes[idx - 1]))
  {
    Neighbours(cfg.routes, s.pathname);
  }

  /** What one key press does: PageDown, ArrowDown and Space go next at the
      bottom, PageUp and ArrowUp go back at the top, other keys do nothing. */
  lemma KeyRouting(cfg: Config, s: State, key: string, surface: Surface)
    ensures var r := Step(cfg, s, KeyDown(key, surface));
            var routes, idx := cfg.routes, FindIndex(cfg.routes, s.pathname);
      && (key !in DownKeys && key !in UpKeys ==> r == Reaction(s, None, false))
      && (r.push.None? ==> r.after == s)
      && (r.push.Some? ==> !s.busy && r.after == s.(busy := true))
      && (r.prevented <==> r.push.Some?)
      && (key in DownKeys ==>
            (r.push.Some? <==> !s.busy && 0 <= idx < |routes| - 1 && routes[idx + 1] != ""
                               && AtBottom(surface, cfg.edgeThreshold))
            && (r.push.Some? ==> r.push.value == routes[idx + 1]))
      && (key in UpKeys ==>
            (r.push.Some? <==> !s.busy && idx > 0 && routes[idx - 1] != ""
                               && AtTop(surface, cfg.edgeThreshold))
            && (r.push.Some? ==> r.push.value == routes[idx - 1]))
  {
    Neighbours(cfg.routes, s.pathname);
  }

  /** What the end of a touch does: nothing without a recorded start; otherwise a
      swipe up of more than 40 pixels can only go next, one down can only go back,
      a shorter one never navigates, and the start is forgotten. */
  lemma TouchEndRouting(cfg: Config, s: State, endY: int, surface: Surface)
    ensures var r := Step(cfg, s, TouchEnd(endY, surface));
            var routes, idx := cfg.routes, FindIndex(cfg.routes, s.pathname);
      && (s.touchStartY.None? ==> r == Reaction(s, None, false))
      && r.after.touchStartY.None?
      && !r.prevented
      && (s.touchStartY.Some? ==>
            var dy := s.touchStartY.value - endY;
            && (r.push.None? ==> r.after == s.(touchStartY := None))
            && (r.push.Some? ==> !s.busy && r.after == s.(busy := true, touchStartY := None))
            && (-Swipe <= dy <= Swipe ==> r.push.None?)
            && (dy > Swipe ==>
                 (r.push.Some? <==> !s.busy && 0 <= idx < |routes| - 1 && routes[idx + 1] != ""
                                    && AtBottom(surface, cfg.edgeThreshold))
                 && (r.push.Some? ==> r.push.value == routes[idx + 1]))
            && (dy < -Swipe ==>
                 (r.push.Some? <==> !s.busy && idx > 0 && routes[idx - 1] != ""
                                    && AtTop(surface, cfg.edgeThreshold))
                 && (r.push.Some? ==> r.push.value == routes[idx - 1])))
  {
    Neighbours(cfg.routes, s.pathname);
  }

  /** The cooldown gate: while busy no event pushes, and only the timer clears
      the flag; a push always sets it. */
  lemma CooldownGate(cfg: Config, s: State, e: Event)
    ensures var r := Step(cfg, s, e);
      && (s.busy ==> r.push.None?)
      && (r.push.Some? ==> !s.busy && r.after.busy)
      && (s.busy && !r.after.busy ==> e.CooldownExpire?)
      && (r.after.busy && !s.busy ==> r.push.Some? && r.push.value in cfg.routes)
  {
    Neighbours(cfg.routes, s.pathname);
  }

  predicate NoCooldownExpiry(events: seq<Event>) {
    forall i :: 0 <= i < |events| ==> !events[i].CooldownExpire?
  }

  /** Between two firings of the cooldown timer at most one route is pushed, and
      none when the gate is already busy. */
  lemma {:induction false} AtMostOnePushPerCooldown(cfg: Config, s: State, events: seq<Event>)
    requires NoCooldownExpiry(events)
    decreases |events|
    ensures |Run(cfg, s, events).1| <= 1
    ensures s.busy ==> Run(cfg, s, events).1 == [] && Run(cfg, s, events).0.busy
    ensures |Run(cfg, s, events).1| == 1 ==> Run(cfg, s, events).0.busy
  {
    if events != [] {
      var r := Step(cfg, s, events[0]);
      CooldownGate(cfg, s, events[0]);
      assert NoCooldownExpiry(events[1..]) by {
        forall i | 0 <= i < |events[1..]| ensures !events[1..][i].CooldownExpire? {
          assert events[1..][i] == events[i + 1];
        }
      }
      AtMostOnePushPerCooldown(cfg, r.after, events[1..]);
      if r.push.Some? {
        assert r.after.busy;
      }
    }
  }

  /** Every route a run pushes is a non-empty member of the route list. */
  lemma {:induction false} PushesAreRoutes(cfg: Config, s: State, events: seq<Event>)
    decreases |events|
    ensures forall k :: 0 <= k < |Run(cfg, s, events).1| ==>
              Run(cfg, s, events).1[k] in cfg.routes && Run(cfg, s, events).1[k] != ""
  {
    if events != [] {
      var r := Step(cfg, s, events[0]);
      CooldownGate(cfg, s, events[0]);
      PushesAreRoutes(cfg, r.after, events[1..]);
      assert r.push.Some? ==> r.push.value != "" by {
        Neighbours(cfg.routes, s.pathname);
      }
    }
  }

  // ---------------------------------------------------------------------------
  // The component's state and event handlers

  class PageScroller {
    const routes: seq<string>
    const cooldownMs: int
    const edgeThreshold: int
    var pathname: string
    var busy: bool
    var touchStartY: Option<int>
    /** Every route handed to `router.push`, oldest first. */
    var pushed: seq<string>

    function Cfg(): Config {
      Config(routes, edgeThreshold)
    }

    function Snapshot(): State
      reads this
    {
      State(pathname, busy, touchStartY)
    }

    constructor (routes: seq<string>, pathname: string, cooldownMs: int, edgeThreshold: int)
      ensures this.routes == routes && this.cooldownMs == cooldownMs && this.edgeThreshold == edgeThreshold
      ensures Snapshot() == State(pathname, false, None) && pushed == []
    {
      this.routes := routes;
      this.cooldownMs := cooldownMs;
      this.edgeThreshold := edgeThreshold;
      this.pathname := pathname;
      busy := false;
      touchStartY := None;
      pushed := [];
    }

    /** A scroller with the component's default cooldown and edge threshold. */
    constructor WithDefaults(routes: seq<string>, pathname: string)
      ensures this.routes == routes && cooldownMs == DefaultCooldownMs && edgeThreshold == DefaultEdgeThreshold
      ensures Snapshot() == State(pathname, false, None) && pushed == []
    {
      this.routes := routes;
      this.cooldownMs := DefaultCooldownMs;
      this.edgeThreshold := DefaultEdgeThreshold;
      this.pathname := pathname;
      busy := false;
      touchStartY := None;
      pushed := [];
    }

    /** `withCooldown(() => route && router.push(route))`; the timer it starts
        is the later `CooldownExpire` call. */
    method WithCooldown(route: string)
      modifies this
      ensures pathname == old(pathname) && touchStartY == old(touchStartY)
      ensures old(busy) ==> busy && pushed == old(pushed)
      ensures !old(busy) ==> busy && pushed == old(pushed) + (if route != "" then [route] else [])
    {
      if busy {
        return;
      }
      busy := true;
      if route != "" {
        pushed := pushed + [route];
      }
    }

    method OnWheel(insideNested: bool, deltaY: int, surface: Surface) returns (prevented: bool)
      modifies this
      ensures var r := Step(Cfg(), old(Snapshot()), Wheel(insideNested, deltaY, surface));
              Snapshot() == r.after && pushed == old(pushed) + PushList(r.push) && prevented == r.prevented
    {
      prevented := false;
      if insideNested {
        return;
      }
      var next, prev := NextRoute(routes, pathname), PrevRoute(routes, pathname);
      if deltaY > 0 && IsRoute(next) && !busy && AtBottom(surface, edgeThreshold) {
        prevented := true;
        WithCooldown(next.value);
      } else if deltaY < 0 && IsRoute(prev) && !busy && AtTop(surface, edgeThreshold) {
        prevented := true;
        WithCooldown(prev.value);
      }
    }

    method OnKey(key: string, surface: Surface) returns (prevented: bool)
      modifies this
      ensures var r := Step(Cfg(), old(Snapshot()), KeyDown(key, surface));
              Snapshot() == r.after && pushed == old(pushed) + PushList(r.push) && prevented == r.prevented
    {
      prevented := false;
      var next, prev := NextRoute(routes, pathname), PrevRoute(routes, pathname);
      if key in DownKeys && IsRoute(next) && !busy && AtBottom(surface, edgeThreshold) {
        prevented := true;
        WithCooldown(next.value);
      } else if key in UpKeys && IsRoute(prev) && !busy && AtTop(surface, edgeThreshold) {
        prevented := true;
        WithCooldown(prev.value);
      }
    }

    method OnTouchStart(clientY: int)
      modifies this
      ensures Snapshot() == Step(Cfg(), old(Snapshot()), TouchStart(clientY)).after
      ensures pushed == old(pushed)
    {
      touchStartY := Some(clientY);
    }

    method OnTouchEnd(clientY: int, surface: Surface)
      modifies this
      ensures var r := Step(Cfg(), old(Snapshot()), TouchEnd(clientY, surface));
              Snapshot() == r.after && pushed == old(pushed) + PushList(r.push)
    {
      if touchStartY.None? {
        return;
      }
      var dy := touchStartY.value - clientY;
      var next, prev := NextRoute(routes, pathname), PrevRoute(routes, pathname);
      if dy > Swipe && IsRoute(next) && !busy && AtBottom(surface, edgeThreshold) {
        WithCooldown(next.value);
      } else if dy < -Swipe && IsRoute(prev) && !busy && AtTop(surface, edgeThreshold) {
        WithCooldown(prev.value);
      }
      touchStartY := None;
    }

    /** The cooldown timer firing: `busyRef.current = false`. */
    method CooldownExpire()
      modifies this
      ensures Snapshot() == Step(Cfg(), old(Snapshot()), Event.CooldownExpire).after
      ensures pushed == old(pushed)
    {
      busy := false;
    }

    /** A re-render at a new location: the handlers are re-attached with the new
        neighbours while the busy flag and the touch start persist. */
    method PathnameChange(newPathname: string)
      modifies this
      ensures Snapshot() == Step(Cfg(), old(Snapshot()), Event.PathnameChange(newPathname)).after
      ensures pushed == old(pushed)
    {
      pathname := newPathname;
    }
  }

  /** Three sections, on the middle one: a downward wheel at the bottom goes
      to the last section, and a second one during the cooldown does nothing. */
  method CooldownScenario()
  {
    var routes := ["/a", "/a/2", "/a/3"];
    assert FindIndex(routes, "/a/2") == 1;
    var bottom := ElementSurface(600, 1000, 400);
    var p := new PageScroller(routes, "/a/2", DefaultCooldownMs, 4);
    var prevented := p.OnWheel(false, 120, bottom);
    assert prevented && p.pushed == ["/a/3"] && p.busy;
    prevented := p.OnWheel(false, 120, bottom);
    assert !prevented && p.pushed == ["/a/3"];
  }

  /** On the last section a downward wheel at the bottom has nowhere to go,
      while an upward one at the top goes back. */
  method LastRouteScenario()
  {
    var routes := ["/a", "/a/2", "/a/3"];
    assert FindIndex(routes, "/a/3") == 2;
    var p := new PageScroller(routes, "/a/3", DefaultCooldownMs, 4);
    var prevented := p.OnWheel(false, 120, ElementSurface(600, 1000, 400));
    assert !prevented && p.pushed == [];
    prevented := p.OnWheel(false, -120, ElementSurface(0, 1000, 400));
    assert prevented && p.pushed == ["/a/2"];
  }
}
