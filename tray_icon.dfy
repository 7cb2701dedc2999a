/** The tray icon's visibility controller (initTrayIcon, showTrayIcon and
    hideTrayIcon in src/trayicon.c). The X server is not modelled: its
    replies are inputs, and the requests sent to it are recorded as effects. */
module TrayIcon {
  import opened Wrappers
  import opened IconPixmap
  import opened TrayProtocol

  /** A request made to the X server. */
  datatype Effect =
    | InternAtom(name: string)
    | GetSelectionOwner(selection: nat)
    | CreateWindow(x: int, y: int, width: nat, height: nat, borderWidth: nat)
    | SelectInput(window: nat)
    | SendEvent(destination: nat, propagate: bool, eventMask: nat, message: ClientMessage)
    | SetBackground(window: nat, plots: seq<Plot>)
    | MapWindow(window: nat)
    | UnmapWindow(window: nat)
    | Flush

  /** The module globals: 0 stands for no atom or no window. */
  datatype TrayState = TrayState(
    traySelectionAtom: nat, trayOpcodeAtom: nat, trayWindow: nat, iconWindow: nat, iconVisible: bool)

  /** The globals as statically initialised. */
  const Initial := TrayState(0, 0, 0, 0, false)

  /** The globals after initTrayIcon, given what the server answered: the two
      interned atoms, the selection owner, and the window it created. */
  function InitState(s: TrayState, selectionAtom: nat, opcodeAtom: nat, owner: nat, created: nat): TrayState
  {
    s.(traySelectionAtom := selectionAtom, trayOpcodeAtom := opcodeAtom, trayWindow := owner,
       iconWindow := if owner != 0 then created else s.iconWindow)
  }

  /** The requests initTrayIcon makes. */
  function InitEffects(screen: CInt, selectionAtom: nat, owner: nat, created: nat): seq<Effect>
  {
    [InternAtom(TraySelectionName(screen)), InternAtom(OpcodeAtomName), GetSelectionOwner(selectionAtom)]
    + if owner != 0 then [CreateWindow(0, 0, IconSize, IconSize, 0), SelectInput(created)] else []
  }

  predicate CanShow(s: TrayState)
  {
    s.trayWindow != 0 && s.iconWindow != 0 && !s.iconVisible
  }

  predicate CanHide(s: TrayState)
  {
    s.trayWindow != 0 && s.iconWindow != 0 && s.iconVisible
  }

  function AfterShow(s: TrayState): TrayState
  {
    if CanShow(s) then s.(iconVisible := true) else s
  }

  /** The requests showTrayIcon makes: the dock request, the rendered
      background, the map, the flush. */
  function ShowEffects(s: TrayState, pal: Palette): seq<Effect>
  {
    if CanShow(s) then
      [SendEvent(s.trayWindow, false, NoEventMask, DockRequest(s.trayWindow, s.trayOpcodeAtom, s.iconWindow)),
       SetBackground(s.iconWindow, GridPlots(pal, IconSize)),
       MapWindow(s.iconWindow),
       Flush]
    else []
  }

  function AfterHide(s: TrayState): TrayState
  {
    if CanHide(s) then s.(iconVisible := false) else s
  }

  function HideEffects(s: TrayState): seq<Effect>
  {
    if CanHide(s) then [UnmapWindow(s.iconWindow), Flush] else []
  }

  /** A call made by the lock logic after initialisation. */
  datatype Request = ShowIcon(pal: Palette) | HideIcon

  function Step(s: TrayState, r: Request): TrayState
  {
    match r
    case ShowIcon(_) => AfterShow(s)
    case HideIcon => AfterHide(s)
  }

  function StepEffects(s: TrayState, r: Request): seq<Effect>
  {
    match r
    case ShowIcon(pal) => ShowEffects(s, pal)
    case HideIcon => HideEffects(s)
  }

  /** The globals after a sequence of calls. */
  function Run(s: TrayState, rs: seq<Request>): TrayState
    decreases |rs|
  {
    if rs == [] then s else Run(Step(s, rs[0]), rs[1..])
  }

  /** The requests a sequence of calls makes, in order. */
  function RunEffects(s: TrayState, rs: seq<Request>): seq<Effect>
    decreases |rs|
  {
    if rs == [] then [] else StepEffects(s, rs[0]) + RunEffects(Step(s, rs[0]), rs[1..])
  }

  /** The windows mapped after the given requests, starting from the set v;
      None once a window was mapped while mapped or unmapped while unmapped. */
  function Replay(v: Option<set<nat>>, effects: seq<Effect>): Option<set<nat>>
    decreases |effects|
  {
    if effects == [] then v else Replay(ReplayOne(v, effects[0]), effects[1..])
  }

  /** One request's effect on the set of mapped windows. */
  function ReplayOne(v: Option<set<nat>>, e: Effect): Option<set<nat>>
  {
    match e
    case MapWindow(w) => if v.Some? && w !in v.value then Some(v.value + {w}) else None
    case UnmapWindow(w) => if v.Some? && w in v.value then Some(v.value - {w}) else None
    case _ => v
  }

  /** The windows the globals say are mapped: the icon window while it is
      visible, none otherwise. */
  function Mapped(s: TrayState): set<nat>
  {
    if s.iconVisible then {s.iconWindow} else {}
  }

  function CountMaps(effects: seq<Effect>): nat
  {
    if effects == [] then 0 else (if effects[0].MapWindow? then 1 else 0) + CountMaps(effects[1..])
  }

  function CountUnmaps(effects: seq<Effect>): nat
  {
    if effects == [] then 0 else (if effects[0].UnmapWindow? then 1 else 0) + CountUnmaps(effects[1..])
  }

  /** The icon as the class sees it: the module globals and, as a ghost, the
      requests made so far. */
  class Tray {
    var traySelectionAtom: nat
    var trayOpcodeAtom: nat
    var trayWindow: nat
    var iconWindow: nat
    var iconVisible: bool
    ghost var effects: seq<Effect>

    function State(): TrayState
      reads this
    {
      TrayState(traySelectionAtom, trayOpcodeAtom, trayWindow, iconWindow, iconVisible)
    }

    /** The icon window is mapped exactly while the flag is set, no other
        window is mapped, and no map or unmap was ever redundant. */
    ghost predicate Valid()
      reads this
    {
      Replay(Some({}), effects) == Some(Mapped(State()))
    }

    constructor ()
      ensures Valid() && State() == Initial && effects == []
    {
      traySelectionAtom, trayOpcodeAtom := 0, 0;
      trayWindow, iconWindow := 0, 0;
      iconVisible := false;
      effects := [];
    }

    /** initTrayIcon, called once, on the statically initialised globals:
        the server's replies are the parameters. */
    method Init(screen: CInt, selectionAtom: nat, opcodeAtom: nat, owner: nat, created: nat)
      requires Valid() && State() == Initial
      modifies this
      ensures Valid()
      ensures State() == InitState(old(State()), selectionAtom, opcodeAtom, owner, created)
      ensures effects == old(effects) + InitEffects(screen, selectionAtom, owner, created)
    {
      var name := TraySelectionName(screen);
      traySelectionAtom := selectionAtom;
      trayOpcodeAtom := opcodeAtom;
      effects := effects + [InternAtom(name), InternAtom(OpcodeAtomName)];
      trayWindow := owner;
      effects := effects + [GetSelectionOwner(traySelectionAtom)];
      if trayWindow != 0 {
        iconWindow := created;
        effects := effects + [CreateWindow(0, 0, IconSize, IconSize, 0), SelectInput(iconWindow)];
      }
      assert effects == old(effects) + InitEffects(screen, selectionAtom, owner, created);
      ReplayAppend(Some({}), old(effects), InitEffects(screen, selectionAtom, owner, created));
      InitKeepsMapped(Some({}), screen, selectionAtom, owner, created);
    }

    /** showTrayIcon: black, white and the outcome of allocating red are the
        server's replies. */
    method Show(black: nat, white: nat, red: Option<nat>)
      requires Valid()
      modifies this
      ensures Valid()
      ensures State() == AfterShow(old(State()))
      ensures effects == old(effects) + ShowEffects(old(State()), ResolvePalette(black, white, red))
    {
      if trayWindow == 0 || iconWindow == 0 || iconVisible {
        return;
      }
      var ev := DockRequest(trayWindow, trayOpcodeAtom, iconWindow);
      effects := effects + [SendEvent(trayWindow, false, NoEventMask, ev)];
      var pixmap, plots := CreateIconPixmap(black, white, red);
      effects := effects + [SetBackground(iconWindow, plots)];
      effects := effects + [MapWindow(iconWindow), Flush];
      iconVisible := true;
      assert effects == old(effects) + ShowEffects(old(State()), ResolvePalette(black, white, red));
      ReplayAppend(Some({}), old(effects), ShowEffects(old(State()), ResolvePalette(black, white, red)));
      StepKeepsMapped(old(State()), ShowIcon(ResolvePalette(black, white, red)));
    }

    /** hideTrayIcon. */
    method Hide()
      requires Valid()
      modifies this
      ensures Valid()
      ensures State() == AfterHide(old(State()))
      ensures effects == old(effects) + HideEffects(old(State()))
    {
      if trayWindow == 0 || iconWindow == 0 || !iconVisible {
        return;
      }
      effects := effects + [UnmapWindow(iconWindow), Flush];
      iconVisible := false;
      assert effects == old(effects) + HideEffects(old(State()));
      ReplayAppend(Some({}), old(effects), HideEffects(old(State())));
      StepKeepsMapped(old(State()), HideIcon);
    }
  }

  lemma {:induction false} ReplayAppend(v: Option<set<nat>>, a: seq<Effect>, b: seq<Effect>)
    ensures Replay(v, a + b) == Replay(Replay(v, a), b)
    decreases |a|
  {
    if a != [] {
      assert (a + b)[0] == a[0];
      assert (a + b)[1..] == a[1..] + b;
      ReplayAppend(ReplayOne(v, a[0]), a[1..], b);
    } else {
      assert a + b == b;
    }
  }

  lemma ReplayCons(v: Option<set<nat>>, e: Effect, rest: seq<Effect>)
    ensures Replay(v, [e] + rest) == Replay(ReplayOne(v, e), rest)
  {
    assert ([e] + rest)[1..] == rest;
  }

  /** The initialisation requests neither map nor unmap. */
  lemma InitKeepsMapped(v: Option<set<nat>>, screen: CInt, selectionAtom: nat, owner: nat, created: nat)
    ensures Replay(v, InitEffects(screen, selectionAtom, owner, created)) == v
  {
    var tail: seq<Effect> := if owner != 0 then [CreateWindow(0, 0, IconSize, IconSize, 0), SelectInput(created)] else [];
    ReplayCons(v, InternAtom(TraySelectionName(screen)), [InternAtom(OpcodeAtomName), GetSelectionOwner(selectionAtom)] + tail);
    ReplayCons(v, InternAtom(OpcodeAtomName), [GetSelectionOwner(selectionAtom)] + tail);
    ReplayCons(v, GetSelectionOwner(selectionAtom), tail);
    if owner != 0 {
      ReplayCons(v, CreateWindow(0, 0, IconSize, IconSize, 0), [SelectInput(created)]);
      ReplayCons(v, SelectInput(created), []);
    }
    assert InitEffects(screen, selectionAtom, owner, created)
      == [InternAtom(TraySelectionName(screen))] + ([InternAtom(OpcodeAtomName)] + ([GetSelectionOwner(selectionAtom)] + tail));
  }

  /** Each call keeps the mapped windows equal to what the globals say,
      without a redundant map or unmap. */
  lemma StepKeepsMapped(s: TrayState, r: Request)
    ensures Replay(Some(Mapped(s)), StepEffects(s, r)) == Some(Mapped(Step(s, r)))
  {
    var v := Some(Mapped(s));
    match r
    case ShowIcon(pal) =>
      if CanShow(s) {
        var e := ShowEffects(s, pal);
        ReplayCons(v, e[0], e[1..]);
        ReplayCons(v, e[1], e[2..]);
        ReplayCons(v, e[2], e[3..]);
        assert {} + {s.iconWindow} == {s.iconWindow};
        ReplayCons(Some({s.iconWindow}), e[3], []);
        assert e == [e[0]] + e[1..] && e[1..] == [e[1]] + e[2..] && e[2..] == [e[2]] + e[3..] && e[3..] == [e[3]] + [];
      }
    case HideIcon =>
      if CanHide(s) {
        var e := HideEffects(s);
        ReplayCons(v, e[0], e[1..]);
        assert {s.iconWindow} - {s.iconWindow} == {};
        ReplayCons(Some({}), e[1], []);
        assert e == [e[0]] + e[1..] && e[1..] == [e[1]] + [];
      }
  }

  lemma RunCons(s: TrayState, r: Request, rs: seq<Request>)
    ensures Run(s, [r] + rs) == Run(Step(s, r), rs)
    ensures RunEffects(s, [r] + rs) == StepEffects(s, r) + RunEffects(Step(s, r), rs)
  {
    assert ([r] + rs)[1..] == rs;
  }

  /** showTrayIcon does something exactly when the tray and the icon window
      exist and the icon is hidden; otherwise it sends nothing, maps nothing
      and changes nothing. */
  lemma ShowGuard(s: TrayState, pal: Palette)
    ensures !CanShow(s) <==> AfterShow(s) == s && ShowEffects(s, pal) == []
    ensures CanShow(s) ==> AfterShow(s) == s.(iconVisible := true)
  {
  }

  /** hideTrayIcon does something exactly when the tray and the icon window
      exist and the icon is shown; then it only clears the flag. */
  lemma HideGuard(s: TrayState)
    ensures !CanHide(s) <==> AfterHide(s) == s && HideEffects(s) == []
    ensures CanHide(s) ==> AfterHide(s) == s.(iconVisible := false) && HideEffects(s) == [UnmapWindow(s.iconWindow), Flush]
  {
  }

  /** Showing twice is showing once, whatever the second call's server
      replies; hiding twice is hiding once. */
  lemma ShowHideIdempotent(s: TrayState, p: Palette, q: Palette)
    ensures Run(s, [ShowIcon(p), ShowIcon(q)]) == Run(s, [ShowIcon(p)])
    ensures RunEffects(s, [ShowIcon(p), ShowIcon(q)]) == RunEffects(s, [ShowIcon(p)])
    ensures Run(s, [HideIcon, HideIcon]) == Run(s, [HideIcon])
    ensures RunEffects(s, [HideIcon, HideIcon]) == RunEffects(s, [HideIcon])
  {
    RunCons(s, ShowIcon(p), [ShowIcon(q)]);
    RunCons(AfterShow(s), ShowIcon(q), []);
    RunCons(s, ShowIcon(p), []);
    RunCons(s, HideIcon, [HideIcon]);
    RunCons(AfterHide(s), HideIcon, []);
    RunCons(s, HideIcon, []);
  }

  /** Hiding a freshly shown icon restores the globals. */
  lemma HideUndoesShow(s: TrayState)
    requires CanShow(s)
    ensures AfterHide(AfterShow(s)) == s
  {
  }

  /** Without a tray manager every sequence of calls is inert. */
  lemma {:induction false} NoTrayRunIsInert(s: TrayState, rs: seq<Request>)
    requires s.trayWindow == 0
    ensures Run(s, rs) == s && RunEffects(s, rs) == []
    decreases |rs|
  {
    if rs != [] {
      NoTrayRunIsInert(Step(s, rs[0]), rs[1..]);
    }
  }

  /** With no selection owner, initialisation creates no window and every
      later call does nothing; the icon stays hidden. */
  lemma NoOwnerDisablesFeature(screen: CInt, selectionAtom: nat, opcodeAtom: nat, created: nat, rs: seq<Request>)
    ensures InitState(Initial, selectionAtom, opcodeAtom, 0, created).iconWindow == 0
    ensures InitEffects(screen, selectionAtom, 0, created) ==
      [InternAtom(TraySelectionName(screen)), InternAtom(OpcodeAtomName), GetSelectionOwner(selectionAtom)]
    ensures Run(InitState(Initial, selectionAtom, opcodeAtom, 0, created), rs) == InitState(Initial, selectionAtom, opcodeAtom, 0, created)
    ensures RunEffects(InitState(Initial, selectionAtom, opcodeAtom, 0, created), rs) == []
    ensures !Run(InitState(Initial, selectionAtom, opcodeAtom, 0, created), rs).iconVisible
  {
    NoTrayRunIsInert(InitState(Initial, selectionAtom, opcodeAtom, 0, created), rs);
  }

  /** Whatever the calls, no window is mapped twice or unmapped twice in a
      row, and the icon window is the one mapped exactly while the flag is set. */
  lemma {:induction false} RunKeepsMapped(s: TrayState, rs: seq<Request>)
    ensures Replay(Some(Mapped(s)), RunEffects(s, rs)) == Some(Mapped(Run(s, rs)))
    decreases |rs|
  {
    if rs != [] {
      var t := Step(s, rs[0]);
      ReplayAppend(Some(Mapped(s)), StepEffects(s, rs[0]), RunEffects(t, rs[1..]));
      StepKeepsMapped(s, rs[0]);
      RunKeepsMapped(t, rs[1..]);
    }
  }

  /** hide, show, hide, hide, show from a hidden icon with a tray: shown at
      the end, after two maps and one unmap. */
  lemma HideShowHideHideShow(s: TrayState, pal: Palette)
    requires CanShow(s)
    ensures Run(s, [HideIcon, ShowIcon(pal), HideIcon, HideIcon, ShowIcon(pal)]) == s.(iconVisible := true)
    ensures CountMaps(RunEffects(s, [HideIcon, ShowIcon(pal), HideIcon, HideIcon, ShowIcon(pal)])) == 2
    ensures CountUnmaps(RunEffects(s, [HideIcon, ShowIcon(pal), HideIcon, HideIcon, ShowIcon(pal)])) == 1
    ensures RunEffects(s, [HideIcon, ShowIcon(pal), HideIcon, HideIcon, ShowIcon(pal)])
      == ShowEffects(s, pal) + HideEffects(s.(iconVisible := true)) + ShowEffects(s, pal)
  {
    var shown := s.(iconVisible := true);
    var e := ShowEffects(s, pal);
    var u := HideEffects(shown);
    RunCons(shown, ShowIcon(pal), []);
    RunCons(s, HideIcon, [ShowIcon(pal)]);
    RunCons(shown, HideIcon, [HideIcon, ShowIcon(pal)]);
    RunCons(s, ShowIcon(pal), [HideIcon, HideIcon, ShowIcon(pal)]);
    RunCons(s, HideIcon, [ShowIcon(pal), HideIcon, HideIcon, ShowIcon(pal)]);
    var all := RunEffects(s, [HideIcon, ShowIcon(pal), HideIcon, HideIcon, ShowIcon(pal)]);
    assert all == e + (u + e);
    CountAppend(u, e);
    CountAppend(e, u + e);
    ShowCounts(s, pal);
    HideCounts(shown);
  }

  /** An effective show maps once and unmaps nothing. */
  lemma ShowCounts(s: TrayState, pal: Palette)
    requires CanShow(s)
    ensures CountMaps(ShowEffects(s, pal)) == 1 && CountUnmaps(ShowEffects(s, pal)) == 0
  {
    var e := ShowEffects(s, pal);
    CountCons(e[0], e[1..]);
    CountCons(e[1], e[2..]);
    CountCons(e[2], e[3..]);
    CountCons(e[3], []);
    assert e == [e[0]] + e[1..] && e[1..] == [e[1]] + e[2..] && e[2..] == [e[2]] + e[3..] && e[3..] == [e[3]] + [];
  }

  /** An effective hide unmaps once and maps nothing. */
  lemma HideCounts(s: TrayState)
    requires CanHide(s)
    ensures CountMaps(HideEffects(s)) == 0 && CountUnmaps(HideEffects(s)) == 1
  {
    var u := HideEffects(s);
    CountCons(u[0], u[1..]);
    CountCons(u[1], []);
    assert u == [u[0]] + u[1..] && u[1..] == [u[1]] + [];
  }

  lemma CountCons(e: Effect, rest: seq<Effect>)
    ensures CountMaps([e] + rest) == (if e.MapWindow? then 1 else 0) + CountMaps(rest)
    ensures CountUnmaps([e] + rest) == (if e.UnmapWindow? then 1 else 0) + CountUnmaps(rest)
  {
    assert ([e] + rest)[1..] == rest;
  }

  lemma {:induction false} CountAppend(a: seq<Effect>, b: seq<Effect>)
    ensures CountMaps(a + b) == CountMaps(a) + CountMaps(b)
    ensures CountUnmaps(a + b) == CountUnmaps(a) + CountUnmaps(b)
    decreases |a|
  {
    if a == [] {
      assert a + b == b;
    } else {
      assert a + b == [a[0]] + (a[1..] + b);
      CountCons(a[0], a[1..] + b);
      CountAppend(a[1..], b);
    }
  }

  /** With a tray manager present, initialising and then showing sends the
      dock request for the new window, sets its background to the rendered
      glyph and maps it before flushing; hiding then unmaps it and touches
      no pixmap. */
  lemma InitShowHide(screen: CInt, selectionAtom: nat, opcodeAtom: nat, owner: nat, created: nat, pal: Palette)
    requires owner != 0 && created != 0
    ensures var s := InitState(Initial, selectionAtom, opcodeAtom, owner, created);
      && RunEffects(s, [ShowIcon(pal), HideIcon]) ==
        [SendEvent(owner, false, NoEventMask, DockRequest(owner, opcodeAtom, created)),
         SetBackground(created, GridPlots(pal, IconSize)),
         MapWindow(created), Flush, UnmapWindow(created), Flush]
      && Run(s, [ShowIcon(pal), HideIcon]) == s
  {
    var s := InitState(Initial, selectionAtom, opcodeAtom, owner, created);
    RunCons(s, ShowIcon(pal), [HideIcon]);
    RunCons(AfterShow(s), HideIcon, []);
  }
}
