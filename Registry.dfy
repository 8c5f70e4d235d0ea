/** The window table and how a `windows` argument reshapes it: every listed window is
    opened or rearranged, every unlisted one is closed (mark and sweep over `inplace`). */
module Registry {
  import opened GlkTypes
  import opened Content

  /** The part of the session a window arrangement changes. */
  datatype Reg = Reg(windows: map<WinId, Window>, errors: seq<GlkError>, deferred: seq<Deferred>)

  function RegOf(s: St): Reg {
    Reg(s.windows, s.errors, s.deferred)
  }

  function WithReg(s: St, r: Reg): St {
    s.(windows := r.windows, errors := r.errors, deferred := r.deferred)
  }

  /** The default colour of a new canvas. */
  const DefaultColor := "#FFF"

  /** A window as first created from its argument: no input, no terminators, no hyperlink
      or mouse request, no paging state, an empty history; a grid has no rows yet, a
      buffer no paragraphs, and a canvas the argument's size and the default colour. */
  function NewWindow(a: WindowArg): (w: Window)
    ensures w.id == a.id && w.rock == a.rock && w.Type() == a.wtype
    ensures w.input.None? && w.terminators == {} && !w.reqhyperlink && !w.reqmouse
    ensures w.history == [] && w.historypos == 0
    ensures w.topunseen == 0 && w.pagefrommark == 0 && !w.needspaging && !w.needscroll
  {
    var data := match a.wtype
      case GridType => GridData([], 0)
      case BufferType => BufferData([])
      case GraphicsType => GraphicsData(a.graphwidth, a.graphheight, DefaultColor, DefaultColor);
    Window(a.id, a.rock, data, Coords(0, 0, 0, 0), None, {}, false, false, false, false,
           0, 0, false, false, [], 0, false)
  }

  /** The position of a window: left/top as given, right/bottom measured from the far edges
      of the surface. */
  function Place(m: Metrics, a: WindowArg): (c: Coords)
    ensures c.left + a.width + c.right == m.width
    ensures c.top + a.height + c.bottom == m.height
  {
    Coords(a.left, a.top, m.width - (a.left + a.width), m.height - (a.top + a.height))
  }

  /** The type-specific rearrangement of a window's payload: a grid gets the argument's
      row count, a canvas the argument's size (on a change of size it is cleared to its
      default colour, and a redraw is owed). The second component says a redraw is owed. */
  function Arrange(d: Payload, a: WindowArg, isNew: bool): (r: (Payload, bool))
    ensures r.0.GridData? == d.GridData? && r.0.BufferData? == d.BufferData?
    ensures r.0.GridData? ==> |r.0.lines| == a.gridheight
    ensures r.1 <==> !isNew && d.GraphicsData? && (d.graphwidth != a.graphwidth || d.graphheight != a.graphheight)
  {
    match d
    case GridData(lines, _) => (GridData(ResizeLines(lines, a.gridheight), a.gridwidth), false)
    case BufferData(_) => (d, false)
    case GraphicsData(gw, gh, dc, _) =>
      if !isNew && (gw != a.graphwidth || gh != a.graphheight) then
        (GraphicsData(a.graphwidth, a.graphheight, dc, dc), true)
      else (d, false)
  }

  /** The window an entry leaves behind, given the window of that id before it (if any):
      created if new, marked in place, rearranged and placed. A known window keeps its type,
      its history and its input request. */
  function Accepted(prior: Option<Window>, m: Metrics, a: WindowArg): (w: Window)
    ensures w.inplace && w.coords == Place(m, a)
    ensures w.data.GridData? ==> |w.data.lines| == a.gridheight
    ensures prior.Some? ==>
      && w.Type() == prior.value.Type() && w.history == prior.value.history
      && w.historypos == prior.value.historypos && w.input == prior.value.input
    ensures prior.None? ==>
      && w.Type() == a.wtype && w.input.None? && w.history == [] && w.historypos == 0
      && w.topunseen == 0 && w.pagefrommark == 0 && !w.needspaging
  {
    var w0 := if prior.None? then NewWindow(a) else prior.value;
    w0.(inplace := true, data := Arrange(w0.data, a, prior.None?).0, coords := Place(m, a))
  }

  /** A known window described with another type is reported, and keeps its own type. */
  function Mismatch(prior: Option<Window>, a: WindowArg): (e: seq<GlkError>)
    ensures e != [] <==> prior.Some? && prior.value.Type() != a.wtype
    ensures |e| <= 1
  {
    if prior.Some? && prior.value.Type() != a.wtype
    then [TypeMismatch(a.id, prior.value.Type(), a.wtype)] else []
  }

  /** The redraw a window arrangement owes: a known canvas whose size changes. */
  function Redraws(prior: Option<Window>, a: WindowArg): (r: seq<Deferred>)
    ensures r != [] <==> (prior.Some? && prior.value.data.GraphicsData? &&
      (prior.value.data.graphwidth != a.graphwidth || prior.value.data.graphheight != a.graphheight))
  {
    if prior.Some? && Arrange(prior.value.data, a, false).1 then [RedrawLater(a.id)] else []
  }

  /** A resized canvas takes its default colour as its background. */
  lemma ResizedCanvasCleared(prior: Window, m: Metrics, a: WindowArg)
    requires prior.data.GraphicsData?
    requires prior.data.graphwidth != a.graphwidth || prior.data.graphheight != a.graphheight
    ensures Accepted(Some(prior), m, a).data ==
      GraphicsData(a.graphwidth, a.graphheight, prior.data.defcolor, prior.data.defcolor)
  {
  }

  function Prior(ws: map<WinId, Window>, id: WinId): Option<Window> {
    if id in ws then Some(ws[id]) else None
  }

  /** accept_one_window. */
  function AcceptOne(r: Reg, m: Metrics, a: WindowArg): (r': Reg)
    ensures r'.windows.Keys == r.windows.Keys + {a.id}
    ensures forall k :: k in r.windows && k != a.id ==> r'.windows[k] == r.windows[k]
    ensures r.errors <= r'.errors && |r'.errors| <= |r.errors| + 1
    ensures r.deferred <= r'.deferred
  {
    var prior := Prior(r.windows, a.id);
    Reg(r.windows[a.id := Accepted(prior, m, a)], r.errors + Mismatch(prior, a),
        r.deferred + Redraws(prior, a))
  }

  /** The entries of a `windows` argument, accepted one by one: no window is closed here,
      errors and owed redraws are only added to, and at most one error per entry. */
  function AcceptAll(r: Reg, m: Metrics, args: seq<WindowArg>): (r': Reg)
    ensures r.windows.Keys <= r'.windows.Keys
    ensures r.errors <= r'.errors && |r'.errors| <= |r.errors| + |args|
    ensures r.deferred <= r'.deferred
  {
    if args == [] then r else AcceptOne(AcceptAll(r, m, args[..|args| - 1]), m, args[|args| - 1])
  }

  /** Marking: every window is flagged as not in place. */
  function Mark(ws: map<WinId, Window>): (r: map<WinId, Window>)
    ensures r.Keys == ws.Keys
    ensures forall k :: k in r ==> r[k] == ws[k].(inplace := false)
  {
    map k | k in ws :: ws[k].(inplace := false)
  }

  /** Sweeping: the windows not flagged in place are closed. */
  function Sweep(ws: map<WinId, Window>): (r: map<WinId, Window>)
    ensures forall k :: k in r <==> k in ws && ws[k].inplace
    ensures forall k :: k in r ==> r[k] == ws[k]
  {
    map k | k in ws && ws[k].inplace :: ws[k]
  }

  /** accept_windowset. */
  function WindowSet(r: Reg, m: Metrics, args: seq<WindowArg>): (r': Reg)
    ensures forall k :: k in r'.windows ==> r'.windows[k].inplace
    ensures r.errors <= r'.errors && |r'.errors| <= |r.errors| + |args|
    ensures r.deferred <= r'.deferred
  {
    var accepted := AcceptAll(r.(windows := Mark(r.windows)), m, args);
    accepted.(windows := Sweep(accepted.windows))
  }

  /** The ids the argument lists. */
  function Listed(args: seq<WindowArg>): set<WinId> {
    set i | 0 <= i < |args| :: args[i].id
  }

  lemma ListedInit(args: seq<WindowArg>)
    requires args != []
    ensures Listed(args) == Listed(args[..|args| - 1]) + {args[|args| - 1].id}
  {
    var init := args[..|args| - 1];
    assert forall i :: 0 <= i < |init| ==> init[i] == args[i];
  }

  /** Through the arrangement, the table holds the old windows and the listed ones. */
  lemma {:induction false} AcceptAllKeys(r: Reg, m: Metrics, args: seq<WindowArg>)
    ensures AcceptAll(r, m, args).windows.Keys == r.windows.Keys + Listed(args)
  {
    if args != [] {
      AcceptAllKeys(r, m, args[..|args| - 1]);
      ListedInit(args);
    }
  }

  /** Starting from a marked table, a window is in place exactly when it is listed. */
  lemma {:induction false} AcceptAllMarks(r: Reg, m: Metrics, args: seq<WindowArg>)
    requires forall k :: k in r.windows ==> !r.windows[k].inplace
    ensures var r' := AcceptAll(r, m, args);
      forall k :: k in r'.windows ==> (r'.windows[k].inplace <==> k in Listed(args))
  {
    if args != [] {
      var init := args[..|args| - 1];
      AcceptAllMarks(r, m, init);
      AcceptAllKeys(r, m, init);
      ListedInit(args);
    }
  }

  /** After an arrangement the table holds exactly the listed windows. */
  lemma WindowSetKeys(r: Reg, m: Metrics, args: seq<WindowArg>)
    ensures WindowSet(r, m, args).windows.Keys == Listed(args)
  {
    AcceptAllKeys(r.(windows := Mark(r.windows)), m, args);
    AcceptAllMarks(r.(windows := Mark(r.windows)), m, args);
  }

  /** A window that was open before and is listed keeps its type, its history and its
      input request. */
  lemma {:induction false} AcceptAllKeepsSurvivors(r: Reg, m: Metrics, args: seq<WindowArg>, k: WinId)
    requires k in r.windows
    ensures var r' := AcceptAll(r, m, args);
      && k in r'.windows
      && r'.windows[k].Type() == r.windows[k].Type()
      && r'.windows[k].history == r.windows[k].history
      && r'.windows[k].historypos == r.windows[k].historypos
      && r'.windows[k].input == r.windows[k].input
  {
    if args != [] {
      AcceptAllKeepsSurvivors(r, m, args[..|args| - 1], k);
    }
  }

  lemma WindowSetKeepsSurvivors(r: Reg, m: Metrics, args: seq<WindowArg>, k: WinId)
    requires k in r.windows && k in Listed(args)
    ensures var r' := WindowSet(r, m, args);
      && k in r'.windows
      && r'.windows[k].Type() == r.windows[k].Type()
      && r'.windows[k].history == r.windows[k].history
      && r'.windows[k].input == r.windows[k].input
  {
    WindowSetKeys(r, m, args);
    AcceptAllKeepsSurvivors(r.(windows := Mark(r.windows)), m, args, k);
  }

  /** A window that was not open before starts with the type of the first entry that lists
      it, no input, an empty history at position 0, and zero paging cursors. */
  lemma {:induction false} AcceptAllCreates(r: Reg, m: Metrics, args: seq<WindowArg>, k: WinId, i: int)
    requires k !in r.windows && 0 <= i < |args| && args[i].id == k
    requires forall j :: 0 <= j < i ==> args[j].id != k
    ensures k in AcceptAll(r, m, args).windows
    ensures var w := AcceptAll(r, m, args).windows[k];
      && w.Type() == args[i].wtype && w.input.None?
      && w.history == [] && w.historypos == 0
      && w.topunseen == 0 && w.pagefrommark == 0 && !w.needspaging
  {
    var n := |args| - 1;
    if i < n {
      AcceptAllCreates(r, m, args[..n], k, i);
    } else {
      assert forall j :: 0 <= j < |args[..n]| ==> args[..n][j].id != k;
      AcceptAllAbsent(r, m, args[..n], k);
    }
  }

  lemma {:induction false} AcceptAllAbsent(r: Reg, m: Metrics, args: seq<WindowArg>, k: WinId)
    requires k !in r.windows && forall j :: 0 <= j < |args| ==> args[j].id != k
    ensures k !in AcceptAll(r, m, args).windows
  {
    if args != [] {
      AcceptAllAbsent(r, m, args[..|args| - 1], k);
    }
  }

  /** A listed window is placed, and a grid sized, by the last entry that lists it. */
  lemma {:induction false} AcceptAllLastPlaces(r: Reg, m: Metrics, args: seq<WindowArg>, i: int)
    requires 0 <= i < |args| && forall j :: i < j < |args| ==> args[j].id != args[i].id
    ensures args[i].id in AcceptAll(r, m, args).windows
    ensures var w := AcceptAll(r, m, args).windows[args[i].id];
      && w.coords == Place(m, args[i])
      && w.coords.right == m.width - (args[i].left + args[i].width)
      && w.coords.bottom == m.height - (args[i].top + args[i].height)
      && (w.data.GridData? ==> |w.data.lines| == args[i].gridheight)
  {
    var n := |args| - 1;
    if i < n {
      AcceptAllLastPlaces(r, m, args[..n], i);
    }
  }
}
