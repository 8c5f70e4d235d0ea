/** The input requests of an update: which open requests it cancels, and which requests it
    opens or renews, with their hyperlink and mouse flags. */
module Inputs {
  import opened GlkTypes
  import opened Content
  import opened Ordering

  /** The typed entries of an update's `input` list by window: a later entry for the same
      window overrides an earlier one. */
  function TypedMap(args: seq<InputArg>): (m: map<WinId, InputArg>)
    ensures forall k :: k in m ==> m[k].id == k && m[k].kind.Some?
  {
    if args == [] then map[]
    else
      var m := TypedMap(args[..|args| - 1]);
      var a := args[|args| - 1];
      if a.kind.Some? then m[a.id := a] else m
  }

  /** A window has a typed entry exactly when some entry for it has a type, and the entry
      kept is the last typed one. */
  lemma {:induction false} TypedMapLast(args: seq<InputArg>, id: WinId)
    ensures id in TypedMap(args) <==> exists i :: 0 <= i < |args| && args[i].id == id && args[i].kind.Some?
    ensures id in TypedMap(args) ==> exists i ::
      && 0 <= i < |args| && TypedMap(args)[id] == args[i] && args[i].id == id && args[i].kind.Some?
      && forall j :: i < j < |args| && args[j].id == id ==> args[j].kind.None?
  {
    if args != [] {
      var n := |args| - 1;
      var init := args[..n];
      TypedMapLast(init, id);
      assert forall i :: 0 <= i < n ==> init[i] == args[i];
      if args[n].id == id && args[n].kind.Some? {
        assert TypedMap(args)[id] == args[n];
      } else if id in TypedMap(init) {
        var i :| && 0 <= i < n && TypedMap(init)[id] == init[i] && init[i].id == id && init[i].kind.Some?
                 && forall j :: i < j < n && init[j].id == id ==> init[j].kind.None?;
        assert TypedMap(args)[id] == args[i];
      }
    }
  }

  /** The windows some entry asks hyperlink (or mouse) input for. */
  function Hyperlinks(args: seq<InputArg>): set<WinId> {
    set i | 0 <= i < |args| && args[i].hyperlink :: args[i].id
  }

  function Mice(args: seq<InputArg>): set<WinId> {
    set i | 0 <= i < |args| && args[i].mouse :: args[i].id
  }

  /** A window's open request is cancelled when the update has no typed entry for it, or
      one with a later generation than the open request. */
  predicate Cancels(w: Window, typed: map<WinId, InputArg>, id: WinId) {
    w.input.Some? && (id !in typed || typed[id].gen > w.input.value.req.gen)
  }

  /** accept_inputcancel: exactly the cancelled windows lose their request (and its input
      element); every other window is left as it was. */
  function InputCancel(ws: map<WinId, Window>, args: seq<InputArg>): (r: map<WinId, Window>)
    ensures r.Keys == ws.Keys
    ensures forall k :: k in ws ==>
      (if Cancels(ws[k], TypedMap(args), k) then r[k] == ws[k].(input := None) else r[k] == ws[k])
    ensures forall k :: k in ws ==> (r[k].input.None? <==> ws[k].input.None? || Cancels(ws[k], TypedMap(args), k))
  {
    var typed := TypedMap(args);
    map k | k in ws :: if Cancels(ws[k], typed, k) then ws[k].(input := None) else ws[k]
  }

  /** The text a freshly created input element starts with: a line request's initial text. */
  function InitialValue(a: InputArg): string {
    if a.kind == Some(LineKind) then a.initial else ""
  }

  /** One window's part of accept_inputset. Its hyperlink and mouse flags follow the
      entries. A window with a typed entry takes it as its request; when it has no input
      element yet, one is created: a line request starts with its initial text and its own
      terminator set, the history cursor moves past the newest entry, and the window will
      be scrolled. An element that lingers from an earlier request is reused as it is. */
  function InputSetWindow(w: Window, id: WinId, typed: map<WinId, InputArg>, hl: set<WinId>, mice: set<WinId>): (r: Window)
    ensures r.reqhyperlink == (id in hl) && r.reqmouse == (id in mice)
    ensures id !in typed ==> r == w.(reqhyperlink := id in hl, reqmouse := id in mice)
    ensures id in typed ==> r.input.Some? && r.input.value.req == typed[id]
    ensures id in typed && w.input.None? ==>
      && r.input.value.value == InitialValue(typed[id])
      && r.historypos == |w.history| && r.needscroll
      && r.terminators == (if typed[id].kind == Some(LineKind)
                           then set t | t in typed[id].terminators else w.terminators)
    ensures id in typed && w.input.Some? ==>
      && r.input.value.value == w.input.value.value
      && r.historypos == w.historypos && r.terminators == w.terminators
    ensures r.history == w.history && r.data == w.data
  {
    var w1 := w.(reqhyperlink := id in hl, reqmouse := id in mice);
    if id !in typed then w1
    else
      var a := typed[id];
      if w1.input.Some? then w1.(input := Some(OpenInput(a, w1.input.value.value)))
      else
        var terms := if a.kind == Some(LineKind) then set t | t in a.terminators else w1.terminators;
        w1.(input := Some(OpenInput(a, InitialValue(a))), terminators := terms,
            historypos := |w1.history|, needscroll := true)
  }

  /** The errors one window's part of accept_inputset reports: an unrecognised type for a
      new input element, and a grid position on a line that does not exist. */
  function InputSetErrors(w: Window, id: WinId, typed: map<WinId, InputArg>): (r: seq<GlkError>)
    ensures id !in typed ==> r == []
    ensures |r| <= 2
  {
    if id !in typed then []
    else
      var a := typed[id];
      (if w.input.None? && a.kind.Some? && a.kind.value.UnknownKind? then [UnknownInputType(id, a.kind.value.name)] else []) +
      (if w.data.GridData? && !HasLine(w.data.lines, a.ypos) then [UnknownInputLine(id, a.ypos)] else [])
  }

  /** The windows after accept_inputset. */
  function InputSetWindows(ws: map<WinId, Window>, args: seq<InputArg>): (r: map<WinId, Window>)
    ensures r.Keys == ws.Keys
  {
    var typed := TypedMap(args);
    map k | k in ws :: InputSetWindow(ws[k], k, typed, Hyperlinks(args), Mice(args))
  }

  /** The errors accept_inputset reports for the windows `ids`, window by window in
      ascending id order. */
  function InputSetErrorsOf(ws: map<WinId, Window>, ids: set<WinId>, typed: map<WinId, InputArg>): seq<GlkError>
    decreases |ids|
  {
    if ids == {} then []
    else
      var k := Least(ids);
      (if k in ws then InputSetErrors(ws[k], k, typed) else []) + InputSetErrorsOf(ws, ids - {k}, typed)
  }

  /** Cancelling and then setting the same `input` list renews the input element of a
      window whose request the game restarted (a later generation), so its typed text and
      history position are reset; a request listed again at the same or an older
      generation keeps its element and the player's typed text. */
  lemma CancelThenSet(ws: map<WinId, Window>, args: seq<InputArg>, k: WinId)
    requires k in ws && ws[k].input.Some? && k in TypedMap(args)
    ensures var r := InputSetWindows(InputCancel(ws, args), args)[k];
      && r.input.Some? && r.input.value.req == TypedMap(args)[k]
      && (TypedMap(args)[k].gen > ws[k].input.value.req.gen ==>
            r.input.value.value == InitialValue(TypedMap(args)[k]) && r.historypos == |ws[k].history|)
      && (TypedMap(args)[k].gen <= ws[k].input.value.req.gen ==>
            r.input.value.value == ws[k].input.value.value && r.historypos == ws[k].historypos)
  {
    var c := InputCancel(ws, args);
    assert k in c;
  }

  /** A typed entry for a window without an element creates one, reporting an unknown
      type; a window with a lingering element reports no type error. */
  lemma InputSetReportsOnlyNewElements(w: Window, id: WinId, typed: map<WinId, InputArg>)
    requires id in typed && typed[id].kind.Some? && typed[id].kind.value.UnknownKind?
    ensures (UnknownInputType(id, typed[id].kind.value.name) in InputSetErrors(w, id, typed)) <==> w.input.None?
  {
  }
}
