/** The values the display library exchanges with the game and keeps in its window table.
    Styled runs arrive either as objects or as bare [style, text] pairs; both are decoded
    into `Run` before reconciliation sees them. */
module GlkTypes {

  datatype Option<+T> = None | Some(value: T)

  /** Window ids are assigned by the game. The library uses 0 as its "no window" value
      (last_known_focus, last_known_paging, the focus candidate), so live ids are positive. */
  type WinId = i: int | i > 0 witness 1

  datatype WinType = GridType | BufferType | GraphicsType

  /** One decoded entry of a line's content. `OtherSpecial` is any special entry other than
      an image; grid windows skip every special entry. */
  datatype Run =
    | TextRun(style: string, text: string, link: Option<int>)
    | ImageRun(image: int, alignment: string, link: Option<int>)
    | OtherSpecial(special: string)

  /** A buffer paragraph (a BufferLine div): its runs, the BlankPara flag and FlowBreak. */
  datatype Para = Para(runs: seq<Run>, blank: bool, flowbreak: bool)

  datatype Coords = Coords(left: int, top: int, right: int, bottom: int)

  datatype InputKind = LineKind | CharKind | UnknownKind(name: string)

  /** One entry of an update's `input` list. `kind == None` is an entry without a type
      (it only carries hyperlink/mouse flags). An empty `initial` is an absent one. */
  datatype InputArg = InputArg(
    id: WinId, gen: int, kind: Option<InputKind>, maxlen: int, initial: string,
    terminators: seq<string>, xpos: int, ypos: int, hyperlink: bool, mouse: bool)

  /** An open input request (win.input) together with the text of its input element. */
  datatype OpenInput = OpenInput(req: InputArg, value: string)

  /** The type-specific part of a window. Grid lines are the GridLine divs, in order. */
  datatype Payload =
    | GridData(lines: seq<seq<Run>>, gridwidth: int)
    | BufferData(paras: seq<Para>)
    | GraphicsData(graphwidth: int, graphheight: int, defcolor: string, background: string)

  datatype Window = Window(
    id: WinId, rock: int, data: Payload, coords: Coords,
    input: Option<OpenInput>, terminators: set<string>,
    reqhyperlink: bool, reqmouse: bool,
    needscroll: bool, needspaging: bool,
    topunseen: int, pagefrommark: int,
    moreprompt: bool, prevmark: bool,
    history: seq<string>, historypos: int, inplace: bool)
  {
    function Type(): WinType {
      match data
      case GridData(_, _) => GridType
      case BufferData(_) => BufferType
      case GraphicsData(_, _, _, _) => GraphicsType
    }

    /** The window has an open line-input request. */
    predicate HasLineInput() {
      input.Some? && input.value.req.kind == Some(LineKind)
    }
  }

  /** The surface measurements the library keeps (current_metrics). */
  datatype Metrics = Metrics(
    width: int, height: int,
    gridcharwidth: int, gridcharheight: int, buffercharwidth: int, buffercharheight: int,
    gridmarginx: int, gridmarginy: int, buffermarginx: int, buffermarginy: int,
    graphicsmarginx: int, graphicsmarginy: int)

  /** One entry of an update's `windows` list. */
  datatype WindowArg = WindowArg(
    id: WinId, wtype: WinType, rock: int,
    left: int, top: int, width: int, height: int,
    gridwidth: int, gridheight: nat, graphwidth: int, graphheight: int)

  datatype LineArg = LineArg(line: int, content: seq<Run>)
  datatype TextArg = TextArg(append: bool, flowbreak: bool, content: seq<Run>)
  datatype Rect = Rect(x: int, y: int, width: int, height: int)

  datatype DrawOp =
    | SetColor(color: string)
    | Fill(fillColor: Option<string>, rect: Option<Rect>)
    | DrawImage(image: int, url: string, x: int, y: int, width: int, height: int)
    | UnknownOp(special: string)

  /** A draw op on the shared queue, tagged with the window it came from. */
  datatype QOp = QOp(winid: WinId, op: DrawOp)

  /** One entry of an update's `content` list. A missing `text` or `draw` field is empty; a
      grid window's entry is taken to carry its `lines` list. */
  datatype ContentArg = ContentArg(
    id: WinId, clear: bool, lines: seq<LineArg>, text: seq<TextArg>, draw: seq<DrawOp>)

  /** A decoded image: the image number it was fetched for and its size. */
  datatype Bitmap = Bitmap(image: int, width: int, height: int)

  /** What a draw op painted on a window's canvas. */
  datatype Paint =
    | FillPaint(winid: WinId, color: string, area: Option<Rect>)
    | ImagePaint(winid: WinId, bitmap: Bitmap, x: int, y: int, width: int, height: int)

  /** `timer` absent, `timer: null`, or `timer: n`. */
  datatype TimerField = NoTimerField | TimerNull | TimerSet(ms: int)

  datatype SpecialInput = SpecialInput(kind: string, filemode: string, filetype: string)

  datatype Update = Update(
    gen: int, disable: bool,
    input: Option<seq<InputArg>>, windows: Option<seq<WindowArg>>,
    content: Option<seq<ContentArg>>, timer: TimerField,
    specialinput: Option<SpecialInput>)

  datatype Message =
    | ErrorMessage(message: string)
    | PassMessage
    | RetryMessage
    | UpdateMessage(update: Update)
    | UnknownMessage(kind: string)

  /** The arguments of one call of send_response: the event type and its values. */
  datatype Request =
    | InitReq(metrics: Metrics)
    | RefreshReq
    | ArrangeReq(metrics: Metrics)
    | RedrawReq(window: WinId)
    | LineReq(window: WinId, value: string, terminator: Option<string>)
    | CharReq(window: WinId, value: string)
    | HyperlinkReq(window: WinId, link: int)
    | MouseReq(window: WinId, x: int, y: int)
    | ExternalReq(value: string)
    | TimerReq
    | SpecialResponseReq(response: string, ref: Option<string>)
    | DebugInputReq(value: string)

  /** An event handed to the game. `support` is filled for init only; an empty `partial`
      stands for the absent field. */
  datatype Event = Event(gen: int, req: Request, support: seq<string>, partial: map<WinId, string>)

  /** The errors the library reports on its error pane (not its console log). */
  datatype GlkError =
    | ServerError(message: string)
    | NoSuchWindow(id: WinId)
    | AwaitingLineInput(id: WinId)
    | NoSuchLine(id: WinId, line: int)
    | TypeMismatch(id: WinId, was: WinType, now: WinType)
    | UnknownInputType(id: WinId, kindName: string)
    | UnknownInputLine(id: WinId, ypos: int)
    | UnknownSpecialInput(kind: string)

  /** A zero-delay continuation scheduled with defer_func. */
  datatype Deferred = FocusLater(id: WinId) | RedrawLater(id: WinId)

  /** The scrollback limit, in children of a buffer frame. A limit that is not positive
      would make trimming read a child past the end. */
  type BufferLimit = n: int | n > 0 witness 800

  /** Options fixed at init time. */
  datatype Config = Config(maxBufferLength: BufferLimit, performPaging: bool)

  /** Layout measurements the browser supplies during an update cycle:
      `trimOffset(id)` is the offsetTop of the first retained child when scrollback is trimmed;
      `seenTo(id)` is min(scrollTop + frame height, top of the last line) after scrolling the
      unseen content to the top; `moreBelow(id)` says content remains below the viewport
      beyond the more-prompt margin. */
  datatype Layout = Layout(trimOffset: WinId -> int, seenTo: WinId -> int, moreBelow: WinId -> bool)

  /** Everything the session keeps, as one value.
      `focusTarget` is the window whose input element the library last gave the focus;
      `pendingLoad` is the image whose load the draw queue is waiting for;
      `painted` is what the draw ops have painted, in order; `retryPending`,
      `requestTimer` (its interval) and `resizePending` are the three timer tokens. */
  datatype St = St(
    generation: int, generationSent: int, disabled: bool,
    windows: map<WinId, Window>, metrics: Metrics,
    lastKnownFocus: int, lastKnownPaging: int, windowsPagingCount: int,
    currentlyFocused: bool, focusTarget: Option<WinId>,
    drawQueue: seq<QOp>, imageCache: map<int, Bitmap>, pendingLoad: Option<int>, painted: seq<Paint>,
    retryPending: bool, requestTimer: Option<int>, resizePending: bool,
    deferred: seq<Deferred>, sent: seq<Event>, errors: seq<GlkError>)
}
