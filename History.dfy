/** Per-window command history of line input: what submitting a line keeps, and the
    up/down cursor over it. */
module History {

  const MaxHistory := 20

  /** The history after submitting `val`: a non-empty value that differs from the newest
      entry is pushed, and the oldest entry is shifted off beyond twenty. */
  function Remember(h: seq<string>, val: string): (r: seq<string>)
    ensures val == "" || (h != [] && val == h[|h| - 1]) ==> r == h
    ensures val != "" && (h == [] || val != h[|h| - 1]) ==>
      && |r| == (if |h| + 1 > MaxHistory then |h| else |h| + 1)
      && r[|r| - 1] == val && r[..|r| - 1] == h[|h| + 1 - |r|..]
  {
    if val != "" && (h == [] || val != h[|h| - 1]) then
      var pushed := h + [val];
      if |pushed| > MaxHistory then pushed[1..] else pushed
    else h
  }

  /** What a stored history always looks like: at most twenty entries, none empty, and no
      entry equal to the one before it. */
  ghost predicate WellFormed(h: seq<string>) {
    && |h| <= MaxHistory
    && (forall i :: 0 <= i < |h| ==> h[i] != "")
    && (forall i :: 0 < i < |h| ==> h[i] != h[i - 1])
  }

  lemma RememberKeepsWellFormed(h: seq<string>, val: string)
    requires WellFormed(h)
    ensures WellFormed(Remember(h, val))
  {
    if val != "" && (h == [] || val != h[|h| - 1]) {
      var pushed := h + [val];
      assert forall i :: 0 < i < |pushed| ==> pushed[i] != pushed[i - 1] by {
        forall i | 0 < i < |pushed| ensures pushed[i] != pushed[i - 1] {
          if i < |h| { assert pushed[i] == h[i] && pushed[i - 1] == h[i - 1]; }
        }
      }
    }
  }

  /** Submitting appends `val` exactly when it is non-empty and not the newest entry; when
      it is appended it becomes the newest entry, and only the oldest entry can be lost. */
  lemma RememberAppendsOnce(h: seq<string>, val: string)
    requires |h| <= MaxHistory
    ensures var r := Remember(h, val);
      if val != "" && (h == [] || val != h[|h| - 1]) then
        && r != [] && r[|r| - 1] == val
        && (if |h| < MaxHistory then r == h + [val] else r == h[1..] + [val])
      else r == h
  {
    if val != "" && (h == [] || val != h[|h| - 1]) && |h| == MaxHistory {
      assert (h + [val])[1..] == h[1..] + [val];
    }
  }

  /** Submitting the same line twice in a row stores it once. */
  lemma RememberIdempotent(h: seq<string>, val: string)
    ensures Remember(Remember(h, val), val) == Remember(h, val)
  {
    var r := Remember(h, val);
    if val != "" && (h == [] || val != h[|h| - 1]) {
      assert r[|r| - 1] == val;
    }
  }

  /** The text the input field shows at history position `pos`: the entry, or '' past the
      newest one. */
  function Shown(h: seq<string>, pos: int): string {
    if 0 <= pos < |h| then h[pos] else ""
  }

  /** The cursor and the field text after an up-arrow or down-arrow key; a move that would
      leave [0, |h|] changes nothing. */
  datatype Cursor = Cursor(pos: int, text: string)

  function HistoryUp(h: seq<string>, c: Cursor): (r: Cursor)
    ensures c.pos > 0 ==> r.pos == c.pos - 1 && r.text == Shown(h, r.pos)
    ensures c.pos <= 0 ==> r == c
    ensures 0 <= c.pos <= |h| ==> 0 <= r.pos <= |h|
  {
    if c.pos > 0 then Cursor(c.pos - 1, Shown(h, c.pos - 1)) else c
  }

  function HistoryDown(h: seq<string>, c: Cursor): (r: Cursor)
    ensures c.pos < |h| ==> r.pos == c.pos + 1 && r.text == Shown(h, r.pos)
    ensures c.pos >= |h| ==> r == c
    ensures 0 <= c.pos <= |h| ==> 0 <= r.pos <= |h|
  {
    if c.pos < |h| then Cursor(c.pos + 1, Shown(h, c.pos + 1)) else c
  }

  lemma CursorStaysInRange(h: seq<string>, c: Cursor)
    requires 0 <= c.pos <= |h|
    ensures 0 <= HistoryUp(h, c).pos <= |h|
    ensures 0 <= HistoryDown(h, c).pos <= |h|
    ensures HistoryDown(h, c).pos == |h| && c.pos < |h| ==> HistoryDown(h, c).text == ""
  {
  }

  /** Going up and then down returns to the same position and shows that entry. */
  lemma UpThenDown(h: seq<string>, c: Cursor)
    requires 0 < c.pos <= |h|
    ensures HistoryDown(h, HistoryUp(h, c)) == Cursor(c.pos, Shown(h, c.pos))
  {
  }
}
