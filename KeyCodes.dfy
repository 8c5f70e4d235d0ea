/** Key names and native key values: the key_codes table, its inverse keys_by_code, the
    line-input terminator table, and how character-input handlers name a key. */
module KeyCodes {
  import opened GlkTypes

  /** Native key values delivered by keyboard events; they lie well inside the range that
      String.fromCharCode maps to one character. */
  type KeyValue = k: int | 0 <= k < 0xD800

  const Return := 13
  const Backspace := 8
  const Up := 38
  const Down := 40

  /** key_codes: the key value of each named key. */
  function KeyCodeOf(name: string): (r: Option<int>)
    ensures r.Some? ==> 8 <= r.value <= 123 && |name| >= 2
  {
    if name == "backspace" then Some(8)
    else if name == "tab" then Some(9)
    else if name == "return" then Some(13)
    else if name == "escape" then Some(27)
    else if name == "left" then Some(37)
    else if name == "up" then Some(38)
    else if name == "right" then Some(39)
    else if name == "down" then Some(40)
    else if name == "delete" then Some(46)
    else if name == "home" then Some(36)
    else if name == "end" then Some(35)
    else if name == "pageup" then Some(33)
    else if name == "pagedown" then Some(34)
    else if name == "insert" then Some(45)
    else if name == "func1" then Some(112)
    else if name == "func2" then Some(113)
    else if name == "func3" then Some(114)
    else if name == "func4" then Some(115)
    else if name == "func5" then Some(116)
    else if name == "func6" then Some(117)
    else if name == "func7" then Some(118)
    else if name == "func8" then Some(119)
    else if name == "func9" then Some(120)
    else if name == "func10" then Some(121)
    else if name == "func11" then Some(122)
    else if name == "func12" then Some(123)
    else None
  }

  /** keys_by_code: the name of each key value in key_codes. */
  function KeyNameOf(code: int): (r: Option<string>)
    ensures r.Some? ==> 8 <= code <= 123 && |r.value| >= 2
    ensures 112 <= code <= 123 ==> r.Some?
  {
    if code == 8 then Some("backspace")
    else if code == 9 then Some("tab")
    else if code == 13 then Some("return")
    else if code == 27 then Some("escape")
    else if code == 37 then Some("left")
    else if code == 38 then Some("up")
    else if code == 39 then Some("right")
    else if code == 40 then Some("down")
    else if code == 46 then Some("delete")
    else if code == 36 then Some("home")
    else if code == 35 then Some("end")
    else if code == 33 then Some("pageup")
    else if code == 34 then Some("pagedown")
    else if code == 45 then Some("insert")
    else if 112 <= code <= 123 then Some(FuncName(code - 111))
    else None
  }

  function FuncName(n: int): string
    requires 1 <= n <= 12
  {
    ["func1", "func2", "func3", "func4", "func5", "func6",
     "func7", "func8", "func9", "func10", "func11", "func12"][n - 1]
  }

  /** keys_by_code is the inverse of key_codes, in both directions. */
  lemma KeysByCodeInvertsKeyCodes(name: string, code: int)
    ensures KeyCodeOf(name) == Some(code) <==> KeyNameOf(code) == Some(name)
  {
    KeyNameRoundTrip(code);
    KeyCodeRoundTrip(name);
  }

  lemma KeyNameRoundTrip(code: int)
    ensures KeyNameOf(code).Some? ==> KeyCodeOf(KeyNameOf(code).value) == Some(code)
  {
    if 112 <= code <= 123 {
      FuncKeyCode(code - 111);
    }
  }

  lemma KeyCodeRoundTrip(name: string)
    ensures KeyCodeOf(name).Some? ==> KeyNameOf(KeyCodeOf(name).value) == Some(name)
  {
    if name == "backspace" {}
    else if name == "tab" {}
    else if name == "return" {}
    else if name == "escape" {}
    else if name == "left" {}
    else if name == "up" {}
    else if name == "right" {}
    else if name == "down" {}
    else if name == "delete" {}
    else if name == "home" {}
    else if name == "end" {}
    else if name == "pageup" {}
    else if name == "pagedown" {}
    else if name == "insert" {}
    else {
      var c := KeyCodeOf(name);
      if c.Some? {
        var n := c.value - 111;
        assert name == FuncName(n) by {
          if n == 1 {} else if n == 2 {} else if n == 3 {} else if n == 4 {}
          else if n == 5 {} else if n == 6 {} else if n == 7 {} else if n == 8 {}
          else if n == 9 {} else if n == 10 {} else if n == 11 {} else {}
        }
      }
    }
  }

  /** terminator_keys: the keys that may end line input. */
  const TerminatorKeys: seq<string> :=
    ["escape", "func1", "func2", "func3", "func4", "func5", "func6",
     "func7", "func8", "func9", "func10", "func11", "func12"]

  /** terminator_key_values: the name of each terminator key's value. */
  function TerminatorNameOf(code: int): (r: Option<string>)
    ensures r.Some? <==> code == 27 || 112 <= code <= 123
    ensures r.Some? ==> r.value in TerminatorKeys && KeyNameOf(code) == r
  {
    if code == 27 then Some("escape")
    else if 112 <= code <= 123 then
      assert TerminatorKeys[code - 111] == FuncName(code - 111);
      Some(FuncName(code - 111))
    else None
  }

  lemma FuncKeyCode(n: int)
    requires 1 <= n <= 12
    ensures KeyCodeOf(FuncName(n)) == Some(111 + n)
  {
    if n == 1 {} else if n == 2 {} else if n == 3 {} else if n == 4 {}
    else if n == 5 {} else if n == 6 {} else if n == 7 {} else if n == 8 {}
    else if n == 9 {} else if n == 10 {} else if n == 11 {} else {}
  }

  /** Every terminator key has a value, and terminator_key_values maps it back. */
  lemma {:induction false} TerminatorKeysRoundTrip(i: int)
    requires 0 <= i < |TerminatorKeys|
    ensures KeyCodeOf(TerminatorKeys[i]).Some?
    ensures TerminatorNameOf(KeyCodeOf(TerminatorKeys[i]).value) == Some(TerminatorKeys[i])
  {
    if i > 0 {
      assert TerminatorKeys[i] == FuncName(i);
      FuncKeyCode(i);
    }
  }

  /** String.fromCharCode for one key value. */
  function FromCharCode(k: KeyValue): string {
    [k as char]
  }

  /** The value of a char event from a keypress in a char-input field. */
  function CharKeypressName(k: KeyValue): (r: string)
    ensures |r| == 1 || r == "return"
  {
    if k == Return then "return" else FromCharCode(k)
  }

  /** The value of a char event for a keypress caught at document level; None for the key
      value 0, which sends nothing. */
  function DocCharName(k: KeyValue): (r: Option<string>)
    ensures r.None? <==> k == 0
    ensures r.Some? ==> CodeOfCharName(r.value) == Some(k)
  {
    if k == Return then Some("return")
    else if k == Backspace then Some("delete")
    else if k != 0 then Some(FromCharCode(k))
    else None
  }

  /** Reading a key back from a char event value, as the game does. */
  function CodeOfCharName(name: string): Option<int> {
    if name == "return" then Some(Return)
    else if name == "delete" then Some(Backspace)
    else if |name| == 1 then Some(name[0] as int)
    else None
  }

  /** A document-level keypress names its key so that the key can be read back. */
  lemma DocCharNameRoundTrip(k: KeyValue)
    requires k != 0
    ensures DocCharName(k).Some?
    ensures CodeOfCharName(DocCharName(k).value) == Some(k)
  {
  }

  lemma CharKeypressRoundTrip(k: KeyValue)
    ensures CodeOfCharName(CharKeypressName(k)) == Some(k)
  {
  }
}
