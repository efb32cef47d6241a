/**
  win32_api.py (and its copy in bot.py): the keystroke layer. Keys reach the
  target window as `SendInput` keyboard records; the model records everything the
  driver does to the desktop (focus requests, keyboard records, pywinauto typing,
  the clipboard) in an event log, and takes the window the OS reports in the
  foreground as an oracle.
*/
module Win32Api {
  import opened Wrappers
  import opened Text
  import opened Config

  // ---------------------------------------------------------------- keyboard records

  const KeyEventFKeyUp: int := 0x0002
  const KeyEventFUnicode: int := 0x0004

  const VkReturn: int := 0x0D
  const VkUp: int := 0x26
  const VkDown: int := 0x28
  const VkLeft: int := 0x25
  const VkRight: int := 0x27
  const VkTab: int := 0x09
  const VkEscape: int := 0x1B
  const VkBack: int := 0x08
  const VkSpace: int := 0x20
  const VkControl: int := 0x11
  const VkV: int := 0x56

  /** A KEYBDINPUT record as `_make_key_input` fills it (time and extra info are always 0). */
  datatype KeyInput = KeyInput(vk: int, scan: int, flags: int)

  predicate IsKeyUp(k: KeyInput) { (k.flags / KeyEventFKeyUp) % 2 == 1 }
  predicate IsUnicode(k: KeyInput) { (k.flags / KeyEventFUnicode) % 2 == 1 }

  /** `_send_vk`: key-down then key-up of the same virtual key. */
  function VkPress(vk: int): (r: seq<KeyInput>)
    ensures |r| == 2 && !IsKeyUp(r[0]) && IsKeyUp(r[1]) && r[0].vk == r[1].vk == vk
  {
    [KeyInput(vk, 0, 0), KeyInput(vk, 0, KeyEventFKeyUp)]
  }

  /** One UTF-16 code unit typed in unicode mode: down then up with `KEYEVENTF_UNICODE`. */
  function UnitPress(unit: int): (r: seq<KeyInput>)
    ensures |r| == 2 && IsUnicode(r[0]) && IsUnicode(r[1]) && !IsKeyUp(r[0]) && IsKeyUp(r[1])
    ensures r[0].scan == r[1].scan == unit
  {
    // the two flags are distinct bits, so their bitwise or is their sum
    [KeyInput(0, unit, KeyEventFUnicode), KeyInput(0, unit, KeyEventFUnicode + KeyEventFKeyUp)]
  }

  /**
    `_send_unicode_char` as written: `ord(char)` is stored in the 16-bit `wScan`
    field, which keeps only its low 16 bits.
  */
  function UnicodePressAsWritten(c: char): (r: seq<KeyInput>)
    ensures r == UnitPress((c as int) % 0x1_0000)
  {
    UnitPress((c as int) % 0x1_0000)
  }

  /** The UTF-16 code units of a character: one below U+10000, a surrogate pair above. */
  function Utf16Units(c: char): (r: seq<int>)
    ensures 1 <= |r| <= 2 && forall i :: 0 <= i < |r| ==> 0 <= r[i] < 0x1_0000
  {
    var n := c as int;
    if n < 0x1_0000 then [n]
    else [0xD800 + (n - 0x1_0000) / 0x400, 0xDC00 + (n - 0x1_0000) % 0x400]
  }

  /** The character a window receives from the code units of a unicode key sequence. */
  function DecodeUtf16(units: seq<int>): Option<char> {
    if |units| == 1 && (0 <= units[0] < 0xD800 || 0xE000 <= units[0] < 0x1_0000) then
      Some(units[0] as char)
    else if |units| == 2 && 0xD800 <= units[0] < 0xDC00 && 0xDC00 <= units[1] < 0xE000 then
      Some((0x1_0000 + (units[0] - 0xD800) * 0x400 + (units[1] - 0xDC00)) as char)
    else None
  }

  /** Decoding the code units of a character gives the character back. */
  lemma Utf16RoundTrip(c: char)
    ensures DecodeUtf16(Utf16Units(c)) == Some(c)
  {
    var n := c as int;
    if n >= 0x1_0000 {
      var hi := (n - 0x1_0000) / 0x400;
      var lo := (n - 0x1_0000) % 0x400;
      assert 0x1_0000 + hi * 0x400 + lo == n;
    }
  }

  /** The scan codes of the key-down records of a unicode key sequence. */
  function DownUnits(r: seq<KeyInput>): (u: seq<int>)
    ensures |u| <= |r|
  {
    if r == [] then []
    else (if IsKeyUp(r[0]) then [] else [r[0].scan]) + DownUnits(r[1..])
  }

  lemma {:induction false} DownUnitsConcat(a: seq<KeyInput>, b: seq<KeyInput>)
    ensures DownUnits(a + b) == DownUnits(a) + DownUnits(b)
    decreases |a|
  {
    if a != [] {
      assert (a + b)[1..] == a[1..] + b;
      DownUnitsConcat(a[1..], b);
    } else {
      assert a + b == b;
    }
  }

  lemma DownUnitsUnit(unit: int)
    ensures DownUnits(UnitPress(unit)) == [unit]
  {
    var r := UnitPress(unit);
    assert r[1..][1..] == [];
  }

  /** The corrected `_send_unicode_char`: one down/up pair per UTF-16 code unit. */
  function UnicodePress(c: char): (r: seq<KeyInput>)
    ensures DownUnits(r) == Utf16Units(c)
    ensures DecodeUtf16(DownUnits(r)) == Some(c)
  {
    Utf16RoundTrip(c);
    var units := Utf16Units(c);
    DownUnitsUnit(units[0]);
    if |units| == 1 then UnitPress(units[0])
    else
      DownUnitsUnit(units[1]);
      DownUnitsConcat(UnitPress(units[0]), UnitPress(units[1]));
      UnitPress(units[0]) + UnitPress(units[1])
  }

  /** Below U+10000 the written and the corrected sequences coincide. */
  lemma UnicodePressBmp(c: char)
    requires (c as int) < 0x1_0000
    ensures UnicodePressAsWritten(c) == UnicodePress(c)
  {
  }

  /** The written sequence turns U+1F600 into the unrelated private-use character U+F600. */
  lemma UnicodePressAsWrittenLosesAstral()
    ensures DecodeUtf16(DownUnits(UnicodePressAsWritten('\U{1F600}'))) == Some('\U{F600}')
    ensures DecodeUtf16(DownUnits(UnicodePress('\U{1F600}'))) == Some('\U{1F600}')
  {
    assert DownUnits(UnicodePressAsWritten('\U{1F600}')) == [0xF600];
  }

  // ---------------------------------------------------------------- key pairing

  /** What a record presses or releases: a virtual key, or a unicode code unit. */
  datatype KeyId = VirtualKey(vk: int) | UnicodeUnit(unit: int)

  function IdOf(k: KeyInput): KeyId {
    if IsUnicode(k) then UnicodeUnit(k.scan) else VirtualKey(k.vk)
  }

  /**
    Replays records against the stack of held keys: a key-down pushes its key, a
    key-up must release the most recently pressed one. `None` is a release out of order.
  */
  function Replay(inputs: seq<KeyInput>, held: seq<KeyId>): Option<seq<KeyId>>
    decreases |inputs|
  {
    if inputs == [] then Some(held)
    else if !IsKeyUp(inputs[0]) then Replay(inputs[1..], held + [IdOf(inputs[0])])
    else if held != [] && held[|held| - 1] == IdOf(inputs[0]) then Replay(inputs[1..], held[..|held| - 1])
    else None
  }

  /** Every key pressed is released, innermost first, and nothing stays held. */
  predicate Nested(inputs: seq<KeyInput>) {
    Replay(inputs, []) == Some([])
  }

  /** Replaying a concatenation replays the parts one after the other. */
  lemma {:induction false} ReplayConcat(a: seq<KeyInput>, b: seq<KeyInput>, held: seq<KeyId>)
    ensures Replay(a + b, held) == (match Replay(a, held) case None => None case Some(h) => Replay(b, h))
    decreases |a|
  {
    if a != [] {
      assert (a + b)[1..] == a[1..] + b;
      if !IsKeyUp(a[0]) {
        ReplayConcat(a[1..], b, held + [IdOf(a[0])]);
      } else if held != [] && held[|held| - 1] == IdOf(a[0]) {
        ReplayConcat(a[1..], b, held[..|held| - 1]);
      }
    } else {
      assert a + b == b;
    }
  }

  lemma NestedConcat(a: seq<KeyInput>, b: seq<KeyInput>)
    requires Nested(a) && Nested(b)
    ensures Nested(a + b)
  {
    ReplayConcat(a, b, []);
  }

  lemma VkPressNested(vk: int)
    ensures Nested(VkPress(vk))
  {
    var r := VkPress(vk);
    assert Replay(r, []) == Replay(r[1..], [VirtualKey(vk)]);
    assert r[1..][1..] == [];
  }

  lemma UnitPressNested(unit: int)
    ensures Nested(UnitPress(unit))
  {
    var r := UnitPress(unit);
    assert Replay(r, []) == Replay(r[1..], [UnicodeUnit(unit)]);
    assert r[1..][1..] == [];
  }

  lemma UnicodePressNested(c: char)
    ensures Nested(UnicodePress(c))
  {
    var units := Utf16Units(c);
    UnitPressNested(units[0]);
    if |units| == 2 {
      UnitPressNested(units[1]);
      NestedConcat(UnitPress(units[0]), UnitPress(units[1]));
    }
  }

  /** The Ctrl+V paste of the clipboard path. */
  function PastePress(): seq<KeyInput> {
    [KeyInput(VkControl, 0, 0), KeyInput(VkV, 0, 0),
     KeyInput(VkV, 0, KeyEventFKeyUp), KeyInput(VkControl, 0, KeyEventFKeyUp)]
  }

  /** Ctrl is pressed around V: down Ctrl, down V, up V, up Ctrl. */
  lemma PasteNested()
    ensures Nested(PastePress())
    ensures !Nested(PastePress()[..3])
  {
    var p := PastePress();
    assert Replay(p, []) == Replay(p[1..], [VirtualKey(VkControl)]);
    assert Replay(p[1..], [VirtualKey(VkControl)])
      == Replay(p[2..], [VirtualKey(VkControl), VirtualKey(VkV)]);
    assert [VirtualKey(VkControl), VirtualKey(VkV)][..1] == [VirtualKey(VkControl)];
    assert Replay(p[2..], [VirtualKey(VkControl), VirtualKey(VkV)])
      == Replay(p[3..], [VirtualKey(VkControl)]);
    assert p[3..][1..] == [];
    var q := p[..3];
    assert Replay(q, []) == Replay(q[1..], [VirtualKey(VkControl)]);
    assert Replay(q[1..], [VirtualKey(VkControl)])
      == Replay(q[2..], [VirtualKey(VkControl), VirtualKey(VkV)]);
    assert Replay(q[2..], [VirtualKey(VkControl), VirtualKey(VkV)])
      == Replay(q[3..], [VirtualKey(VkControl)]);
    assert q[3..] == [];
  }

  // ---------------------------------------------------------------- raw keys

  /** `VK_MAP`: the key names an operator can send, in English, Chinese or as arrows. */
  const VkMap: map<string, int> := map[
    "上" := VkUp, "up" := VkUp, "↑" := VkUp,
    "下" := VkDown, "down" := VkDown, "↓" := VkDown,
    "左" := VkLeft, "left" := VkLeft, "←" := VkLeft,
    "右" := VkRight, "right" := VkRight, "→" := VkRight,
    "回车" := VkReturn, "enter" := VkReturn,
    "tab" := VkTab,
    "退格" := VkBack, "backspace" := VkBack,
    "esc" := VkEscape, "取消" := VkEscape,
    "空格" := VkSpace, "space" := VkSpace
  ]

  /** The characters of `s` typed one by one in unicode mode, each as `_send_unicode_char` sends it. */
  function CharsPress(s: string): seq<KeyInput>
    decreases |s|
  {
    if s == [] then [] else CharsPress(s[..|s| - 1]) + UnicodePressAsWritten(s[|s| - 1])
  }

  /** What one token of `send_raw_keys` types. */
  function TokenPress(p: string): seq<KeyInput> {
    if Lower(p) in VkMap then VkPress(VkMap[Lower(p)])
    else if |p| == 1 then UnicodePressAsWritten(p[0])
    else CharsPress(p)
  }

  /** What a whole token list types: the tokens' keys in order, and nothing else. */
  function TokensPress(tokens: seq<string>): seq<KeyInput>
    decreases |tokens|
  {
    if tokens == [] then [] else TokensPress(tokens[..|tokens| - 1]) + TokenPress(tokens[|tokens| - 1])
  }

  /** A mapped token is exactly one press of its virtual key; the lookup ignores case. */
  lemma MappedToken(p: string)
    requires Lower(p) in VkMap
    ensures TokenPress(p) == VkPress(VkMap[Lower(p)])
  {
  }

  /** An unmapped token of any length, a single character included, types its characters in order. */
  lemma UnmappedToken(p: string)
    requires Lower(p) !in VkMap
    ensures TokenPress(p) == CharsPress(p)
  {
    if |p| == 1 {
      assert p[..0] == [];
    }
  }

  lemma {:induction false} CharsPressNested(s: string)
    ensures Nested(CharsPress(s))
    decreases |s|
  {
    if s != [] {
      CharsPressNested(s[..|s| - 1]);
      UnitPressNested((s[|s| - 1] as int) % 0x1_0000);
      NestedConcat(CharsPress(s[..|s| - 1]), UnicodePressAsWritten(s[|s| - 1]));
    } else {
      assert Replay([], []) == Some([]);
    }
  }

  /** Every key `send_raw_keys` presses is released again, in nesting order. */
  lemma {:induction false} TokensPressNested(tokens: seq<string>)
    ensures Nested(TokensPress(tokens))
    decreases |tokens|
  {
    if tokens != [] {
      var p := tokens[|tokens| - 1];
      TokensPressNested(tokens[..|tokens| - 1]);
      if Lower(p) in VkMap {
        VkPressNested(VkMap[Lower(p)]);
      } else if |p| == 1 {
        UnitPressNested((p[0] as int) % 0x1_0000);
      } else {
        CharsPressNested(p);
      }
      NestedConcat(TokensPress(tokens[..|tokens| - 1]), TokenPress(p));
    } else {
      assert Replay([], []) == Some([]);
    }
  }

  /** `send_raw_keys` adds no Enter of its own: a list whose last token types no Enter ends without one. */
  lemma NoTrailingEnter(tokens: seq<string>)
    requires tokens != [] && TokenPress(tokens[|tokens| - 1]) != []
    ensures var r := TokensPress(tokens);
      r[|r| - |TokenPress(tokens[|tokens| - 1])|..] == TokenPress(tokens[|tokens| - 1])
  {
  }

  // ---------------------------------------------------------------- escape chain

  /** How the escape chain of `send_keys_to_window` spells one character. */
  function EscapeChar(c: char): string {
    if c == '{' then "{{"
    else if c == '}' then "}}"
    else if c == '+' then "{+}"
    else if c == '^' then "{^}"
    else if c == '%' then "{%}"
    else if c == '~' then "{~}"
    else [c]
  }

  /** Each character spelled by `EscapeChar`, concatenated. */
  function EscapeEach(s: string): string
    decreases |s|
  {
    if s == [] then [] else EscapeChar(s[0]) + EscapeEach(s[1..])
  }

  /** The six `str.replace` calls of `send_keys_to_window`, in their order. */
  function EscapeChain(text: string): string {
    var s1 := ReplaceAll(text, "{", "{{");
    var s2 := ReplaceAll(s1, "}", "}}");
    var s3 := ReplaceAll(s2, "+", "{+}");
    var s4 := ReplaceAll(s3, "^", "{^}");
    var s5 := ReplaceAll(s4, "%", "{%}");
    ReplaceAll(s5, "~", "{~}")
  }

  /** Replacing a single character distributes over concatenation. */
  lemma {:induction false} ReplaceCharConcat(a: string, b: string, c: char, rep: string)
    ensures ReplaceAll(a + b, [c], rep) == ReplaceAll(a, [c], rep) + ReplaceAll(b, [c], rep)
    decreases |a|
  {
    if a != [] {
      ReplaceCharConcat(a[1..], b, c, rep);
      assert (a + b)[1..] == a[1..] + b;
      assert (a + b)[..1] == a[..1];
    } else {
      assert a + b == b;
    }
  }

  /** Replacing a character that does not occur changes nothing. */
  lemma {:induction false} ReplaceAbsent(s: string, c: char, rep: string)
    requires c !in s
    ensures ReplaceAll(s, [c], rep) == s
    decreases |s|
  {
    if s != [] {
      assert s[0] in s;
      assert s[..1] == [s[0]];
      ReplaceAbsent(s[1..], c, rep);
    }
  }

  lemma ReplaceOne(x: char, c: char, rep: string)
    ensures ReplaceAll([x], [c], rep) == if x == c then rep else [x]
  {
    assert [x][..1] == [x];
    assert [x][1..] == [];
  }

  lemma EscapeChainConcat(a: string, b: string)
    ensures EscapeChain(a + b) == EscapeChain(a) + EscapeChain(b)
  {
    var a1 := ReplaceAll(a, "{", "{{");
    var b1 := ReplaceAll(b, "{", "{{");
    ReplaceCharConcat(a, b, '{', "{{");
    var a2 := ReplaceAll(a1, "}", "}}");
    var b2 := ReplaceAll(b1, "}", "}}");
    ReplaceCharConcat(a1, b1, '}', "}}");
    var a3 := ReplaceAll(a2, "+", "{+}");
    var b3 := ReplaceAll(b2, "+", "{+}");
    ReplaceCharConcat(a2, b2, '+', "{+}");
    var a4 := ReplaceAll(a3, "^", "{^}");
    var b4 := ReplaceAll(b3, "^", "{^}");
    ReplaceCharConcat(a3, b3, '^', "{^}");
    var a5 := ReplaceAll(a4, "%", "{%}");
    var b5 := ReplaceAll(b4, "%", "{%}");
    ReplaceCharConcat(a4, b4, '%', "{%}");
    ReplaceCharConcat(a5, b5, '~', "{~}");
  }

  /** The chain on one character gives that character's spelling. */
  lemma EscapeChainOne(x: char)
    ensures EscapeChain([x]) == EscapeChar(x)
  {
    ReplaceOne(x, '{', "{{");
    var s1 := ReplaceAll([x], "{", "{{");
    if x == '{' {
      ReplaceAbsent(s1, '}', "}}");
      ReplaceAbsent(s1, '+', "{+}");
      ReplaceAbsent(s1, '^', "{^}");
      ReplaceAbsent(s1, '%', "{%}");
      ReplaceAbsent(s1, '~', "{~}");
    } else {
      ReplaceOne(x, '}', "}}");
      var s2 := ReplaceAll(s1, "}", "}}");
      if x == '}' {
        ReplaceAbsent(s2, '+', "{+}");
        ReplaceAbsent(s2, '^', "{^}");
        ReplaceAbsent(s2, '%', "{%}");
        ReplaceAbsent(s2, '~', "{~}");
      } else {
        ReplaceOne(x, '+', "{+}");
        var s3 := ReplaceAll(s2, "+", "{+}");
        if x == '+' {
          ReplaceAbsent(s3, '^', "{^}");
          ReplaceAbsent(s3, '%', "{%}");
          ReplaceAbsent(s3, '~', "{~}");
        } else {
          ReplaceOne(x, '^', "{^}");
          var s4 := ReplaceAll(s3, "^", "{^}");
          if x == '^' {
            ReplaceAbsent(s4, '%', "{%}");
            ReplaceAbsent(s4, '~', "{~}");
          } else {
            ReplaceOne(x, '%', "{%}");
            var s5 := ReplaceAll(s4, "%", "{%}");
            if x == '%' {
              ReplaceAbsent(s5, '~', "{~}");
            } else {
              ReplaceOne(x, '~', "{~}");
            }
          }
        }
      }
    }
  }

  /**
    The chain is a per-character substitution: braces are doubled first, so the
    braces the later replacements introduce are not doubled again.
  */
  lemma {:induction false} EscapeChainPerChar(text: string)
    ensures EscapeChain(text) == EscapeEach(text)
    decreases |text|
  {
    if text != [] {
      assert text == [text[0]] + text[1..];
      EscapeChainConcat([text[0]], text[1..]);
      EscapeChainOne(text[0]);
      EscapeChainPerChar(text[1..]);
    } else {
      assert ReplaceAll([], "{", "{{") == [];
    }
  }

  /** The escape chain on a text that has no special character leaves it unchanged. */
  lemma {:induction false} EscapePlain(text: string)
    requires forall i :: 0 <= i < |text| ==> text[i] !in "{}+^%~"
    ensures EscapeChain(text) == text
    decreases |text|
  {
    EscapeChainPerChar(text);
    EscapeEachPlain(text);
  }

  lemma {:induction false} EscapeEachPlain(text: string)
    requires forall i :: 0 <= i < |text| ==> text[i] !in "{}+^%~"
    ensures EscapeEach(text) == text
    decreases |text|
  {
    if text != [] {
      EscapeEachPlain(text[1..]);
      assert text == [text[0]] + text[1..];
    }
  }

  // ---------------------------------------------------------------- how type_keys reads its keys

  /**
    A key pywinauto's `type_keys` sends: a character typed, the Enter key, or a
    character's key only pressed (`Down`) or only released (`Up`).
  */
  datatype Stroke = Char(c: char) | Enter | Down(c: char) | Up(c: char)

  /** `s.find(c, k)`: the first index at or after `k` holding `c`, or -1. */
  function FindFrom(s: string, c: char, k: nat): (r: int)
    ensures r == -1 || (k <= r < |s| && s[r] == c)
    ensures forall i :: k <= i < |s| && (r == -1 || i < r) ==> s[i] != c
    decreases |s| - k
  {
    if k >= |s| then -1 else if s[k] == c then k else FindFrom(s, c, k + 1)
  }

  /** Two readings in a row: keys only when both succeed. */
  function Then(a: Option<seq<Stroke>>, b: Option<seq<Stroke>>): (r: Option<seq<Stroke>>)
    ensures r.Some? <==> a.Some? && b.Some?
  {
    if a.Some? && b.Some? then Some(a.value + b.value) else None
  }

  /** `t.lower().startswith(p)`. */
  predicate LowerStarts(t: string, p: string) {
    |t| >= |p| && forall i :: 0 <= i < |p| ==> LowerChar(t[i]) == p[i]
  }

  /**
    A brace code read as a key event on one character: the character, one blank,
    and a blank-free word whose lower-case form starts with `up` or `down`, as in
    `{a down}`. pywinauto looks for ` up` or ` down` in the lower-cased code,
    splits it at its blank, which must be the only one, and reads the part before
    it as a key.
  */
  predicate KeyEventCode(code: string) {
    |code| >= 2 && code[0] != ' ' && code[1] == ' ' && KeyWord(code[2..])
  }

  /** A blank-free word whose lower-case form starts with `up` or `down`. */
  predicate KeyWord(w: string) {
    ' ' !in w && (LowerStarts(w, "up") || LowerStarts(w, "down"))
  }

  /**
    How `type_keys` reads its key string (pywinauto's SendKeys syntax), with
    `spaces` and `tabs` saying whether blanks and tabs are typed. `{` opens a code
    closed by the first `}` after the character that follows it: a one-character
    code types that character, `{ENTER}` presses Enter, and a key event `{a down}`
    only presses `a`, or only releases it when the word, stripped, is exactly `up`.
    `(` groups the keys up to the next `)`, read with blanks and tabs off. A lone
    `)` or `}`, or a code without its `}`, raises. A newline is skipped
    (`with_newlines` is never set) and a bare `~` presses Enter. `None`:
    `type_keys` raises, and since it reads the whole string first, no key has been
    sent.
  */
  function ReadKeys(s: string, spaces: bool, tabs: bool): Option<seq<Stroke>>
    decreases |s|
  {
    if s == [] then Some([])
    else if s[0] == '{' then
      var close := FindFrom(s, '}', 2);
      if close < 0 then None
      else if close == 2 then Then(Some([Char(s[1])]), ReadKeys(s[3..], spaces, tabs))
      else if s[1..close] == "ENTER" then Then(Some([Enter]), ReadKeys(s[close + 1..], spaces, tabs))
      else if KeyEventCode(s[1..close]) then
        Then(Some([if Strip(s[3..close]) == "up" then Up(s[1]) else Down(s[1])]), ReadKeys(s[close + 1..], spaces, tabs))
      else None
    else if s[0] == '(' then
      var close := FindFrom(s, ')', 1);
      if close < 0 then None
      else Then(ReadKeys(s[1..close], false, false), ReadKeys(s[close + 1..], spaces, tabs))
    else if s[0] in "})+^%" then None
    else if s[0] == '\n' || (s[0] == ' ' && !spaces) || (s[0] == '\t' && !tabs) then ReadKeys(s[1..], spaces, tabs)
    else if s[0] == '~' then Then(Some([Enter]), ReadKeys(s[1..], spaces, tabs))
    else Then(Some([Char(s[0])]), ReadKeys(s[1..], spaces, tabs))
  }

  /** The keys of a text typed character by character, newlines skipped. */
  function Typed(text: string): (r: seq<Stroke>)
    ensures |r| <= |text|
    ensures '\n' !in text ==> |r| == |text| && forall i :: 0 <= i < |text| ==> r[i] == Char(text[i])
    decreases |text|
  {
    if text == [] then []
    else
      assert '\n' !in text ==> '\n' !in text[1..] && text[0] != '\n';
      (if text[0] == '\n' then [] else [Char(text[0])]) + Typed(text[1..])
  }

  /** `type_keys("{ENTER}")` presses Enter once. */
  lemma EnterCode()
    ensures ReadKeys("{ENTER}", false, false) == Some([Enter])
  {
    var s := "{ENTER}";
    assert FindFrom(s, '}', 2) == 6;
    assert s[1..6] == "ENTER";
    assert s[7..] == [] && ReadKeys(s[7..], false, false) == Some([]);
    assert ReadKeys(s, false, false) == Then(Some([Enter]), Some([]));
    assert [Enter] + [] == [Enter];
    assert Then(Some([Enter]), Some([])) == Some([Enter]);
  }

  /** A character the key syntax gives no meaning is typed as itself. */
  lemma ReadPlainChar(s: string, spaces: bool, tabs: bool)
    requires s != [] && s[0] !in "{}()+^%~\n" && (s[0] != ' ' || spaces) && (s[0] != '\t' || tabs)
    ensures ReadKeys(s, spaces, tabs) == Then(Some([Char(s[0])]), ReadKeys(s[1..], spaces, tabs))
  {
  }

  /** A newline is skipped. */
  lemma ReadNewline(s: string, spaces: bool, tabs: bool)
    requires s != [] && s[0] == '\n'
    ensures ReadKeys(s, spaces, tabs) == ReadKeys(s[1..], spaces, tabs)
  {
  }

  /** A one-character code types its character. */
  lemma ReadOneCode(s: string, spaces: bool, tabs: bool)
    requires |s| >= 3 && s[0] == '{' && s[2] == '}'
    ensures ReadKeys(s, spaces, tabs) == Then(Some([Char(s[1])]), ReadKeys(s[3..], spaces, tabs))
  {
    assert FindFrom(s, '}', 2) == 2;
  }

  /** A lone `}` raises. */
  lemma ReadLoneClose(s: string, spaces: bool, tabs: bool)
    requires s != [] && s[0] == '}'
    ensures ReadKeys(s, spaces, tabs).None?
  {
  }

  /** A doubled `{` raises unless the code it opens, closed by a later `}`, is a key event. */
  lemma ReadDoubledOpen(s: string, spaces: bool, tabs: bool)
    requires |s| >= 2 && s[0] == '{' && s[1] == '{'
    requires |s| > 2 && s[2] == '}' ==> |s| >= 4 && s[3] == '}'
    ensures ReadKeys(s, spaces, tabs).Some? ==> var close := FindFrom(s, '}', 2); close > 2 && KeyEventCode(s[1..close])
  {
    var close := FindFrom(s, '}', 2);
    if close == 2 {
      ReadLoneClose(s[3..], spaces, tabs);
    } else if close > 2 {
      assert s[1..close][0] == '{';
    }
  }

  /** `{a up}` releases `a` and nothing else. */
  lemma ReadRelease(c: char)
    requires c != ' ' && c != '}'
    ensures ReadKeys(['{', c, ' ', 'u', 'p', '}'], true, true) == Some([Up(c)])
  {
    var s := ['{', c, ' ', 'u', 'p', '}'];
    assert s[5] == '}' && s[2] != '}' && s[3] != '}' && s[4] != '}';
    assert FindFrom(s, '}', 2) == 5;
    assert s[1..5] == [c, ' ', 'u', 'p'] && s[3..5] == "up";
    ReleaseCode(c);
    assert s[6..] == [];
    assert [Up(c)] + [] == [Up(c)];
  }

  /** `a up` is a key event whose word, stripped, is `up`. */
  lemma ReleaseCode(c: char)
    requires c != ' '
    ensures KeyEventCode([c, ' ', 'u', 'p']) && [c, ' ', 'u', 'p'] != "ENTER" && Strip("up") == "up"
  {
    var code := [c, ' ', 'u', 'p'];
    assert code[2..] == "up";
    assert LowerChar('u') == 'u' && LowerChar('p') == 'p';
    assert LowerStarts("up", "up");
    assert !IsSpace('u') && !IsSpace('p');
    assert code[1] != "ENTER"[1];
  }

  // ---------------------------------------------------------------- what the escapes type

  /** The first index at or after `k` holding one of `}+^%~`, the characters the escapes close with a `}`, or -1. */
  function FindReserved(s: string, k: nat): (r: int)
    ensures r == -1 || (k <= r < |s| && s[r] in "}+^%~")
    ensures forall i :: k <= i < |s| && (r == -1 || i < r) ==> s[i] !in "}+^%~"
    decreases |s| - k
  {
    if k >= |s| then -1 else if s[k] in "}+^%~" then k else FindReserved(s, k + 1)
  }

  /**
    What `type_keys` makes of a text escaped by `send_keys_to_window`, read on the
    text itself. A `}` makes it raise. A `{` makes it raise as well, unless a blank
    and a key word follow it up to the next of `+^%~`: the doubled `{` then opens
    the key event `{ word{~}`, so `{` is only pressed, and the word and that
    character are swallowed. Every other character is typed, a newline dropped.
  */
  function TypedEscaped(text: string): (r: Option<seq<Stroke>>)
    ensures '}' in text ==> r.None?
    ensures '{' !in text && '}' !in text ==> r == Some(Typed(text))
    decreases |text|
  {
    if text == [] then Some([])
    else if text[0] == '}' then None
    else if text[0] == '{' then
      var j := FindReserved(text, 1);
      if j > 1 && text[j] != '}' && text[1] == ' ' && KeyWord(text[2..j]) then
        assert '}' in text ==> '}' in text[j + 1..] by {
          if '}' in text {
            var i :| 0 <= i < |text| && text[i] == '}';
            assert text[j + 1..][i - j - 1] == '}';
          }
        }
        Then(Some([Down('{')]), TypedEscaped(text[j + 1..]))
      else None
    else
      assert text == [text[0]] + text[1..];
      Then(Some(if text[0] == '\n' then [] else [Char(text[0])]), TypedEscaped(text[1..]))
  }

  /**
    `type_keys` on the per-character escapes of a text without parentheses reads
    what `TypedEscaped` says.
  */
  lemma {:induction false} ReadEscapeEach(text: string)
    requires '(' !in text && ')' !in text
    ensures ReadKeys(EscapeEach(text), true, true) == TypedEscaped(text)
    decreases |text|
  {
    if text != [] && text[0] == '{' {
      var j := FindReserved(text, 1);
      if j > 1 && text[j] != '}' && text[1] == ' ' && KeyWord(text[2..j]) {
        ReadEscapeEach(text[j + 1..]);
      }
      ReadEscapeEachOpen(text);
    } else if text != [] {
      ReadEscapeEach(text[1..]);
      ReadEscapeEachOther(text);
    }
  }

  /** The induction step at a `{`, given the reading of what follows its key word. */
  lemma ReadEscapeEachOpen(text: string)
    requires text != [] && text[0] == '{'
    requires var j := FindReserved(text, 1);
      j > 1 && text[j] != '}' && text[1] == ' ' && KeyWord(text[2..j]) ==>
        ReadKeys(EscapeEach(text[j + 1..]), true, true) == TypedEscaped(text[j + 1..])
    ensures ReadKeys(EscapeEach(text), true, true) == TypedEscaped(text)
  {
    ReadEscapedOpen(text);
  }

  /** The induction step at any other character, given the reading of the rest. */
  lemma ReadEscapeEachOther(text: string)
    requires text != [] && text[0] != '{' && text[0] != '(' && text[0] != ')'
    requires ReadKeys(EscapeEach(text[1..]), true, true) == TypedEscaped(text[1..])
    ensures ReadKeys(EscapeEach(text), true, true) == TypedEscaped(text)
  {
    var x := text[0];
    var rest := text[1..];
    assert EscapeEach(text) == EscapeChar(x) + EscapeEach(rest);
    ReadEscapeStep(x, rest);
    if x == '\n' && TypedEscaped(rest).Some? {
      assert [] + TypedEscaped(rest).value == TypedEscaped(rest).value;
    }
  }

  /** One escaped character other than `{` in front of the escapes of the rest: how `type_keys` reads it. */
  lemma ReadEscapeStep(x: char, rest: string)
    requires x != '(' && x != ')' && x != '{'
    ensures var r := EscapeEach(rest); var e := EscapeChar(x) + r;
      ReadKeys(e, true, true) ==
        if x == '}' then None
        else if x == '\n' then ReadKeys(r, true, true)
        else Then(Some([Char(x)]), ReadKeys(r, true, true))
  {
    var r := EscapeEach(rest);
    var e := EscapeChar(x) + r;
    if x == '}' {
      ReadLoneClose(e, true, true);
    } else if x in "+^%~" {
      assert e[3..] == r;
      ReadOneCode(e, true, true);
    } else if x == '\n' {
      assert e[1..] == r;
      ReadNewline(e, true, true);
    } else {
      assert e[1..] == r;
      ReadPlainChar(e, true, true);
    }
  }

  /**
    An escaped `{` in front: the doubled `{` opens a code that the escape of the
    next of `}+^%~` closes. It is a key event exactly when a blank and a key word
    come first; reading then goes on after that character.
  */
  lemma ReadEscapedOpen(text: string)
    requires text != [] && text[0] == '{'
    ensures var j := FindReserved(text, 1);
      ReadKeys(EscapeEach(text), true, true) ==
        if j > 1 && text[j] != '}' && text[1] == ' ' && KeyWord(text[2..j]) then
          Then(Some([Down('{')]), ReadKeys(EscapeEach(text[j + 1..]), true, true))
        else None
  {
    var j := FindReserved(text, 1);
    if j < 0 {
      ReadEscapedOpenUnclosed(text);
    } else {
      ReadEscapedOpenAt(text, j);
    }
  }

  /** The same when none of `}+^%~` follows the `{`: the escapes raise. */
  lemma ReadEscapedOpenUnclosed(text: string)
    requires text != [] && text[0] == '{'
    requires forall i :: 1 <= i < |text| ==> text[i] !in "}+^%~"
    ensures ReadKeys(EscapeEach(text), true, true).None?
  {
    var u := text[1..];
    assert EscapeEach(text) == ['{', '{'] + EscapeEach(u);
    EscapeUnreserved(u);
    ReadOpenUnclosed(EscapeEach(u));
  }

  /** The same when one of `}+^%~` follows the `{`, the first at `j`. */
  lemma ReadEscapedOpenAt(text: string, j: nat)
    requires text != [] && text[0] == '{' && 1 <= j < |text| && text[j] in "}+^%~"
    requires forall i :: 1 <= i < j ==> text[i] !in "}+^%~"
    ensures ReadKeys(EscapeEach(text), true, true) ==
      if j > 1 && text[j] != '}' && text[1] == ' ' && KeyWord(text[2..j]) then
        Then(Some([Down('{')]), ReadKeys(EscapeEach(text[j + 1..]), true, true))
      else None
  {
    SliceAround(text, j);
    EscapeUnreserved(text[1..j]);
    if text[j] == '}' {
      ReadEscapedOpenClose(text[1..j], text[j + 1..]);
    } else {
      var w := text[1..j];
      ReadEscapedOpenCoded(w, text[j], text[j + 1..]);
      assert (j > 1) == (|w| > 0);
      if j > 1 {
        assert text[1] == w[0] && text[2..j] == w[1..];
      }
    }
  }

  /** `{`, a word free of `}+^%~`, then `}`: the escapes raise. */
  lemma ReadEscapedOpenClose(w: string, rest: string)
    requires '}' !in EscapeEach(w)
    ensures ReadKeys(EscapeEach(['{'] + w + ['}'] + rest), true, true).None?
  {
    EscapeOpenSplit(w, '}', rest);
    assert EscapeChar('}') == ['}', '}'];
    ReadOpenDoubledClose(EscapeEach(w), EscapeEach(rest));
  }

  /** `{`, a word free of `}+^%~`, then one of `+^%~`: a key event exactly when the word is a blank and a key word. */
  lemma ReadEscapedOpenCoded(w: string, x: char, rest: string)
    requires forall i :: 0 <= i < |w| ==> w[i] !in "}+^%~"
    requires '}' !in EscapeEach(w) && x in "+^%~"
    ensures ReadKeys(EscapeEach(['{'] + w + [x] + rest), true, true) ==
      if |w| > 0 && w[0] == ' ' && KeyWord(w[1..]) then Then(Some([Down('{')]), ReadKeys(EscapeEach(rest), true, true))
      else None
  {
    EscapeOpenSplit(w, x, rest);
    assert EscapeChar(x) == ['{', x, '}'];
    ReadOpenCoded(EscapeEach(w), x, EscapeEach(rest));
    KeyEventEscaped(w, x);
  }

  /** A text cut around its `j`-th character. */
  lemma SliceAround(text: string, j: nat)
    requires 1 <= j < |text|
    ensures text == [text[0]] + text[1..j] + [text[j]] + text[j + 1..]
  {
  }

  /** The escapes of `{`, a word, one character and the rest. */
  lemma EscapeOpenSplit(w: string, x: char, rest: string)
    ensures EscapeEach(['{'] + w + [x] + rest) == ['{', '{'] + EscapeEach(w) + EscapeChar(x) + EscapeEach(rest)
  {
    var a := ['{'] + w;
    var b := [x] + rest;
    assert ['{'] + w + [x] + rest == a + b;
    EscapeEachConcat(a, b);
    assert a[0] == '{' && a[1..] == w;
    assert EscapeEach(a) == ['{', '{'] + EscapeEach(w);
    assert b[0] == x && b[1..] == rest;
    assert EscapeEach(b) == EscapeChar(x) + EscapeEach(rest);
  }

  /** A doubled `{` with no `}` after it raises. */
  lemma ReadOpenUnclosed(e: string)
    requires '}' !in e
    ensures ReadKeys(['{', '{'] + e, true, true).None?
  {
    var s := ['{', '{'] + e;
    assert forall i :: 2 <= i < |s| ==> s[i] == e[i - 2];
    assert FindFrom(s, '}', 2) == -1;
  }

  /** A doubled `{` whose code a doubled `}` closes raises: the second `}` is lone. */
  lemma ReadOpenDoubledClose(e: string, r: string)
    requires '}' !in e
    ensures ReadKeys(['{', '{'] + e + ['}', '}'] + r, true, true).None?
  {
    var s := ['{', '{'] + e + ['}', '}'] + r;
    var close := 2 + |e|;
    assert s[close] == '}' && forall i :: 2 <= i < close ==> s[i] == e[i - 2];
    assert FindFrom(s, '}', 2) == close;
    assert s[close + 1..] == ['}'] + r;
    ReadLoneClose(s[close + 1..], true, true);
  }

  /**
    A doubled `{` whose code the escape of one of `+^%~` closes: a key event
    pressing `{` when the code is one, and otherwise raising.
  */
  lemma ReadOpenCoded(e: string, x: char, r: string)
    requires '}' !in e && x in "+^%~"
    ensures ReadKeys(['{', '{'] + e + ['{', x, '}'] + r, true, true) ==
      if KeyEventCode(['{'] + e + ['{', x]) then Then(Some([Down('{')]), ReadKeys(r, true, true)) else None
  {
    var s := ['{', '{'] + e + ['{', x, '}'] + r;
    var close := 4 + |e|;
    assert s[close] == '}' && forall i :: 2 <= i < close ==> s[i] != '}';
    assert FindFrom(s, '}', 2) == close;
    assert s[1..close] == ['{'] + e + ['{', x];
    assert s[close + 1..] == r;
    var t := s[3..close];
    assert t != [] && t[|t| - 1] == x;
    StripKeepsLast(t);
  }

  /**
    The code a doubled `{` opens, closed after `{` and a non-blank, is a key event
    exactly when the text has a blank and a key word there.
  */
  lemma KeyEventEscaped(w: string, x: char)
    requires forall i :: 0 <= i < |w| ==> w[i] !in "}+^%~"
    requires x != ' '
    ensures KeyEventCode(['{'] + EscapeEach(w) + ['{', x]) <==> |w| > 0 && w[0] == ' ' && KeyWord(w[1..])
  {
    var code := ['{'] + EscapeEach(w) + ['{', x];
    if w == [] {
      assert EscapeEach(w) == [] && code[1] == '{';
    } else {
      EscapeHead(w);
      assert code[1] == EscapeEach(w)[0];
      if w[0] == ' ' {
        CodeTail(EscapeEach(w[1..]), ['{', x]);
        KeyWordEscaped(w[1..], x);
      }
    }
  }

  /** The escapes of a word start with a blank exactly when the word does, and the blank is kept as it is. */
  lemma EscapeHead(w: string)
    requires w != []
    ensures EscapeEach(w) != [] && (EscapeEach(w)[0] == ' ' <==> w[0] == ' ')
    ensures w[0] == ' ' ==> EscapeEach(w) == [' '] + EscapeEach(w[1..])
  {
    assert EscapeEach(w) == EscapeChar(w[0]) + EscapeEach(w[1..]);
  }

  /** What follows the blank of such a code. */
  lemma CodeTail(e: string, t: string)
    ensures (['{'] + ([' '] + e) + t)[2..] == e + t
  {
  }

  /** Escaping a word free of `}+^%~` and closing it with an escaped `+^%~` keeps it a key word, or not one. */
  lemma KeyWordEscaped(v: string, x: char)
    requires forall i :: 0 <= i < |v| ==> v[i] !in "}+^%~"
    requires x != ' '
    ensures KeyWord(EscapeEach(v) + ['{', x]) <==> KeyWord(v)
  {
    KeyWordsUnbraced();
    PrefixWordEscaped(v, x, "up", "down");
    KeyWordSame(EscapeEach(v) + ['{', x], v);
  }

  /** `KeyWord` spelled out. */
  lemma KeyWordSame(t: string, v: string)
    requires (' ' !in t && (LowerStarts(t, "up") || LowerStarts(t, "down")))
      <==> (' ' !in v && (LowerStarts(v, "up") || LowerStarts(v, "down")))
    ensures KeyWord(t) <==> KeyWord(v)
  {
  }

  /** The same for a blank-free word starting with either of two prefixes free of `{`. */
  lemma PrefixWordEscaped(v: string, x: char, p: string, q: string)
    requires forall i :: 0 <= i < |v| ==> v[i] !in "}+^%~"
    requires x != ' ' && '{' !in p && '{' !in q
    ensures var t := EscapeEach(v) + ['{', x];
      (' ' !in t && (LowerStarts(t, p) || LowerStarts(t, q))) <==> (' ' !in v && (LowerStarts(v, p) || LowerStarts(v, q)))
  {
    LowerStartsEscaped(v, x, p);
    LowerStartsEscaped(v, x, q);
    EscapeSpaces(v);
    BlankFreeTail(EscapeEach(v), ['{', x]);
  }

  /** Neither key word holds a `{`. */
  lemma KeyWordsUnbraced()
    ensures '{' !in "up" && '{' !in "down"
  {
  }

  /** A blank-free tail adds no blank. */
  lemma BlankFreeTail(e: string, t: string)
    requires ' ' !in t
    ensures (' ' in e + t) <==> (' ' in e)
  {
  }

  /** The escapes of a word hold a blank exactly when the word does. */
  lemma {:induction false} EscapeSpaces(v: string)
    ensures ' ' in EscapeEach(v) <==> ' ' in v
    decreases |v|
  {
    if v != [] {
      EscapeSpaces(v[1..]);
      assert EscapeEach(v) == EscapeChar(v[0]) + EscapeEach(v[1..]);
      assert v == [v[0]] + v[1..];
    }
  }

  /** Escaping a word free of `}+^%~` leaves no `}`. */
  lemma {:induction false} EscapeUnreserved(v: string)
    requires forall i :: 0 <= i < |v| ==> v[i] !in "}+^%~"
    ensures '}' !in EscapeEach(v)
    decreases |v|
  {
    if v != [] {
      EscapeUnreserved(v[1..]);
      assert EscapeEach(v) == EscapeChar(v[0]) + EscapeEach(v[1..]);
    }
  }

  /** Escaping works character by character. */
  lemma {:induction false} EscapeEachConcat(a: string, b: string)
    ensures EscapeEach(a + b) == EscapeEach(a) + EscapeEach(b)
    decreases |a|
  {
    if a != [] {
      assert (a + b)[1..] == a[1..] + b;
      EscapeEachConcat(a[1..], b);
    } else {
      assert a + b == b;
    }
  }

  /**
    A lower-case prefix free of `{` is found in the escapes of a word followed by
    `{` exactly when it is found in the word: a doubled `{` stops it either way.
  */
  lemma {:induction false} LowerStartsEscaped(v: string, x: char, p: string)
    requires forall i :: 0 <= i < |v| ==> v[i] !in "}+^%~"
    requires '{' !in p
    ensures LowerStarts(EscapeEach(v) + ['{', x], p) <==> LowerStarts(v, p)
    decreases |v|
  {
    var t := EscapeEach(v) + ['{', x];
    if p != [] {
      if v == [] {
        assert t == ['{', x] && LowerChar(t[0]) != p[0];
      } else if v[0] == '{' {
        assert EscapeEach(v) == ['{', '{'] + EscapeEach(v[1..]);
        assert t[0] == '{' && LowerChar(t[0]) != p[0];
      } else {
        var t' := EscapeEach(v[1..]) + ['{', x];
        assert EscapeEach(v) == [v[0]] + EscapeEach(v[1..]);
        assert t == [v[0]] + t';
        LowerStartsEscaped(v[1..], x, p[1..]);
        LowerStartsCons(v[0], t', p);
        assert v == [v[0]] + v[1..];
        LowerStartsCons(v[0], v[1..], p);
      }
    }
  }

  /** A prefix is found after a first character that lowers to its own first one. */
  lemma LowerStartsCons(c: char, u: string, p: string)
    requires p != []
    ensures LowerStarts([c] + u, p) <==> LowerChar(c) == p[0] && LowerStarts(u, p[1..])
  {
    var t := [c] + u;
    if LowerChar(c) == p[0] && LowerStarts(u, p[1..]) {
      forall i | 0 <= i < |p| ensures LowerChar(t[i]) == p[i] {
        if i > 0 {
          assert t[i] == u[i - 1] && p[i] == p[1..][i - 1];
        }
      }
    }
    if LowerStarts(t, p) {
      forall i | 0 <= i < |p| - 1 ensures LowerChar(u[i]) == p[1..][i] {
        assert u[i] == t[i + 1];
      }
    }
  }

  /** Stripping keeps a last character that is not whitespace. */
  lemma StripKeepsLast(t: string)
    requires t != [] && !IsSpace(t[|t| - 1])
    ensures Strip(t) != [] && Strip(t)[|Strip(t)| - 1] == t[|t| - 1]
  {
    var n := LeadingSpaces(t);
    assert n < |t|;
    var l := t[n..];
    assert LStrip(t) == l && l[|l| - 1] == t[|t| - 1];
    assert TrailingSpaces(l) == 0;
    assert RStrip(l) == l;
  }

  /** The same for the chain `send_keys_to_window` applies. */
  lemma ReadEscapeChain(text: string)
    requires '(' !in text && ')' !in text
    ensures ReadKeys(EscapeChain(text), true, true) == TypedEscaped(text)
  {
    EscapeChainPerChar(text);
    ReadEscapeEach(text);
  }

  /**
    As written, a blank and a word starting with `up` or `down` after a `{`, up to
    one of `+^%~`, make the escapes a key event: `{ down~` only presses `{`.
  */
  lemma HeldOpenBrace(w: string, x: char)
    requires KeyWord(w) && x in "+^%~"
    requires forall i :: 0 <= i < |w| ==> w[i] !in "}+^%~()"
    ensures ReadKeys(EscapeChain(['{', ' '] + w + [x]), true, true) == Some([Down('{')])
  {
    var text := ['{', ' '] + w + [x];
    var j := |w| + 2;
    assert text[j] == x && forall i :: 1 <= i < j ==> text[i] !in "}+^%~";
    assert FindReserved(text, 1) == j;
    assert text[2..j] == w && text[j + 1..] == [];
    assert [Down('{')] + [] == [Down('{')];
    ReadEscapeChain(text);
  }

  /**
    As written, parentheses survive the escape chain and group keys, so they
    never arrive: `f(x)` is typed as `fx`.
  */
  lemma ParensVanish(a: char, b: char)
    requires a !in "{}()+^%~\n" && b !in "{}()+^%~\n \t"
    ensures ReadKeys(EscapeChain([a, '(', b, ')']), true, true) == Some([Char(a), Char(b)])
  {
    EscapePlain([a, '(', b, ')']);
    ReadGroup(a, b);
  }

  /** `(` reads the keys up to the next `)` with blanks and tabs off, then goes on after it. */
  lemma ReadParens(s: string, close: nat, spaces: bool, tabs: bool)
    requires s != [] && s[0] == '(' && FindFrom(s, ')', 1) == close
    ensures ReadKeys(s, spaces, tabs) == Then(ReadKeys(s[1..close], false, false), ReadKeys(s[close + 1..], spaces, tabs))
  {
  }

  /** A character followed by a one-character group: the parentheses are not typed. */
  lemma ReadGroup(a: char, b: char)
    requires a !in "{}()+^%~\n" && b !in "{}()+^%~\n \t"
    ensures ReadKeys([a, '(', b, ')'], true, true) == Some([Char(a), Char(b)])
  {
    var s := [a, '(', b, ')'];
    var g := s[1..];
    assert ReadKeys([b], false, false) == Some([Char(b)]) by {
      ReadPlainChar([b], false, false);
      assert [b][1..] == [];
      assert [Char(b)] + [] == [Char(b)];
    }
    assert ReadKeys(g, true, true) == Some([Char(b)]) by {
      assert FindFrom(g, ')', 1) == 2;
      ReadParens(g, 2, true, true);
      assert g[1..2] == [b] && g[3..] == [];
      assert [Char(b)] + [] == [Char(b)];
    }
    ReadPlainChar(s, true, true);
    assert [Char(a)] + [Char(b)] == [Char(a), Char(b)];
  }

  /** As written, a newline never arrives: `a` newline `b` is typed as `ab`. */
  lemma NewlinesVanish(a: char, b: char)
    requires a !in "{}()+^%~\n" && b !in "{}()+^%~\n"
    ensures ReadKeys(EscapeChain([a, '\n', b]), true, true) == Some([Char(a), Char(b)])
  {
    var s := [a, '\n', b];
    EscapePlain(s);
    assert ReadKeys(s[2..], true, true) == Some([Char(b)]) by {
      ReadPlainChar(s[2..], true, true);
      assert s[2..][1..] == [];
      assert [Char(b)] + [] == [Char(b)];
    }
    ReadNewline(s[1..], true, true);
    assert s[1..][1..] == s[2..];
    ReadPlainChar(s, true, true);
    assert [Char(a)] + [Char(b)] == [Char(a), Char(b)];
  }

  /** The corrected spelling of one character: every character the syntax reserves becomes a one-character code. */
  function IntactChar(c: char): string {
    if c in "{}()+^%~" then ['{', c, '}'] else [c]
  }

  function IntactEach(s: string): string
    decreases |s|
  {
    if s == [] then [] else IntactChar(s[0]) + IntactEach(s[1..])
  }

  /** Every character spelled by `IntactChar` arrives as itself. */
  lemma {:induction false} ReadIntactEach(text: string)
    requires '\n' !in text
    ensures ReadKeys(IntactEach(text), true, true) == Some(Typed(text))
    decreases |text|
  {
    if text != [] {
      var x := text[0];
      var rest := text[1..];
      assert text == [x] + rest;
      assert '\n' !in rest;
      ReadIntactEach(rest);
      var r := IntactEach(rest);
      var e := IntactChar(x) + r;
      assert IntactEach(text) == e;
      if x in "{}()+^%~" {
        assert FindFrom(e, '}', 2) == 2;
        assert e[1] == x && e[3..] == r;
      } else {
        assert e[1..] == r;
      }
    }
  }

  /**
    The corrected keystroke text: each reserved character spelled as a
    one-character code, and a text holding a newline left to the clipboard, since
    `type_keys` would drop it. What it types is exactly the text.
  */
  function KeystrokeText(text: string): (r: Option<string>)
    ensures r.Some? <==> '\n' !in text
    ensures r.Some? ==> ReadKeys(r.value, true, true) == Some(Typed(text))
    ensures r.Some? ==> forall i :: 0 <= i < |text| ==> Typed(text)[i] == Char(text[i])
  {
    if '\n' in text then None
    else
      ReadIntactEach(text);
      Some(IntactEach(text))
  }

  // ---------------------------------------------------------------- the desktop

  /** What the driver does to the desktop, in order. */
  datatype InputEvent =
    | Focus(handle: Handle)          // SetForegroundWindow
    | Key(input: KeyInput)           // one SendInput record
    | TypeKeys(keys: seq<Stroke>)    // pywinauto type_keys, the keys it sends
    | SetClipboard(text: string)     // clip.exe

  function Keys(inputs: seq<KeyInput>): (r: seq<InputEvent>)
    ensures |r| == |inputs| && forall i :: 0 <= i < |inputs| ==> r[i] == Key(inputs[i])
  {
    seq(|inputs|, i requires 0 <= i < |inputs| => Key(inputs[i]))
  }

  lemma KeysConcat(a: seq<KeyInput>, b: seq<KeyInput>)
    ensures Keys(a + b) == Keys(a) + Keys(b)
  {
  }

  /** Appending the events of `b` to a log holding those of `a` gives the events of `a + b`. */
  lemma LogAppend(start: seq<InputEvent>, a: seq<KeyInput>, b: seq<KeyInput>)
    ensures start + Keys(a) + Keys(b) == start + Keys(a + b)
  {
    KeysConcat(a, b);
  }

  /** The focus requests of `_activate_window` when the first foreground reading is `first`. */
  function ActivationEvents(handle: Handle, first: Handle): (r: seq<InputEvent>)
    ensures 1 <= |r| <= 2 && forall i :: 0 <= i < |r| ==> r[i] == Focus(handle)
  {
    if first == handle then [Focus(handle)] else [Focus(handle), Focus(handle)]
  }

  /**
    What `send_keys_to_window` does when the foreground readings are `fg` from the
    `from`-th on: whether it reports success, the events it adds and the readings
    it has taken by the end. The first activation's result only decides a log line.
  */
  function SendKeysEffect(fg: nat -> Handle, from: nat, handle: Handle, text: string, connected: bool, clipboardOk: bool)
    : (bool, seq<InputEvent>, nat)
  {
    var first := ActivationEvents(handle, fg(from));
    var n := from + |first|;
    var again := ActivationEvents(handle, fg(n));
    var keys := ReadKeys(EscapeChain(text), true, true);
    if connected && keys.Some? then
      (true, first + [TypeKeys(keys.value)] + again + [TypeKeys([Enter])] + Keys(VkPress(VkReturn)), n + |again|)
    else if clipboardOk then
      (true, first + [SetClipboard(text)] + again + Keys(PastePress() + VkPress(VkReturn)), n + |again|)
    else (false, first, n)
  }

  /**
    It reports success exactly when one path works, and a success ends with a
    `VK_RETURN` press; a failure only asked for focus. It reads the foreground
    window one to four times.
  */
  lemma SendKeysOutcome(fg: nat -> Handle, from: nat, handle: Handle, text: string, connected: bool, clipboardOk: bool)
    ensures var (ok, events, n) := SendKeysEffect(fg, from, handle, text, connected, clipboardOk);
      && (ok <==> (connected && ReadKeys(EscapeChain(text), true, true).Some?) || clipboardOk)
      && (ok ==> |events| >= 2 && events[|events| - 2..] == Keys(VkPress(VkReturn)))
      && (!ok ==> forall i :: 0 <= i < |events| ==> events[i] == Focus(handle))
      && from < n <= from + 4
  {
    KeysConcat(PastePress(), VkPress(VkReturn));
  }

  /** When `type_keys` can read the escaped text, the keystroke path is taken. */
  lemma KeystrokeEffect(fg: nat -> Handle, from: nat, handle: Handle, text: string, keys: seq<Stroke>, clipboardOk: bool)
    requires ReadKeys(EscapeChain(text), true, true) == Some(keys)
    ensures var first := ActivationEvents(handle, fg(from));
      var again := ActivationEvents(handle, fg(from + |first|));
      SendKeysEffect(fg, from, handle, text, true, clipboardOk)
        == (true, first + [TypeKeys(keys)] + again + [TypeKeys([Enter])] + Keys(VkPress(VkReturn)), from + |first| + |again|)
  {
  }

  /**
    On the keystroke path a text without braces or parentheses reaches the window
    as its characters, newlines dropped, and the clipboard is not touched.
  */
  lemma SendKeysTypes(fg: nat -> Handle, from: nat, handle: Handle, text: string, clipboardOk: bool)
    requires '{' !in text && '}' !in text && '(' !in text && ')' !in text
    ensures var (ok, events, n) := SendKeysEffect(fg, from, handle, text, true, clipboardOk);
      var k := |ActivationEvents(handle, fg(from))|;
      ok && events[k] == TypeKeys(Typed(text)) && forall i :: 0 <= i < |events| ==> !events[i].SetClipboard?
  {
    ReadPlainText(text);
    var first := ActivationEvents(handle, fg(from));
    var again := ActivationEvents(handle, fg(from + |first|));
    KeystrokeEffect(fg, from, handle, text, Typed(text), clipboardOk);
    KeystrokeNoClipboard(first, Typed(text), again);
  }

  /** The escapes of a text without braces or parentheses type its characters, newlines dropped. */
  lemma ReadPlainText(text: string)
    requires '{' !in text && '}' !in text && '(' !in text && ')' !in text
    ensures ReadKeys(EscapeChain(text), true, true) == Some(Typed(text))
  {
    ReadEscapeChain(text);
  }

  /** The keystroke path's events: the keys typed right after the first focus requests, and no clipboard copy. */
  lemma KeystrokeNoClipboard(first: seq<InputEvent>, keys: seq<Stroke>, again: seq<InputEvent>)
    requires forall i :: 0 <= i < |first| ==> first[i].Focus?
    requires forall i :: 0 <= i < |again| ==> again[i].Focus?
    ensures var events := first + [TypeKeys(keys)] + again + [TypeKeys([Enter])] + Keys(VkPress(VkReturn));
      events[|first|] == TypeKeys(keys) && forall i :: 0 <= i < |events| ==> !events[i].SetClipboard?
  {
    var events := first + [TypeKeys(keys)] + again + [TypeKeys([Enter])] + Keys(VkPress(VkReturn));
    forall i | 0 <= i < |events| ensures !events[i].SetClipboard? {
      var m := |first| + 1 + |again|;
      if i > |first| && i < m {
        assert events[i] == again[i - |first| - 1];
      } else if i > m {
        assert events[i] == Keys(VkPress(VkReturn))[i - m - 1];
      }
    }
  }

  /**
    A text without parentheses whose escapes `type_keys` cannot read (any text
    with a `}`, and any with a `{` that opens no key event) goes to the clipboard
    whole, and nothing is typed.
  */
  lemma SendKeysBraceIsPasted(fg: nat -> Handle, from: nat, handle: Handle, text: string, connected: bool)
    requires '(' !in text && ')' !in text
    requires TypedEscaped(text).None?
    ensures var (ok, events, n) := SendKeysEffect(fg, from, handle, text, connected, true);
      var k := |ActivationEvents(handle, fg(from))|;
      ok && events[k] == SetClipboard(text) && forall i :: 0 <= i < |events| ==> !events[i].TypeKeys?
  {
    ReadEscapeChain(text);
    PasteEffect(fg, from, handle, text, connected);
  }

  /** When `type_keys` cannot read the escaped text, the clipboard path is taken. */
  lemma PasteEffect(fg: nat -> Handle, from: nat, handle: Handle, text: string, connected: bool)
    requires ReadKeys(EscapeChain(text), true, true).None?
    ensures var (ok, events, n) := SendKeysEffect(fg, from, handle, text, connected, true);
      var k := |ActivationEvents(handle, fg(from))|;
      ok && events[k] == SetClipboard(text) && forall i :: 0 <= i < |events| ==> !events[i].TypeKeys?
  {
    var first := ActivationEvents(handle, fg(from));
    var again := ActivationEvents(handle, fg(from + |first|));
    var events := first + [SetClipboard(text)] + again + Keys(PastePress() + VkPress(VkReturn));
    assert SendKeysEffect(fg, from, handle, text, connected, true) == (true, events, from + |first| + |again|);
    assert events[|first|] == SetClipboard(text);
  }

  /**
    As written, `{`, a blank and a word starting with `up` or `down` up to one of
    `+^%~` are typed, not pasted: the window only gets `{` pressed, and the
    clipboard is not touched.
  */
  lemma SendKeysHoldsBrace(fg: nat -> Handle, from: nat, handle: Handle, w: string, x: char, clipboardOk: bool)
    requires KeyWord(w) && x in "+^%~"
    requires forall i :: 0 <= i < |w| ==> w[i] !in "}+^%~()"
    ensures var (ok, events, n) := SendKeysEffect(fg, from, handle, ['{', ' '] + w + [x], true, clipboardOk);
      var k := |ActivationEvents(handle, fg(from))|;
      ok && events[k] == TypeKeys([Down('{')]) && forall i :: 0 <= i < |events| ==> !events[i].SetClipboard?
  {
    var text := ['{', ' '] + w + [x];
    HeldOpenBrace(w, x);
    var first := ActivationEvents(handle, fg(from));
    var again := ActivationEvents(handle, fg(from + |first|));
    KeystrokeEffect(fg, from, handle, text, [Down('{')], clipboardOk);
    KeystrokeNoClipboard(first, [Down('{')], again);
  }

  /** `{ down~` is one such text. */
  lemma DownTildeHoldsBrace()
    ensures ReadKeys(EscapeChain("{ down~"), true, true) == Some([Down('{')])
  {
    assert ['{', ' '] + "down" + ['~'] == "{ down~";
    HeldOpenBrace("down", '~');
  }

  /** Appending five pieces one by one is appending them joined. */
  lemma Regroup(x: seq<InputEvent>, a: seq<InputEvent>, b: seq<InputEvent>, c: seq<InputEvent>, d: seq<InputEvent>, e: seq<InputEvent>)
    ensures x + a + b + c + d + e == x + (a + b + c + d + e)
  {
  }

  /** The OS as the driver sees it: the foreground window at each reading, and the event log. */
  class Desktop {
    /** The window `GetForegroundWindow` reports at its k-th call. */
    const foreground: nat -> Handle
    var fgReads: nat
    var log: seq<InputEvent>

    constructor (foreground: nat -> Handle)
      ensures this.foreground == foreground && fgReads == 0 && log == []
    {
      this.foreground := foreground;
      fgReads := 0;
      log := [];
    }

    /**
      `_activate_window`: asks for focus, reads the foreground window, asks once more
      only if it is another window, and reports whether the last reading is the target.
    */
    method ActivateWindow(handle: Handle) returns (ok: bool)
      modifies this`fgReads, this`log
      ensures log == old(log) + ActivationEvents(handle, foreground(old(fgReads)))
      ensures fgReads == old(fgReads) + |ActivationEvents(handle, foreground(old(fgReads)))|
      ensures ok <==> foreground(fgReads - 1) == handle
    {
      log := log + [Focus(handle)];
      var fg := foreground(fgReads);
      fgReads := fgReads + 1;
      if fg != handle {
        log := log + [Focus(handle)];
        fg := foreground(fgReads);
        fgReads := fgReads + 1;
      }
      ok := fg == handle;
    }

    method SendVk(vk: int)
      modifies this`log
      ensures log == old(log) + Keys(VkPress(vk))
    {
      log := log + [Key(KeyInput(vk, 0, 0)), Key(KeyInput(vk, 0, KeyEventFKeyUp))];
    }

    /** `_send_unicode_char`: ctypes keeps the low 16 bits of `ord(c)` in `wScan`. */
    method SendUnicodeChar(c: char)
      modifies this`log
      ensures log == old(log) + Keys(UnicodePressAsWritten(c))
    {
      var code := (c as int) % 0x1_0000;
      log := log + Keys(UnitPress(code));
    }

    /**
      `send_raw_keys`: activates the window (and goes on whatever the result), then
      types every token: a name of `VK_MAP`, looked up in lower case, as one virtual
      key; anything else character by character. Adds no Enter and reports success.
    */
    method SendRawKeys(handle: Handle, tokens: seq<string>) returns (ok: bool)
      modifies this`fgReads, this`log
      ensures ok
      ensures log == old(log) + ActivationEvents(handle, foreground(old(fgReads))) + Keys(TokensPress(tokens))
    {
      var _ := ActivateWindow(handle);
      ghost var start := log;
      for i := 0 to |tokens|
        invariant log == start + Keys(TokensPress(tokens[..i]))
      {
        assert tokens[..i + 1][..i] == tokens[..i];
        assert TokensPress(tokens[..i + 1]) == TokensPress(tokens[..i]) + TokenPress(tokens[i]);
        LogAppend(start, TokensPress(tokens[..i]), TokenPress(tokens[i]));
        SendToken(tokens[i]);
      }
      assert tokens[..|tokens|] == tokens;
      ok := true;
    }

    /** One token of `send_raw_keys`. */
    method SendToken(p: string)
      modifies this`log
      ensures log == old(log) + Keys(TokenPress(p))
    {
      var pLower := Lower(p);
      if pLower in VkMap {
        SendVk(VkMap[pLower]);
      } else if |p| == 1 {
        SendUnicodeChar(p[0]);
      } else {
        ghost var mid := log;
        for j := 0 to |p|
          invariant log == mid + Keys(CharsPress(p[..j]))
        {
          assert p[..j + 1][..j] == p[..j];
          assert CharsPress(p[..j + 1]) == CharsPress(p[..j]) + UnicodePressAsWritten(p[j]);
          LogAppend(mid, CharsPress(p[..j]), UnicodePressAsWritten(p[j]));
          SendUnicodeChar(p[j]);
        }
        assert p[..|p|] == p;
      }
    }

    /**
      `send_keys_to_window`: activates the window, then takes the keystroke path
      when pywinauto attaches (`connected`) and `type_keys` can read the escaped
      text, else the clipboard path when clip.exe runs (`clipboardOk`).
    */
    method SendKeysToWindow(handle: Handle, text: string, connected: bool, clipboardOk: bool)
      returns (ok: bool)
      modifies this`fgReads, this`log
      ensures ok == SendKeysEffect(foreground, old(fgReads), handle, text, connected, clipboardOk).0
      ensures log == old(log) + SendKeysEffect(foreground, old(fgReads), handle, text, connected, clipboardOk).1
      ensures fgReads == SendKeysEffect(foreground, old(fgReads), handle, text, connected, clipboardOk).2
    {
      ghost var start, before := fgReads, log;
      ghost var first := ActivationEvents(handle, foreground(start));
      var _ := ActivateWindow(handle);
      ghost var n := fgReads;
      ghost var again := ActivationEvents(handle, foreground(n));
      var keys := ReadKeys(EscapeChain(text), true, true);
      if connected && keys.Some? {
        TypeThenEnter(handle, keys.value);
        Regroup(before, first, [TypeKeys(keys.value)], again, [TypeKeys([Enter])], Keys(VkPress(VkReturn)));
        return true;
      }
      if clipboardOk {
        PasteThenEnter(handle, text);
        KeysConcat(PastePress(), VkPress(VkReturn));
        Regroup(before, first, [SetClipboard(text)], again, Keys(PastePress()), Keys(VkPress(VkReturn)));
        return true;
      }
      return false;
    }

    /** The keystroke path: the keys typed, the window activated again, `{ENTER}` typed and `VK_RETURN` pressed. */
    method TypeThenEnter(handle: Handle, keys: seq<Stroke>)
      modifies this`fgReads, this`log
      ensures log == old(log) + [TypeKeys(keys)] + ActivationEvents(handle, foreground(old(fgReads)))
        + [TypeKeys([Enter])] + Keys(VkPress(VkReturn))
      ensures fgReads == old(fgReads) + |ActivationEvents(handle, foreground(old(fgReads)))|
    {
      log := log + [TypeKeys(keys)];
      var _ := ActivateWindow(handle);
      EnterCode();
      log := log + [TypeKeys([Enter])];
      SendVk(VkReturn);
    }

    /** The clipboard path: the text copied, the window activated again, Ctrl+V and `VK_RETURN` pressed. */
    method PasteThenEnter(handle: Handle, text: string)
      modifies this`fgReads, this`log
      ensures log == old(log) + [SetClipboard(text)] + ActivationEvents(handle, foreground(old(fgReads)))
        + Keys(PastePress()) + Keys(VkPress(VkReturn))
      ensures fgReads == old(fgReads) + |ActivationEvents(handle, foreground(old(fgReads)))|
    {
      log := log + [SetClipboard(text)];
      var _ := ActivateWindow(handle);
      log := log + Keys(PastePress());
      SendVk(VkReturn);
    }
  }
}
