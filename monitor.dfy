/**
  monitor.py: the elapsed-time label, the interactive-prompt detector, the
  quick-reply parser, the single live status message, the monitor session
  (`_monitor_loop`) and its start/cancel. bot.py's monitor is the same loop with
  the differences `Variant` names.
*/
module Monitor {
  import opened Wrappers
  import opened Text
  import opened Config
  import opened ClaudeDetect

  // ---------------------------------------------------------------- elapsed time

  /** `_fmt_elapsed` on the whole seconds elapsed: `XmYs` from a minute on, `Ns` below. */
  function FmtElapsed(s: int): (r: string)
    ensures r != [] && r[|r| - 1] == 's'
  {
    if s >= 60 then NatToDecimal(s / 60) + "m " + NatToDecimal(s % 60) + "s"
    else IntToString(s) + "s"
  }

  /** A non-empty run of decimal digits, read as a number. */
  function ParseNat(s: string): Option<nat> {
    if s != [] && forall i :: 0 <= i < |s| ==> IsDigit(s[i]) then Some(DecimalValue(s)) else None
  }

  /** Reads an elapsed-time label back: `Ns` (possibly negative), or `Xm Ys` as `60 * X + Y`. */
  function ParseElapsed(t: string): Option<int> {
    if t == [] || t[|t| - 1] != 's' then None
    else
      var body := t[..|t| - 1];
      var parts := Split(body, 'm');
      if |parts| == 1 then
        if body != [] && body[0] == '-' then
          (var n := ParseNat(body[1..]); if n.Some? then Some(-(n.value as int)) else None)
        else
          (var n := ParseNat(body); if n.Some? then Some(n.value as int) else None)
      else if |parts| == 2 && parts[1] != [] && parts[1][0] == ' ' then
        var m := ParseNat(parts[0]);
        var sec := ParseNat(parts[1][1..]);
        if m.Some? && sec.Some? then Some(60 * m.value + sec.value) else None
      else None
  }

  lemma ParseNatDecimal(n: nat)
    ensures ParseNat(NatToDecimal(n)) == Some(n)
    ensures 'm' !in NatToDecimal(n) && ' ' !in NatToDecimal(n) && '-' !in NatToDecimal(n)
  {
    DecimalRoundTrip(n);
  }

  /** The label names the elapsed seconds exactly: minutes and seconds add back up. */
  lemma FmtElapsedRoundTrip(s: int)
    ensures ParseElapsed(FmtElapsed(s)) == Some(s)
  {
    if s >= 60 {
      MinutesRoundTrip(s);
    } else {
      SecondsRoundTrip(s);
    }
  }

  lemma MinutesRoundTrip(s: int)
    requires s >= 60
    ensures ParseElapsed(FmtElapsed(s)) == Some(s)
  {
    var t := FmtElapsed(s);
    var a := NatToDecimal(s / 60);
    var c := NatToDecimal(s % 60);
    var b := " " + c;
    ParseNatDecimal(s / 60);
    ParseNatDecimal(s % 60);
    assert t[..|t| - 1] == a + ['m'] + b;
    SplitAround(a, b, 'm');
    SplitNoSep(b, 'm');
    assert Split(t[..|t| - 1], 'm') == [a, b];
    assert b[1..] == c;
  }

  lemma SecondsRoundTrip(s: int)
    requires s < 60
    ensures ParseElapsed(FmtElapsed(s)) == Some(s)
  {
    var t := FmtElapsed(s);
    var body := IntToString(s);
    assert t[..|t| - 1] == body;
    if s < 0 {
      ParseNatDecimal(-s);
      assert body[1..] == NatToDecimal(-s);
    } else {
      ParseNatDecimal(s);
    }
    SplitNoSep(body, 'm');
  }

  // ---------------------------------------------------------------- prompt detection

  /** The markers whose presence in the terminal tail means the assistant waits for a choice. */
  const PromptMarkers: seq<string> := [
    "Select an option", "Choose", "approve", "deny", "Yes",
    "allowedPrompts", "Do you want", "(y/n)", "(Y/n)",
    "❯", "◯", "◉", "☐", "☑"
  ]

  const TailLineCount: nat := 30

  /** The last 30 lines of the stripped terminal text. */
  function PromptTail(text: string): string {
    Join(LastN(Split(Strip(text), '\n'), TailLineCount), '\n')
  }

  predicate HasMarker(tail: string) {
    exists i :: 0 <= i < |PromptMarkers| && Contains(tail, PromptMarkers[i])
  }

  /** `_detect_interactive_prompt`: the tail when it holds a marker, `None` for empty text or no marker. */
  function DetectInteractivePrompt(text: string): (r: Option<string>)
    ensures r.Some? <==> text != [] && HasMarker(PromptTail(text))
    ensures r.Some? ==> r.value == PromptTail(text)
  {
    if text == [] then None
    else
      var tail := PromptTail(text);
      if HasMarker(tail) then Some(tail) else None
  }

  /** The detected prompt is exactly the last (at most 30) lines of the stripped text. */
  lemma PromptTailLines(text: string)
    ensures var lines := Split(Strip(text), '\n');
      Split(PromptTail(text), '\n') == LastN(lines, TailLineCount)
      && 1 <= |Split(PromptTail(text), '\n')| <= TailLineCount
      && LastN(lines, TailLineCount) == lines[|lines| - |LastN(lines, TailLineCount)|..]
  {
    var lines := Split(Strip(text), '\n');
    var tail := LastN(lines, TailLineCount);
    assert forall i :: 0 <= i < |tail| ==> tail[i] in lines;
    SplitJoin(tail, '\n');
  }

  // ---------------------------------------------------------------- quick replies

  const YesNoReplies: seq<QuickReply> := [QuickReply("✅ Yes", "y enter"), QuickReply("❌ No", "n enter")]
  const SelectorReplies: seq<QuickReply> := [QuickReply("↑", "up"), QuickReply("↓", "down"), QuickReply("✓ 确认", "enter")]

  /** A yes/no question: "(y/n)" or "yes/no" in the lower-cased prompt. */
  predicate IsYesNo(prompt: string) {
    var lower := Lower(prompt);
    Contains(lower, "(y/n)") || Contains(lower, "(y/n)?") || Contains(lower, "yes/no")
  }

  /** The end of the run of whitespace starting at `j`. */
  function SkipSpace(t: string, j: nat): (r: nat)
    requires j <= |t|
    ensures j <= r <= |t| && (r == |t| || !IsSpace(t[r]))
    ensures forall k :: j <= k < r ==> IsSpace(t[k])
    decreases |t| - j
  {
    if j < |t| && IsSpace(t[j]) then SkipSpace(t, j + 1) else j
  }

  /** The end of the run of ASCII digits starting at `j`. */
  function DigitsEnd(t: string, j: nat): (r: nat)
    requires j <= |t|
    ensures j <= r <= |t| && (r == |t| || !IsDigit(t[r]))
    ensures forall k :: j <= k < r ==> IsDigit(t[k])
    decreases |t| - j
  {
    if j < |t| && IsDigit(t[j]) then DigitsEnd(t, j + 1) else j
  }

  /**
    The number the pattern `\s*[\[\(]?(\d+)[\]\)]` captures when matched from
    position `j`: whitespace, an optional opening bracket, a digit run and a closing
    bracket. Every part is forced (no backtracking can change the capture).
  */
  function NumberAt(t: string, j: nat): (r: Option<nat>)
    requires j <= |t|
  {
    var a := SkipSpace(t, j);
    var b := if a < |t| && (t[a] == '[' || t[a] == '(') then a + 1 else a;
    var c := DigitsEnd(t, b);
    if b < c && c < |t| && (t[c] == ']' || t[c] == ')') then Some(DecimalValue(t[b..c])) else None
  }

  /** Where a match of `(?:^|\n)` can leave off: the text start, or just after a newline. */
  predicate LineStart(t: string, p: nat) {
    p <= |t| && (p == 0 || t[p - 1] == '\n')
  }

  /** What the scan position `p` contributes to the numbered options. */
  function ValuesAt(t: string, p: nat): set<nat> {
    if LineStart(t, p) && NumberAt(t, p).Some? then {NumberAt(t, p).value} else {}
  }

  /**
    The numbers `re.findall` captures, over the scan positions before `p`. Matches
    found by `findall` never overlap, but a match that covers a later line start
    captures the same number from it, so collecting over every line start gives
    the same set.
  */
  function NumberedBefore(t: string, p: nat): set<nat>
    decreases p
  {
    if p == 0 then {} else NumberedBefore(t, p - 1) + ValuesAt(t, p - 1)
  }

  /** The set of numbers the pattern captures in `t`. */
  function NumberedValues(t: string): set<nat> {
    NumberedBefore(t, |t| + 1)
  }

  /** A number is captured exactly when some line start has it in front of a closing bracket. */
  lemma {:induction false} NumberedBeforeMembers(t: string, p: nat, v: nat)
    ensures v in NumberedBefore(t, p) <==> exists q :: 0 <= q < p && LineStart(t, q) && NumberAt(t, q) == Some(v)
    decreases p
  {
    if p > 0 {
      NumberedBeforeMembers(t, p - 1, v);
      if v in NumberedBefore(t, p) && v !in NumberedBefore(t, p - 1) {
        assert LineStart(t, p - 1) && NumberAt(t, p - 1) == Some(v);
      }
    }
  }

  /**
    The hand-written line scanner: every line start is tried in turn and the numbers
    found are collected.
  */
  method ScanNumbered(t: string) returns (found: set<nat>)
    ensures found == NumberedValues(t)
  {
    found := {};
    var p := 0;
    while p <= |t|
      invariant p <= |t| + 1
      invariant found == NumberedBefore(t, p)
    {
      var here := ScanAt(t, p);
      assert NumberedBefore(t, p + 1) == NumberedBefore(t, p) + here;
      found := found + here;
      p := p + 1;
    }
  }

  /** One scan position: a line start followed by a bracketed number contributes it. */
  method ScanAt(t: string, p: nat) returns (here: set<nat>)
    requires p <= |t|
    ensures here == ValuesAt(t, p)
  {
    here := {};
    if p == 0 || t[p - 1] == '\n' {
      var v := NumberAt(t, p);
      if v.Some? {
        here := {v.value};
      }
    }
  }

  /** The option digits `n` to 9 that are in `s`, ascending. */
  function DigitsIn(s: set<nat>, n: nat): (r: seq<nat>)
    ensures forall i :: 0 <= i < |r| ==> n <= r[i] <= 9 && r[i] in s
    ensures forall i, j :: 0 <= i < j < |r| ==> r[i] < r[j]
    decreases 10 - n
  {
    if n > 9 then [] else (if n in s then [n] else []) + DigitsIn(s, n + 1)
  }

  /** Every option digit from `n` to 9 in `s` is listed. */
  lemma {:induction false} DigitsInComplete(s: set<nat>, n: nat, v: nat)
    requires v in s && n <= v <= 9
    ensures v in DigitsIn(s, n)
    decreases 10 - n
  {
    if v != n {
      DigitsInComplete(s, n + 1, v);
    }
  }

  /** The numbered quick replies: one button per option 1..9, ascending, sending the digit and Enter. */
  function NumberedReplies(prompt: string): seq<QuickReply> {
    RepliesFor(NumberedValues(prompt))
  }

  /** One reply per option number 1..9 in `vs`, ascending. */
  function RepliesFor(vs: set<nat>): (r: seq<QuickReply>) {
    Map(DigitsIn(vs, 1), OptionReply)
  }

  /** `_parse_prompt_type`: yes/no first, then the `❯` selector, then numbered options, else none. */
  function ParsePromptType(prompt: string): (r: seq<QuickReply>) {
    if IsYesNo(prompt) then YesNoReplies
    else if Contains(prompt, "❯") then SelectorReplies
    else NumberedReplies(prompt)
  }

  /** The priority of the quick-reply kinds. */
  lemma PromptTypePriority(prompt: string)
    ensures IsYesNo(prompt) ==> ParsePromptType(prompt) == YesNoReplies
    ensures !IsYesNo(prompt) && Contains(prompt, "❯") ==> ParsePromptType(prompt) == SelectorReplies
    ensures !IsYesNo(prompt) && !Contains(prompt, "❯") ==> ParsePromptType(prompt) == NumberedReplies(prompt)
    ensures ParsePromptType(prompt) == YesNoReplies <==> IsYesNo(prompt)
  {
    if !IsYesNo(prompt) && !Contains(prompt, "❯") {
      var r := NumberedReplies(prompt);
      if |r| == 2 {
        assert r[0].caption != YesNoReplies[0].caption by {
          assert IsDigit(r[0].caption[0]);
        }
      }
    }
  }

  /** The captured numbers: those some line start has in front of a closing bracket. */
  lemma NumberedValuesMembers(t: string, v: nat)
    ensures v in NumberedValues(t) <==> exists q :: 0 <= q <= |t| && LineStart(t, q) && NumberAt(t, q) == Some(v)
  {
    NumberedBeforeMembers(t, |t| + 1, v);
  }

  /** The reply for option `d`: its digits as caption, the digits and Enter as keys. */
  function OptionReply(d: nat): QuickReply {
    QuickReply(NatToDecimal(d), NatToDecimal(d) + " enter")
  }

  /**
    Every numbered reply is the reply of a captured number from 1 to 9, and the
    numbers ascend (so none repeats).
  */
  lemma {:induction false} RepliesForSound(vs: set<nat>)
    ensures var r := RepliesFor(vs);
      forall i :: 0 <= i < |r| ==> (exists d :: 1 <= d <= 9 && d in vs && r[i] == OptionReply(d))
  {
    var r := RepliesFor(vs);
    var ds := DigitsIn(vs, 1);
    forall i | 0 <= i < |r|
      ensures exists d :: 1 <= d <= 9 && d in vs && r[i] == OptionReply(d)
    {
      assert r[i] == OptionReply(ds[i]);
    }
  }

  /** Every captured number from 1 to 9 gets a reply. */
  lemma RepliesForComplete(vs: set<nat>, d: nat)
    requires d in vs && 1 <= d <= 9
    ensures OptionReply(d) in RepliesFor(vs)
  {
    DigitsInComplete(vs, 1, d);
    MapHas(DigitsIn(vs, 1), OptionReply, d);
  }

  /** The replies are in ascending order of their numbers. */
  lemma RepliesForAscending(vs: set<nat>)
    ensures var r := RepliesFor(vs);
      forall i, j :: 0 <= i < j < |r| ==> DecimalValue(r[i].caption) < DecimalValue(r[j].caption)
  {
    var r := RepliesFor(vs);
    var ds := DigitsIn(vs, 1);
    forall i, j | 0 <= i < j < |r| ensures DecimalValue(r[i].caption) < DecimalValue(r[j].caption) {
      DecimalRoundTrip(ds[i]);
      DecimalRoundTrip(ds[j]);
    }
  }

  /** No numbered reply exactly when no number from 1 to 9 is captured. */
  lemma RepliesForEmpty(vs: set<nat>)
    ensures RepliesFor(vs) == [] <==> forall d :: d in vs ==> d == 0 || d > 9
  {
    var ds := DigitsIn(vs, 1);
    if ds != [] {
      assert ds[0] in vs && 1 <= ds[0] <= 9;
    } else {
      forall d | d in vs ensures d == 0 || d > 9 {
        if 1 <= d <= 9 {
          DigitsInComplete(vs, 1, d);
        }
      }
    }
  }

  // ---------------------------------------------------------------- the live status message

  /**
    The parts of the shared `state` a monitor session reads and writes: the queue,
    the last screenshot digest, the live status message, the next message number
    and everything sent so far.
  */
  datatype Shared = Shared(queue: seq<string>, lastHash: Option<nat>, status: Option<MsgId>, nextMsg: MsgId, log: seq<Effect>)

  /** Sends `e`. */
  function Emit(sh: Shared, e: Effect): (r: Shared)
    ensures r.log == sh.log + [e]
  {
    sh.(log := sh.log + [e])
  }

  /**
    `_update_status`: the live status message is edited in place when there is one
    and the edit goes through (`editOk`); otherwise a new message is sent and
    becomes the live one.
  */
  function WithStatus(sh: Shared, chat: ChatId, text: StatusText, editOk: bool): (r: Shared)
    ensures r.queue == sh.queue && r.lastHash == sh.lastHash && r.status.Some?
    ensures |r.log| == |sh.log| + 1 && r.log[..|sh.log|] == sh.log
    ensures sh.status.Some? && editOk ==>
      r.status == sh.status && r.nextMsg == sh.nextMsg && r.log[|sh.log|] == StatusEdited(sh.status.value, text)
    ensures !(sh.status.Some? && editOk) ==>
      r.status == Some(sh.nextMsg) && r.nextMsg == sh.nextMsg + 1 && r.log[|sh.log|] == StatusSent(chat, sh.nextMsg, text)
  {
    if sh.status.Some? && editOk then Emit(sh, StatusEdited(sh.status.value, text))
    else sh.(status := Some(sh.nextMsg), nextMsg := sh.nextMsg + 1, log := sh.log + [StatusSent(chat, sh.nextMsg, text)])
  }

  /** `_delete_status`: the live status message, if any, is deleted and forgotten. */
  function WithoutStatus(sh: Shared): (r: Shared)
    ensures r.queue == sh.queue && r.lastHash == sh.lastHash && r.nextMsg == sh.nextMsg && r.status == None
    ensures sh.status.None? ==> r == sh
    ensures sh.status.Some? ==> r.log == sh.log + [StatusDeleted(sh.status.value)]
  {
    if sh.status.Some? then sh.(status := None, log := sh.log + [StatusDeleted(sh.status.value)]) else sh
  }

  /** `if img_data: send_photo(...)`: a failed capture sends nothing. */
  function Photo(sh: Shared, chat: ChatId, shot: Option<Screenshot>): (r: Shared)
    ensures r.log == sh.log + (if shot.Some? then [PhotoSent(chat, shot.value)] else [])
    ensures r.(log := sh.log) == sh
  {
    if shot.Some? then Emit(sh, PhotoSent(chat, shot.value)) else sh
  }

  // ---------------------------------------------------------------- session

  /** The two copies of the loop: monitor.py (`Modular`) and bot.py (`Monolith`). */
  datatype Variant = Modular | Monolith

  /** The wall-clock ceiling of a monitor.py session, in seconds. */
  const MaxDuration: int := 3600
  /** Ticks a session waits for the assistant to start working. */
  const GraceTicks: nat := 5
  /** A completion reply shorter than this (stripped) is not forwarded. */
  const MinResponseLength: nat := 10

  /** `s[:n]` on a sequence. */
  function Take<T>(s: seq<T>, n: nat): (r: seq<T>)
    ensures |r| == if |s| < n then |s| else n
    ensures r == s[..|r|]
  {
    if |s| <= n then s else s[..n]
  }

  /** The queue excerpt under a status line: `[i]` and the first 20 characters of each item. */
  function QueuePreviewOf(v: Variant, q: seq<string>): (r: QueuePreview)
    ensures q == [] <==> r == NoPreview
    ensures r.Preview? ==> |r.shown| == (if v == Modular then |Take(q, 5)| else |q|)
  {
    if q == [] then NoPreview
    else
      var items := if v == Modular then Take(q, 5) else q;
      Preview(QueueItems(items), if v == Modular then |q| - 5 else 0)
  }

  /** `[i]` and the first 20 characters of each queued message, numbered from 1. */
  function QueueItems(q: seq<string>): (r: seq<string>)
    ensures |r| == |q|
    ensures forall i :: 0 <= i < |q| ==> r[i] == "[" + NatToDecimal(i + 1) + "]" + Take(q[i], 20)
  {
    seq(|q|, i requires 0 <= i < |q| => "[" + NatToDecimal(i + 1) + "]" + Take(q[i], 20))
  }

  /** The launch parameters of a session. */
  datatype Params = Params(variant: Variant, handle: Handle, chat: ChatId, interval: int, start: int)

  /** The elapsed-time part of a status line; bot.py shows none. */
  function Elapsed(p: Params, now: int): Option<string> {
    if p.variant == Modular then Some(FmtElapsed(now - p.start)) else None
  }

  /** The loop's local variables. */
  datatype Session = Session(wasThinking: bool, idleCount: nat, grace: nat, lastState: Option<Status>, lastShotTime: int)

  /**
    What one tick reads from the outside: the clock, the window title, the terminal
    text, a capture for the prompt, grace or completion photo, the title read again
    at the completion check, the transcript reply, whether injecting the next queued
    message succeeded, the periodic capture, and whether editing the status message
    succeeds.
  */
  datatype Observation = Observation(
    now: int, title: string, terminal: string, shot: Option<Screenshot>, recheckTitle: string,
    transcript: Option<string>, injectOk: bool, periodicShot: Option<Screenshot>, editOk: bool)

  /** How a tick ends: the loop goes on, or breaks for one of these reasons. */
  datatype Outcome = Continue | Completed | PromptShown | GraceExpired | TimedOut | TargetGone | InjectFailed

  datatype StepResult = StepResult(session: Session, shared: Shared, outcome: Outcome)

  /** The session before the first tick: a working assistant skips the grace period. */
  function Begin(p: Params, title: string, now: int, editOk: bool, sh: Shared): (r: (Session, Shared))
    ensures DetectState(title) == Thinking ==> r.0 == Session(true, 0, 0, Some(Thinking), 0)
    ensures DetectState(title) != Thinking ==> r.0 == Session(false, 0, GraceTicks, None, 0) && r.1 == sh
  {
    if DetectState(title) == Thinking then
      (Session(true, 0, 0, Some(Thinking), 0), WithStatus(sh, p.chat, ThinkingStatus(Elapsed(p, now), NoPreview), editOk))
    else (Session(false, 0, GraceTicks, None, 0), sh)
  }

  /** The periodic screenshot: due after `interval` seconds, sent only when its digest is new. */
  function Periodic(p: Params, s: Session, sh: Shared, o: Observation): (r: StepResult)
    ensures r.outcome == Continue
    ensures r.session == s.(lastShotTime := r.session.lastShotTime)
    ensures r.shared.queue == sh.queue && r.shared.status == sh.status && r.shared.nextMsg == sh.nextMsg
    ensures sh.log <= r.shared.log
    ensures r.shared.lastHash == sh.lastHash
      || (o.periodicShot.Some? && r.shared.lastHash == Some(o.periodicShot.value.digest)
          && Some(o.periodicShot.value.digest) != sh.lastHash && o.now - s.lastShotTime >= p.interval)
  {
    if o.now - s.lastShotTime >= p.interval then
      var s1 := s.(lastShotTime := o.now);
      if o.periodicShot.Some? && Some(o.periodicShot.value.digest) != sh.lastHash then
        StepResult(s1, Emit(sh.(lastHash := Some(o.periodicShot.value.digest)), PhotoSent(p.chat, o.periodicShot.value)), Continue)
      else StepResult(s1, sh, Continue)
    else StepResult(s, sh, Continue)
  }

  /** A grace tick: the assistant has not been seen working yet. */
  function GraceStep(p: Params, s: Session, sh: Shared, o: Observation): StepResult
    requires s.grace > 0
  {
    var g := s.grace - 1;
    if o.title == [] then StepResult(s.(grace := g), sh, TargetGone)
    else if DetectState(o.title) == Thinking then
      StepResult(s.(wasThinking := true, grace := 0, lastState := Some(Thinking)),
                 WithStatus(sh, p.chat, ThinkingStatus(Elapsed(p, o.now), NoPreview), o.editOk), Continue)
    else if g == 0 then StepResult(s.(grace := 0), WithoutStatus(Photo(sh, p.chat, o.shot)), GraceExpired)
    else StepResult(s.(grace := g), sh, Continue)
  }

  /** A thinking reading: the status line appears on the transition, and a visible prompt ends the session. */
  function ThinkingStep(p: Params, s: Session, sh: Shared, o: Observation): StepResult {
    var s1 := s.(wasThinking := true, idleCount := 0, lastState := Some(Thinking));
    var sh1 := if s.lastState != Some(Thinking)
      then WithStatus(sh, p.chat, ThinkingStatus(Elapsed(p, o.now), QueuePreviewOf(p.variant, sh.queue)), o.editOk)
      else sh;
    var prompt := DetectInteractivePrompt(o.terminal);
    if prompt.Some? then
      var shown := Emit(Photo(sh1, p.chat, o.shot), PromptSent(p.chat, LastN(prompt.value, 1500), ParsePromptType(prompt.value)));
      StepResult(s1, WithoutStatus(shown), PromptShown)
    else Periodic(p, s1, sh1, o)
  }

  /** The reply forwarded at completion: the transcript's, or (monitor.py only) the terminal text. */
  function Response(v: Variant, transcript: Option<string>, terminal: string): (r: Option<string>)
    ensures r.Some? ==> |Strip(r.value)| > MinResponseLength
    ensures v == Monolith ==> r == (if transcript.Some? && |Strip(transcript.value)| > MinResponseLength then transcript else None)
  {
    if transcript.Some? && |Strip(transcript.value)| > MinResponseLength then transcript
    else if v == Modular && |Strip(terminal)| > MinResponseLength then Some(terminal)
    else None
  }

  /**
    The completion: the status line goes, the digest is forgotten, the final photo
    and the reply are sent; then the front of the queue is injected, or the operator
    is asked whether the work is done.
  */
  function Completion(p: Params, s: Session, sh: Shared, o: Observation): StepResult {
    Drain(p, s, Report(p, sh, o), o)
  }

  /** The first half of a completion: status line removed, digest forgotten, photo and reply sent. */
  function Report(p: Params, sh: Shared, o: Observation): (r: Shared)
    ensures r.queue == sh.queue && r.status == None && r.lastHash == None && r.nextMsg == sh.nextMsg
    ensures sh.log <= r.log
  {
    var sh1 := Photo(WithoutStatus(sh).(lastHash := None), p.chat, o.shot);
    var reply := Response(p.variant, o.transcript, o.terminal);
    if reply.Some? then Emit(sh1, ResponseSent(p.chat, reply.value)) else sh1
  }

  /** The second half: the front of the queue is announced and injected, or the operator is asked. */
  function Drain(p: Params, s: Session, sh: Shared, o: Observation): StepResult {
    if sh.queue == [] then StepResult(s, Emit(sh, CompletionPromptSent(p.chat)), Completed)
    else
      var sh3 := Dequeued(p, sh);
      if !o.injectOk then StepResult(s, WithStatus(sh3, p.chat, QueuedSendFailedStatus, o.editOk), InjectFailed)
      else Periodic(p, Session(false, 0, GraceTicks, None, s.lastShotTime), Emit(sh3, Injected(p.handle, sh.queue[0])), o)
  }

  /** The head of the queue taken off, announced in a fresh message that becomes the status. */
  function Dequeued(p: Params, sh: Shared): Shared
    requires sh.queue != []
  {
    var rest := sh.queue[1..];
    var id := sh.nextMsg;
    sh.(queue := rest, status := Some(id), nextMsg := id + 1,
        log := sh.log + [QueueNoticeSent(p.chat, id, Take(sh.queue[0], 100), QueuePreviewOf(p.variant, rest))])
  }

  /** An idle reading after work: the second one in a row, confirmed by a fresh title, completes. */
  function IdleStep(p: Params, s: Session, sh: Shared, o: Observation): StepResult {
    var s1 := s.(idleCount := s.idleCount + 1, lastState := Some(Idle));
    if s1.idleCount < 2 then Periodic(p, s1, sh, o)
    else if DetectState(o.recheckTitle) == Thinking then
      StepResult(s1.(wasThinking := true, idleCount := 0, lastState := Some(Thinking)),
                 WithStatus(sh, p.chat, ContinuingStatus(Elapsed(p, o.now)), o.editOk), Continue)
    else Completion(p, s1, sh, o)
  }

  /** Whether the wall-clock ceiling has passed (monitor.py only). */
  predicate TimedOutAt(p: Params, now: int) {
    p.variant == Modular && now - p.start > MaxDuration
  }

  /** One pass of the `while True` loop of `_monitor_loop`. */
  function Step(p: Params, s: Session, sh: Shared, o: Observation): StepResult {
    if TimedOutAt(p, o.now) then StepResult(s, WithStatus(sh, p.chat, TimedOutStatus, o.editOk), TimedOut)
    else if !s.wasThinking && s.grace > 0 then GraceStep(p, s, sh, o)
    else if o.title == [] then StepResult(s, sh, TargetGone)
    else
      var st := DetectState(o.title);
      if st == Thinking then ThinkingStep(p, s, sh, o)
      else if st == Idle && s.wasThinking then IdleStep(p, s, sh, o)
      else Periodic(p, s.(idleCount := 0), sh, o)
  }

  // ---------------------------------------------------------------- properties of a tick

  /**
    What holds at the start of every tick: the grace counter is at most 5, at most
    one idle reading is pending, and a session that has not seen the assistant
    work is still in its grace period.
  */
  predicate SessionInv(s: Session) {
    s.grace <= GraceTicks && s.idleCount <= 1 && (!s.wasThinking ==> s.grace > 0)
  }

  lemma BeginEstablishes(p: Params, title: string, now: int, editOk: bool, sh: Shared)
    ensures SessionInv(Begin(p, title, now, editOk, sh).0)
  {
  }

  /** A tick after which the loop goes on keeps the session invariant. */
  lemma StepKeepsInv(p: Params, s: Session, sh: Shared, o: Observation)
    requires SessionInv(s)
    ensures Step(p, s, sh, o).outcome == Continue ==> SessionInv(Step(p, s, sh, o).session)
  {
  }

  /** The queue only ever loses its front item, and only at a completion. */
  lemma StepQueue(p: Params, s: Session, sh: Shared, o: Observation)
    requires SessionInv(s)
    ensures var r := Step(p, s, sh, o);
      r.shared.queue == sh.queue
      || (sh.queue != [] && r.shared.queue == sh.queue[1..]
          && !TimedOutAt(p, o.now) && s.wasThinking && s.idleCount == 1
          && DetectState(o.title) == Idle && DetectState(o.recheckTitle) != Thinking)
  {
  }

  /** The ceiling is checked before anything else: the status line says so and nothing else happens. */
  lemma TimeoutFirst(p: Params, s: Session, sh: Shared, o: Observation)
    requires TimedOutAt(p, o.now)
    ensures var r := Step(p, s, sh, o);
      r.outcome == TimedOut && r.session == s && r.shared == WithStatus(sh, p.chat, TimedOutStatus, o.editOk)
  {
  }

  /** bot.py's session has no ceiling. */
  lemma MonolithNeverTimesOut(p: Params, s: Session, sh: Shared, o: Observation)
    requires p.variant == Monolith
    ensures Step(p, s, sh, o).outcome != TimedOut
  {
  }

  /**
    A grace tick counts down: without a thinking reading the counter drops by one
    and the session ends when it reaches 0 (or when the title is gone); a thinking
    reading ends the grace period at once.
  */
  lemma GraceCountsDown(p: Params, s: Session, sh: Shared, o: Observation)
    requires SessionInv(s) && !s.wasThinking && !TimedOutAt(p, o.now)
    ensures var r := Step(p, s, sh, o);
      (o.title == [] ==> r.outcome == TargetGone)
      && (o.title != [] && DetectState(o.title) == Thinking ==>
            r.outcome == Continue && r.session.wasThinking && r.session.grace == 0)
      && (o.title != [] && DetectState(o.title) != Thinking ==>
            r.session.grace == s.grace - 1 && !r.session.wasThinking
            && (r.outcome == GraceExpired <==> s.grace == 1)
            && (r.outcome == GraceExpired || r.outcome == Continue))
      && r.shared.queue == sh.queue
  {
  }

  /** A grace period that runs out sends the final capture and removes the status line. */
  lemma GraceExpiry(p: Params, s: Session, sh: Shared, o: Observation)
    requires SessionInv(s) && !s.wasThinking && !TimedOutAt(p, o.now)
    requires Step(p, s, sh, o).outcome == GraceExpired
    ensures Step(p, s, sh, o).shared == WithoutStatus(Photo(sh, p.chat, o.shot))
  {
  }

  /**
    Completion needs two idle readings in a row after work: any other reading
    outside the grace period clears the pending idle reading.
  */
  lemma NonIdleResets(p: Params, s: Session, sh: Shared, o: Observation)
    requires SessionInv(s) && s.wasThinking && !TimedOutAt(p, o.now) && o.title != []
    requires DetectState(o.title) != Idle
    ensures Step(p, s, sh, o).session.idleCount == 0
  {
  }

  /** The first idle reading after work only records itself. */
  lemma FirstIdlePends(p: Params, s: Session, sh: Shared, o: Observation)
    requires SessionInv(s) && s.wasThinking && s.idleCount == 0 && !TimedOutAt(p, o.now)
    requires DetectState(o.title) == Idle
    ensures var r := Step(p, s, sh, o);
      r.outcome == Continue && r.session.idleCount == 1 && r.shared.queue == sh.queue
      && r.shared.status == sh.status
  {
  }

  /** A recheck that shows the assistant working again returns to thinking without completing. */
  lemma RecheckReturnsToThinking(p: Params, s: Session, sh: Shared, o: Observation)
    requires SessionInv(s) && s.wasThinking && s.idleCount == 1 && !TimedOutAt(p, o.now)
    requires DetectState(o.title) == Idle && DetectState(o.recheckTitle) == Thinking
    ensures var r := Step(p, s, sh, o);
      r.outcome == Continue && r.session.wasThinking && r.session.idleCount == 0
      && r.session.lastState == Some(Thinking)
      && r.shared == WithStatus(sh, p.chat, ContinuingStatus(Elapsed(p, o.now)), o.editOk)
  {
  }

  /** What a confirmed completion does. */
  predicate Completes(p: Params, s: Session, o: Observation) {
    SessionInv(s) && s.wasThinking && s.idleCount == 1 && !TimedOutAt(p, o.now)
    && DetectState(o.title) == Idle && DetectState(o.recheckTitle) != Thinking
  }

  /** A completion with an empty queue removes the status line, asks the operator and ends. */
  lemma CompletionWithEmptyQueue(p: Params, s: Session, sh: Shared, o: Observation)
    requires Completes(p, s, o) && sh.queue == []
    ensures var r := Step(p, s, sh, o);
      r.outcome == Completed && r.shared.queue == [] && r.shared.status == None && r.shared.lastHash == None
      && r.shared.log[|r.shared.log| - 1] == CompletionPromptSent(p.chat)
  {
  }

  /**
    A completion with a queued message takes exactly the front one and announces it
    in a fresh status message; when injecting it fails, the status message says so
    and the session ends.
  */
  lemma CompletionInjectFails(p: Params, s: Session, sh: Shared, o: Observation)
    requires Completes(p, s, o) && sh.queue != [] && !o.injectOk
    ensures var r := Step(p, s, sh, o);
      r.outcome == InjectFailed && r.shared.queue == sh.queue[1..] && r.shared.status.Some?
      && r.shared.log[|r.shared.log| - 1].status == QueuedSendFailedStatus
  {
  }

  /**
    A completion whose injection succeeds starts over: the front message is typed
    into the window, the rest of the queue stays in order, and the session is back
    in a fresh grace period.
  */
  lemma CompletionInjects(p: Params, s: Session, sh: Shared, o: Observation)
    requires Completes(p, s, o) && sh.queue != [] && o.injectOk
    ensures var r := Step(p, s, sh, o);
      r.outcome == Continue && r.shared.queue == sh.queue[1..] && r.shared.status.Some?
      && r.session.wasThinking == false && r.session.idleCount == 0
      && r.session.grace == GraceTicks && r.session.lastState == None
      && Injected(p.handle, sh.queue[0]) in r.shared.log
  {
    StepCompletes(p, s, sh, o);
    var sh2 := Report(p, sh, o);
    var id := sh2.nextMsg;
    var sh3 := sh2.(queue := sh.queue[1..], status := Some(id), nextMsg := id + 1,
                    log := sh2.log + [QueueNoticeSent(p.chat, id, Take(sh.queue[0], 100), QueuePreviewOf(p.variant, sh.queue[1..]))]);
    var sh4 := Emit(sh3, Injected(p.handle, sh.queue[0]));
    var r := Periodic(p, Session(false, 0, GraceTicks, None, s.lastShotTime), sh4, o);
    assert Drain(p, s.(idleCount := 2, lastState := Some(Idle)), sh2, o) == r;
    assert sh4.log[|sh4.log| - 1] == Injected(p.handle, sh.queue[0]);
    assert r.shared.log[|sh4.log| - 1] == sh4.log[|sh4.log| - 1];
  }

  /** A confirmed completion is the completion of the session with its second idle reading recorded. */
  lemma StepCompletes(p: Params, s: Session, sh: Shared, o: Observation)
    requires Completes(p, s, o)
    ensures Step(p, s, sh, o) == Completion(p, s.(idleCount := 2, lastState := Some(Idle)), sh, o)
  {
  }

  /** `b` continues `a`. */
  predicate Extends(a: seq<Effect>, b: seq<Effect>) {
    a <= b
  }

  lemma ExtendsTrans(a: seq<Effect>, b: seq<Effect>, c: seq<Effect>)
    requires Extends(a, b) && Extends(b, c)
    ensures Extends(a, c)
  {
  }

  lemma {:induction false} CompletionLog(p: Params, s: Session, sh: Shared, o: Observation)
    ensures Extends(sh.log, Completion(p, s, sh, o).shared.log)
    ensures Completion(p, s, sh, o).shared.lastHash == None
      || (o.periodicShot.Some? && Completion(p, s, sh, o).shared.lastHash == Some(o.periodicShot.value.digest))
  {
    var sh2 := Report(p, sh, o);
    if sh2.queue != [] {
      var id := sh2.nextMsg;
      var sh3 := sh2.(queue := sh2.queue[1..], status := Some(id), nextMsg := id + 1,
                      log := sh2.log + [QueueNoticeSent(p.chat, id, Take(sh2.queue[0], 100), QueuePreviewOf(p.variant, sh2.queue[1..]))]);
      ExtendsTrans(sh.log, sh2.log, sh3.log);
      if !o.injectOk {
        ExtendsTrans(sh.log, sh3.log, WithStatus(sh3, p.chat, QueuedSendFailedStatus, o.editOk).log);
      } else {
        var sh4 := Emit(sh3, Injected(p.handle, sh2.queue[0]));
        ExtendsTrans(sh.log, sh3.log, sh4.log);
        var r := Periodic(p, Session(false, 0, GraceTicks, None, s.lastShotTime), sh4, o);
        ExtendsTrans(sh.log, sh4.log, r.shared.log);
      }
    }
  }

  /** What a tick may do to the log and to the stored digest. */
  predicate LogStep(p: Params, s: Session, sh: Shared, o: Observation, r: StepResult) {
    sh.log <= r.shared.log
    && (r.shared.lastHash == sh.lastHash
        || r.shared.lastHash == None
        || (o.periodicShot.Some? && r.shared.lastHash == Some(o.periodicShot.value.digest)
            && Some(o.periodicShot.value.digest) != sh.lastHash && o.now - s.lastShotTime >= p.interval))
  }

  lemma GraceLog(p: Params, s: Session, sh: Shared, o: Observation)
    requires s.grace > 0
    ensures LogStep(p, s, sh, o, GraceStep(p, s, sh, o))
  {
  }

  lemma {:induction false} ThinkingLog(p: Params, s: Session, sh: Shared, o: Observation)
    ensures LogStep(p, s, sh, o, ThinkingStep(p, s, sh, o))
  {
    var sh1 := if s.lastState != Some(Thinking)
      then WithStatus(sh, p.chat, ThinkingStatus(Elapsed(p, o.now), QueuePreviewOf(p.variant, sh.queue)), o.editOk)
      else sh;
    assert sh.log <= sh1.log && sh1.lastHash == sh.lastHash;
  }

  lemma {:induction false} IdleLog(p: Params, s: Session, sh: Shared, o: Observation)
    ensures LogStep(p, s, sh, o, IdleStep(p, s, sh, o))
  {
    var s1 := s.(idleCount := s.idleCount + 1, lastState := Some(Idle));
    if s1.idleCount >= 2 && DetectState(o.recheckTitle) != Thinking {
      CompletionLog(p, s1, sh, o);
    }
  }

  /**
    The log only grows, and the stored digest changes only to the digest of a due
    periodic capture that differs from it, or to `None` at a completion.
  */
  lemma {:induction false} StepLog(p: Params, s: Session, sh: Shared, o: Observation)
    ensures LogStep(p, s, sh, o, Step(p, s, sh, o))
  {
    if TimedOutAt(p, o.now) {
    } else if !s.wasThinking && s.grace > 0 {
      GraceLog(p, s, sh, o);
    } else if o.title == [] {
    } else if DetectState(o.title) == Thinking {
      ThinkingLog(p, s, sh, o);
    } else if DetectState(o.title) == Idle && s.wasThinking {
      IdleLog(p, s, sh, o);
    }
  }

  /** A periodic capture whose digest equals the stored one is never sent. */
  lemma PeriodicSkipsRepeats(p: Params, s: Session, sh: Shared, o: Observation)
    requires o.periodicShot.Some? && sh.lastHash == Some(o.periodicShot.value.digest)
    ensures Periodic(p, s, sh, o).shared == sh
  {
  }

  // ---------------------------------------------------------------- whole sessions

  /**
    The loop run over a finite sequence of observations: it stops at the first tick
    that breaks out, or when the observations run out (then the outcome is `Continue`).
  */
  function Run(p: Params, s: Session, sh: Shared, obs: seq<Observation>): StepResult
    decreases |obs|
  {
    if obs == [] then StepResult(s, sh, Continue)
    else
      var r := Step(p, s, sh, obs[0]);
      if r.outcome == Continue then Run(p, r.session, r.shared, obs[1..]) else r
  }

  /** A run takes its first tick, then carries on from that tick's state only if it continues. */
  lemma RunTick(p: Params, s: Session, sh: Shared, obs: seq<Observation>)
    requires obs != []
    ensures var r := Step(p, s, sh, obs[0]);
      Run(p, s, sh, obs) == if r.outcome == Continue then Run(p, r.session, r.shared, obs[1..]) else r
  {
  }

  /** No tick ends a session as `Completed` while messages are queued. */
  lemma {:induction false} StepCompleted(p: Params, s: Session, sh: Shared, o: Observation)
    requires Step(p, s, sh, o).outcome == Completed
    ensures var r := Step(p, s, sh, o);
      r.shared.queue == [] && r.shared.status == None && |r.shared.log| > 0
      && r.shared.log[|r.shared.log| - 1] == CompletionPromptSent(p.chat)
  {
    var s1 := s.(idleCount := s.idleCount + 1, lastState := Some(Idle));
    assert Step(p, s, sh, o) == Completion(p, s1, sh, o);
  }

  /** The session invariant holds at every tick of a run. */
  lemma {:induction false} RunKeepsInv(p: Params, s: Session, sh: Shared, obs: seq<Observation>)
    requires SessionInv(s)
    ensures Run(p, s, sh, obs).outcome == Continue ==> SessionInv(Run(p, s, sh, obs).session)
    decreases |obs|
  {
    if obs != [] {
      StepKeepsInv(p, s, sh, obs[0]);
      var r := Step(p, s, sh, obs[0]);
      if r.outcome == Continue {
        RunKeepsInv(p, r.session, r.shared, obs[1..]);
      }
    }
  }

  /**
    Over a whole session the queue only loses items from its front: what is left is
    a suffix of what was queued at the start.
  */
  lemma {:induction false} RunQueueSuffix(p: Params, s: Session, sh: Shared, obs: seq<Observation>)
    requires SessionInv(s)
    ensures IsSuffix(Run(p, s, sh, obs).shared.queue, sh.queue)
    decreases |obs|
  {
    if obs != [] {
      StepQueue(p, s, sh, obs[0]);
      StepKeepsInv(p, s, sh, obs[0]);
      var r := Step(p, s, sh, obs[0]);
      assert IsSuffix(r.shared.queue, sh.queue);
      if r.outcome == Continue {
        RunQueueSuffix(p, r.session, r.shared, obs[1..]);
        SuffixTrans(Run(p, r.session, r.shared, obs[1..]).shared.queue, r.shared.queue, sh.queue);
      }
    }
  }

  /** `a` is what is left of `b` after dropping some of its first items. */
  predicate IsSuffix<T(==)>(a: seq<T>, b: seq<T>) {
    |a| <= |b| && a == b[|b| - |a|..]
  }

  lemma SuffixTrans<T>(a: seq<T>, b: seq<T>, c: seq<T>)
    requires IsSuffix(a, b) && IsSuffix(b, c)
    ensures IsSuffix(a, c)
  {
    assert c[|c| - |a|..] == c[|c| - |b|..][|b| - |a|..];
  }

  /** Nothing sent is ever taken back: a run only appends to the log. */
  lemma {:induction false} RunLog(p: Params, s: Session, sh: Shared, obs: seq<Observation>)
    ensures sh.log <= Run(p, s, sh, obs).shared.log
    decreases |obs|
  {
    if obs != [] {
      StepLog(p, s, sh, obs[0]);
      var r := Step(p, s, sh, obs[0]);
      if r.outcome == Continue {
        RunLog(p, r.session, r.shared, obs[1..]);
      }
    }
  }

  /**
    A session that ends as `Completed` has drained the queue, removed its status
    line and finished by asking the operator.
  */
  lemma {:induction false} RunCompleted(p: Params, s: Session, sh: Shared, obs: seq<Observation>)
    requires Run(p, s, sh, obs).outcome == Completed
    ensures var r := Run(p, s, sh, obs);
      r.shared.queue == [] && r.shared.status == None && |r.shared.log| > 0
      && r.shared.log[|r.shared.log| - 1] == CompletionPromptSent(p.chat)
    decreases |obs|
  {
    var r := Step(p, s, sh, obs[0]);
    if r.outcome == Continue {
      RunCompleted(p, r.session, r.shared, obs[1..]);
    } else {
      StepCompleted(p, s, sh, obs[0]);
    }
  }

  // ---------------------------------------------------------------- the loop on the bot state

  /** The part of the bot state a session reads and writes. */
  function SharedOf(st: BotState): (r: Shared)
    reads st`msgQueue, st`lastScreenshotHash, st`statusMsg, st`nextMsgId, st`log
    ensures r.queue == st.msgQueue && r.lastHash == st.lastScreenshotHash && r.status == st.statusMsg
    ensures r.nextMsg == st.nextMsgId && r.log == st.log
  {
    Shared(st.msgQueue, st.lastScreenshotHash, st.statusMsg, st.nextMsgId, st.log)
  }

  /** Sends `e`. */
  method Send(st: BotState, e: Effect)
    modifies st`log
    ensures SharedOf(st) == Emit(old(SharedOf(st)), e)
  {
    st.log := st.log + [e];
  }

  /** `_update_status`. */
  method UpdateStatus(st: BotState, chat: ChatId, text: StatusText, editOk: bool)
    modifies st`statusMsg, st`nextMsgId, st`log
    ensures SharedOf(st) == WithStatus(old(SharedOf(st)), chat, text, editOk)
  {
    if st.statusMsg.Some? && editOk {
      st.log := st.log + [StatusEdited(st.statusMsg.value, text)];
    } else {
      st.log := st.log + [StatusSent(chat, st.nextMsgId, text)];
      st.statusMsg := Some(st.nextMsgId);
      st.nextMsgId := st.nextMsgId + 1;
    }
  }

  /** `_delete_status`. */
  method DeleteStatus(st: BotState)
    modifies st`statusMsg, st`log
    ensures SharedOf(st) == WithoutStatus(old(SharedOf(st)))
  {
    if st.statusMsg.Some? {
      st.log := st.log + [StatusDeleted(st.statusMsg.value)];
      st.statusMsg := None;
    }
  }

  /** `if img_data: send_photo(...)`. */
  method SendPhoto(st: BotState, chat: ChatId, shot: Option<Screenshot>)
    modifies st`log
    ensures SharedOf(st) == Photo(old(SharedOf(st)), chat, shot)
  {
    if shot.Some? {
      st.log := st.log + [PhotoSent(chat, shot.value)];
    }
  }

  /** The periodic screenshot at the end of a tick. */
  method PeriodicTick(st: BotState, p: Params, s: Session, o: Observation) returns (next: Session)
    modifies st`lastScreenshotHash, st`log
    ensures StepResult(next, SharedOf(st), Continue) == Periodic(p, s, old(SharedOf(st)), o)
  {
    next := s;
    if o.now - s.lastShotTime >= p.interval {
      next := s.(lastShotTime := o.now);
      if o.periodicShot.Some? && Some(o.periodicShot.value.digest) != st.lastScreenshotHash {
        st.lastScreenshotHash := Some(o.periodicShot.value.digest);
        st.log := st.log + [PhotoSent(p.chat, o.periodicShot.value)];
      }
    }
  }

  /** A grace tick. */
  method GraceTick(st: BotState, p: Params, s: Session, o: Observation) returns (next: Session, outcome: Outcome)
    requires s.grace > 0
    modifies st`statusMsg, st`nextMsgId, st`log
    ensures StepResult(next, SharedOf(st), outcome) == GraceStep(p, s, old(SharedOf(st)), o)
  {
    var g := s.grace - 1;
    if o.title == [] {
      return s.(grace := g), TargetGone;
    }
    if DetectState(o.title) == Thinking {
      UpdateStatus(st, p.chat, ThinkingStatus(Elapsed(p, o.now), NoPreview), o.editOk);
      return s.(wasThinking := true, grace := 0, lastState := Some(Thinking)), Continue;
    }
    if g == 0 {
      SendPhoto(st, p.chat, o.shot);
      DeleteStatus(st);
      return s.(grace := 0), GraceExpired;
    }
    return s.(grace := g), Continue;
  }

  /** A thinking tick. */
  method ThinkingTick(st: BotState, p: Params, s: Session, o: Observation) returns (next: Session, outcome: Outcome)
    modifies st`lastScreenshotHash, st`statusMsg, st`nextMsgId, st`log
    ensures StepResult(next, SharedOf(st), outcome) == ThinkingStep(p, s, old(SharedOf(st)), o)
  {
    next := s.(wasThinking := true, idleCount := 0, lastState := Some(Thinking));
    if s.lastState != Some(Thinking) {
      UpdateStatus(st, p.chat, ThinkingStatus(Elapsed(p, o.now), QueuePreviewOf(p.variant, st.msgQueue)), o.editOk);
    }
    var prompt := DetectInteractivePrompt(o.terminal);
    if prompt.Some? {
      SendPhoto(st, p.chat, o.shot);
      Send(st, PromptSent(p.chat, LastN(prompt.value, 1500), ParsePromptType(prompt.value)));
      DeleteStatus(st);
      outcome := PromptShown;
    } else {
      next := PeriodicTick(st, p, next, o);
      outcome := Continue;
    }
  }

  /** The confirmed completion: report, then inject the next queued message or ask the operator. */
  method CompleteTick(st: BotState, p: Params, s: Session, o: Observation) returns (next: Session, outcome: Outcome)
    modifies st`msgQueue, st`lastScreenshotHash, st`statusMsg, st`nextMsgId, st`log
    ensures StepResult(next, SharedOf(st), outcome) == Completion(p, s, old(SharedOf(st)), o)
  {
    ReportTick(st, p, o);
    next, outcome := DrainTick(st, p, s, o);
  }

  method ReportTick(st: BotState, p: Params, o: Observation)
    modifies st`lastScreenshotHash, st`statusMsg, st`log
    ensures SharedOf(st) == Report(p, old(SharedOf(st)), o)
  {
    DeleteStatus(st);
    st.lastScreenshotHash := None;
    SendPhoto(st, p.chat, o.shot);
    var reply := Response(p.variant, o.transcript, o.terminal);
    if reply.Some? {
      Send(st, ResponseSent(p.chat, reply.value));
    }
  }

  method DrainTick(st: BotState, p: Params, s: Session, o: Observation) returns (next: Session, outcome: Outcome)
    modifies st`msgQueue, st`lastScreenshotHash, st`statusMsg, st`nextMsgId, st`log
    ensures StepResult(next, SharedOf(st), outcome) == Drain(p, s, old(SharedOf(st)), o)
  {
    if st.msgQueue == [] {
      Send(st, CompletionPromptSent(p.chat));
      return s, Completed;
    }
    var item := st.msgQueue[0];
    Dequeue(st, p);
    if !o.injectOk {
      UpdateStatus(st, p.chat, QueuedSendFailedStatus, o.editOk);
      return s, InjectFailed;
    }
    Send(st, Injected(p.handle, item));
    next := PeriodicTick(st, p, Session(false, 0, GraceTicks, None, s.lastShotTime), o);
    outcome := Continue;
  }

  /** Taking the head of the queue and announcing it. */
  method Dequeue(st: BotState, p: Params)
    requires st.msgQueue != []
    modifies st`msgQueue, st`statusMsg, st`nextMsgId, st`log
    ensures SharedOf(st) == Dequeued(p, old(SharedOf(st)))
  {
    var item := st.msgQueue[0];
    st.msgQueue := st.msgQueue[1..];
    var id := st.nextMsgId;
    st.log := st.log + [QueueNoticeSent(p.chat, id, Take(item, 100), QueuePreviewOf(p.variant, st.msgQueue))];
    st.statusMsg := Some(id);
    st.nextMsgId := id + 1;
  }

  /** An idle tick after work. */
  method IdleTick(st: BotState, p: Params, s: Session, o: Observation) returns (next: Session, outcome: Outcome)
    modifies st`msgQueue, st`lastScreenshotHash, st`statusMsg, st`nextMsgId, st`log
    ensures StepResult(next, SharedOf(st), outcome) == IdleStep(p, s, old(SharedOf(st)), o)
  {
    next := s.(idleCount := s.idleCount + 1, lastState := Some(Idle));
    if next.idleCount < 2 {
      next := PeriodicTick(st, p, next, o);
      return next, Continue;
    }
    if DetectState(o.recheckTitle) == Thinking {
      UpdateStatus(st, p.chat, ContinuingStatus(Elapsed(p, o.now)), o.editOk);
      return next.(wasThinking := true, idleCount := 0, lastState := Some(Thinking)), Continue;
    }
    next, outcome := CompleteTick(st, p, next, o);
  }

  /** One pass of the `while True` loop, on the bot state. */
  method Tick(st: BotState, p: Params, s: Session, o: Observation) returns (next: Session, outcome: Outcome)
    modifies st`msgQueue, st`lastScreenshotHash, st`statusMsg, st`nextMsgId, st`log
    ensures StepResult(next, SharedOf(st), outcome) == Step(p, s, old(SharedOf(st)), o)
  {
    if TimedOutAt(p, o.now) {
      UpdateStatus(st, p.chat, TimedOutStatus, o.editOk);
      return s, TimedOut;
    }
    if !s.wasThinking && s.grace > 0 {
      next, outcome := GraceTick(st, p, s, o);
      return;
    }
    if o.title == [] {
      return s, TargetGone;
    }
    var state := DetectState(o.title);
    if state == Thinking {
      next, outcome := ThinkingTick(st, p, s, o);
    } else if state == Idle && s.wasThinking {
      next, outcome := IdleTick(st, p, s, o);
    } else {
      next := PeriodicTick(st, p, s.(idleCount := 0), o);
      outcome := Continue;
    }
  }

  /** The live status message, when there is one, has a number already handed out. */
  predicate StatusIssued(sh: Shared) {
    sh.status.Some? ==> sh.status.value < sh.nextMsg
  }

  /** A tick never grows the queue and only ever points the status at an issued message. */
  lemma StepBounds(p: Params, s: Session, sh: Shared, o: Observation)
    requires StatusIssued(sh)
    ensures var r := Step(p, s, sh, o);
      StatusIssued(r.shared) && |r.shared.queue| <= |sh.queue| && sh.nextMsg <= r.shared.nextMsg
  {
    if TimedOutAt(p, o.now) || (!s.wasThinking && s.grace > 0) || o.title == [] {
    } else if DetectState(o.title) == Thinking {
      ThinkingBounds(p, s, sh, o);
    } else if DetectState(o.title) == Idle && s.wasThinking {
      IdleBounds(p, s, sh, o);
    }
  }

  /** `StepBounds` for the thinking tick. */
  lemma ThinkingBounds(p: Params, s: Session, sh: Shared, o: Observation)
    requires StatusIssued(sh)
    ensures var r := ThinkingStep(p, s, sh, o);
      StatusIssued(r.shared) && |r.shared.queue| <= |sh.queue| && sh.nextMsg <= r.shared.nextMsg
  {
  }

  /** `StepBounds` for the idle tick after work, through the completion. */
  lemma IdleBounds(p: Params, s: Session, sh: Shared, o: Observation)
    requires StatusIssued(sh)
    ensures var r := IdleStep(p, s, sh, o);
      StatusIssued(r.shared) && |r.shared.queue| <= |sh.queue| && sh.nextMsg <= r.shared.nextMsg
  {
    var s1 := s.(idleCount := s.idleCount + 1, lastState := Some(Idle));
    if s1.idleCount < 2 {
      assert IdleStep(p, s, sh, o) == Periodic(p, s1, sh, o);
    } else if DetectState(o.recheckTitle) != Thinking {
      var sh1 := Report(p, sh, o);
      assert IdleStep(p, s, sh, o) == Drain(p, s1, sh1, o);
      assert StatusIssued(sh1) && sh1.queue == sh.queue && sh1.nextMsg == sh.nextMsg;
      DrainBounds(p, s1, sh1, o);
    }
  }

  /** `StepBounds` for the second half of a completion. */
  lemma DrainBounds(p: Params, s: Session, sh: Shared, o: Observation)
    requires StatusIssued(sh)
    ensures var r := Drain(p, s, sh, o);
      StatusIssued(r.shared) && |r.shared.queue| <= |sh.queue| && sh.nextMsg <= r.shared.nextMsg
  {
  }

  /** The set-up before the first tick. */
  method BeginMonitor(st: BotState, p: Params, title: string, start: int, editOk: bool) returns (s: Session)
    requires st.Valid()
    modifies st`statusMsg, st`nextMsgId, st`log
    ensures st.Valid()
    ensures (s, SharedOf(st)) == Begin(p, title, start, editOk, old(SharedOf(st)))
  {
    s := Session(false, 0, GraceTicks, None, 0);
    if DetectState(title) == Thinking {
      s := Session(true, 0, 0, Some(Thinking), 0);
      UpdateStatus(st, p.chat, ThinkingStatus(Elapsed(p, start), NoPreview), editOk);
    }
  }

  /** One tick of a monitor that keeps the bot state well-formed. */
  method Advance(st: BotState, p: Params, s: Session, o: Observation) returns (next: Session, outcome: Outcome)
    requires st.Valid()
    modifies st`msgQueue, st`lastScreenshotHash, st`statusMsg, st`nextMsgId, st`log
    ensures st.Valid()
    ensures StepResult(next, SharedOf(st), outcome) == Step(p, s, old(SharedOf(st)), o)
  {
    StepBounds(p, s, SharedOf(st), o);
    next, outcome := Tick(st, p, s, o);
  }

  /**
    `_monitor_loop` for the task numbered `id`: the session set up from the first
    title, then one tick per observation until a tick breaks out of the loop; when
    the coroutine returns, the task is done.
  */
  method MonitorLoop(st: BotState, id: nat, variant: Variant, handle: Handle, chat: ChatId, start: int,
                     title: string, editOk: bool, obs: seq<Observation>) returns (outcome: Outcome)
    requires st.Valid() && id < st.nextTaskId
    modifies st`msgQueue, st`lastScreenshotHash, st`statusMsg, st`nextMsgId, st`log, st`doneTasks
    ensures st.Valid()
    ensures var p := Params(variant, handle, chat, st.screenshotInterval, start);
      var b := Begin(p, title, start, editOk, old(SharedOf(st)));
      var r := Run(p, b.0, b.1, obs);
      SharedOf(st) == r.shared && outcome == r.outcome
    ensures st.doneTasks == old(st.doneTasks) + {id}
  {
    var p := Params(variant, handle, chat, st.screenshotInterval, start);
    var s := BeginMonitor(st, p, title, start, editOk);
    outcome := Ticks(st, p, s, obs);
    st.doneTasks := st.doneTasks + {id};
  }

  /** The `while True` loop: one tick per observation until a tick breaks out. */
  method Ticks(st: BotState, p: Params, s: Session, obs: seq<Observation>) returns (outcome: Outcome)
    requires st.Valid()
    modifies st`msgQueue, st`lastScreenshotHash, st`statusMsg, st`nextMsgId, st`log
    ensures st.Valid()
    ensures var r := Run(p, s, old(SharedOf(st)), obs);
      SharedOf(st) == r.shared && outcome == r.outcome
  {
    ghost var all := Run(p, s, SharedOf(st), obs);
    var cur := s;
    var i := 0;
    outcome := Continue;
    assert obs[0..] == obs;
    while i < |obs| && outcome == Continue
      invariant 0 <= i <= |obs|
      invariant st.Valid()
      invariant outcome == Continue ==> all == Run(p, cur, SharedOf(st), obs[i..])
      invariant outcome != Continue ==> all == StepResult(cur, SharedOf(st), outcome)
    {
      RunTick(p, cur, SharedOf(st), obs[i..]);
      assert obs[i..][1..] == obs[i + 1..];
      cur, outcome := Advance(st, p, cur, obs[i]);
      i := i + 1;
    }
    assert outcome == Continue ==> obs[i..] == [];
  }

  /** The task bookkeeping: `(monitor_task, the finished tasks, the next task number)`. */
  type Tasks = (Option<nat>, set<nat>, nat)

  function TasksOf(st: BotState): Tasks
    reads st`monitorTask, st`doneTasks, st`nextTaskId
  {
    (st.monitorTask, st.doneTasks, st.nextTaskId)
  }

  /** Task numbers are handed out in order: every recorded task number is below the next one. */
  predicate TasksValid(t: Tasks) {
    (forall d :: d in t.1 ==> d < t.2) && (t.0.Some? ==> t.0.value < t.2)
  }

  /**
    The bookkeeping after `_start_monitor`: the recorded task is finished, and the
    next task number becomes the running monitor.
  */
  function Launch(t: Tasks): (r: Tasks)
    ensures r.0 == Some(t.2) && r.2 == t.2 + 1 && t.1 <= r.1
    ensures t.0.Some? ==> t.0.value in r.1
    ensures forall x :: x in r.1 ==> x in t.1 || Some(x) == t.0
    ensures TasksValid(t) ==> TasksValid(r) && r.0.value !in r.1
  {
    (Some(t.2), if t.0.Some? then t.1 + {t.0.value} else t.1, t.2 + 1)
  }

  /** `_cancel_monitor`: a running task is cancelled, and no task is recorded any more. */
  method CancelMonitor(st: BotState)
    requires st.Valid()
    modifies st`monitorTask, st`doneTasks
    ensures st.Valid() && st.monitorTask == None && !st.MonitorRunning()
    ensures old(st.monitorTask).Some? ==> st.doneTasks == old(st.doneTasks) + {old(st.monitorTask).value}
    ensures old(st.monitorTask).None? ==> st.doneTasks == old(st.doneTasks)
  {
    if st.monitorTask.Some? && st.monitorTask.value !in st.doneTasks {
      st.doneTasks := st.doneTasks + {st.monitorTask.value};
    }
    st.monitorTask := None;
  }

  /**
    `_start_monitor`: the previous task is cancelled and a fresh one becomes the
    running monitor, so at most one monitor runs at a time.
  */
  method StartMonitor(st: BotState) returns (id: nat)
    requires st.Valid()
    modifies st`monitorTask, st`doneTasks, st`nextTaskId
    ensures st.Valid() && st.monitorTask == Some(id) && st.MonitorRunning()
    ensures id == old(st.nextTaskId) && st.nextTaskId == id + 1
    ensures id !in old(st.doneTasks) && old(st.monitorTask) != Some(id)
    ensures old(st.monitorTask).Some? ==> old(st.monitorTask).value in st.doneTasks
    ensures TasksOf(st) == Launch(old(TasksOf(st)))
  {
    CancelMonitor(st);
    id := st.nextTaskId;
    st.nextTaskId := st.nextTaskId + 1;
    st.monitorTask := Some(id);
  }
}
