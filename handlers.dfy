/**
  handlers.py (and the matching handlers of bot.py): the decisions the Telegram
  handlers take on the shared bot state. Whatever the handlers learn from the
  outside world (the cached window's title, a fresh window scan, the target's
  title, whether typing into it succeeded, whether a status edit succeeded, where
  a long message was saved) arrives in a `World` record.
*/
module Handlers {
  import opened Wrappers
  import opened Text
  import opened Config
  import opened ClaudeDetect
  import opened Utils
  import opened Monitor

  // ---------------------------------------------------------------- _inject_to_claude

  /** The outside world as one `_inject_to_claude` call sees it. */
  datatype World = World(
    cachedTitle: string, windows: seq<WindowInfo>, savedPath: string,
    title: string, injectOk: bool, editOk: bool)

  /** How `_inject_to_claude` ends. */
  datatype InjectOutcome = NoWindow | QueueFull | Queued | SendFailed | Sent

  /** The instruction typed instead of a message that had to go through a file. */
  const FileInstruction: string := "请阅读这个文件并按其中的指示操作 "

  /**
    The text typed into the window: the message itself or, unless the caller skips
    the check, the file instruction when `_needs_file` rejects the message.
    `savedPath` is where `_save_msg_file` wrote the message.
  */
  function Payload(text: string, skipFileCheck: bool, savedPath: string): string {
    if !skipFileCheck && NeedsFile(text) then FileInstruction + savedPath else text
  }

  /**
    The replacement is itself safe to type: whatever the message, a checked payload
    needs no file, provided the saved path is short and free of unsafe characters.
  */
  lemma PayloadNeedsNoFile(text: string, savedPath: string)
    requires |savedPath| <= 200 - |FileInstruction|
    requires forall i :: 0 <= i < |savedPath| ==> savedPath[i] !in UnsafeChars
    ensures !NeedsFile(Payload(text, false, savedPath))
  {
    var r := Payload(text, false, savedPath);
    if NeedsFile(text) {
      assert forall i :: 0 <= i < |FileInstruction| ==> FileInstruction[i] !in UnsafeChars;
      forall i | 0 <= i < |r| ensures r[i] !in UnsafeChars {
        if i >= |FileInstruction| {
          assert r[i] == savedPath[i - |FileInstruction|];
        }
      }
    }
  }

  /** The part of the bot state `_inject_to_claude` reads and writes. */
  datatype Slice = Slice(target: Option<Handle>, queueChat: Option<ChatId>, tasks: Tasks, shared: Shared)

  function SliceOf(st: BotState): Slice
    reads st`targetHandle, st`queueChatId, st`monitorTask, st`doneTasks, st`nextTaskId,
          st`msgQueue, st`lastScreenshotHash, st`statusMsg, st`nextMsgId, st`log
  {
    Slice(st.targetHandle, st.queueChatId, TasksOf(st), SharedOf(st))
  }

  /** A monitor task is recorded and not done. */
  predicate Running(t: Tasks) {
    t.0.Some? && t.0.value !in t.1
  }

  /** The working branch: the payload joins the queue, or is refused at 50. */
  function Enqueued(x: Slice, chat: ChatId, payload: string): (InjectOutcome, Slice) {
    if |x.shared.queue| >= QueueCapacity then
      (QueueFull, x.(shared := Emit(x.shared, Replied(chat, QueueFullReply))))
    else
      var q := x.shared.queue + [payload];
      (Queued, x.(queueChat := Some(chat),
                  tasks := if Running(x.tasks) then x.tasks else Launch(x.tasks),
                  shared := Emit(x.shared.(queue := q), Replied(chat, QueuedReply(QueueItems(q))))))
  }

  /** The idle branch: the payload is typed, and the status line says how it went. */
  function Typed(x: Slice, chat: ChatId, h: Handle, payload: string, injectOk: bool, editOk: bool, auto: bool)
    : (InjectOutcome, Slice)
  {
    if !injectOk then
      (SendFailed, x.(target := None, shared := WithStatus(x.shared, chat, SendFailedStatus, editOk)))
    else
      (Sent, x.(tasks := if auto then Launch(x.tasks) else x.tasks,
                shared := WithStatus(Emit(x.shared, Injected(h, payload)), chat, SentStatus, editOk)))
  }

  /**
    `_inject_to_claude` on the state slice `x`, with automatic monitoring `auto`:
    the target window is resolved; without a truthy one the operator is told so;
    otherwise the payload is queued or typed, depending on whether the window's
    title says the assistant is working.
  */
  function Inject(x: Slice, chat: ChatId, text: string, skipFileCheck: bool, auto: bool, w: World)
    : (InjectOutcome, Slice)
  {
    var (h, cache) := Resolved(x.target, w.cachedTitle, w.windows);
    var y := x.(target := cache);
    if h.None? || h.value == 0 then
      (NoWindow, y.(shared := Emit(y.shared, Replied(chat, NoWindowReply))))
    else if DetectState(w.title) == Thinking then
      Enqueued(y, chat, Payload(text, skipFileCheck, w.savedPath))
    else
      Typed(y, chat, h.value, Payload(text, skipFileCheck, w.savedPath), w.injectOk, w.editOk, auto)
  }

  /**
    Which way `_inject_to_claude` goes: no truthy window, a full queue, a queued
    message, or a typing attempt that fails or succeeds, each exactly when its
    condition holds; a failed attempt forgets the target window.
  */
  lemma InjectRoutes(x: Slice, chat: ChatId, text: string, skipFileCheck: bool, auto: bool, w: World)
    ensures var r := Inject(x, chat, text, skipFileCheck, auto, w);
      var (h, cache) := Resolved(x.target, w.cachedTitle, w.windows);
      var found := h.Some? && h.value != 0;
      var thinking := DetectState(w.title) == Thinking;
      && (r.0 == NoWindow <==> !found)
      && (r.0 == QueueFull <==> found && thinking && |x.shared.queue| >= QueueCapacity)
      && (r.0 == Queued <==> found && thinking && |x.shared.queue| < QueueCapacity)
      && (r.0 == SendFailed <==> found && !thinking && !w.injectOk)
      && (r.0 == Sent <==> found && !thinking && w.injectOk)
      && r.1.target == (if r.0 == SendFailed then None else cache)
  {
  }

  /**
    Only a queued message changes the queue: it joins the back, the queue's chat is
    recorded, the operator sees the numbered queue, and a monitor is running
    afterwards (the one already running, if any).
  */
  lemma InjectQueue(x: Slice, chat: ChatId, text: string, skipFileCheck: bool, auto: bool, w: World)
    requires TasksValid(x.tasks)
    ensures var r := Inject(x, chat, text, skipFileCheck, auto, w);
      && (r.0 == Queued ==>
            var q := x.shared.queue + [Payload(text, skipFileCheck, w.savedPath)];
            && r.1.shared.queue == q && r.1.queueChat == Some(chat)
            && r.1.shared.log == x.shared.log + [Replied(chat, QueuedReply(QueueItems(q)))]
            && Running(r.1.tasks) && (Running(x.tasks) ==> r.1.tasks == x.tasks))
      && (r.0 != Queued ==> r.1.shared.queue == x.shared.queue && r.1.queueChat == x.queueChat)
  {
  }

  /**
    What the operator sees: a refusal is one reply and leaves the status line alone,
    as does queueing; typing sends the payload first, then updates the status line.
    Nothing is ever taken back from the log.
  */
  lemma InjectReports(x: Slice, chat: ChatId, text: string, skipFileCheck: bool, auto: bool, w: World)
    ensures var r := Inject(x, chat, text, skipFileCheck, auto, w);
      var h := Resolved(x.target, w.cachedTitle, w.windows).0;
      && x.shared.log <= r.1.shared.log
      && (r.0 == NoWindow ==> r.1.shared.log == x.shared.log + [Replied(chat, NoWindowReply)])
      && (r.0 == QueueFull ==> r.1.shared.log == x.shared.log + [Replied(chat, QueueFullReply)])
      && (r.0 in {NoWindow, QueueFull, Queued} ==>
            r.1.shared.status == x.shared.status && r.1.shared.nextMsg == x.shared.nextMsg)
      && (r.0 == SendFailed ==> r.1.shared == WithStatus(x.shared, chat, SendFailedStatus, w.editOk))
      && (r.0 == Sent ==>
            r.1.shared == WithStatus(Emit(x.shared, Injected(h.value, Payload(text, skipFileCheck, w.savedPath))),
                                     chat, SentStatus, w.editOk))
      && r.1.shared.lastHash == x.shared.lastHash
  {
  }

  /**
    A monitor is started by queueing while none runs, or by a successful typing
    attempt while automatic monitoring is on; otherwise the tasks are untouched.
  */
  lemma InjectStartsMonitor(x: Slice, chat: ChatId, text: string, skipFileCheck: bool, auto: bool, w: World)
    ensures var r := Inject(x, chat, text, skipFileCheck, auto, w);
      var started := (r.0 == Queued && !Running(x.tasks)) || (r.0 == Sent && auto);
      r.1.tasks == if started then Launch(x.tasks) else x.tasks
  {
  }

  /**
    `_inject_to_claude` on the bot state: whatever happens is what `Inject` says.
    The variant does not matter here: below 50 entries the deque of handlers.py
    appends just like the list of bot.py.
  */
  method InjectToClaude(st: BotState, v: Variant, chat: ChatId, text: string, skipFileCheck: bool, w: World)
    returns (outcome: InjectOutcome)
    requires st.Valid()
    modifies st`targetHandle, st`msgQueue, st`queueChatId, st`statusMsg, st`nextMsgId, st`log,
             st`monitorTask, st`doneTasks, st`nextTaskId
    ensures st.Valid()
    ensures (outcome, SliceOf(st)) == Inject(old(SliceOf(st)), chat, text, skipFileCheck, st.autoMonitor, w)
  {
    ghost var x := SliceOf(st);
    var h := GetHandle(st, w.cachedTitle, w.windows);
    ghost var y := x.(target := st.targetHandle);
    assert SliceOf(st) == y;
    if h.None? || h.value == 0 {
      st.log := st.log + [Replied(chat, NoWindowReply)];
      return NoWindow;
    }
    var payload := Payload(text, skipFileCheck, w.savedPath);
    if DetectState(w.title) == Thinking {
      outcome := Enqueue(st, v, chat, payload);
    } else {
      outcome := TypeIn(st, chat, h.value, payload, w.injectOk, w.editOk);
    }
  }

  /** The working branch of `_inject_to_claude`. */
  method Enqueue(st: BotState, v: Variant, chat: ChatId, payload: string) returns (outcome: InjectOutcome)
    requires st.Valid()
    modifies st`msgQueue, st`queueChatId, st`log, st`monitorTask, st`doneTasks, st`nextTaskId
    ensures st.Valid()
    ensures (outcome, SliceOf(st)) == Enqueued(old(SliceOf(st)), chat, payload)
  {
    if |st.msgQueue| >= QueueCapacity {
      st.log := st.log + [Replied(chat, QueueFullReply)];
      return QueueFull;
    }
    Push(st, v, chat, payload);
    if !st.MonitorRunning() {
      var id := StartMonitor(st);
    }
    return Queued;
  }

  /** A payload joins a queue below capacity, and the operator sees the numbered queue. */
  method Push(st: BotState, v: Variant, chat: ChatId, payload: string)
    requires st.Valid() && |st.msgQueue| < QueueCapacity
    modifies st`msgQueue, st`queueChatId, st`log
    ensures st.Valid()
    ensures var x := old(SliceOf(st));
      var q := x.shared.queue + [payload];
      SliceOf(st) == x.(queueChat := Some(chat), shared := Emit(x.shared.(queue := q), Replied(chat, QueuedReply(QueueItems(q)))))
  {
    var q := st.msgQueue + [payload];
    if v == Modular {
      // the deque of handlers.py; below capacity it never drops anything
      AppendBelowCapacity(st.msgQueue, payload, QueueCapacity);
      q := BoundedAppend(st.msgQueue, payload, QueueCapacity);
    }
    st.msgQueue := q;
    st.queueChatId := Some(chat);
    st.log := st.log + [Replied(chat, QueuedReply(QueueItems(q)))];
  }

  /** The idle branch of `_inject_to_claude`. */
  method TypeIn(st: BotState, chat: ChatId, h: Handle, payload: string, injectOk: bool, editOk: bool)
    returns (outcome: InjectOutcome)
    requires st.Valid()
    modifies st`targetHandle, st`statusMsg, st`nextMsgId, st`log, st`monitorTask, st`doneTasks, st`nextTaskId
    ensures st.Valid()
    ensures (outcome, SliceOf(st)) == Typed(old(SliceOf(st)), chat, h, payload, injectOk, editOk, st.autoMonitor)
  {
    if !injectOk {
      TypingFailed(st, chat, h, payload, editOk);
      return SendFailed;
    }
    TypeAndReport(st, chat, h, payload, editOk);
    return Sent;
  }

  /** Typing failed: the target is forgotten and the status line says so. */
  method TypingFailed(st: BotState, chat: ChatId, h: Handle, payload: string, editOk: bool)
    requires st.Valid()
    modifies st`targetHandle, st`statusMsg, st`nextMsgId, st`log
    ensures st.Valid()
    ensures (SendFailed, SliceOf(st)) == Typed(old(SliceOf(st)), chat, h, payload, false, editOk, st.autoMonitor)
  {
    st.targetHandle := None;
    UpdateStatus(st, chat, SendFailedStatus, editOk);
  }

  /** The payload is typed, the status line says it was sent, and a monitor is started if automatic. */
  method TypeAndReport(st: BotState, chat: ChatId, h: Handle, payload: string, editOk: bool)
    requires st.Valid()
    modifies st`statusMsg, st`nextMsgId, st`log, st`monitorTask, st`doneTasks, st`nextTaskId
    ensures st.Valid()
    ensures (Sent, SliceOf(st)) == Typed(old(SliceOf(st)), chat, h, payload, true, editOk, st.autoMonitor)
  {
    ghost var x := SliceOf(st);
    st.log := st.log + [Injected(h, payload)];
    assert SliceOf(st) == x.(shared := Emit(x.shared, Injected(h, payload)));
    UpdateStatus(st, chat, SentStatus, editOk);
    ghost var y := x.(shared := WithStatus(Emit(x.shared, Injected(h, payload)), chat, SentStatus, editOk));
    assert SliceOf(st) == y;
    if st.autoMonitor {
      var id := StartMonitor(st);
      assert SliceOf(st) == y.(tasks := Launch(y.tasks));
    }
  }

  // ---------------------------------------------------------------- queue, delay, auto

  /** The `queue:clear` button: the queue is emptied and the operator told how many messages it held. */
  method QueueClear(st: BotState, chat: ChatId) returns (count: nat)
    requires st.Valid()
    modifies st`msgQueue, st`log
    ensures st.Valid()
    ensures count == |old(st.msgQueue)| && st.msgQueue == []
    ensures st.log == old(st.log) + [Replied(chat, QueueClearedReply(count))]
  {
    count := |st.msgQueue|;
    st.msgQueue := [];
    st.log := st.log + [Replied(chat, QueueClearedReply(count))];
  }

  /** `max(3, min(300, n))`: the screenshot interval is kept between 3 and 300 seconds. */
  function ClampDelay(n: int): (r: int)
    ensures 3 <= r <= 300
    ensures 3 <= n <= 300 ==> r == n
    ensures n < 3 ==> r == 3
    ensures n > 300 ==> r == 300
  {
    if n > 300 then 300 else if n < 3 then 3 else n
  }

  /** `/delay` on the interval `interval` with the argument text `a`: the new interval and the reply. */
  function Delay(interval: int, a: string): (int, Reply) {
    if a == [] then (interval, IntervalShownReply(interval))
    else
      var n := ParseInt(a);
      if n.None? then (interval, NotANumberReply)
      else (ClampDelay(n.value), IntervalSetReply(ClampDelay(n.value)))
  }

  /**
    `/delay`: without an argument the current interval is shown; a number sets the
    clamped interval, which always lies between 3 and 300 seconds; anything `int()`
    rejects leaves it unchanged.
  */
  lemma DelayCases(interval: int, a: string)
    ensures var (next, reply) := Delay(interval, a);
      && (a == [] ==> next == interval && reply == IntervalShownReply(interval))
      && (a != [] && ParseInt(a).None? ==> next == interval && reply == NotANumberReply)
      && (a != [] && ParseInt(a).Some? ==>
            3 <= next <= 300 && next == ClampDelay(ParseInt(a).value) && reply == IntervalSetReply(next))
  {
  }

  /** The `/delay` command on the bot state. */
  method CmdDelay(st: BotState, chat: ChatId, args: seq<string>)
    requires st.Valid()
    modifies st`screenshotInterval, st`log
    ensures st.Valid()
    ensures var (next, reply) := Delay(old(st.screenshotInterval), DelayArgument(args));
      st.screenshotInterval == next && st.log == old(st.log) + [Replied(chat, reply)]
  {
    var a := DelayArgument(args);
    ghost var d := Delay(st.screenshotInterval, a);
    if a == [] {
      assert d == (st.screenshotInterval, IntervalShownReply(st.screenshotInterval));
      st.log := st.log + [Replied(chat, IntervalShownReply(st.screenshotInterval))];
      return;
    }
    var n := ParseInt(a);
    if n.None? {
      assert d.1 == NotANumberReply;
      st.log := st.log + [Replied(chat, NotANumberReply)];
      return;
    }
    assert d == (ClampDelay(n.value), IntervalSetReply(ClampDelay(n.value)));
    st.screenshotInterval := ClampDelay(n.value);
    st.log := st.log + [Replied(chat, IntervalSetReply(st.screenshotInterval))];
  }

  /** The command arguments joined by single spaces and stripped; empty when there are none. */
  function DelayArgument(args: seq<string>): string {
    if args == [] then "" else Strip(JoinWith(args, " "))
  }

  /** `/auto`: automatic monitoring is switched over, and the operator told the new setting. */
  method CmdAuto(st: BotState, chat: ChatId)
    requires st.Valid()
    modifies st`autoMonitor, st`log
    ensures st.Valid()
    ensures st.autoMonitor == !old(st.autoMonitor)
    ensures st.log == old(st.log) + [Replied(chat, AutoMonitorReply(st.autoMonitor))]
  {
    st.autoMonitor := !st.autoMonitor;
    st.log := st.log + [Replied(chat, AutoMonitorReply(st.autoMonitor))];
  }

  // ---------------------------------------------------------------- _run_shell

  /** The substrings that make `_run_shell` refuse a command. */
  const DangerousPatterns: set<string> := {"rm -rf /", "mkfs", "dd if=", ":(){ :|:&", "fork bomb", "> /dev/sd"}

  /** The command, lowercased and stripped, contains a dangerous pattern. */
  predicate ShellBlocked(cmd: string) {
    exists p :: p in DangerousPatterns && Contains(Strip(Lower(cmd)), p)
  }

  /** Whether `_run_shell` refuses `cmd`: handlers.py checks the blocklist, bot.py has none. */
  predicate Refused(v: Variant, cmd: string) {
    v == Modular && ShellBlocked(cmd)
  }

  /** `s.strip()` is a slice of `s`. */
  lemma StripSlice(s: string) returns (k: nat, m: nat)
    ensures k <= m <= |s| && Strip(s) == s[k..m]
    ensures forall i :: 0 <= i < k ==> IsSpace(s[i])
    ensures forall i :: m <= i < |s| ==> IsSpace(s[i])
  {
    k := LeadingSpaces(s);
    var l := s[k..];
    var t := TrailingSpaces(l);
    m := |s| - t;
    assert Strip(s) == l[..|l| - t];
    assert l[..|l| - t] == s[k..m];
    forall i | m <= i < |s| ensures IsSpace(s[i]) {
      assert s[i] == l[i - k];
    }
  }

  /** Stripping keeps a part whose first and last characters are not whitespace. */
  lemma StripKeeps(a: string, pat: string, b: string)
    requires pat != [] && !IsSpace(pat[0]) && !IsSpace(pat[|pat| - 1])
    ensures Contains(Strip(a + pat + b), pat)
  {
    var s := a + pat + b;
    assert s[|a|..|a| + |pat|] == pat;
    StripKeepsRange(s, |a|, |a| + |pat|);
  }

  /** Stripping keeps every stretch that starts and ends with a non-whitespace character. */
  lemma StripKeepsRange(s: string, lo: nat, hi: nat)
    requires lo < hi <= |s| && !IsSpace(s[lo]) && !IsSpace(s[hi - 1])
    ensures Contains(Strip(s), s[lo..hi])
  {
    var k, m := StripSlice(s);
    assert k <= lo && hi <= m;
    var t := Strip(s);
    assert t == s[k..m];
    forall i | 0 <= i < hi - lo ensures t[lo - k..hi - k][i] == s[lo..hi][i] {
      assert t[lo - k + i] == s[lo + i];
    }
    assert t[lo - k..hi - k] == s[lo..hi];
    assert OccursAt(t, s[lo..hi], lo - k);
    ContainsIff(t, s[lo..hi]);
  }

  /**
    The blocklist ignores case and context: a command holding any spelling of a
    dangerous pattern that lowercases to it, with anything around it, is refused.
  */
  lemma BlockedAnywhere(a: string, m: string, b: string)
    requires Lower(m) in DangerousPatterns
    ensures ShellBlocked(a + m + b)
  {
    var pat := Lower(m);
    LowerConcat(a, m, b);
    PatternEdges(pat);
    StripKeeps(Lower(a), pat, Lower(b));
    assert pat in DangerousPatterns && Contains(Strip(Lower(a + m + b)), pat);
  }

  /** No dangerous pattern begins or ends with whitespace. */
  lemma PatternEdges(pat: string)
    requires pat in DangerousPatterns
    ensures pat != [] && !IsSpace(pat[0]) && !IsSpace(pat[|pat| - 1])
  {
  }

  /** `_run_shell`'s guard: a refused command is answered and not run. Running it is not part of this model. */
  method RunShell(st: BotState, v: Variant, chat: ChatId, cmd: string) returns (blocked: bool)
    modifies st`log
    ensures blocked == Refused(v, cmd)
    ensures SliceOf(st) == Answered(old(SliceOf(st)), Answer(ShellCommand(cmd, blocked), chat))
  {
    blocked := v == Modular && ShellBlocked(cmd);
    // the refusal when blocked, nothing otherwise
    st.log := st.log + Answer(ShellCommand(cmd, blocked), chat);
  }

  // ---------------------------------------------------------------- handle_message

  /** The reply-keyboard buttons `handle_message` dispatches to commands. */
  const PanelButtons: set<string> := {
    "\U{1f4f7} 截屏", "\U{1fa9f} 窗口", "\U{1f195} 新实例", "\U{1f440} 监控",
    "\U{23f9} 停止", "\U{1f504} 状态", "\U{1f500} 切换模式"}

  /** Where `handle_message` sends a text. */
  datatype Route =
    | Ignored
    | LabelStored(handle: Handle, caption: string)
    | PanelCommand(button: string)
    | NewDirEntered(path: string)
    | ShellCommand(cmd: string, blocked: bool)
    | ShellNoCommand
    | Streamed(text: string)
    | Forwarded(outcome: InjectOutcome)

  /** The replies a route other than injection sends. */
  function Answer(route: Route, chat: ChatId): seq<Effect> {
    match route
    case LabelStored(h, caption) => [Replied(chat, LabelSetReply(h, caption))]
    case ShellCommand(_, blocked) => if blocked then [Replied(chat, ShellBlockedReply)] else []
    case _ => []
  }

  /** `x` with `es` sent. */
  function Answered(x: Slice, es: seq<Effect>): (r: Slice)
    ensures r.shared.log == x.shared.log + es
  {
    x.(shared := x.shared.(log := x.shared.log + es))
  }

  /** The part of the bot state `handle_message` reads and writes. */
  datatype Desk = Desk(labels: map<Handle, string>, waitingNewDir: bool, history: seq<string>, slice: Slice)

  function DeskOf(st: BotState): Desk
    reads st`windowLabels, st`waitingNewDir, st`cmdHistory,
          st`targetHandle, st`queueChatId, st`monitorTask, st`doneTasks, st`nextTaskId,
          st`msgQueue, st`lastScreenshotHash, st`statusMsg, st`nextMsgId, st`log
  {
    Desk(st.windowLabels, st.waitingNewDir, st.cmdHistory, SliceOf(st))
  }

  /**
    `handle_message` on the desk `d` for the stripped text `text`, the user's
    `pending_label_handle`, stream mode `stream` and automatic monitoring `auto`:
    the route taken, what is left of the pending label, and the new desk.
  */
  function Message(d: Desk, v: Variant, chat: ChatId, text: string, pending: Option<Handle>,
                   stream: bool, auto: bool, w: World): (Route, Option<Handle>, Desk)
    requires |d.history| <= HistoryCapacity
  {
    if text == [] then (Ignored, pending, d)
    else if pending.Some? then
      var route := LabelStored(pending.value, Take(text, 20));
      (route, None, d.(labels := d.labels[pending.value := route.caption], slice := Answered(d.slice, Answer(route, chat))))
    else if text in PanelButtons then (PanelCommand(text), pending, d)
    else if d.waitingNewDir then (NewDirEntered(text), pending, d.(waitingNewDir := false))
    else
      var c := Command(d, v, chat, text, stream, auto, w);
      (c.0, pending, c.1)
  }

  /** The last three branches of `handle_message`: `!`, the stream, injection. */
  function Command(d: Desk, v: Variant, chat: ChatId, text: string, stream: bool, auto: bool, w: World): (Route, Desk)
    requires text != [] && |d.history| <= HistoryCapacity
  {
    if text[0] == '!' then ShellStep(d, v, chat, text) else Pass(d, v, chat, text, stream, auto, w)
  }

  /** `!`: the shell route, and its answer sent. */
  function ShellStep(d: Desk, v: Variant, chat: ChatId, text: string): (Route, Desk)
    requires text != []
  {
    var route := Shelled(v, text);
    (route, d.(slice := Answered(d.slice, Answer(route, chat))))
  }

  /** Anything else: recorded in the history by handlers.py, then streamed or injected. */
  function Pass(d: Desk, v: Variant, chat: ChatId, text: string, stream: bool, auto: bool, w: World): (Route, Desk)
    requires |d.history| <= HistoryCapacity
  {
    var history := if v == Modular then BoundedAppend(d.history, text, HistoryCapacity) else d.history;
    if stream then (Streamed(text), d.(history := history))
    else
      var r := Inject(d.slice, chat, text, false, auto, w);
      (Forwarded(r.0), d.(history := history, slice := r.1))
  }

  /** `!`: the rest of the text, stripped, goes through `_run_shell` unless it is empty. */
  function Shelled(v: Variant, text: string): Route
    requires text != []
  {
    ShellFor(v, Strip(text[1..]))
  }

  /** The shell route for the stripped command `cmd`. */
  function ShellFor(v: Variant, cmd: string): Route {
    if cmd == [] then ShellNoCommand else ShellCommand(cmd, Refused(v, cmd))
  }

  /**
    `handle_message`'s order of tests on the stripped text: blank, a pending window
    label, a panel button, a pending new directory, `!`, stream mode, injection.
    Each route is taken exactly when every earlier test fails and its own holds.
  */
  lemma MessageRoutes(d: Desk, v: Variant, chat: ChatId, text: string, pending: Option<Handle>,
                      stream: bool, auto: bool, w: World)
    requires |d.history| <= HistoryCapacity
    ensures var route := Message(d, v, chat, text, pending, stream, auto, w).0;
      var rest := text != [] && pending.None? && text !in PanelButtons && !d.waitingNewDir;
      && (route == Ignored <==> text == [])
      && (route.LabelStored? <==> text != [] && pending.Some?)
      && (route.PanelCommand? <==> text != [] && pending.None? && text in PanelButtons)
      && (route.NewDirEntered? <==> text != [] && pending.None? && text !in PanelButtons && d.waitingNewDir)
      && (route.ShellCommand? || route == ShellNoCommand <==> rest && text[0] == '!')
      && (route.Streamed? <==> rest && text[0] != '!' && stream)
      && (route.Forwarded? <==> rest && text[0] != '!' && !stream)
  {
    if text != [] && pending.None? && text !in PanelButtons && !d.waitingNewDir {
      CommandBranch(d, v, chat, text, stream, auto, w);
    }
  }

  lemma CommandBranch(d: Desk, v: Variant, chat: ChatId, text: string, stream: bool, auto: bool, w: World)
    requires text != [] && |d.history| <= HistoryCapacity
    ensures var route := Command(d, v, chat, text, stream, auto, w).0;
      && (text[0] == '!' ==> route.ShellCommand? || route == ShellNoCommand)
      && (text[0] != '!' && stream ==> route.Streamed?)
      && (text[0] != '!' && !stream ==> route.Forwarded?)
  {
    if text[0] == '!' {
      ShelledIsShell(v, text);
    }
  }

  /**
    A pending label takes the first 20 characters of the text and is used up;
    any other route leaves the labels and the pending label alone.
  */
  lemma MessageLabel(d: Desk, v: Variant, chat: ChatId, text: string, pending: Option<Handle>,
                     stream: bool, auto: bool, w: World)
    requires |d.history| <= HistoryCapacity
    ensures var (route, pendingAfter, d') := Message(d, v, chat, text, pending, stream, auto, w);
      && (route.LabelStored? ==>
            route == LabelStored(pending.value, Take(text, 20)) && pendingAfter == None
            && d'.labels == d.labels[pending.value := route.caption] && |route.caption| <= 20
            && d'.slice.shared.log == d.slice.shared.log + [Replied(chat, LabelSetReply(pending.value, route.caption))])
      && (!route.LabelStored? ==> pendingAfter == pending && d'.labels == d.labels)
  {
    if text != [] && pending.None? && text !in PanelButtons && !d.waitingNewDir {
      CommandKeeps(d, v, chat, text, stream, auto, w);
    }
  }

  /** The last three branches leave the labels and the new-directory flag alone. */
  lemma CommandKeeps(d: Desk, v: Variant, chat: ChatId, text: string, stream: bool, auto: bool, w: World)
    requires text != [] && |d.history| <= HistoryCapacity
    ensures var (route, d') := Command(d, v, chat, text, stream, auto, w);
      && !route.LabelStored? && !route.NewDirEntered? && !route.Ignored? && !route.PanelCommand?
      && d'.labels == d.labels && d'.waitingNewDir == d.waitingNewDir
  {
    if text[0] == '!' {
      ShelledIsShell(v, text);
    }
  }

  /** `!` leads to one of the two shell routes. */
  lemma ShelledIsShell(v: Variant, text: string)
    requires text != []
    ensures Shelled(v, text).ShellCommand? || Shelled(v, text) == ShellNoCommand
  {
  }

  /**
    Streamed and injected texts enter the command history in handlers.py, which
    keeps the last 20; bot.py keeps no history here. Nothing else touches it.
  */
  lemma MessageHistory(d: Desk, v: Variant, chat: ChatId, text: string, pending: Option<Handle>,
                       stream: bool, auto: bool, w: World)
    requires |d.history| <= HistoryCapacity
    ensures var (route, _, d') := Message(d, v, chat, text, pending, stream, auto, w);
      && |d'.history| <= HistoryCapacity
      && d'.history == (if (route.Streamed? || route.Forwarded?) && v == Modular
                        then BoundedAppend(d.history, text, HistoryCapacity) else d.history)
      && (route.Streamed? && v == Modular ==> d'.history[|d'.history| - 1] == text)
  {
  }

  /**
    Only injection changes the inject slice beyond the log: every other route
    sends at most its `Answer`, and injection does what `Inject` says.
  */
  lemma MessageSlice(d: Desk, v: Variant, chat: ChatId, text: string, pending: Option<Handle>,
                     stream: bool, auto: bool, w: World)
    requires |d.history| <= HistoryCapacity
    ensures var (route, _, d') := Message(d, v, chat, text, pending, stream, auto, w);
      && (route.Forwarded? ==> (route.outcome, d'.slice) == Inject(d.slice, chat, text, false, auto, w))
      && (!route.Forwarded? ==> d'.slice == Answered(d.slice, Answer(route, chat)))
      && (route.Streamed? ==> route.text == text)
      && d'.waitingNewDir == (d.waitingNewDir && !route.NewDirEntered?)
      && (route.NewDirEntered? ==> route.path == text)
  {
    assert d.slice.shared.log + [] == d.slice.shared.log;
    if text != [] && pending.None? && text !in PanelButtons && !d.waitingNewDir {
      CommandSlice(d, v, chat, text, stream, auto, w);
    }
  }

  /** `MessageSlice` for the last three branches. */
  lemma CommandSlice(d: Desk, v: Variant, chat: ChatId, text: string, stream: bool, auto: bool, w: World)
    requires text != [] && |d.history| <= HistoryCapacity
    ensures var (route, d') := Command(d, v, chat, text, stream, auto, w);
      && (route.Forwarded? ==> (route.outcome, d'.slice) == Inject(d.slice, chat, text, false, auto, w))
      && (!route.Forwarded? ==> d'.slice == Answered(d.slice, Answer(route, chat)))
      && (route.Streamed? ==> route.text == text)
      && d'.waitingNewDir == d.waitingNewDir && !route.NewDirEntered?
  {
    var c := Command(d, v, chat, text, stream, auto, w);
    if text[0] == '!' {
      assert c == ShellStep(d, v, chat, text);
      ShelledIsShell(v, text);
    } else {
      assert c == Pass(d, v, chat, text, stream, auto, w);
      assert d.slice.shared.log + [] == d.slice.shared.log;
    }
  }

  /**
    `!` followed by a command sends it to `_run_shell`, which in handlers.py refuses
    a command on the blocklist with a reply (bot.py has no blocklist); a bare `!`
    does nothing.
  */
  lemma MessageShell(d: Desk, v: Variant, chat: ChatId, text: string, pending: Option<Handle>,
                     stream: bool, auto: bool, w: World)
    requires |d.history| <= HistoryCapacity
    ensures var (route, _, d') := Message(d, v, chat, text, pending, stream, auto, w);
      && (route.ShellCommand? ==>
            text != [] && route.cmd == Strip(text[1..]) && route.cmd != [] && route.blocked == Refused(v, route.cmd)
            && d'.slice.shared.log == d.slice.shared.log + (if route.blocked then [Replied(chat, ShellBlockedReply)] else []))
      && (route == ShellNoCommand ==> text != [] && Strip(text[1..]) == [] && d' == d)
  {
    if text != [] && pending.None? && text !in PanelButtons && !d.waitingNewDir {
      CommandShell(d, v, chat, text, stream, auto, w);
    }
  }

  lemma CommandShell(d: Desk, v: Variant, chat: ChatId, text: string, stream: bool, auto: bool, w: World)
    requires text != [] && |d.history| <= HistoryCapacity
    ensures var (route, d') := Command(d, v, chat, text, stream, auto, w);
      && (route.ShellCommand? ==>
            route.cmd == Strip(text[1..]) && route.cmd != [] && route.blocked == Refused(v, route.cmd)
            && d'.slice.shared.log == d.slice.shared.log + (if route.blocked then [Replied(chat, ShellBlockedReply)] else []))
      && (route == ShellNoCommand ==> Strip(text[1..]) == [] && d' == d)
  {
    var c := Command(d, v, chat, text, stream, auto, w);
    if text[0] == '!' {
      assert c == ShellStep(d, v, chat, text);
      ShellStepShape(d, v, chat, text);
    } else {
      assert c == Pass(d, v, chat, text, stream, auto, w);
      PassRoute(d, v, chat, text, stream, auto, w);
    }
  }

  /** The `!` branch on its own. */
  lemma ShellStepShape(d: Desk, v: Variant, chat: ChatId, text: string)
    requires text != []
    ensures var (route, d') := ShellStep(d, v, chat, text);
      && (route.ShellCommand? ==>
            route.cmd == Strip(text[1..]) && route.cmd != [] && route.blocked == Refused(v, route.cmd)
            && d'.slice.shared.log == d.slice.shared.log + (if route.blocked then [Replied(chat, ShellBlockedReply)] else []))
      && (route == ShellNoCommand ==> Strip(text[1..]) == [] && d' == d)
  {
    ShellForShape(d.slice, v, chat, Strip(text[1..]));
  }

  /** The shell route for a stripped command, and what it sends. */
  lemma ShellForShape(x: Slice, v: Variant, chat: ChatId, cmd: string)
    ensures var route := ShellFor(v, cmd); var y := Answered(x, Answer(route, chat));
      && (route.ShellCommand? ==>
            route.cmd == cmd && cmd != [] && route.blocked == Refused(v, cmd)
            && y.shared.log == x.shared.log + (if route.blocked then [Replied(chat, ShellBlockedReply)] else []))
      && (route == ShellNoCommand ==> cmd == [] && y == x)
  {
    if cmd == [] {
      assert x.shared.log + [] == x.shared.log;
    }
  }

  /** Text that does not start with `!` is streamed or forwarded. */
  lemma PassRoute(d: Desk, v: Variant, chat: ChatId, text: string, stream: bool, auto: bool, w: World)
    requires |d.history| <= HistoryCapacity
    ensures Pass(d, v, chat, text, stream, auto, w).0.Streamed? || Pass(d, v, chat, text, stream, auto, w).0.Forwarded?
  {
  }

  /**
    `handle_message`: the text is stripped and dispatched as `Message` says. `pending`
    is the user's `pending_label_handle`, and `pendingAfter` what is left of it.
  */
  method HandleMessage(st: BotState, v: Variant, chat: ChatId, raw: string, pending: Option<Handle>, w: World)
    returns (route: Route, pendingAfter: Option<Handle>)
    requires st.Valid()
    modifies st`windowLabels, st`waitingNewDir, st`cmdHistory, st`targetHandle, st`msgQueue, st`queueChatId,
             st`statusMsg, st`nextMsgId, st`log, st`monitorTask, st`doneTasks, st`nextTaskId
    ensures st.Valid()
    ensures (route, pendingAfter, DeskOf(st))
            == Message(old(DeskOf(st)), v, chat, Strip(raw), pending, st.streamMode, st.autoMonitor, w)
  {
    var text := Strip(raw);
    route, pendingAfter := Dispatch(st, v, chat, text, pending, w);
  }

  /** `handle_message` after the strip. */
  method Dispatch(st: BotState, v: Variant, chat: ChatId, text: string, pending: Option<Handle>, w: World)
    returns (route: Route, pendingAfter: Option<Handle>)
    requires st.Valid()
    modifies st`windowLabels, st`waitingNewDir, st`cmdHistory, st`targetHandle, st`msgQueue, st`queueChatId,
             st`statusMsg, st`nextMsgId, st`log, st`monitorTask, st`doneTasks, st`nextTaskId
    ensures st.Valid()
    ensures (route, pendingAfter, DeskOf(st))
            == Message(old(DeskOf(st)), v, chat, text, pending, st.streamMode, st.autoMonitor, w)
  {
    pendingAfter := pending;
    if text == [] {
      return Ignored, pendingAfter;
    }
    if pending.Some? {
      route := StoreLabel(st, chat, pending.value, text);
      return route, None;
    }
    if text in PanelButtons {
      return PanelCommand(text), pendingAfter;
    }
    if st.waitingNewDir {
      st.waitingNewDir := false;
      return NewDirEntered(text), pendingAfter;
    }
    route := RunCommand(st, v, chat, text, w);
  }

  /** A pending label takes the first 20 characters of the text. */
  method StoreLabel(st: BotState, chat: ChatId, h: Handle, text: string) returns (route: Route)
    modifies st`windowLabels, st`log
    ensures route == LabelStored(h, Take(text, 20))
    ensures DeskOf(st) == old(DeskOf(st)).(labels := old(st.windowLabels)[h := route.caption],
                                           slice := Answered(old(SliceOf(st)), Answer(route, chat)))
  {
    var caption := Take(text, 20);
    route := LabelStored(h, caption);
    st.windowLabels := st.windowLabels[h := caption];
    st.log := st.log + Answer(route, chat);
  }

  /** The last three branches of `handle_message`. */
  method RunCommand(st: BotState, v: Variant, chat: ChatId, text: string, w: World) returns (route: Route)
    requires st.Valid() && text != []
    modifies st`cmdHistory, st`targetHandle, st`msgQueue, st`queueChatId,
             st`statusMsg, st`nextMsgId, st`log, st`monitorTask, st`doneTasks, st`nextTaskId
    ensures st.Valid()
    ensures (route, DeskOf(st)) == Command(old(DeskOf(st)), v, chat, text, st.streamMode, st.autoMonitor, w)
  {
    if text[0] == '!' {
      ghost var d := DeskOf(st);
      route := ShellRoute(st, v, chat, text);
      assert DeskOf(st) == d.(slice := SliceOf(st));
    } else {
      route := PassOn(st, v, chat, text, w);
    }
  }

  /** Text that is not a shell command: recorded, then streamed or injected. */
  method PassOn(st: BotState, v: Variant, chat: ChatId, text: string, w: World) returns (route: Route)
    requires st.Valid()
    modifies st`cmdHistory, st`targetHandle, st`msgQueue, st`queueChatId,
             st`statusMsg, st`nextMsgId, st`log, st`monitorTask, st`doneTasks, st`nextTaskId
    ensures st.Valid()
    ensures (route, DeskOf(st)) == Pass(old(DeskOf(st)), v, chat, text, st.streamMode, st.autoMonitor, w)
  {
    if v == Modular {
      RecordHistory(st, text);
    }
    if st.streamMode {
      return Streamed(text);
    }
    var outcome := InjectToClaude(st, v, chat, text, false, w);
    return Forwarded(outcome);
  }

  /** `!`: the rest of the text, stripped, goes through `_run_shell` unless it is empty. */
  method ShellRoute(st: BotState, v: Variant, chat: ChatId, text: string) returns (route: Route)
    requires text != []
    modifies st`log
    ensures route == Shelled(v, text)
    ensures SliceOf(st) == Answered(old(SliceOf(st)), Answer(route, chat))
  {
    var cmd := Strip(text[1..]);
    if cmd == [] {
      return ShellNoCommand;
    }
    var blocked := RunShell(st, v, chat, cmd);
    route := ShellCommand(cmd, blocked);
  }

  // ---------------------------------------------------------------- handle_document

  /** The extensions `handle_document` accepts. */
  const SupportedDocExts: set<string> := {
    ".py", ".js", ".ts", ".json", ".yaml", ".yml", ".toml", ".txt", ".md",
    ".csv", ".html", ".css", ".sh", ".bat", ".env", ".cfg", ".ini", ".xml"}

  /** A Windows path separator. */
  predicate IsSep(c: char) {
    c == '/' || c == '\\'
  }

  /** The index of the last separator in `p`, or -1. */
  function LastSep(p: string): (r: int)
    ensures -1 <= r < |p| && (r >= 0 ==> IsSep(p[r]))
    ensures forall i :: r < i < |p| ==> !IsSep(p[i])
  {
    if p == [] then -1 else if IsSep(p[|p| - 1]) then |p| - 1 else LastSep(p[..|p| - 1])
  }

  /** The index of the last dot in `p`, or -1. */
  function LastDot(p: string): (r: int)
    ensures -1 <= r < |p| && (r >= 0 ==> p[r] == '.')
    ensures forall i :: r < i < |p| ==> p[i] != '.'
  {
    if p == [] then -1 else if p[|p| - 1] == '.' then |p| - 1 else LastDot(p[..|p| - 1])
  }

  /**
    `ntpath.splitext(p)[1]`: from the last dot of the last path component on,
    unless everything in that component before the dot is a dot too.
  */
  function Extension(p: string): (r: string)
    ensures |r| <= |p| && r == p[|p| - |r|..]
    ensures r != [] ==> r[0] == '.'
    ensures forall i :: 0 <= i < |r| ==> !IsSep(r[i])
    ensures forall i :: 1 <= i < |r| ==> r[i] != '.'
  {
    var sepIndex := LastSep(p);
    var dotIndex := LastDot(p);
    if dotIndex > sepIndex && exists i :: sepIndex < i < dotIndex && p[i] != '.' then p[dotIndex..] else []
  }

  /** A name with a non-dot stem and a one-dot suffix has that suffix as its extension. */
  lemma ExtensionOfName(stem: string, ext: string)
    requires stem != [] && stem[0] != '.' && forall i :: 0 <= i < |stem| ==> !IsSep(stem[i])
    requires ext != [] && ext[0] == '.' && forall i :: 0 <= i < |ext| ==> !IsSep(ext[i]) && (i > 0 ==> ext[i] != '.')
    ensures Extension(stem + ext) == ext
  {
    var p := stem + ext;
    assert p[|stem|] == '.';
    assert LastDot(p) == |stem|;
    assert LastSep(p) == -1;
    assert p[0] != '.';
  }

  /** A dot-file such as `.env` has no extension, so it is refused although `.env` is listed. */
  lemma DotFileHasNoExtension()
    ensures Extension(".env") == []
    ensures Lower(Extension(".env")) !in SupportedDocExts
  {
    assert ".env"[..3] == ".en" && ".en"[..2] == ".e" && ".e"[..1] == ".";
    assert LastDot(".env") == 0;
  }

  /** `ntpath.splitdrive` for drive letters: a `:` in second place makes the first two characters the drive. */
  function SplitDrive(p: string): (r: (string, string))
    ensures r.0 + r.1 == p
    ensures r.0 != [] <==> |p| >= 2 && p[1] == ':'
    ensures r.0 != [] ==> r.0 == p[..2]
  {
    if |p| >= 2 && p[1] == ':' then (p[..2], p[2..]) else ([], p)
  }

  /** `ntpath.basename`: what follows the drive letter and the last separator. */
  function Basename(p: string): (r: string)
    ensures forall i :: 0 <= i < |r| ==> !IsSep(r[i])
    ensures |r| <= |p| && r == p[|p| - |r|..]
  {
    var q := SplitDrive(p).1;
    q[LastSep(q) + 1..]
  }

  /** No two dots next to each other. */
  predicate NoDotPair(s: string) {
    forall i :: 0 <= i < |s| - 1 ==> !(s[i] == '.' && s[i + 1] == '.')
  }

  /**
    `s.replace("..", "")` leaves no `..` behind: each run of dots loses its pairs,
    and runs stay apart. A name that does not start with a dot keeps its first character.
  */
  lemma {:induction false} DropDotPairs(s: string)
    ensures NoDotPair(ReplaceAll(s, "..", ""))
    ensures s != [] && s[0] != '.' ==> ReplaceAll(s, "..", "") != [] && ReplaceAll(s, "..", "")[0] == s[0]
    decreases |s|
  {
    if |s| < 2 {
    } else if s[..2] == ".." {
      DropDotPairs(s[2..]);
    } else {
      DropDotPairs(s[1..]);
      var t := ReplaceAll(s[1..], "..", "");
      var r := [s[0]] + t;
      assert ReplaceAll(s, "..", "") == r;
      assert forall i :: 0 <= i < |s[1..]| ==> s[1..][i] == s[i + 1];
      if s[0] == '.' {
        assert s[1] != '.';
      }
      forall i | 0 <= i < |r| - 1 ensures !(r[i] == '.' && r[i + 1] == '.') {
        if i > 0 {
          assert r[i] == t[i - 1] && r[i + 1] == t[i];
        }
      }
    }
  }

  /**
    `s.replace("..", "")` adds no character that `s` lacks: a separator or a
    colon cannot appear.
  */
  lemma {:induction false} DropDotPairsAvoids(s: string, bad: set<char>)
    requires forall i :: 0 <= i < |s| ==> s[i] !in bad
    ensures forall i :: 0 <= i < |ReplaceAll(s, "..", "")| ==> ReplaceAll(s, "..", "")[i] !in bad
    decreases |s|
  {
    if |s| < 2 {
    } else if s[..2] == ".." {
      assert forall i :: 0 <= i < |s[2..]| ==> s[2..][i] == s[i + 2];
      DropDotPairsAvoids(s[2..], bad);
    } else {
      assert forall i :: 0 <= i < |s[1..]| ==> s[1..][i] == s[i + 1];
      DropDotPairsAvoids(s[1..], bad);
      assert ReplaceAll(s, "..", "") == [s[0]] + ReplaceAll(s[1..], "..", "");
    }
  }

  /** `s.replace("..", "")` adds no separator to a name that has none. */
  lemma DropDotPairsNoSep(s: string)
    requires forall i :: 0 <= i < |s| ==> !IsSep(s[i])
    ensures forall i :: 0 <= i < |ReplaceAll(s, "..", "")| ==> !IsSep(ReplaceAll(s, "..", "")[i])
  {
    NoSepAvoids(s);
    DropDotPairsAvoids(s, {'/', '\\'});
    AvoidsNoSep(ReplaceAll(s, "..", ""));
  }

  /** `s.replace(c, "")` leaves no `c` and adds no character that `s` lacks. */
  lemma {:induction false} DropChar(s: string, c: char, bad: set<char>)
    requires forall i :: 0 <= i < |s| ==> s[i] !in bad
    ensures forall i :: 0 <= i < |ReplaceAll(s, [c], "")| ==>
      ReplaceAll(s, [c], "")[i] != c && ReplaceAll(s, [c], "")[i] !in bad
    decreases |s|
  {
    if s != [] {
      assert forall i :: 0 <= i < |s[1..]| ==> s[1..][i] == s[i + 1];
      assert s[..1] == [s[0]];
      DropChar(s[1..], c, bad);
      if s[0] != c {
        assert ReplaceAll(s, [c], "") == [s[0]] + ReplaceAll(s[1..], [c], "");
      } else {
        assert ReplaceAll(s, [c], "") == ReplaceAll(s[1..], [c], "");
      }
    }
  }

  /** The name an upload is saved under: the basename, with `..` removed, stripped, or "upload". */
  function SafeUploadName(fileName: string): string {
    var cleaned := Strip(ReplaceAll(Basename(if fileName == [] then "upload" else fileName), "..", ""));
    if cleaned == [] then "upload" else cleaned
  }

  /**
    The saved name is never empty, holds no separator and no `..`, and carries no
    surrounding whitespace. It may still start with a drive (`UploadLeavesCwd`).
  */
  lemma SafeUploadNameIsSafe(fileName: string)
    ensures SafeName(SafeUploadName(fileName))
  {
    var base := Basename(if fileName == [] then "upload" else fileName);
    var dropped := ReplaceAll(base, "..", "");
    var cleaned := Strip(dropped);
    if cleaned == [] {
      UploadIsSafe();
    } else {
      DropDotPairs(base);
      DropDotPairsNoSep(base);
      var k, m := StripSlice(dropped);
      SliceKeeps(dropped, k, m);
      NoDotPairNoDots(cleaned);
      assert SafeUploadName(fileName) == cleaned;
    }
  }

  lemma NoSepAvoids(s: string)
    requires forall i :: 0 <= i < |s| ==> !IsSep(s[i])
    ensures forall i :: 0 <= i < |s| ==> s[i] !in {'/', '\\'}
  {
  }

  lemma AvoidsNoSep(s: string)
    requires forall i :: 0 <= i < |s| ==> s[i] !in {'/', '\\'}
    ensures forall i :: 0 <= i < |s| ==> !IsSep(s[i])
  {
  }

  /** Non-empty, without separators, without `..`, without surrounding whitespace. */
  predicate SafeName(r: string) {
    r != [] && (forall i :: 0 <= i < |r| ==> !IsSep(r[i])) && !Contains(r, "..")
    && !IsSpace(r[0]) && !IsSpace(r[|r| - 1])
  }

  /** The fallback name is safe. */
  lemma UploadIsSafe()
    ensures SafeName("upload")
  {
    NoDotPairNoDots("upload");
  }

  /** A slice keeps the absence of `..` and of separators. */
  lemma SliceKeeps(s: string, k: nat, m: nat)
    requires k <= m <= |s|
    ensures NoDotPair(s) ==> NoDotPair(s[k..m])
    ensures (forall i :: 0 <= i < |s| ==> !IsSep(s[i])) ==> forall i :: 0 <= i < m - k ==> !IsSep(s[k..m][i])
  {
    assert forall i :: 0 <= i < m - k ==> s[k..m][i] == s[k + i];
  }

  /** Without two adjacent dots, `..` occurs nowhere. */
  lemma NoDotPairNoDots(r: string)
    requires NoDotPair(r)
    ensures !Contains(r, "..")
  {
    ContainsIff(r, "..");
    forall i | 0 <= i && i + 2 <= |r| ensures !OccursAt(r, "..", i) {
      assert r[i..i + 2][0] == r[i] && r[i..i + 2][1] == r[i + 1];
    }
  }

  /**
    `ntpath.join(dir, name)`: a name that starts with a separator keeps only the
    directory's drive (or its own); a name on another drive, compared ignoring
    case, replaces the directory altogether; otherwise the name follows the
    directory after one backslash, and takes over the drive when it names the
    same one in another case.
  */
  function JoinPath(dir: string, name: string): (r: string)
    ensures EndsWith(r, SplitDrive(name).1)
  {
    var d := SplitDrive(dir);
    var n := SplitDrive(name);
    if n.1 != [] && IsSep(n.1[0]) then (if n.0 != [] || d.0 == [] then n.0 else d.0) + n.1
    else if n.0 != [] && Lower(n.0) != Lower(d.0) then name
    else (if n.0 != [] then n.0 else d.0) + JoinSep(d.1) + n.1
  }

  /** The directory part with the backslash `ntpath.join` adds unless it is empty or ends in a separator. */
  function JoinSep(dirPath: string): (r: string)
    ensures r == dirPath || r == dirPath + "\\"
  {
    if dirPath == [] || IsSep(dirPath[|dirPath| - 1]) then dirPath else dirPath + "\\"
  }

  /** A name without drive or separator is joined inside the directory. */
  lemma JoinInDir(dir: string, name: string)
    requires SplitDrive(name).0 == [] && forall i :: 0 <= i < |name| ==> !IsSep(name[i])
    ensures JoinPath(dir, name) == dir + name || JoinPath(dir, name) == dir + "\\" + name
  {
    var d := SplitDrive(dir);
    assert SplitDrive(name) == ([], name);
    assert name != [] ==> !IsSep(name[0]);
    assert JoinPath(dir, name) == d.0 + JoinSep(d.1) + name;
    assert d.0 + d.1 == dir;
  }

  /** A name on another drive replaces the directory: the path leaves it. */
  lemma JoinOtherDrive(dir: string, name: string)
    requires SplitDrive(name).0 != [] && Lower(SplitDrive(name).0) != Lower(SplitDrive(dir).0)
    requires forall i :: 0 <= i < |name| ==> !IsSep(name[i])
    ensures JoinPath(dir, name) == name
  {
    assert SplitDrive(name).1 != [] ==> SplitDrive(name).1[0] == name[2];
  }

  /**
    As written, an upload named `..d:x.py` is accepted (`.py` is listed); removing
    `..` turns its name into `d:x.py`, and joined to the working directory `C:\proj`
    that is the path `d:x.py`, on drive D and outside the working directory.
  */
  lemma UploadLeavesCwd()
    ensures DocExt("..d:x.py") in SupportedDocExts
    ensures SafeUploadName("..d:x.py") == "d:x.py"
    ensures JoinPath("C:\\proj", "d:x.py") == "d:x.py"
  {
    DotDotExtension();
    DotDotName();
    OtherDriveJoin();
  }

  lemma OtherDriveJoin()
    ensures JoinPath("C:\\proj", "d:x.py") == "d:x.py"
  {
    var dir, name := "C:\\proj", "d:x.py";
    assert SplitDrive(name).0 == "d:" && SplitDrive(dir).0 == "C:";
    assert Lower("d:") == "d:" && Lower("C:") == "c:";
    JoinOtherDrive(dir, name);
  }

  lemma DotDotExtension()
    ensures DocExt("..d:x.py") == ".py"
  {
    var f := "..d:x.py";
    assert LastSep(f) == -1;
    assert LastDot(f) == 5 by {
      assert f[..7] == "..d:x.p" && f[..6] == "..d:x.";
    }
    assert f[2] != '.';
    assert Extension(f) == f[5..] == ".py";
    assert Lower(".py") == ".py";
  }

  lemma DotDotName()
    ensures SafeUploadName("..d:x.py") == "d:x.py"
  {
    DotDotBase();
    DotDotDropped();
    DriveNameStripped();
  }

  lemma DotDotBase()
    ensures Basename("..d:x.py") == "..d:x.py"
  {
    var f := "..d:x.py";
    assert SplitDrive(f).1 == f;
    assert LastSep(f) == -1;
  }

  lemma DotDotDropped()
    ensures ReplaceAll("..d:x.py", "..", "") == "d:x.py"
  {
    var f := "..d:x.py";
    var g := "d:x.py";
    assert f[..2] == ".." && f[2..] == g;
    assert NoDotPair(g);
    ReplaceNoPair(g);
  }

  lemma DriveNameStripped()
    ensures Strip("d:x.py") == "d:x.py"
  {
    var g := "d:x.py";
    assert forall i :: 0 <= i < |g| ==> !IsSpace(g[i]);
  }

  /** Removing `..` from a text without two adjacent dots changes nothing. */
  lemma {:induction false} ReplaceNoPair(s: string)
    requires NoDotPair(s)
    ensures ReplaceAll(s, "..", "") == s
    decreases |s|
  {
    if |s| >= 2 {
      assert !(s[0] == '.' && s[1] == '.');
      assert s[..2][0] == s[0] && s[..2][1] == s[1];
      assert forall i :: 0 <= i < |s[1..]| ==> s[1..][i] == s[i + 1];
      ReplaceNoPair(s[1..]);
      assert s == [s[0]] + s[1..];
    }
  }

  /**
    The corrected upload name: colons are removed before `..`, so no drive can
    be left at the front.
  */
  function SafeUploadNameInDir(fileName: string): string {
    var base := Basename(if fileName == [] then "upload" else fileName);
    var cleaned := Strip(ReplaceAll(ReplaceAll(base, ":", ""), "..", ""));
    if cleaned == [] then "upload" else cleaned
  }

  /**
    The corrected name is safe and holds no colon, so the upload is saved directly
    inside the working directory.
  */
  lemma UploadStaysInCwd(cwd: string, fileName: string)
    ensures var name := SafeUploadNameInDir(fileName);
      && SafeName(name) && ':' !in name
      && (JoinPath(cwd, name) == cwd + name || JoinPath(cwd, name) == cwd + "\\" + name)
  {
    var name := SafeUploadNameInDir(fileName);
    SafeUploadNameInDirIsSafe(fileName);
    assert forall i :: 0 <= i < |name| ==> !IsSep(name[i]);
    assert SplitDrive(name).0 == [] by {
      if |name| >= 2 {
        assert name[1] in name;
      }
    }
    JoinInDir(cwd, name);
  }

  /** The corrected name is safe and has no colon. */
  lemma SafeUploadNameInDirIsSafe(fileName: string)
    ensures SafeName(SafeUploadNameInDir(fileName)) && ':' !in SafeUploadNameInDir(fileName)
  {
    var base := Basename(if fileName == [] then "upload" else fileName);
    var dropped := ReplaceAll(ReplaceAll(base, ":", ""), "..", "");
    DropColonsAndPairs(base);
    StrippedSafe(dropped);
  }

  /**
    Stripping a name without `..`, separators and colons, with `upload` in place
    of an empty result, gives a safe name without colons.
  */
  lemma StrippedSafe(d: string)
    requires NoDotPair(d) && forall i :: 0 <= i < |d| ==> !IsSep(d[i]) && d[i] != ':'
    ensures var n := if Strip(d) == [] then "upload" else Strip(d); SafeName(n) && ':' !in n
  {
    var cleaned := Strip(d);
    if cleaned == [] {
      UploadIsSafe();
    } else {
      var k, m := StripSlice(d);
      SliceKeeps(d, k, m);
      NoDotPairNoDots(cleaned);
      assert forall i :: 0 <= i < |cleaned| ==> cleaned[i] == d[k + i];
    }
  }

  /** Removing colons, then `..`, from a name without separators leaves neither, and no separator. */
  lemma DropColonsAndPairs(base: string)
    requires forall i :: 0 <= i < |base| ==> !IsSep(base[i])
    ensures var d := ReplaceAll(ReplaceAll(base, ":", ""), "..", "");
      NoDotPair(d) && forall i :: 0 <= i < |d| ==> !IsSep(d[i]) && d[i] != ':'
  {
    var colonless := ReplaceAll(base, ":", "");
    NoSepAvoids(base);
    DropChar(base, ':', {'/', '\\'});
    DropDotPairsAvoids(colonless, {'/', '\\', ':'});
    DropDotPairs(colonless);
  }

  /** The caption the upload is injected with. */
  const DefaultDocCaption: string := "请查看这个文件"

  /**
    What `handle_document` hands to `_inject_to_claude`: the stripped caption (or
    the default one) and the path the upload is saved under in the working
    directory; nothing when the lowercased extension is not listed.
  */
  function DocumentText(cwd: string, fileName: string, caption: string): (r: Option<string>)
    ensures r.None? <==> DocExt(fileName) !in SupportedDocExts
    ensures r.Some? ==> EndsWith(r.value, SplitDrive(SafeUploadName(fileName)).1)
  {
    if DocExt(fileName) !in SupportedDocExts then None
    else Some(SavedFileText(cwd, fileName, caption))
  }

  /** The lowercased extension `handle_document` looks up. */
  function DocExt(fileName: string): string {
    Lower(Extension(fileName))
  }

  /**
    The caption, a space, and the path of the saved upload. Unless the saved name
    starts with a drive, that path is the name inside the working directory.
  */
  function SavedFileText(cwd: string, fileName: string, caption: string): (r: string)
    ensures EndsWith(r, SplitDrive(SafeUploadName(fileName)).1)
    ensures var name := SafeUploadName(fileName);
      var lead := (if Strip(caption) == [] then DefaultDocCaption else Strip(caption)) + " ";
      SplitDrive(name).0 == [] ==> r == lead + (cwd + name) || r == lead + (cwd + "\\" + name)
  {
    var c := Strip(caption);
    var name := SafeUploadName(fileName);
    var path := JoinPath(cwd, name);
    var lead := (if c == [] then DefaultDocCaption else c) + " ";
    EndsWithAppend(lead, path, SplitDrive(name).1);
    DriveFreeJoin(cwd, fileName);
    lead + path
  }

  /** The saved name, unless it starts with a drive, is joined inside the directory. */
  lemma DriveFreeJoin(cwd: string, fileName: string)
    ensures var name := SafeUploadName(fileName);
      SplitDrive(name).0 == [] ==> JoinPath(cwd, name) == cwd + name || JoinPath(cwd, name) == cwd + "\\" + name
  {
    var name := SafeUploadName(fileName);
    SafeUploadNameIsSafe(fileName);
    if SplitDrive(name).0 == [] {
      JoinInDir(cwd, name);
    }
  }

  /** `s` ends with `suffix`. */
  predicate EndsWith(s: string, suffix: string) {
    |suffix| <= |s| && s[|s| - |suffix|..] == suffix
  }

  /** Whatever is put in front, the end stays. */
  lemma EndsWithAppend(front: string, s: string, suffix: string)
    requires EndsWith(s, suffix)
    ensures EndsWith(front + s, suffix)
  {
    assert (front + s)[|front + s| - |suffix|..] == s[|s| - |suffix|..];
  }

  /**
    `handle_document`: an unsupported upload is refused with a reply naming its
    extension; otherwise the operator is told the file was saved, and the text
    is injected without the file check.
  */
  method HandleDocument(st: BotState, chat: ChatId, fileName: string, caption: string, w: World)
    returns (injected: Option<string>, outcome: Option<InjectOutcome>)
    requires st.Valid()
    modifies st`targetHandle, st`msgQueue, st`queueChatId, st`statusMsg, st`nextMsgId, st`log,
             st`monitorTask, st`doneTasks, st`nextTaskId
    ensures st.Valid()
    ensures injected == DocumentText(old(st.cwd), fileName, caption) && outcome.Some? == injected.Some?
    ensures injected.None? ==>
      SliceOf(st) == Answered(old(SliceOf(st)), [Replied(chat, UnsupportedTypeReply(DocExt(fileName)))])
    ensures injected.Some? ==>
      (outcome.value, SliceOf(st)) == SaveThenInject(old(SliceOf(st)), chat, fileName, injected.value, st.autoMonitor, w)
  {
    var ext := DocExt(fileName);
    if ext !in SupportedDocExts {
      injected, outcome := None, None;
      ghost var x := SliceOf(st);
      st.log := st.log + [Replied(chat, UnsupportedTypeReply(ext))];
      assert SliceOf(st) == Answered(x, [Replied(chat, UnsupportedTypeReply(ext))]);
    } else {
      var text := SavedFileText(st.cwd, fileName, caption);
      injected := Some(text);
      var o := SaveAndInject(st, chat, fileName, text, w);
      outcome := Some(o);
      assert injected.value == text;
    }
  }

  /** The supported branch of `handle_document`: the operator is told the file was saved, then the text is injected without the file check. */
  function SaveThenInject(x: Slice, chat: ChatId, fileName: string, text: string, auto: bool, w: World): (InjectOutcome, Slice) {
    Inject(Answered(x, [Replied(chat, FileSavedReply(fileName))]), chat, text, true, auto, w)
  }

  /** The supported branch of `handle_document` (handlers.py only, so its injection is handlers.py's). */
  method SaveAndInject(st: BotState, chat: ChatId, fileName: string, text: string, w: World)
    returns (outcome: InjectOutcome)
    requires st.Valid()
    modifies st`targetHandle, st`msgQueue, st`queueChatId, st`statusMsg, st`nextMsgId, st`log,
             st`monitorTask, st`doneTasks, st`nextTaskId
    ensures st.Valid()
    ensures (outcome, SliceOf(st)) == SaveThenInject(old(SliceOf(st)), chat, fileName, text, st.autoMonitor, w)
  {
    ghost var saved := Answered(SliceOf(st), [Replied(chat, FileSavedReply(fileName))]);
    st.log := st.log + [Replied(chat, FileSavedReply(fileName))];
    assert SliceOf(st) == saved;
    outcome := InjectToClaude(st, Modular, chat, text, true, w);
  }
}
