/**
  config.py: the environment settings, the spinner alphabet and the shared
  mutable `state` record every other component reads and writes.

  The operator channel (Telegram) and the keystrokes sent to the target window
  are recorded in `BotState.log`, a list of `Effect`s, so that the operations
  that talk to the outside world can be specified by what they emit.
*/
module Config {
  import opened Wrappers
  import opened Text

  // ---------------------------------------------------------------- vocabulary

  /** An OS window handle; Python treats the handle 0 as "no handle". */
  type Handle = int
  type ChatId = int
  /** Identity of a message the bot has sent (Telegram's message object). */
  type MsgId = nat

  /** A window capture, known to the core only through its content digest (`_image_hash`). */
  datatype Screenshot = Screenshot(digest: nat)

  /** An inline quick-reply button: its caption and the key tokens it sends. */
  datatype QuickReply = QuickReply(caption: string, keys: string)

  /** The queue excerpt shown under a status line: shortened items and how many were not shown. */
  datatype QueuePreview = NoPreview | Preview(shown: seq<string>, more: int)

  /** The texts of the single live status message. */
  datatype StatusText =
    | ThinkingStatus(elapsed: Option<string>, queue: QueuePreview)
    | ContinuingStatus(elapsed: Option<string>)
    | TimedOutStatus
    | QueuedSendFailedStatus
    | SentStatus
    | SendFailedStatus

  /** The replies a command handler sends back to the operator. */
  datatype Reply =
    | NoWindowReply
    | QueueFullReply
    | QueuedReply(items: seq<string>)
    | IntervalShownReply(seconds: int)
    | IntervalSetReply(seconds: int)
    | NotANumberReply
    | QueueClearedReply(count: nat)
    | AutoMonitorReply(on: bool)
    | ShellBlockedReply
    | UnsupportedTypeReply(ext: string)
    | FileSavedReply(name: string)
    | LabelSetReply(handle: Handle, caption: string)

  /** What the bot does to the outside world. */
  datatype Effect =
    | Replied(chat: ChatId, reply: Reply)
    | StatusSent(chat: ChatId, msg: MsgId, status: StatusText)
    | StatusEdited(msg: MsgId, status: StatusText)
    | StatusDeleted(msg: MsgId)
    | PhotoSent(chat: ChatId, shot: Screenshot)
    | PromptSent(chat: ChatId, prompt: string, replies: seq<QuickReply>)
    | ResponseSent(chat: ChatId, response: string)
    | QueueNoticeSent(chat: ChatId, msg: MsgId, next: string, queue: QueuePreview)
    | CompletionPromptSent(chat: ChatId)
    | Injected(handle: Handle, payload: string)

  // ---------------------------------------------------------------- constants

  /**
    The braille spinner glyphs the assistant prefixes to its title while it works:
    the braille block U+2801..U+283F without the six patterns U+2805, U+280C,
    U+280D, U+280E, U+280F and U+2811 (57 glyphs).
  */
  predicate IsSpinner(c: char) {
    '\U{2801}' <= c <= '\U{283f}'
    && c != '\U{2805}' && c != '\U{280c}' && c != '\U{280d}'
    && c != '\U{280e}' && c != '\U{280f}' && c != '\U{2811}'
  }

  /** The glyph the assistant prefixes to its title when it waits for input. */
  const ReadyGlyph: char := '✳'

  const QueueCapacity: nat := 50
  const HistoryCapacity: nat := 20

  // ---------------------------------------------------------------- environment

  /** What one comma-separated token of ALLOWED_USER_IDS contributes: nothing when blank or not an integer. */
  function UserIdOf(token: string): (r: Option<int>)
    ensures Strip(token) == [] ==> r == None
  {
    var t := Strip(token);
    if t == [] then None else ParseInt(t)
  }

  /** The values `f` yields over `tokens`, read left to right, skipping the tokens it yields nothing for. */
  function Collect(tokens: seq<string>, f: string -> Option<int>): (r: set<int>)
    decreases |tokens|
  {
    if tokens == [] then {}
    else
      var last := f(tokens[|tokens| - 1]);
      Collect(tokens[..|tokens| - 1], f) + (if last.Some? then {last.value} else {})
  }

  /** A value is collected exactly when some token yields it. */
  lemma {:induction false} CollectMembers(tokens: seq<string>, f: string -> Option<int>, u: int)
    ensures u in Collect(tokens, f) <==> exists j :: 0 <= j < |tokens| && f(tokens[j]) == Some(u)
    decreases |tokens|
  {
    if tokens != [] {
      var n := |tokens| - 1;
      var init := tokens[..n];
      CollectMembers(init, f, u);
      if u in Collect(tokens, f) {
        if u !in Collect(init, f) {
          assert f(tokens[n]) == Some(u);
        } else {
          var j :| 0 <= j < n && f(init[j]) == Some(u);
          assert tokens[j] == init[j];
        }
      }
      if exists j :: 0 <= j < |tokens| && f(tokens[j]) == Some(u) {
        var j :| 0 <= j < |tokens| && f(tokens[j]) == Some(u);
        if j < n {
          assert init[j] == tokens[j];
        }
      }
    }
  }

  /** Extending the token prefix by one token adds what that token yields. */
  lemma CollectSnoc(tokens: seq<string>, f: string -> Option<int>, i: int)
    requires 0 <= i < |tokens|
    ensures Collect(tokens[..i + 1], f)
      == Collect(tokens[..i], f) + (if f(tokens[i]).Some? then {f(tokens[i]).value} else {})
  {
    assert tokens[..i + 1][..i] == tokens[..i];
  }

  /**
    The ALLOWED_USERS loop: every token of the comma-split variable is stripped;
    blank tokens are skipped, tokens `int()` rejects are skipped without stopping
    the loop, and every other token adds its integer value.
  */
  method ParseAllowedUsers(env: string) returns (users: set<int>)
    ensures users == Collect(Split(env, ','), UserIdOf)
    ensures forall u :: u in users <==>
      exists j :: 0 <= j < |Split(env, ',')| && UserIdOf(Split(env, ',')[j]) == Some(u)
  {
    var tokens := Split(env, ',');
    users := {};
    for i := 0 to |tokens|
      invariant users == Collect(tokens[..i], UserIdOf)
    {
      CollectSnoc(tokens, UserIdOf, i);
      var uid := Strip(tokens[i]);
      if uid != [] {
        var parsed := ParseInt(uid);
        if parsed.Some? {
          users := users + {parsed.value};
        }
      }
    }
    assert tokens[..|tokens|] == tokens;
    forall u ensures u in users <==> exists j :: 0 <= j < |tokens| && UserIdOf(tokens[j]) == Some(u) {
      CollectMembers(tokens, UserIdOf, u);
    }
  }

  /** An integer setting read from the environment, or its default when unset: `None` is the ValueError that stops the program at start-up. */
  function IntSetting(value: Option<string>, default: int): (r: Option<int>)
    ensures value.None? ==> r == Some(default)
    ensures value.Some? ==> r == ParseInt(value.value)
  {
    ParseIntRoundTrip(default);
    ParseInt(if value.Some? then value.value else IntToString(default))
  }

  const DefaultShellTimeout: int := 120
  const DefaultScreenshotDelay: int := 15

  // ---------------------------------------------------------------- bounded deques

  /** The last `n` elements of `s` (all of them when there are fewer). */
  function LastN<T>(s: seq<T>, n: nat): (r: seq<T>)
    ensures |r| == if |s| < n then |s| else n
  {
    if |s| <= n then s else s[|s| - n..]
  }

  /** `deque(maxlen=n).append(x)`: a full deque drops its oldest element. */
  function BoundedAppend<T>(q: seq<T>, x: T, n: nat): (r: seq<T>)
    requires n > 0 && |q| <= n
    ensures |r| <= n
    ensures r != [] && r[|r| - 1] == x
  {
    if |q| < n then q + [x] else q[1..] + [x]
  }

  /** Appends `xs` one after another to a bounded deque. */
  function AppendAll<T>(q: seq<T>, xs: seq<T>, n: nat): (r: seq<T>)
    requires n > 0 && |q| <= n
    ensures |r| <= n
    decreases |xs|
  {
    if xs == [] then q else AppendAll(BoundedAppend(q, xs[0], n), xs[1..], n)
  }

  /** A bounded deque fed by appends holds exactly the `n` most recent items, oldest first. */
  lemma {:induction false} AppendAllKeepsMostRecent<T>(q: seq<T>, xs: seq<T>, n: nat)
    requires n > 0 && |q| <= n
    ensures AppendAll(q, xs, n) == LastN(q + xs, n)
    decreases |xs|
  {
    if xs == [] {
      assert q + xs == q;
    } else {
      var q' := BoundedAppend(q, xs[0], n);
      AppendAllKeepsMostRecent(q', xs[1..], n);
      assert q + xs == (q + [xs[0]]) + xs[1..];
      LastNAppend(q + [xs[0]], xs[1..], n);
      assert q' == LastN(q + [xs[0]], n);
    }
  }

  /** Trimming to the last `n` before appending more does not change the last `n` after. */
  lemma LastNAppend<T>(s: seq<T>, t: seq<T>, n: nat)
    ensures LastN(LastN(s, n) + t, n) == LastN(s + t, n)
  {
    if |s| > n {
      var k := |s| - n;
      assert s[k..] + t == (s + t)[k..];
      LastNOfSuffix(s + t, k, n);
    }
  }

  /** Dropping a prefix that leaves at least `n` elements keeps the last `n`. */
  lemma LastNOfSuffix<T>(w: seq<T>, k: nat, n: nat)
    requires k + n <= |w|
    ensures LastN(w[k..], n) == LastN(w, n)
  {
    if |w| - k > n {
      assert w[k..][|w| - k - n..] == w[|w| - n..];
    }
  }

  /** Below capacity the deque behaves as a plain list append, as the queue guard ensures. */
  lemma AppendBelowCapacity<T>(q: seq<T>, x: T, n: nat)
    requires |q| < n
    ensures BoundedAppend(q, x, n) == q + [x]
  {
  }

  // ---------------------------------------------------------------- shared state

  /** The module-level `state` record. */
  class BotState {
    var cwd: string
    /** The cached target window; `None` is Python's None. */
    var targetHandle: Option<Handle>
    var autoMonitor: bool
    var screenshotInterval: int
    /** The monitor task stored in `state["monitor_task"]`, by task number. */
    var monitorTask: Option<nat>
    /** Task numbers whose task has finished or was cancelled (`task.done()`). */
    var doneTasks: set<nat>
    var nextTaskId: nat
    var msgQueue: seq<string>
    var queueChatId: Option<ChatId>
    /** The live status message, `state["status_msg"]`. */
    var statusMsg: Option<MsgId>
    var nextMsgId: MsgId
    var streamMode: bool
    var windowLabels: map<Handle, string>
    var lastScreenshotHash: Option<nat>
    var cmdHistory: seq<string>
    var chatId: Option<ChatId>
    var waitingNewDir: bool
    /** Everything sent to the operator or typed into the target, oldest first. */
    var log: seq<Effect>

    ghost predicate Valid()
      reads this`msgQueue, this`cmdHistory, this`doneTasks, this`nextTaskId, this`monitorTask,
            this`statusMsg, this`nextMsgId
    {
      |msgQueue| <= QueueCapacity && |cmdHistory| <= HistoryCapacity
      && (forall t :: t in doneTasks ==> t < nextTaskId)
      && (monitorTask.Some? ==> monitorTask.value < nextTaskId)
      && (statusMsg.Some? ==> statusMsg.value < nextMsgId)
    }

    /** `monitor_task` is set and not done. */
    predicate MonitorRunning()
      reads this`monitorTask, this`doneTasks
    {
      monitorTask.Some? && monitorTask.value !in doneTasks
    }

    /** The initial `state` dict. */
    constructor (workDir: string, screenshotDelay: int)
      ensures Valid()
      ensures cwd == workDir && targetHandle == None && autoMonitor
      ensures screenshotInterval == screenshotDelay
      ensures monitorTask == None && !MonitorRunning() && msgQueue == [] && queueChatId == None
      ensures statusMsg == None && !streamMode && windowLabels == map[]
      ensures lastScreenshotHash == None && cmdHistory == [] && chatId == None
      ensures !waitingNewDir && log == []
    {
      cwd := workDir;
      targetHandle := None;
      autoMonitor := true;
      screenshotInterval := screenshotDelay;
      monitorTask := None;
      doneTasks := {};
      nextTaskId := 0;
      msgQueue := [];
      queueChatId := None;
      statusMsg := None;
      nextMsgId := 0;
      streamMode := false;
      windowLabels := map[];
      lastScreenshotHash := None;
      cmdHistory := [];
      chatId := None;
      waitingNewDir := false;
      log := [];
    }
  }

  /** Appends a command to the history, which keeps only the 20 most recent entries. */
  method RecordHistory(st: BotState, text: string)
    requires st.Valid()
    modifies st`cmdHistory
    ensures st.Valid()
    ensures st.cmdHistory == BoundedAppend(old(st.cmdHistory), text, HistoryCapacity)
  {
    st.cmdHistory := BoundedAppend(st.cmdHistory, text, HistoryCapacity);
  }
}
