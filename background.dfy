/**
 * The background service worker (background.js): a FIFO send queue guarded by
 * `isProcessing`, a key-value store holding one `pending_<tabId>` delivery per
 * tab, the readiness handler that consumes it, the startup sweep of stale
 * entries, and the message dispatcher. Chrome calls are outcomes passed in as
 * parameters; what the worker asks Chrome to do is appended to `log`.
 */
module Background {
  import opened Wrappers
  import opened Text
  import opened Seqs

  /** A queued request; the random task id of the source is not modelled. */
  datatype SendTask = SendTask(chatId: string, messageText: string, mode: string, timestamp: int)

  /** The object stored under `pending_<tabId>`. */
  datatype PendingEntry = PendingEntry(chatId: string, messageText: string, tabId: nat, created: int)

  /** A value of `chrome.storage.local`: a pending delivery, or anything another writer left. */
  datatype StoredValue = Pending(entry: PendingEntry) | Other(text: string)

  /**
   * A Chrome call of a send, after the tab is known, that rejects. The send's
   * own `try` catches the error and skips the steps after it.
   */
  datatype FailingCall = StorageSetFails | TabUpdateFails | ExecuteScriptFails

  /**
   * What Chrome gives one iteration of the consumer loop: the tab it gets
   * (the created background tab, or the active tab of the current window),
   * None when that step throws; the later call that rejects, if any; and
   * `Date.now()`.
   */
  datatype TaskEnv = TaskEnv(tab: Option<nat>, fails: Option<FailingCall>, now: int)

  /** The `storage.local.set` of the pending entry goes through: there is a tab and the call does not reject. */
  predicate Stores(env: TaskEnv) {
    env.tab.Some? && env.fails != Some(StorageSetFails)
  }

  /** Requests the worker makes of Chrome, in order. */
  datatype Effect =
    | OpenedBackgroundTab(url: string)
    | NavigatedTab(tabId: nat, url: string)
    | InjectedContentScript(tabId: nat)
    | SentToTab(tabId: nat, chatId: string, text: string)
    | ScheduledClose(tabId: nat)

  /** What `chrome.tabs.sendMessage` produced: a rejection, no response, or `{success}`. */
  datatype SendReply = Threw | NoResponse | Responded(success: bool)

  /** Whether `tabs.find(t => t.id === tabId)` finds the tab, and whether it is active. */
  datatype TabState = TabGone | TabActive | TabInactive

  const PendingPrefix: string := "pending_"
  const OneHour: int := 60 * 60 * 1000

  function ChatUrl(chatId: string): (url: string)
    ensures StartsWith(url, "https://ufa.hh.ru/chat/") && url[|"https://ufa.hh.ru/chat/"|..] == chatId
  {
    "https://ufa.hh.ru/chat/" + chatId
  }

  /** `pending_${tabId}`: the tab id rendered in decimal. */
  function PendingKey(tabId: nat): (key: string)
    ensures StartsWith(key, PendingPrefix)
  {
    PendingPrefix + NatToString(tabId)
  }

  /** Distinct tabs get distinct keys. */
  lemma PendingKeyInjective(a: nat, b: nat)
    requires PendingKey(a) == PendingKey(b)
    ensures a == b
  {
    assert PendingKey(a)[|PendingPrefix|..] == NatToString(a);
    assert PendingKey(b)[|PendingPrefix|..] == NatToString(b);
    NatToStringInjective(a, b);
  }

  /** Every `pending_` key holds the entry of the tab it names. */
  ghost predicate ValidStore(storage: map<string, StoredValue>) {
    forall k :: k in storage && StartsWith(k, PendingPrefix) ==>
      storage[k].Pending? && k == PendingKey(storage[k].entry.tabId)
  }

  function EnvAt(envs: seq<TaskEnv>, k: nat): TaskEnv {
    if k < |envs| then envs[k] else TaskEnv(None, None, 0)
  }

  /** `chrome.storage.local.set({[`pending_${tab}`]: ...})` once a tab is known; a rejected set writes nothing. */
  function WritePending(storage: map<string, StoredValue>, task: SendTask, env: TaskEnv): map<string, StoredValue> {
    if Stores(env) then
      var t := env.tab.value;
      storage[PendingKey(t) := Pending(PendingEntry(task.chatId, task.messageText, t, env.now))]
    else storage
  }

  /**
   * Writing the entry of a tab overwrites that tab's key and leaves every
   * other key as it was; a rejected set leaves the store as it was.
   */
  lemma WritePendingOverwrites(storage: map<string, StoredValue>, task: SendTask, env: TaskEnv)
    requires env.tab.Some?
    ensures var r := WritePending(storage, task, env);
      && (env.fails == Some(StorageSetFails) ==> r == storage)
      && (env.fails != Some(StorageSetFails) ==>
            && r[PendingKey(env.tab.value)] == Pending(PendingEntry(task.chatId, task.messageText, env.tab.value, env.now))
            && r.Keys == storage.Keys + {PendingKey(env.tab.value)}
            && forall k :: k in storage && k != PendingKey(env.tab.value) ==> r[k] == storage[k])
  {
  }

  lemma WritePendingKeepsValid(storage: map<string, StoredValue>, task: SendTask, env: TaskEnv)
    requires ValidStore(storage)
    ensures ValidStore(WritePending(storage, task, env))
  {
  }

  /**
   * The Chrome requests of one task: mode 'background' opens an inactive tab
   * at the chat URL; any other mode navigates the current tab there. A call
   * that throws ends that send: no tab or a rejected set stops before
   * navigation and injection, a rejected update stops before injection.
   */
  function TaskEffects(task: SendTask, env: TaskEnv): seq<Effect> {
    if task.mode == "background" then
      [OpenedBackgroundTab(ChatUrl(task.chatId))]
      + (if Stores(env) then [InjectedContentScript(env.tab.value)] else [])
    else if Stores(env) then
      [NavigatedTab(env.tab.value, ChatUrl(task.chatId))]
      + (if env.fails == Some(TabUpdateFails) then [] else [InjectedContentScript(env.tab.value)])
    else []
  }

  /**
   * Only mode 'background' opens a tab, and it never navigates an existing
   * one; any other mode navigates first, once the entry is stored. The
   * content script is injected into tab t exactly when t's entry was stored
   * and, outside mode 'background', the navigation did not reject.
   */
  lemma TaskRouteByMode(task: SendTask, env: TaskEnv)
    ensures (exists e :: e in TaskEffects(task, env) && e.OpenedBackgroundTab?) <==> task.mode == "background"
    ensures task.mode == "background" ==> forall e :: e in TaskEffects(task, env) ==> !e.NavigatedTab?
    ensures task.mode != "background" && Stores(env) ==>
      TaskEffects(task, env)[0] == NavigatedTab(env.tab.value, ChatUrl(task.chatId))
    ensures (exists e :: e in TaskEffects(task, env) && e.NavigatedTab?) <==> task.mode != "background" && Stores(env)
    ensures forall t: nat :: InjectedContentScript(t) in TaskEffects(task, env) <==>
      env.tab == Some(t) && Stores(env) && (task.mode == "background" || env.fails != Some(TabUpdateFails))
  {
    if task.mode == "background" {
      assert TaskEffects(task, env)[0].OpenedBackgroundTab?;
    } else if Stores(env) {
      assert TaskEffects(task, env)[0].NavigatedTab?;
    }
  }

  /** The store after the consumer loop has handled `tasks`, iteration k seeing `EnvAt(envs, k)`. */
  function StoreAfter(storage: map<string, StoredValue>, tasks: seq<SendTask>, envs: seq<TaskEnv>): map<string, StoredValue> {
    if tasks == [] then storage
    else WritePending(StoreAfter(storage, tasks[..|tasks| - 1], envs), tasks[|tasks| - 1], EnvAt(envs, |tasks| - 1))
  }

  function EffectsOf(tasks: seq<SendTask>, envs: seq<TaskEnv>): seq<Effect> {
    if tasks == [] then []
    else EffectsOf(tasks[..|tasks| - 1], envs) + TaskEffects(tasks[|tasks| - 1], EnvAt(envs, |tasks| - 1))
  }

  lemma {:induction false} StoreAfterKeepsValid(storage: map<string, StoredValue>, tasks: seq<SendTask>, envs: seq<TaskEnv>)
    requires ValidStore(storage)
    ensures ValidStore(StoreAfter(storage, tasks, envs))
  {
    if tasks != [] {
      StoreAfterKeepsValid(storage, tasks[..|tasks| - 1], envs);
      WritePendingKeepsValid(StoreAfter(storage, tasks[..|tasks| - 1], envs), tasks[|tasks| - 1], EnvAt(envs, |tasks| - 1));
    }
  }

  /** A key no iteration writes keeps its value through the loop. */
  lemma {:induction false} StoreAfterUntouched(storage: map<string, StoredValue>, tasks: seq<SendTask>, envs: seq<TaskEnv>, k: string)
    requires forall i :: 0 <= i < |tasks| && EnvAt(envs, i).tab.Some? ==> k != PendingKey(EnvAt(envs, i).tab.value)
    ensures k in StoreAfter(storage, tasks, envs) <==> k in storage
    ensures k in storage ==> StoreAfter(storage, tasks, envs)[k] == storage[k]
  {
    if tasks != [] {
      StoreAfterUntouched(storage, tasks[..|tasks| - 1], envs, k);
    }
  }

  lemma AfterSnoc(storage: map<string, StoredValue>, tasks: seq<SendTask>, task: SendTask, envs: seq<TaskEnv>)
    ensures StoreAfter(storage, tasks + [task], envs) == WritePending(StoreAfter(storage, tasks, envs), task, EnvAt(envs, |tasks|))
    ensures EffectsOf(tasks + [task], envs) == EffectsOf(tasks, envs) + TaskEffects(task, EnvAt(envs, |tasks|))
  {
    assert (tasks + [task])[..|tasks|] == tasks;
  }

  /** One iteration of the consumer loop keeps "taken ++ queued == initial ++ arrived". */
  lemma FifoStep(handled: seq<SendTask>, queue: seq<SendTask>, initial: seq<SendTask>, arrivals: seq<seq<SendTask>>)
    requires queue != [] && handled + queue == initial + Arrived(arrivals, |handled|)
    requires RanWhileNonEmpty(|initial|, arrivals, |handled|)
    ensures (handled + [queue[0]]) + (queue[1..] + ArrivalsAt(arrivals, |handled|))
         == initial + Arrived(arrivals, |handled| + 1)
    ensures RanWhileNonEmpty(|initial|, arrivals, |handled| + 1)
  {
    assert |handled| < |initial| + |Arrived(arrivals, |handled|)| by {
      assert |handled + queue| == |initial + Arrived(arrivals, |handled|)|;
    }
    ArrivedStep(arrivals, |handled|);
    var incoming := ArrivalsAt(arrivals, |handled|);
    assert queue == [queue[0]] + queue[1..];
    calc {
      (handled + [queue[0]]) + (queue[1..] + incoming);
      (handled + ([queue[0]] + queue[1..])) + incoming;
      (handled + queue) + incoming;
    }
  }

  /** The requests that arrive during the first `k` iterations: `arrivals[i]` arrive during iteration i. */
  function Arrived(arrivals: seq<seq<SendTask>>, k: nat): seq<SendTask> {
    Flatten(arrivals[..if k < |arrivals| then k else |arrivals|])
  }

  /**
   * With `initial` requests queued before the loop, the queue was not empty
   * at the start of any of the first `count` rounds, so the loop ran them all.
   */
  predicate RanWhileNonEmpty(initial: nat, arrivals: seq<seq<SendTask>>, count: nat) {
    forall n :: 0 <= n < count ==> n < initial + |Arrived(arrivals, n)|
  }

  function ArrivalsAt(arrivals: seq<seq<SendTask>>, k: nat): seq<SendTask> {
    if k < |arrivals| then arrivals[k] else []
  }

  lemma ArrivedStep(arrivals: seq<seq<SendTask>>, k: nat)
    ensures Arrived(arrivals, k + 1) == Arrived(arrivals, k) + ArrivalsAt(arrivals, k)
  {
    if k < |arrivals| {
      assert arrivals[..k + 1] == arrivals[..k] + [arrivals[k]];
      FlattenSnoc(arrivals[..k], arrivals[k]);
    } else {
      assert Arrived(arrivals, k + 1) == Arrived(arrivals, k);
    }
  }

  /** The worker's state: the module-level queue and flag, the local store and what was asked of Chrome. */
  class Worker {
    var queue: seq<SendTask>
    var isProcessing: bool
    var storage: map<string, StoredValue>
    var log: seq<Effect>

    ghost predicate Valid()
      reads this
    {
      ValidStore(storage)
    }

    constructor(storage0: map<string, StoredValue>)
      requires ValidStore(storage0)
      ensures Valid()
      ensures queue == [] && !isProcessing && storage == storage0 && log == []
    {
      queue := [];
      isProcessing := false;
      storage := storage0;
      log := [];
    }

    /** `messageQueue.push(task)`: one task at the tail, the rest in their order. */
    method Enqueue(task: SendTask)
      modifies this
      ensures queue == old(queue) + [task]
      ensures isProcessing == old(isProcessing) && storage == old(storage) && log == old(log)
    {
      queue := queue + [task];
    }

    /** One pass of the loop body for `task`: the pending entry, then the Chrome requests. */
    method RunTask(task: SendTask, env: TaskEnv)
      requires Valid()
      modifies this
      ensures Valid()
      ensures storage == WritePending(old(storage), task, env)
      ensures log == old(log) + TaskEffects(task, env)
      ensures queue == old(queue) && isProcessing == old(isProcessing)
    {
      WritePendingKeepsValid(storage, task, env);
      var url := ChatUrl(task.chatId);
      if task.mode == "background" {
        // sendMessageInBackground: create the tab, store, wait, inject
        log := log + [OpenedBackgroundTab(url)];
        if env.tab.Some? && env.fails != Some(StorageSetFails) {
          var t := env.tab.value;
          storage := storage[PendingKey(t) := Pending(PendingEntry(task.chatId, task.messageText, t, env.now))];
          log := log + [InjectedContentScript(t)];
        }
      } else {
        // sendMessageInCurrentTab: 'No active tab found' when env.tab is None
        if env.tab.Some? && env.fails != Some(StorageSetFails) {
          var t := env.tab.value;
          storage := storage[PendingKey(t) := Pending(PendingEntry(task.chatId, task.messageText, t, env.now))];
          log := log + [NavigatedTab(t, url)];
          if env.fails != Some(TabUpdateFails) {
            log := log + [InjectedContentScript(t)];
          }
        }
      }
    }

    /**
     * `processMessageQueue`: a no-op when the queue is empty or a loop is
     * already running; otherwise it raises `isProcessing`, drains the queue
     * and lowers the flag again.
     */
    method ProcessMessageQueue(arrivals: seq<seq<SendTask>>, envs: seq<TaskEnv>) returns (ghost handled: seq<SendTask>)
      requires Valid()
      modifies this
      ensures Valid()
      ensures old(queue) == [] || old(isProcessing) ==>
        handled == [] && queue == old(queue) && isProcessing == old(isProcessing)
        && storage == old(storage) && log == old(log)
      ensures old(queue) != [] && !old(isProcessing) ==>
        && queue == [] && !isProcessing
        && handled == old(queue) + Arrived(arrivals, |handled|)
        && RanWhileNonEmpty(|old(queue)|, arrivals, |handled|)
        && storage == StoreAfter(old(storage), handled, envs)
        && log == old(log) + EffectsOf(handled, envs)
    {
      handled := [];
      if queue == [] || isProcessing {
        return;
      }
      isProcessing := true;
      handled := Drain(arrivals, envs);
      isProcessing := false;
    }

    /**
     * The `while (messageQueue.length > 0)` loop: take the head, send it, and
     * enqueue what arrived meanwhile. Requests arriving during iteration k
     * (`arrivals[k]`) find `isProcessing` set, so they are only enqueued.
     * `handled` lists the queued sends in the order the loop took them.
     */
    method Drain(arrivals: seq<seq<SendTask>>, envs: seq<TaskEnv>) returns (ghost handled: seq<SendTask>)
      requires Valid()
      modifies this
      ensures Valid()
      ensures queue == [] && isProcessing == old(isProcessing)
      ensures handled == old(queue) + Arrived(arrivals, |handled|)
      ensures RanWhileNonEmpty(|old(queue)|, arrivals, |handled|)
      ensures storage == StoreAfter(old(storage), handled, envs)
      ensures log == old(log) + EffectsOf(handled, envs)
    {
      ghost var queue0, storage0, log0 := queue, storage, log;
      handled := [];
      var k := 0;
      while queue != []
        invariant Valid() && isProcessing == old(isProcessing) && k == |handled|
        invariant handled + queue == queue0 + Arrived(arrivals, k)
        invariant RanWhileNonEmpty(|queue0|, arrivals, k)
        invariant storage == StoreAfter(storage0, handled, envs)
        invariant log == log0 + EffectsOf(handled, envs)
        decreases if k < |arrivals| then |arrivals| - k else 0, |queue|
      {
        var task := queue[0];
        DrainRound(arrivals, envs, k, handled, queue0, storage0, log0);
        handled := handled + [task];
        k := k + 1;
      }
    }

    /** One round of the loop: take the head, send it, and enqueue what arrived meanwhile. */
    method DrainRound(arrivals: seq<seq<SendTask>>, envs: seq<TaskEnv>, k: nat, ghost handled: seq<SendTask>,
                      ghost queue0: seq<SendTask>, ghost storage0: map<string, StoredValue>, ghost log0: seq<Effect>)
      requires Valid() && queue != [] && k == |handled|
      requires handled + queue == queue0 + Arrived(arrivals, k)
      requires RanWhileNonEmpty(|queue0|, arrivals, k)
      requires storage == StoreAfter(storage0, handled, envs)
      requires log == log0 + EffectsOf(handled, envs)
      modifies this
      ensures Valid() && isProcessing == old(isProcessing)
      ensures queue == old(queue)[1..] + ArrivalsAt(arrivals, k)
      ensures (handled + [old(queue)[0]]) + queue == queue0 + Arrived(arrivals, k + 1)
      ensures RanWhileNonEmpty(|queue0|, arrivals, k + 1)
      ensures storage == StoreAfter(storage0, handled + [old(queue)[0]], envs)
      ensures log == log0 + EffectsOf(handled + [old(queue)[0]], envs)
    {
      var task := queue[0];
      var rest := queue[1..] + ArrivalsAt(arrivals, k);
      FifoStep(handled, queue, queue0, arrivals);
      AfterSnoc(storage0, handled, task, envs);
      RunTask(task, EnvAt(envs, k));
      queue := rest;
    }

    /** `handleMessageSendRequest`: enqueue, then start the loop unless one is running. */
    method HandleSendRequest(chatId: string, messageText: string, mode: string, now: int,
                             arrivals: seq<seq<SendTask>>, envs: seq<TaskEnv>) returns (ghost handled: seq<SendTask>)
      requires Valid()
      modifies this
      ensures Valid()
      ensures old(isProcessing) ==>
        handled == [] && queue == old(queue) + [SendTask(chatId, messageText, mode, now)]
        && isProcessing && storage == old(storage) && log == old(log)
      ensures !old(isProcessing) ==>
        && queue == [] && !isProcessing
        && handled == old(queue) + [SendTask(chatId, messageText, mode, now)] + Arrived(arrivals, |handled|)
        && RanWhileNonEmpty(|old(queue)| + 1, arrivals, |handled|)
        && storage == StoreAfter(old(storage), handled, envs)
        && log == old(log) + EffectsOf(handled, envs)
    {
      Enqueue(SendTask(chatId, messageText, mode, now));
      handled := [];
      if !isProcessing {
        handled := ProcessMessageQueue(arrivals, envs);
      }
    }

    /**
     * `handleContentScriptReady`: look up the tab's entry and, if there is
     * one, send it; remove it only after a success reply, and schedule the
     * tab's closing only then and only if the tab is inactive. The announced
     * `chatId` is not compared with the stored one.
     */
    method HandleContentScriptReady(tabId: nat, chatId: string, reply: SendReply, tab: TabState)
      requires Valid()
      modifies this
      ensures Valid()
      ensures storage == Readiness(old(storage), tabId, reply, tab).0
      ensures log == old(log) + Readiness(old(storage), tabId, reply, tab).1
      ensures queue == old(queue) && isProcessing == old(isProcessing)
    {
      var key := PendingKey(tabId);
      if key in storage {
        var pending := storage[key].entry;
        log := log + [SentToTab(tabId, pending.chatId, pending.messageText)];
        if reply == Responded(true) {
          storage := storage - {key};
          if tab == TabInactive {
            log := log + [ScheduledClose(tabId)];
          }
        }
      }
    }

    /** The startup sweep: removes every stale pending entry and nothing else. */
    method StartupSweep(now: int)
      requires Valid()
      modifies this
      ensures Valid()
      ensures storage == Swept(old(storage), now)
      ensures queue == old(queue) && isProcessing == old(isProcessing) && log == old(log)
    {
      var keys := storage.Keys;
      while keys != {}
        invariant keys <= old(storage).Keys
        invariant queue == old(queue) && isProcessing == old(isProcessing) && log == old(log)
        invariant storage == map k | k in old(storage) && (k in keys || !IsStale(k, old(storage)[k], now)) :: old(storage)[k]
        decreases keys
      {
        var key :| key in keys;
        if IsStale(key, storage[key], now) {
          storage := storage - {key};
        }
        keys := keys - {key};
      }
      SweptKeepsValid(old(storage), now);
    }

    /**
     * The `chrome.runtime.onMessage` listener: run the handler, then reply. A
     * send is queued and, unless a loop is running, drained (`handled` lists
     * what the loop took); a ready message answers and clears the sender
     * tab's entry; the other messages change nothing.
     */
    method OnMessage(msg: Message, now: int, arrivals: seq<seq<SendTask>>, envs: seq<TaskEnv>,
                     reply: SendReply, tab: TabState) returns (response: Response, ghost handled: seq<SendTask>)
      requires Valid()
      modifies this
      ensures Valid()
      ensures response == ReplyTo(msg, now)
      ensures msg.Ping? || msg.UnknownType? ==>
        queue == old(queue) && isProcessing == old(isProcessing) && storage == old(storage) && log == old(log)
      ensures !msg.SendMessageBackground? ==> handled == []
      ensures msg.SendMessageBackground? && old(isProcessing) ==>
        handled == [] && isProcessing
        && queue == old(queue) + [SendTask(msg.chatId, msg.messageText, msg.mode, now)]
        && storage == old(storage) && log == old(log)
      ensures msg.SendMessageBackground? && !old(isProcessing) ==>
        && queue == [] && !isProcessing
        && handled == old(queue) + [SendTask(msg.chatId, msg.messageText, msg.mode, now)] + Arrived(arrivals, |handled|)
        && RanWhileNonEmpty(|old(queue)| + 1, arrivals, |handled|)
        && storage == StoreAfter(old(storage), handled, envs)
        && log == old(log) + EffectsOf(handled, envs)
      ensures msg.ContentScriptReady? ==>
        && storage == Readiness(old(storage), msg.senderTabId, reply, tab).0
        && log == old(log) + Readiness(old(storage), msg.senderTabId, reply, tab).1
        && queue == old(queue) && isProcessing == old(isProcessing)
    {
      handled := [];
      match msg {
        case Ping =>
        case SendMessageBackground(chatId, messageText, mode) =>
          handled := HandleSendRequest(chatId, messageText, mode, now, arrivals, envs);
        case ContentScriptReady(tabId, chatId) =>
          HandleContentScriptReady(tabId, chatId, reply, tab);
        case UnknownType(_) =>
      }
      response := ReplyTo(msg, now);
    }
  }

  /** What the readiness handler does to the store and asks of Chrome. */
  function Readiness(storage: map<string, StoredValue>, tabId: nat, reply: SendReply, tab: TabState): (map<string, StoredValue>, seq<Effect>)
    requires ValidStore(storage)
  {
    var key := PendingKey(tabId);
    if key !in storage then (storage, [])
    else
      var pending := storage[key].entry;
      if reply == Responded(true) then
        (storage - {key}, [SentToTab(tabId, pending.chatId, pending.messageText)]
                          + (if tab == TabInactive then [ScheduledClose(tabId)] else []))
      else (storage, [SentToTab(tabId, pending.chatId, pending.messageText)])
  }

  /**
   * No entry, no message; the entry's own chat and text are sent; the entry is
   * removed exactly on a success reply; the tab is closed exactly when the
   * reply succeeded and the tab is inactive.
   */
  lemma ReadinessContract(storage: map<string, StoredValue>, tabId: nat, reply: SendReply, tab: TabState)
    requires ValidStore(storage)
    ensures var (s, effects) := Readiness(storage, tabId, reply, tab);
      && (PendingKey(tabId) !in storage ==> s == storage && effects == [])
      && (PendingKey(tabId) in storage ==>
            effects[0] == SentToTab(tabId, storage[PendingKey(tabId)].entry.chatId, storage[PendingKey(tabId)].entry.messageText)
            && storage[PendingKey(tabId)].entry.tabId == tabId)
      && (PendingKey(tabId) in s <==> PendingKey(tabId) in storage && reply != Responded(true))
      && (forall k :: k != PendingKey(tabId) ==> (k in s <==> k in storage))
      && (forall k :: k in s ==> k in storage && s[k] == storage[k])
      && (ScheduledClose(tabId) in effects <==> PendingKey(tabId) in storage && reply == Responded(true) && tab == TabInactive)
  {
    var key := PendingKey(tabId);
    if key in storage {
      PendingKeyInjective(storage[key].entry.tabId, tabId);
    }
  }

  /** An entry `chrome.storage.local` holds that the sweep deletes. */
  predicate IsStale(key: string, value: StoredValue, now: int) {
    StartsWith(key, PendingPrefix) && value.Pending? && value.entry.created < now - OneHour
  }

  function Swept(storage: map<string, StoredValue>, now: int): map<string, StoredValue> {
    map k | k in storage && !IsStale(k, storage[k], now) :: storage[k]
  }

  lemma SweptKeepsValid(storage: map<string, StoredValue>, now: int)
    requires ValidStore(storage)
    ensures ValidStore(Swept(storage, now))
  {
  }

  /**
   * After the sweep every remaining pending entry is at most an hour old:
   * an older one is removed, a younger one and every other key are kept with
   * their values, nothing is added, and sweeping again changes nothing.
   */
  lemma SweptContract(storage: map<string, StoredValue>, now: int)
    requires ValidStore(storage)
    ensures forall k :: k in Swept(storage, now) ==> k in storage
    ensures forall k :: k in Swept(storage, now) && StartsWith(k, PendingPrefix) ==>
      Swept(storage, now)[k].entry.created >= now - OneHour
    ensures forall k :: k in storage && StartsWith(k, PendingPrefix) ==>
      (k in Swept(storage, now) <==> storage[k].entry.created >= now - OneHour)
    ensures forall k :: k in Swept(storage, now) ==> Swept(storage, now)[k] == storage[k]
    ensures forall k :: k in storage && !StartsWith(k, PendingPrefix) ==>
      k in Swept(storage, now) && Swept(storage, now)[k] == storage[k]
    ensures Swept(Swept(storage, now), now) == Swept(storage, now)
  {
  }

  /** The message types the listener knows, and the rest. */
  datatype Message =
    | Ping
    | SendMessageBackground(chatId: string, messageText: string, mode: string)
    | ContentScriptReady(senderTabId: nat, chatId: string)
    | UnknownType(messageType: string)

  datatype Response = Response(success: bool, message: Option<string>, error: Option<string>, timestamp: Option<int>)

  /** The reply `sendResponse` gets; it depends on the message type and the clock only. */
  function ReplyTo(msg: Message, now: int): (r: Response)
    ensures r.success <==> !msg.UnknownType?
    ensures r.error.Some? <==> msg.UnknownType?
    ensures msg.UnknownType? ==> r.error == Some("Unknown message type")
    ensures msg.SendMessageBackground? ==> r.message == Some("Message queued for sending")
    ensures r.timestamp.Some? <==> msg.Ping?
  {
    match msg
    case Ping => Response(true, Some("Pong from background service"), None, Some(now))
    case SendMessageBackground(_, _, _) => Response(true, Some("Message queued for sending"), None, None)
    case ContentScriptReady(_, _) => Response(true, None, None, None)
    case UnknownType(_) => Response(false, None, Some("Unknown message type"), None)
  }
}
