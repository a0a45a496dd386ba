/**
 The approval and execution gate: many RiskEngine.execute calls, one approval slot per session,
 and the event loop that interleaves them. One event is one stretch of code between two awaits.
 */
module Gate {
  import opened Options
  import opened Strings
  import opened Classifier

  datatype Config = Config(patterns: Patterns, autoApproveGreen: bool, httpAutoApproveYellow: bool)

  /** The approval_callback argument of one execute() call. */
  datatype Callback = NoCallback | ViaSession(session: nat) | ViaHttp

  /** How the wait for an answer ends, apart from the answer. */
  datatype Exit = Waits | Expired | Aborted

  datatype Phase =
    | Prompting                          // awaiting the send of the risk prompt
    | Waiting(future: nat, exit: Exit)   // inside wait_for
    | Denied
    | Failed                             // an exception left execute() before the command ran
    | Running
    | Killed                             // cancelled while running
    | Finished

  datatype Call = Call(command: string, tier: Tier, callback: Callback, phase: Phase)

  datatype Status = Pending | Done(approved: bool) | Cancelled

  datatype Future = Future(call: nat, session: nat, status: Status)

  datatype Outcome = Completed(returnCode: int) | TimedOut | Error

  /** An ExecutionResult in the log, with the call that produced it. */
  datatype Entry = Entry(call: nat, command: string, tier: Tier, returnCode: int)

  /** `slots` holds the sessions whose _pending_approval is not None. */
  datatype State = State(
    calls: seq<Call>, futures: seq<Future>, slots: map<nat, nat>, connected: set<nat>, log: seq<Entry>)

  const START := State([], [], map[], {}, [])

  datatype Event =
    | Connect(session: nat)
    | Submit(command: string, callback: Callback, backup: bool)
    | PromptSent(call: nat)
    | PromptFails(call: nat)
    | Respond(session: nat, approved: bool)
    | Timeout(call: nat)
    | Cancel(call: nat)
    | Resume(call: nat, backup: bool)
    | Finish(call: nat, outcome: Outcome)

  // ---- One step --------------------------------------------------------------------------

  predicate RunsUnasked(config: Config, tier: Tier) {
    tier == Green && config.autoApproveGreen
  }

  predicate HttpApproves(config: Config, tier: Tier) {
    tier == Green || (tier == Yellow && config.httpAutoApproveYellow)
  }

  /** What an approved call does next: the backup of a YELLOW command may raise. */
  function Proceed(tier: Tier, backup: bool): Phase {
    if tier == Yellow && !backup then Failed else Running
  }

  function Begin(config: Config, tier: Tier, callback: Callback, connected: set<nat>, backup: bool): (phase: Phase)
    ensures !phase.Waiting? && !phase.Finished? && (phase.Prompting? ==> callback.ViaSession?)
  {
    if RunsUnasked(config, tier) then Running
    else
      match callback
      case NoCallback => Denied
      case ViaSession(s) => if s in connected then Prompting else Denied
      case ViaHttp => if HttpApproves(config, tier) then Proceed(tier, backup) else Denied
  }

  /** What the callback and then execute() do when the wait is over. */
  function AfterWait(tier: Tier, exit: Exit, status: Status, backup: bool): Phase {
    match exit
    case Aborted => Failed
    case Expired => Denied
    case Waits => if status == Done(true) then Proceed(tier, backup) else Denied
  }

  function ReturnCode(outcome: Outcome): int {
    match outcome
    case Completed(code) => code
    case _ => -1
  }

  predicate InPhase(st: State, c: nat, phase: Phase) {
    c < |st.calls| && st.calls[c].phase == phase
  }

  predicate IsWaiting(st: State, c: nat) {
    c < |st.calls| && st.calls[c].callback.ViaSession? && st.calls[c].phase.Waiting?
    && st.calls[c].phase.future < |st.futures|
  }

  predicate Enabled(st: State, e: Event) {
    match e
    case Connect(_) => true
    case Submit(_, _, _) => true
    case PromptSent(c) => InPhase(st, c, Prompting) && st.calls[c].callback.ViaSession?
    case PromptFails(c) => InPhase(st, c, Prompting)
    case Respond(_, _) => true
    case Timeout(c) => IsWaiting(st, c) && st.calls[c].phase.exit == Waits
    case Cancel(c) => IsWaiting(st, c) || InPhase(st, c, Prompting) || InPhase(st, c, Running)
    case Resume(c, _) =>
      IsWaiting(st, c)
      && (st.calls[c].phase.exit != Waits || st.futures[st.calls[c].phase.future].status.Done?)
    case Finish(c, _) => InPhase(st, c, Running)
  }

  function SetPhase(calls: seq<Call>, c: nat, phase: Phase): seq<Call>
    requires c < |calls|
  {
    calls[c := calls[c].(phase := phase)]
  }

  function CancelFuture(futures: seq<Future>, f: nat): seq<Future>
    requires f < |futures|
  {
    if futures[f].status == Pending then futures[f := futures[f].(status := Cancelled)] else futures
  }

  function GiveUp(st: State, c: nat, exit: Exit): State
    requires IsWaiting(st, c)
  {
    var f := st.calls[c].phase.future;
    st.(calls := SetPhase(st.calls, c, Waiting(f, exit)), futures := CancelFuture(st.futures, f))
  }

  function Answer(st: State, s: nat, approved: bool): seq<Future> {
    if s in st.slots && st.slots[s] < |st.futures| && st.futures[st.slots[s]].status == Pending
    then st.futures[st.slots[s] := st.futures[st.slots[s]].(status := Done(approved))]
    else st.futures
  }

  function Do(config: Config, st: State, e: Event): State
    requires Enabled(st, e)
  {
    match e
    case Connect(s) => st.(connected := st.connected + {s})
    case Submit(command, callback, backup) =>
      var tier := TierOf(config.patterns, command);
      var phase := Begin(config, tier, callback, st.connected, backup);
      st.(calls := st.calls + [Call(Strip(command), tier, callback, phase)])
    case PromptSent(c) =>
      var s, f := st.calls[c].callback.session, |st.futures|;
      st.(calls := SetPhase(st.calls, c, Waiting(f, Waits)),
          futures := st.futures + [Future(c, s, Pending)], slots := st.slots[s := f])
    case PromptFails(c) => st.(calls := SetPhase(st.calls, c, Failed))
    case Respond(s, approved) => st.(connected := st.connected + {s}, futures := Answer(st, s, approved))
    case Timeout(c) => GiveUp(st, c, Expired)
    case Cancel(c) =>
      (match st.calls[c].phase
       case Waiting(_, _) => GiveUp(st, c, Aborted)
       case Running => st.(calls := SetPhase(st.calls, c, Killed))
       case _ => st.(calls := SetPhase(st.calls, c, Failed)))
    case Resume(c, backup) =>
      var call := st.calls[c];
      var phase := AfterWait(call.tier, call.phase.exit, st.futures[call.phase.future].status, backup);
      st.(calls := SetPhase(st.calls, c, phase), slots := st.slots - {call.callback.session})
    case Finish(c, outcome) =>
      var call := st.calls[c];
      st.(calls := SetPhase(st.calls, c, Finished),
          log := st.log + [Entry(c, call.command, call.tier, ReturnCode(outcome))])
  }

  /** Events that cannot happen are skipped, so that every sequence of events is a run. */
  function Next(config: Config, st: State, e: Event): State {
    if Enabled(st, e) then Do(config, st, e) else st
  }

  function RunFrom(config: Config, st: State, trace: seq<Event>): State {
    if trace == [] then st else Next(config, RunFrom(config, st, trace[..|trace| - 1]), trace[|trace| - 1])
  }

  function Run(config: Config, trace: seq<Event>): State {
    RunFrom(config, START, trace)
  }

  /** The entry is about the call, with the code of a completed process and -1 for a time-out or an error. */
  predicate Tells(entry: Entry, c: nat, call: Call, outcome: Outcome) {
    && entry.call == c && entry.command == call.command && entry.tier == call.tier
    && (outcome.Completed? ==> entry.returnCode == outcome.returnCode)
    && (outcome.TimedOut? || outcome.Error? ==> entry.returnCode == -1)
  }

  // ---- The gate as an object -------------------------------------------------------------

  /** The engine's log, the sessions' slots and the tasks of the event loop. */
  class ApprovalGate {
    const config: Config
    var calls: seq<Call>
    var futures: seq<Future>
    var pendingApproval: map<nat, nat>
    var connected: set<nat>
    var executionLog: seq<Entry>

    ghost function Snapshot(): State
      reads this
    {
      State(calls, futures, pendingApproval, connected, executionLog)
    }

    constructor (config: Config)
      ensures this.config == config && Snapshot() == START
    {
      this.config := config;
      calls, futures, pendingApproval, connected, executionLog := [], [], map[], {}, [];
    }

    method StartSession(s: nat)
      modifies this`connected
      ensures Snapshot() == Next(config, old(Snapshot()), Connect(s))
      ensures connected == old(connected) + {s}
    {
      connected := connected + {s};
    }

    /** execute(), up to its first await. */
    method Execute(command: string, callback: Callback, backup: bool) returns (c: nat)
      modifies this`calls
      ensures c == old(|calls|) && Snapshot() == Next(config, old(Snapshot()), Submit(command, callback, backup))
      ensures |calls| == c + 1 && calls[..c] == old(calls)
      ensures calls[c].command == Strip(command) && calls[c].tier == TierOf(config.patterns, command)
      ensures calls[c].callback == callback
      ensures calls[c].phase ==
        if calls[c].tier == Green && config.autoApproveGreen then Running
        else match callback
          case NoCallback => Denied
          case ViaSession(s) => if s in connected then Prompting else Denied
          case ViaHttp =>
            if calls[c].tier == Red || (calls[c].tier == Yellow && !config.httpAutoApproveYellow) then Denied
            else if calls[c].tier == Yellow && !backup then Failed
            else Running
    {
      var action := Classify(config.patterns, command);
      var phase := Denied;
      if action.tier == Green && config.autoApproveGreen {
        phase := Running;
      } else if callback != NoCallback {
        if callback.ViaSession? {
          if callback.session in connected {
            phase := Prompting;
          }
        } else {
          var approved := HttpCallback(action.tier);
          if approved {
            phase := if action.backupNeeded && !backup then Failed else Running;
          }
        }
      }
      c := |calls|;
      calls := calls + [Call(action.command, action.tier, callback, phase)];
    }

    method HttpCallback(tier: Tier) returns (approved: bool)
      ensures approved <==> tier == Green || (tier == Yellow && config.httpAutoApproveYellow)
    {
      if tier == Green {
        return true;
      }
      if tier == Yellow && config.httpAutoApproveYellow {
        return true;
      }
      return false;
    }

    /** The prompt is out: the callback creates its future and takes the session's slot. */
    method OpenPrompt(c: nat)
      requires Enabled(Snapshot(), PromptSent(c))
      modifies this`calls, this`futures, this`pendingApproval
      ensures Snapshot() == Next(config, old(Snapshot()), PromptSent(c))
      ensures var s, f := calls[c].callback.session, |old(futures)|;
        && futures == old(futures) + [Future(c, s, Pending)] && pendingApproval == old(pendingApproval)[s := f]
        && calls == old(calls)[c := old(calls)[c].(phase := Waiting(f, Waits))]
    {
      var s := calls[c].callback.session;
      futures := futures + [Future(c, s, Pending)];
      pendingApproval := pendingApproval[s := |futures| - 1];
      calls := calls[c := calls[c].(phase := Waiting(|futures| - 1, Waits))];
    }

    method PromptFailed(c: nat)
      requires Enabled(Snapshot(), PromptFails(c))
      modifies this`calls
      ensures Snapshot() == Next(config, old(Snapshot()), PromptFails(c))
      ensures calls == old(calls)[c := old(calls)[c].(phase := Failed)]
    {
      calls := calls[c := calls[c].(phase := Failed)];
    }

    /** The RISK_RESPONSE branch of handle_message; `raised` is set_result's InvalidStateError. */
    method HandleResponse(s: nat, approved: bool) returns (raised: bool)
      requires s in pendingApproval ==> pendingApproval[s] < |futures|
      modifies this`futures, this`connected
      ensures Snapshot() == Next(config, old(Snapshot()), Respond(s, approved))
      ensures raised <==> s in pendingApproval && old(futures)[pendingApproval[s]].status != Pending
      ensures futures ==
        if s in pendingApproval && old(futures)[pendingApproval[s]].status == Pending
        then old(futures)[pendingApproval[s] := old(futures)[pendingApproval[s]].(status := Done(approved))]
        else old(futures)
      ensures connected == old(connected) + {s}
    {
      connected := connected + {s};
      raised := false;
      if s in pendingApproval {
        var f := pendingApproval[s];
        if futures[f].status == Pending {
          futures := futures[f := futures[f].(status := Done(approved))];
        } else {
          raised := true;
        }
      }
    }

    /** A pending future is cancelled, a settled one stays; the wait of `c` is over. */
    ghost predicate LeftWait(calls0: seq<Call>, futures0: seq<Future>, c: nat, exit: Exit)
      requires c < |calls0| && calls0[c].phase.Waiting? && calls0[c].phase.future < |futures0|
      reads this
    {
      var f := calls0[c].phase.future;
      && calls == calls0[c := calls0[c].(phase := Waiting(f, exit))]
      && futures == futures0[f := futures0[f].(status := if futures0[f].status == Pending then Cancelled
                                                         else futures0[f].status)]
    }

    /** The 300 seconds of wait_for are over, or its task is cancelled. */
    method LeaveWait(c: nat, exit: Exit)
      requires IsWaiting(Snapshot(), c)
      modifies this`calls, this`futures
      ensures Snapshot() == GiveUp(old(Snapshot()), c, exit)
      ensures LeftWait(old(calls), old(futures), c, exit)
    {
      var f := calls[c].phase.future;
      if futures[f].status == Pending {
        futures := futures[f := futures[f].(status := Cancelled)];
      }
      calls := calls[c := calls[c].(phase := Waiting(f, exit))];
    }

    method Expire(c: nat)
      requires Enabled(Snapshot(), Timeout(c))
      modifies this`calls, this`futures
      ensures Snapshot() == Next(config, old(Snapshot()), Timeout(c))
      ensures LeftWait(old(calls), old(futures), c, Expired)
    {
      LeaveWait(c, Expired);
    }

    method CancelTask(c: nat)
      requires Enabled(Snapshot(), Cancel(c))
      modifies this`calls, this`futures
      ensures Snapshot() == Next(config, old(Snapshot()), Cancel(c))
      ensures old(calls)[c].phase.Waiting? ==> LeftWait(old(calls), old(futures), c, Aborted)
      ensures !old(calls)[c].phase.Waiting? ==> futures == old(futures)
      ensures !old(calls)[c].phase.Waiting? ==>
        calls == old(calls)[c := old(calls)[c].(phase := if old(calls)[c].phase == Running then Killed else Failed)]
    {
      if calls[c].phase.Waiting? {
        LeaveWait(c, Aborted);
      } else if calls[c].phase == Running {
        calls := calls[c := calls[c].(phase := Killed)];
      } else {
        calls := calls[c := calls[c].(phase := Failed)];
      }
    }

    /** The callback's finally clause, its result, and execute() up to the start of the command. */
    method ResumeCallback(c: nat, backup: bool)
      requires Enabled(Snapshot(), Resume(c, backup))
      modifies this`calls, this`pendingApproval
      ensures Snapshot() == Next(config, old(Snapshot()), Resume(c, backup))
      ensures pendingApproval == old(pendingApproval) - {old(calls)[c].callback.session}
      ensures |calls| == |old(calls)| && calls == old(calls)[c := old(calls)[c].(phase := calls[c].phase)]
      ensures calls[c].phase ==
        if old(calls)[c].phase.exit == Aborted then Failed
        else if old(calls)[c].phase.exit == Expired then Denied
        else if futures[old(calls)[c].phase.future].status != Done(true) then Denied
        else if old(calls)[c].tier == Yellow && !backup then Failed
        else Running
    {
      var call := calls[c];
      var approved := call.phase.exit == Waits && futures[call.phase.future].status == Done(true);
      pendingApproval := pendingApproval - {call.callback.session};
      var phase := Denied;
      if call.phase.exit == Aborted {
        phase := Failed;
      } else if approved {
        phase := if call.tier == Yellow && !backup then Failed else Running;
      }
      calls := calls[c := call.(phase := phase)];
    }

    /** The end of _run. */
    method FinishRun(c: nat, outcome: Outcome)
      requires Enabled(Snapshot(), Finish(c, outcome))
      modifies this`calls, this`executionLog
      ensures Snapshot() == Next(config, old(Snapshot()), Finish(c, outcome))
      ensures calls == old(calls)[c := old(calls)[c].(phase := Finished)]
      ensures |executionLog| == |old(executionLog)| + 1 && executionLog[..|old(executionLog)|] == old(executionLog)
      ensures Tells(executionLog[|old(executionLog)|], c, old(calls)[c], outcome)
    {
      var returnCode := -1;
      if outcome.Completed? {
        returnCode := outcome.returnCode;
      }
      executionLog := executionLog + [Entry(c, calls[c].command, calls[c].tier, returnCode)];
      calls := calls[c := calls[c].(phase := Finished)];
    }

    /** self.execution_log[-n:] */
    method GetRecentExecutions(n: int) returns (recent: seq<Entry>)
      ensures recent == Recent(executionLog, n)
    {
      var start := -n;
      if start < 0 {
        start := if start + |executionLog| < 0 then 0 else start + |executionLog|;
      } else if start > |executionLog| {
        start := |executionLog|;
      }
      return executionLog[start..];
    }
  }

  // ---- get_recent_executions -------------------------------------------------------------

  /** Where Python's log[i:] starts. */
  function SliceStart(length: nat, i: int): (start: nat)
    ensures start <= length
  {
    if i >= 0 then (if i <= length then i else length)
    else if i + length >= 0 then i + length else 0
  }

  function Recent(log: seq<Entry>, n: int): seq<Entry> {
    log[SliceStart(|log|, -n)..]
  }

  predicate IsSuffix(s: seq<Entry>, log: seq<Entry>) {
    |s| <= |log| && s == log[|log| - |s|..]
  }

  /** The longest suffix of length at most `n`: exactly when n >= 1, or the log is short. */
  lemma RecentIsLongestSuffix(log: seq<Entry>, n: int)
    ensures IsSuffix(Recent(log, n), log)
    ensures forall s :: IsSuffix(s, log) && |s| <= n && n >= 1 ==> |s| <= |Recent(log, n)|
    ensures n >= 0 ==> (|Recent(log, n)| <= n <==> n >= 1 || log == [])
    ensures n >= 1 ==> Recent(log, n) == if n >= |log| then log else log[|log| - n..]
    ensures n <= 0 ==> Recent(log, n) == if -n >= |log| then [] else log[-n..]
  {
  }

  // ---- What every step keeps -------------------------------------------------------------

  predicate Started(phase: Phase) {
    phase.Running? || phase.Killed? || phase.Finished?
  }

  ghost predicate Approved(st: State, c: nat) {
    exists f :: 0 <= f < |st.futures| && st.futures[f].call == c && st.futures[f].status == Done(true)
  }

  /** The call was allowed to run: unasked, by its own session's answer, or by the HTTP policy. */
  ghost predicate Cleared(config: Config, st: State, c: nat)
    requires c < |st.calls|
  {
    var call := st.calls[c];
    || (call.tier == Green && config.autoApproveGreen)
    || (call.callback.ViaSession? && Approved(st, c))
    || (call.callback.ViaHttp? && (call.tier == Green || (call.tier == Yellow && config.httpAutoApproveYellow)))
  }

  ghost predicate WaitsOwnFuture(st: State, c: nat)
    requires c < |st.calls|
  {
    var call := st.calls[c];
    call.phase.Waiting? ==>
      && call.callback.ViaSession? && call.phase.future < |st.futures|
      && st.futures[call.phase.future].call == c && st.futures[call.phase.future].session == call.callback.session
  }

  /** The future belongs to a call that has been prompted. */
  ghost predicate FutureOwned(st: State, f: nat)
    requires f < |st.futures|
  {
    var c := st.futures[f].call;
    c < |st.calls| && !st.calls[c].phase.Prompting? && st.calls[c].callback == ViaSession(st.futures[f].session)
  }

  /** The slot of a session names a future whose callback is still waiting for it. */
  ghost predicate SlotIsLive(st: State, s: nat)
    requires s in st.slots
  {
    && st.slots[s] < |st.futures| && st.futures[st.slots[s]].session == s
    && IsWaiting(st, st.futures[st.slots[s]].call)
    && st.calls[st.futures[st.slots[s]].call].phase.future == st.slots[s]
  }

  ghost predicate Protocol(st: State) {
    && (forall c :: 0 <= c < |st.calls| ==> WaitsOwnFuture(st, c))
    && (forall f :: 0 <= f < |st.futures| ==> FutureOwned(st, f))
    && (forall f, g :: 0 <= f < g < |st.futures| ==> st.futures[f].call != st.futures[g].call)
    && (forall s :: s in st.slots ==> SlotIsLive(st, s))
  }

  ghost predicate OnlyCleared(config: Config, st: State) {
    forall c :: 0 <= c < |st.calls| && Started(st.calls[c].phase) ==> Cleared(config, st, c)
  }

  /** The log has one entry for each finished call and none for any other. */
  ghost predicate LogExact(st: State) {
    && (forall i :: 0 <= i < |st.log| ==>
          st.log[i].call < |st.calls| && st.calls[st.log[i].call].phase == Finished
          && st.log[i].command == st.calls[st.log[i].call].command && st.log[i].tier == st.calls[st.log[i].call].tier)
    && (forall i, j :: 0 <= i < j < |st.log| ==> st.log[i].call != st.log[j].call)
    && (forall c :: 0 <= c < |st.calls| && st.calls[c].phase == Finished ==>
          exists i :: 0 <= i < |st.log| && st.log[i].call == c)
  }

  lemma BecomesWaiting(config: Config, st: State, e: Event, c: nat)
    requires c < |Next(config, st, e).calls| && Next(config, st, e).calls[c].phase.Waiting?
    requires (c < |st.calls| ==> !st.calls[c].phase.Waiting?) || (e.Resume? && e.call == c && Enabled(st, e))
    ensures e == PromptSent(c) && Enabled(st, e)
  {
    hide TierOf, Strip, Begin;
  }

  lemma WaitsKept(config: Config, st: State, e: Event, c: nat)
    requires Protocol(st) && c < |Next(config, st, e).calls|
    ensures WaitsOwnFuture(Next(config, st, e), c)
  {
    var st' := Next(config, st, e);
    if c < |st.calls| && st.calls[c].phase.Waiting? && !(e.Resume? && e.call == c && Enabled(st, e)) {
      assert WaitsOwnFuture(st, c);
      WaitingStays(config, st, e, c);
      StepKeeps(config, st, e);
      hide Next, Enabled, Protocol;
    } else if st'.calls[c].phase.Waiting? {
      BecomesWaiting(config, st, e, c);
    }
  }

  lemma OwnedKept(config: Config, st: State, e: Event, f: nat)
    requires Protocol(st) && f < |Next(config, st, e).futures|
    ensures FutureOwned(Next(config, st, e), f)
  {
    if f < |st.futures| {
      assert FutureOwned(st, f);
      StepKeeps(config, st, e);
      StaysPrompted(config, st, e, st.futures[f].call);
      hide Next, Protocol;
    } else {
      hide TierOf, Strip, Begin, SlotIsLive, WaitsOwnFuture;
    }
  }

  lemma StaysPrompted(config: Config, st: State, e: Event, c: nat)
    requires c < |st.calls| && !st.calls[c].phase.Prompting?
    ensures c < |Next(config, st, e).calls| && !Next(config, st, e).calls[c].phase.Prompting?
  {
    hide TierOf, Strip, Begin;
  }

  lemma SlotOpened(config: Config, st: State, c: nat, s: nat)
    requires Protocol(st) && Enabled(st, PromptSent(c)) && s in Next(config, st, PromptSent(c)).slots
    ensures SlotIsLive(Next(config, st, PromptSent(c)), s)
  {
    if s in st.slots {
      assert SlotIsLive(st, s);
    }
  }

  lemma SlotCleared(config: Config, st: State, e: Event, s: nat)
    requires Protocol(st) && e.Resume? && s in Next(config, st, e).slots
    ensures SlotIsLive(Next(config, st, e), s)
  {
    assert SlotIsLive(st, s) && FutureOwned(st, st.slots[s]);
  }

  lemma WaitingStays(config: Config, st: State, e: Event, c: nat)
    requires IsWaiting(st, c) && !(e.Resume? && e.call == c && Enabled(st, e))
    ensures var st' := Next(config, st, e);
      IsWaiting(st', c) && st'.calls[c].phase.future == st.calls[c].phase.future
  {
    hide TierOf, Strip, Begin;
  }

  lemma SlotsStay(config: Config, st: State, e: Event)
    requires (e.PromptSent? ==> !Enabled(st, e)) && !e.Resume?
    ensures Next(config, st, e).slots == st.slots
  {
    hide TierOf, Strip, Begin;
  }

  lemma SlotUntouched(config: Config, st: State, e: Event, s: nat)
    requires Protocol(st) && (e.PromptSent? ==> !Enabled(st, e)) && !e.Resume? && s in Next(config, st, e).slots
    ensures SlotIsLive(Next(config, st, e), s)
  {
    hide Next, IsWaiting, Enabled, WaitsOwnFuture, FutureOwned;
    SlotsStay(config, st, e);
    assert SlotIsLive(st, s);
    WaitingStays(config, st, e, st.futures[st.slots[s]].call);
    StepKeeps(config, st, e);
  }

  lemma SlotKept(config: Config, st: State, e: Event, s: nat)
    requires Protocol(st) && s in Next(config, st, e).slots
    ensures SlotIsLive(Next(config, st, e), s)
  {
    hide Next, Protocol, SlotIsLive;
    if e.PromptSent? && Enabled(st, e) {
      SlotOpened(config, st, e.call, s);
    } else if e.Resume? {
      SlotCleared(config, st, e, s);
    } else {
      SlotUntouched(config, st, e, s);
    }
  }

  lemma OwnersDiffer(config: Config, st: State, e: Event, f: nat, g: nat)
    requires Protocol(st) && f < g < |Next(config, st, e).futures|
    ensures Next(config, st, e).futures[f].call != Next(config, st, e).futures[g].call
  {
    hide TierOf, Strip, Begin;
    assert FutureOwned(st, f);
  }

  lemma ProtocolKept(config: Config, st: State, e: Event)
    requires Protocol(st)
    ensures Protocol(Next(config, st, e))
  {
    hide Next, WaitsOwnFuture, FutureOwned, SlotIsLive;
    var st' := Next(config, st, e);
    forall c | 0 <= c < |st'.calls| ensures WaitsOwnFuture(st', c) {
      WaitsKept(config, st, e, c);
    }
    forall f | 0 <= f < |st'.futures| ensures FutureOwned(st', f) {
      OwnedKept(config, st, e, f);
    }
    forall f, g | 0 <= f < g < |st'.futures| ensures st'.futures[f].call != st'.futures[g].call {
      OwnersDiffer(config, st, e, f, g);
    }
    forall s | s in st'.slots ensures SlotIsLive(st', s) {
      SlotKept(config, st, e, s);
    }
  }

  /** Settled futures stay as they are, and a call keeps what it was called with. */
  lemma StepKeeps(config: Config, st: State, e: Event)
    ensures var st' := Next(config, st, e);
      && |st.calls| <= |st'.calls| && |st.futures| <= |st'.futures|
      && (forall c :: 0 <= c < |st.calls| ==> st'.calls[c].(phase := Denied) == st.calls[c].(phase := Denied))
      && (forall f :: 0 <= f < |st.futures| ==>
            st'.futures[f].call == st.futures[f].call && st'.futures[f].session == st.futures[f].session
            && (st.futures[f].status != Pending ==> st'.futures[f] == st.futures[f]))
  {
    hide TierOf, Strip, Begin;
  }

  lemma ApprovedKept(config: Config, st: State, e: Event, c: nat)
    requires Approved(st, c)
    ensures Approved(Next(config, st, e), c)
  {
    StepKeeps(config, st, e);
    hide Next;
    var f :| 0 <= f < |st.futures| && st.futures[f].call == c && st.futures[f].status == Done(true);
    assert Next(config, st, e).futures[f] == st.futures[f];
  }

  lemma StartCleared(config: Config, st: State, e: Event, c: nat)
    requires Protocol(st) && c < |Next(config, st, e).calls| && Started(Next(config, st, e).calls[c].phase)
    requires c < |st.calls| ==> !Started(st.calls[c].phase)
    ensures Cleared(config, Next(config, st, e), c)
  {
    hide TierOf, Strip;
    if c < |st.calls| {
      assert WaitsOwnFuture(st, c);
    }
  }

  lemma OnlyClearedKept(config: Config, st: State, e: Event)
    requires Protocol(st) && OnlyCleared(config, st)
    ensures OnlyCleared(config, Next(config, st, e))
  {
    StepKeeps(config, st, e);
    hide Next, Started, Approved;
    var st' := Next(config, st, e);
    forall c | 0 <= c < |st'.calls| && Started(st'.calls[c].phase) ensures Cleared(config, st', c) {
      if c < |st.calls| && Started(st.calls[c].phase) {
        assert Cleared(config, st, c);
        assert st'.calls[c].(phase := Denied) == st.calls[c].(phase := Denied);
        if Approved(st, c) {
          ApprovedKept(config, st, e, c);
        }
      } else {
        StartCleared(config, st, e, c);
      }
    }
  }

  lemma OnlyFinishLogs(config: Config, st: State, e: Event)
    requires !e.Finish? || !Enabled(st, e)
    ensures var st' := Next(config, st, e);
      && st'.log == st.log && |st.calls| <= |st'.calls|
      && (forall c :: 0 <= c < |st'.calls| && st'.calls[c].phase == Finished ==>
            c < |st.calls| && st.calls[c].phase == Finished)
      && (forall c :: 0 <= c < |st.calls| && st.calls[c].phase == Finished ==> st'.calls[c] == st.calls[c])
  {
    hide TierOf, Strip, Begin;
  }

  lemma FinishLogs(config: Config, st: State, c: nat, outcome: Outcome)
    requires LogExact(st) && InPhase(st, c, Running)
    ensures LogExact(Next(config, st, Finish(c, outcome)))
  {
    var st' := Next(config, st, Finish(c, outcome));
    var log := st'.log;
    assert st'.calls == SetPhase(st.calls, c, Finished);
    assert log == st.log + [Entry(c, st.calls[c].command, st.calls[c].tier, ReturnCode(outcome))];
    hide Next, ReturnCode, InPhase;
    assert log[|st.log|].call == c;
    forall d | 0 <= d < |st.calls| && st.calls[d].phase == Finished
      ensures exists i :: 0 <= i < |log| && log[i].call == d
    {
      var i :| 0 <= i < |st.log| && st.log[i].call == d;
      assert log[i].call == d;
    }
  }

  lemma LogExactKept(config: Config, st: State, e: Event)
    requires LogExact(st)
    ensures LogExact(Next(config, st, e)) && st.log <= Next(config, st, e).log
  {
    if e.Finish? && Enabled(st, e) {
      FinishLogs(config, st, e.call, e.outcome);
    } else {
      hide Next;
      OnlyFinishLogs(config, st, e);
    }
  }

  /** The tier a call carries is that of the command it runs. */
  ghost predicate TiersRight(config: Config, st: State) {
    forall c :: 0 <= c < |st.calls| ==> st.calls[c].tier == TierOf(config.patterns, st.calls[c].command)
  }

  lemma SubmittedTier(config: Config, command: string)
    ensures TierOf(config.patterns, Strip(command)) == TierOf(config.patterns, command)
  {
    StagesStrip(command);
  }

  lemma TiersKept(config: Config, st: State, e: Event)
    requires TiersRight(config, st)
    ensures TiersRight(config, Next(config, st, e))
  {
    hide TierOf, Strip, Begin;
    if e.Submit? {
      SubmittedTier(config, e.command);
    }
  }

  // ---- Whole runs ------------------------------------------------------------------------

  ghost predicate Safe(config: Config, st: State) {
    Protocol(st) && OnlyCleared(config, st) && LogExact(st) && TiersRight(config, st)
  }

  lemma SafeKept(config: Config, st: State, e: Event)
    requires Safe(config, st)
    ensures Safe(config, Next(config, st, e))
  {
    hide Next, Protocol, OnlyCleared, LogExact, TiersRight;
    ProtocolKept(config, st, e);
    OnlyClearedKept(config, st, e);
    LogExactKept(config, st, e);
    TiersKept(config, st, e);
  }

  lemma {:induction false} SafeForGood(config: Config, st: State, post: seq<Event>)
    requires Safe(config, st)
    ensures Safe(config, RunFrom(config, st, post))
  {
    if post != [] {
      hide Next, Safe;
      SafeForGood(config, st, post[..|post| - 1]);
      SafeKept(config, RunFrom(config, st, post[..|post| - 1]), post[|post| - 1]);
    }
  }

  lemma RunIsSafe(config: Config, trace: seq<Event>)
    ensures Safe(config, Run(config, trace))
  {
    SafeForGood(config, START, trace);
  }

  /** A session's slot never names the future of a callback that has finished. */
  lemma SlotsNameWaitingCallbacks(config: Config, trace: seq<Event>, s: nat)
    requires s in Run(config, trace).slots
    ensures SlotIsLive(Run(config, trace), s)
  {
    RunIsSafe(config, trace);
  }

  // ---- Progress --------------------------------------------------------------------------

  predicate Ended(phase: Phase) {
    phase.Denied? || phase.Failed? || phase.Killed? || phase.Finished?
  }

  /** Only a callback of a session prompts. */
  predicate PromptsAreSessions(st: State) {
    forall c :: 0 <= c < |st.calls| && st.calls[c].phase.Prompting? ==> st.calls[c].callback.ViaSession?
  }

  lemma PromptsKept(config: Config, st: State, e: Event)
    requires PromptsAreSessions(st)
    ensures PromptsAreSessions(Next(config, st, e))
  {
    StepKeeps(config, st, e);
    var st' := Next(config, st, e);
    forall c | 0 <= c < |st'.calls| && st'.calls[c].phase.Prompting? ensures st'.calls[c].callback.ViaSession? {
      if c < |st.calls| && !st.calls[c].phase.Prompting? {
        StaysPrompted(config, st, e, c);
      }
    }
  }

  lemma {:induction false} PromptsForGood(config: Config, trace: seq<Event>)
    ensures PromptsAreSessions(Run(config, trace))
  {
    if trace != [] {
      hide Next, PromptsAreSessions;
      PromptsForGood(config, trace[..|trace| - 1]);
      PromptsKept(config, Run(config, trace[..|trace| - 1]), trace[|trace| - 1]);
    } else {
      assert PromptsAreSessions(START);
    }
  }

  /** What can happen to a call, by its phase. */
  ghost predicate CanMove(st: State, c: nat)
    requires c < |st.calls|
  {
    match st.calls[c].phase
    case Prompting => Enabled(st, PromptSent(c)) && Enabled(st, PromptFails(c)) && Enabled(st, Cancel(c))
    case Waiting(f, exit) =>
      f < |st.futures|
      && (exit == Waits ==> Enabled(st, Timeout(c)) && Enabled(st, Cancel(c)))
      && (exit != Waits || st.futures[f].status.Done? ==>
            Enabled(st, Resume(c, true)) && Enabled(st, Resume(c, false)))
    case Running =>
      && Enabled(st, Cancel(c)) && Enabled(st, Finish(c, TimedOut)) && Enabled(st, Finish(c, Error))
      && forall code :: Enabled(st, Finish(c, Completed(code)))
    case _ => true
  }

  /** In every interleaving an unfinished call has its next events open, whatever the others do. */
  lemma CallsCanMove(config: Config, trace: seq<Event>, c: nat)
    requires c < |Run(config, trace).calls|
    ensures CanMove(Run(config, trace), c)
  {
    RunIsSafe(config, trace);
    PromptsForGood(config, trace);
    var st := Run(config, trace);
    assert WaitsOwnFuture(st, c);
    hide Run, Protocol, OnlyCleared, LogExact, TiersRight;
  }

  lemma OneMore(config: Config, trace: seq<Event>, e: Event)
    ensures Run(config, trace + [e]) == Next(config, Run(config, trace), e)
  {
    assert (trace + [e])[..|trace|] == trace;
  }

  ghost predicate EndsBy(config: Config, trace: seq<Event>, c: nat, tail: seq<Event>) {
    c < |Run(config, trace + tail).calls| && Ended(Run(config, trace + tail).calls[c].phase)
  }

  lemma EndsInOne(config: Config, trace: seq<Event>, c: nat, e: Event)
    requires c < |Run(config, trace).calls| && Enabled(Run(config, trace), e)
    requires || (e == PromptFails(c)) || (e == Finish(c, TimedOut))
             || (e == Resume(c, true) && Run(config, trace).calls[c].phase.exit != Waits)
    ensures EndsBy(config, trace, c, [e])
  {
    OneMore(config, trace, e);
    hide Run, Begin, Strip, TierOf;
  }

  /** No call is stuck: from any reachable state at most two events of its own, none of them an answer, end it. */
  lemma NoCallIsStuck(config: Config, trace: seq<Event>, c: nat)
    requires c < |Run(config, trace).calls|
    ensures exists tail: seq<Event> :: |tail| <= 2 && EndsBy(config, trace, c, tail)
  {
    CallsCanMove(config, trace, c);
    var st := Run(config, trace);
    match st.calls[c].phase
    case Prompting => EndsInOne(config, trace, c, PromptFails(c));
    case Running => EndsInOne(config, trace, c, Finish(c, TimedOut));
    case Waiting(f, exit) =>
      if exit == Waits {
        TimesOut(config, trace, c);
      } else {
        EndsInOne(config, trace, c, Resume(c, true));
      }
    case _ =>
      assert trace + [] == trace;
      assert EndsBy(config, trace, c, []);
  }

  lemma TimesOut(config: Config, trace: seq<Event>, c: nat)
    requires c < |Run(config, trace).calls| && Enabled(Run(config, trace), Timeout(c))
    ensures EndsBy(config, trace, c, [Timeout(c), Resume(c, true)])
  {
    OneMore(config, trace, Timeout(c));
    var late := trace + [Timeout(c)];
    assert late + [Resume(c, true)] == trace + [Timeout(c), Resume(c, true)];
    assert IsWaiting(Run(config, late), c) && Run(config, late).calls[c].phase.exit == Expired by {
      hide Run;
    }
    EndsInOne(config, late, c, Resume(c, true));
  }

  /** A response handled while the slot is empty changes no call, future, slot or log. */
  lemma UnsolicitedResponseIsIgnored(config: Config, st: State, s: nat, approved: bool)
    requires s !in st.slots
    ensures Next(config, st, Respond(s, approved)) == st.(connected := st.connected + {s})
  {
  }

  /** The i-th event approves the prompt that call `c` is waiting on. */
  ghost predicate Answers(config: Config, trace: seq<Event>, i: int, c: nat) {
    && 0 <= i < |trace| && trace[i].Respond? && trace[i].approved
    && var st, s := Run(config, trace[..i]), trace[i].session;
      && s in st.slots && st.slots[s] < |st.futures| && st.futures[st.slots[s]] == Future(c, s, Pending)
  }

  lemma SettledByResponse(config: Config, st: State, e: Event, f: nat)
    requires var st' := Next(config, st, e); f < |st'.futures| && st'.futures[f].status == Done(true)
    requires f < |st.futures| ==> st.futures[f].status != Done(true)
    ensures e.Respond? && e.approved && e.session in st.slots && st.slots[e.session] == f < |st.futures|
    ensures st.futures[f].status == Pending && Next(config, st, e).futures[f] == st.futures[f].(status := Done(true))
  {
    hide TierOf, Strip, Begin;
  }

  lemma {:induction false} ApprovedWasAnswered(config: Config, trace: seq<Event>, f: nat) returns (i: nat)
    requires f < |Run(config, trace).futures| && Run(config, trace).futures[f].status == Done(true)
    ensures Answers(config, trace, i, Run(config, trace).futures[f].call)
    ensures trace[i].session == Run(config, trace).futures[f].session
    decreases |trace|
  {
    hide Next, Protocol, OnlyCleared, LogExact, TiersRight;
    var n := |trace| - 1;
    var init, e := trace[..n], trace[n];
    var st := Run(config, init);
    StepKeeps(config, st, e);
    if f < |st.futures| && st.futures[f].status == Done(true) {
      i := ApprovedWasAnswered(config, init, f);
      assert init[..i] == trace[..i];
    } else {
      SettledByResponse(config, st, e, f);
      RunIsSafe(config, init);
      SlotIsOwn(st, e.session);
      i := n;
    }
  }

  lemma SlotIsOwn(st: State, s: nat)
    requires Protocol(st) && s in st.slots
    ensures st.slots[s] < |st.futures| && st.futures[st.slots[s]].session == s
  {
    assert SlotIsLive(st, s);
  }

  /** The calls whose command was started on a session's say-so. */
  function SessionRuns(config: Config, st: State): set<nat> {
    set c: nat | c < |st.calls| && Started(st.calls[c].phase) && st.calls[c].callback.ViaSession?
      && !(st.calls[c].tier == Green && config.autoApproveGreen)
  }

  function Approvals(trace: seq<Event>): set<nat> {
    set i: nat | i < |trace| && trace[i].Respond? && trace[i].approved
  }

  /** Every command a session let through was approved by a response to its own prompt. */
  lemma EveryRunWasApproved(config: Config, trace: seq<Event>, c: nat) returns (i: nat)
    requires c in SessionRuns(config, Run(config, trace))
    ensures Answers(config, trace, i, c) && trace[i].session == Run(config, trace).calls[c].callback.session
  {
    var st := Run(config, trace);
    RunIsSafe(config, trace);
    hide Run, Started;
    assert Cleared(config, st, c);
    var f :| 0 <= f < |st.futures| && st.futures[f].call == c && st.futures[f].status == Done(true);
    i := ApprovedWasAnswered(config, trace, f);
    assert FutureOwned(st, f);
  }

  ghost function ApprovalOf(config: Config, trace: seq<Event>, c: nat): (i: nat)
    requires c in SessionRuns(config, Run(config, trace))
    ensures Answers(config, trace, i, c) && trace[i].session == Run(config, trace).calls[c].callback.session
  {
    var s := Run(config, trace).calls[c].callback.session;
    assert exists i: nat :: Answers(config, trace, i, c) && trace[i].session == s by {
      var i := EveryRunWasApproved(config, trace, c);
    }
    var i: nat :| Answers(config, trace, i, c) && trace[i].session == s;
    i
  }

  lemma {:induction false} Pigeons(runs: set<nat>, owners: map<nat, nat>, approvals: set<nat>)
    requires forall c :: c in runs ==> c in owners && owners[c] in approvals
    requires forall c, d :: c in runs && d in runs && owners[c] == owners[d] ==> c == d
    ensures |runs| <= |approvals|
  {
    if c :| c in runs {
      Pigeons(runs - {c}, owners, approvals - {owners[c]});
    }
  }

  /** No interleaving runs more commands through sessions than approving responses were handled. */
  lemma RunsNeverExceedApprovals(config: Config, trace: seq<Event>)
    ensures |SessionRuns(config, Run(config, trace))| <= |Approvals(trace)|
  {
    var runs := SessionRuns(config, Run(config, trace));
    hide Run, SessionRuns;
    var owners := map c | c in runs :: ApprovalOf(config, trace, c);
    Pigeons(runs, owners, Approvals(trace));
  }

  function RunsOfSession(config: Config, st: State, s: nat): set<nat> {
    set c | c in SessionRuns(config, st) && st.calls[c].callback == ViaSession(s)
  }

  function ApprovalsOfSession(trace: seq<Event>, s: nat): set<nat> {
    set i | i in Approvals(trace) && trace[i].session == s
  }

  /** Nor does any one session run more commands than it handled approving responses. */
  lemma SessionRunsNeverExceedItsApprovals(config: Config, trace: seq<Event>, s: nat)
    ensures |RunsOfSession(config, Run(config, trace), s)| <= |ApprovalsOfSession(trace, s)|
  {
    var runs := RunsOfSession(config, Run(config, trace), s);
    hide Run, Started;
    var owners := map c | c in runs :: ApprovalOf(config, trace, c);
    Pigeons(runs, owners, ApprovalsOfSession(trace, s));
  }

  // ---- The log ---------------------------------------------------------------------------

  lemma {:induction false} LogIsAppendOnly(config: Config, trace: seq<Event>, n: nat)
    requires n <= |trace|
    ensures Run(config, trace[..n]).log <= Run(config, trace).log
  {
    if n == |trace| {
      assert trace[..n] == trace;
    } else {
      var init := trace[..|trace| - 1];
      assert init[..n] == trace[..n];
      LogIsAppendOnly(config, init, n);
      RunIsSafe(config, init);
      hide Next, Protocol, OnlyCleared, LogExact, TiersRight;
      LogExactKept(config, Run(config, init), trace[|trace| - 1]);
    }
  }

  /** Exactly the calls that ran to an end are in the log, once each, and each was let through. */
  lemma LogTellsFinishedRuns(config: Config, trace: seq<Event>)
    ensures var st := Run(config, trace);
      && (forall c :: 0 <= c < |st.calls| ==>
            (st.calls[c].phase == Finished <==> exists i :: 0 <= i < |st.log| && st.log[i].call == c))
      && (forall i, j :: 0 <= i < j < |st.log| ==> st.log[i].call != st.log[j].call)
      && (forall i :: 0 <= i < |st.log| ==> st.log[i].call < |st.calls| && Cleared(config, st, st.log[i].call))
  {
    RunIsSafe(config, trace);
    hide Run, Cleared;
  }

  lemma FinishTells(config: Config, st: State, e: Event, i: nat)
    requires |st.log| <= i < |Next(config, st, e).log|
    ensures e.Finish? && e.call < |st.calls| && st.calls[e.call].phase == Running && i == |st.log|
    ensures Tells(Next(config, st, e).log[i], e.call, st.calls[e.call], e.outcome)
  {
    hide TierOf, Strip, Begin;
  }

  /** Each log entry was written by the end of its own command, and its code tells how that ended. */
  lemma {:induction false} LogTellsOutcomes(config: Config, trace: seq<Event>, i: nat) returns (k: nat)
    requires i < |Run(config, trace).log|
    ensures k < |trace| && trace[k].Finish? && trace[k].call == Run(config, trace).log[i].call
    ensures var st := Run(config, trace[..k]);
      && trace[k].call < |st.calls| && st.calls[trace[k].call].phase == Running
      && Tells(Run(config, trace).log[i], trace[k].call, st.calls[trace[k].call], trace[k].outcome)
    decreases |trace|
  {
    hide Next, Protocol, OnlyCleared, LogExact, TiersRight, Tells;
    var n := |trace| - 1;
    var init, e := trace[..n], trace[n];
    RunIsSafe(config, init);
    LogExactKept(config, Run(config, init), e);
    if i < |Run(config, init).log| {
      k := LogTellsOutcomes(config, init, i);
      assert init[..k] == trace[..k];
    } else {
      FinishTells(config, Run(config, init), e, i);
      k := n;
      TellsItsCall(Run(config, trace).log[i], e.call, Run(config, init).calls[e.call], e.outcome);
    }
  }

  lemma TellsItsCall(entry: Entry, c: nat, call: Call, outcome: Outcome)
    requires Tells(entry, c, call, outcome)
    ensures entry.call == c
  {
  }

  /** The i-th event submitted the call, and nobody had to be asked. */
  ghost predicate StartedAtOnce(config: Config, trace: seq<Event>, i: int, c: nat, call: Call) {
    && 0 <= i < |trace| && trace[i].Submit? && |Run(config, trace[..i]).calls| == c
    && call.command == Strip(trace[i].command) && call.tier == TierOf(config.patterns, trace[i].command)
    && call.callback == trace[i].callback
    && ((call.tier == Green && (config.autoApproveGreen || call.callback == ViaHttp))
        || (call.tier == Yellow && call.callback == ViaHttp && config.httpAutoApproveYellow && trace[i].backup))
  }

  /** At the i-th event the call's wait ended with its own True, and its backup did not raise. */
  ghost predicate StartedByAnswer(config: Config, trace: seq<Event>, i: int, c: nat, call: Call) {
    && 0 <= i < |trace| && trace[i].Resume? && trace[i].call == c && call.callback.ViaSession?
    && (call.tier == Yellow ==> trace[i].backup)
    && var st := Run(config, trace[..i]);
      && IsWaiting(st, c) && st.calls[c].phase.exit == Waits
      && st.futures[st.calls[c].phase.future] == Future(c, call.callback.session, Done(true))
  }

  lemma StartHasCause(config: Config, init: seq<Event>, e: Event, c: nat)
    requires var st := Run(config, init);
      && Protocol(st) && c < |Next(config, st, e).calls| && Started(Next(config, st, e).calls[c].phase)
      && (c < |st.calls| ==> !Started(st.calls[c].phase))
    ensures var call := Next(config, Run(config, init), e).calls[c];
      StartedAtOnce(config, init + [e], |init|, c, call) || StartedByAnswer(config, init + [e], |init|, c, call)
  {
    hide TierOf, Strip, Run;
    var st := Run(config, init);
    assert (init + [e])[..|init|] == init;
    if c < |st.calls| {
      assert WaitsOwnFuture(st, c);
    }
  }

  lemma CauseStays(config: Config, init: seq<Event>, e: Event, i: int, c: nat, call: Call, now: Call)
    requires now.(phase := Denied) == call.(phase := Denied)
    ensures StartedAtOnce(config, init, i, c, call) ==> StartedAtOnce(config, init + [e], i, c, now)
    ensures StartedByAnswer(config, init, i, c, call) ==> StartedByAnswer(config, init + [e], i, c, now)
  {
    hide TierOf, Strip, Run;
    if 0 <= i < |init| {
      assert (init + [e])[..i] == init[..i];
    }
  }

  /** Every command that ever started did so at one of these events, backups included. */
  lemma {:induction false} EveryStartHasItsCause(config: Config, trace: seq<Event>, c: nat) returns (i: int)
    requires c < |Run(config, trace).calls| && Started(Run(config, trace).calls[c].phase)
    ensures var call := Run(config, trace).calls[c];
      StartedAtOnce(config, trace, i, c, call) || StartedByAnswer(config, trace, i, c, call)
    decreases |trace|
  {
    hide Next, Protocol, OnlyCleared, LogExact, TiersRight, Started, StartedAtOnce, StartedByAnswer;
    var n := |trace| - 1;
    var init, e := trace[..n], trace[n];
    var st := Run(config, init);
    assert init + [e] == trace;
    StepKeeps(config, st, e);
    if c < |st.calls| && Started(st.calls[c].phase) {
      i := EveryStartHasItsCause(config, init, c);
      CauseStays(config, init, e, i, c, st.calls[c], Run(config, trace).calls[c]);
    } else {
      RunIsSafe(config, init);
      StartHasCause(config, init, e, c);
      i := n;
    }
  }

  /** A pipe stage of the command hits a RED pattern. */
  ghost predicate HasRedStage(config: Config, command: string) {
    exists k :: 0 <= k < |Stages(command)| && Hits(config.patterns.red, Stages(command)[k])
  }

  /** Under the HTTP policy no command with a RED stage runs, and a YELLOW one only when opted in. */
  lemma HttpNeverRunsRed(config: Config, trace: seq<Event>, i: nat)
    requires i < |Run(config, trace).log|
    requires var e := Run(config, trace).log[i];
      e.call < |Run(config, trace).calls| && Run(config, trace).calls[e.call].callback == ViaHttp
    ensures var e := Run(config, trace).log[i];
      && !HasRedStage(config, e.command)
      && (e.tier == Yellow ==> config.httpAutoApproveYellow)
  {
    var e := Run(config, trace).log[i];
    RunIsSafe(config, trace);
    hide Run, Stages, Hits, TierOf;
    assert Cleared(config, Run(config, trace), e.call);
    TierMeaning(config.patterns, e.command);
  }

  /** A logged command with a RED stage was approved in its own session's prompt. */
  lemma RedNeedsItsOwnApproval(config: Config, trace: seq<Event>, i: nat) returns (r: nat)
    requires i < |Run(config, trace).log| && HasRedStage(config, Run(config, trace).log[i].command)
    ensures Answers(config, trace, r, Run(config, trace).log[i].call)
  {
    var st := Run(config, trace);
    var e := st.log[i];
    RunIsSafe(config, trace);
    hide Run, Stages, Hits, TierOf, Strip;
    assert Cleared(config, st, e.call);
    TierMeaning(config.patterns, e.command);
    r := EveryRunWasApproved(config, trace, e.call);
  }

  // ---- What one prompt returns -----------------------------------------------------------

  /** What can still become of a prompt: answerable, unanswerable, approved, or refused. */
  datatype Verdict = Open | Lost | Yes | No

  /** Another callback of the same session takes or clears the slot. */
  predicate Meddles(st: State, e: Event, c: nat)
    requires c < |st.calls|
  {
    match e
    case PromptSent(d) => d != c && Enabled(st, e) && st.calls[d].callback == st.calls[c].callback
    case Resume(d, _) => d != c && Enabled(st, e) && st.calls[d].callback == st.calls[c].callback
    case _ => false
  }

  function Advance(v: Verdict, st: State, e: Event, c: nat): Verdict
    requires c < |st.calls|
  {
    match e
    case Respond(s, approved) =>
      if v == Open && st.calls[c].callback == ViaSession(s) then (if approved then Yes else No) else v
    case Timeout(d) => if d == c then No else v
    case Cancel(d) => if d == c then No else v
    case _ => if v == Open && Meddles(st, e, c) then Lost else v
  }

  predicate HoldsSlot(st: State, c: nat, f: nat)
    requires c < |st.calls|
  {
    var callback := st.calls[c].callback;
    callback.ViaSession? && callback.session in st.slots && st.slots[callback.session] == f
  }

  /** Call `c` waits on future `f`, and `v` says how its prompt stands. */
  predicate Stands(st: State, c: nat, f: nat, v: Verdict) {
    && IsWaiting(st, c) && st.calls[c].phase.future == f
    && var exit, status := st.calls[c].phase.exit, st.futures[f].status;
      match v
      case Open => exit == Waits && status == Pending && HoldsSlot(st, c, f)
      case Lost => exit == Waits && status == Pending && !HoldsSlot(st, c, f)
      case Yes => exit == Waits && status == Done(true)
      case No => exit != Waits || status == Done(false)
  }

  predicate Resumes(e: Event, c: nat) {
    e.Resume? && e.call == c
  }

  /** When its prompt has been sent, a call holds its session's slot with a fresh future. */
  lemma PromptOpens(config: Config, st: State, c: nat)
    requires Enabled(st, PromptSent(c))
    ensures Stands(Next(config, st, PromptSent(c)), c, |st.futures|, Open)
  {
  }

  lemma ResponseStands(config: Config, st: State, e: Event, c: nat, f: nat, v: Verdict)
    requires Protocol(st) && Stands(st, c, f, v) && e.Respond?
    ensures Stands(Next(config, st, e), c, f, Advance(v, st, e, c))
  {
    assert WaitsOwnFuture(st, c);
    if e.session in st.slots {
      assert SlotIsLive(st, e.session);
    }
  }

  lemma GivingUpStands(config: Config, st: State, e: Event, c: nat, f: nat, v: Verdict)
    requires Protocol(st) && Stands(st, c, f, v) && (e.Timeout? || e.Cancel?)
    ensures Stands(Next(config, st, e), c, f, Advance(v, st, e, c))
  {
    assert WaitsOwnFuture(st, c);
    if e.call < |st.calls| {
      assert WaitsOwnFuture(st, e.call);
    }
    hide Protocol, FutureOwned, SlotIsLive, TierOf, Strip, Begin, Answer;
  }

  lemma OtherStands(config: Config, st: State, e: Event, c: nat, f: nat, v: Verdict)
    requires Protocol(st) && Stands(st, c, f, v) && !Resumes(e, c) && !e.Respond? && !e.Timeout? && !e.Cancel?
    ensures Stands(Next(config, st, e), c, f, Advance(v, st, e, c))
  {
    hide TierOf, Strip, Begin;
    assert WaitsOwnFuture(st, c);
  }

  lemma StandsKept(config: Config, st: State, e: Event, c: nat, f: nat, v: Verdict)
    requires Protocol(st) && Stands(st, c, f, v) && !Resumes(e, c)
    ensures c < |st.calls| && Stands(Next(config, st, e), c, f, Advance(v, st, e, c))
  {
    hide Next, Protocol, Stands, Advance;
    StandsBounds(st, c, f, v);
    if e.Respond? {
      ResponseStands(config, st, e, c, f, v);
    } else if e.Timeout? || e.Cancel? {
      GivingUpStands(config, st, e, c, f, v);
    } else {
      OtherStands(config, st, e, c, f, v);
    }
  }

  /** The verdict on the prompt of `c`, whose slot has just been filled, after more events. */
  function Watch(config: Config, st: State, post: seq<Event>, c: nat): Verdict
    requires c < |st.calls|
  {
    if post == [] then Open
    else
      var init := post[..|post| - 1];
      var st' := RunFrom(config, st, init);
      if c < |st'.calls| then Advance(Watch(config, st, init, c), st', post[|post| - 1], c) else Lost
  }

  predicate NotResumed(post: seq<Event>, c: nat) {
    forall i :: 0 <= i < |post| ==> !Resumes(post[i], c)
  }

  lemma {:induction false} VerdictStands(config: Config, st: State, post: seq<Event>, c: nat, f: nat)
    requires Protocol(st) && Stands(st, c, f, Open) && NotResumed(post, c)
    ensures Protocol(RunFrom(config, st, post))
    ensures Stands(RunFrom(config, st, post), c, f, Watch(config, st, post, c))
  {
    if post != [] {
      hide Next, Protocol, Stands, Advance;
      var init := post[..|post| - 1];
      VerdictStands(config, st, init, c, f);
      StandsBounds(RunFrom(config, st, init), c, f, Watch(config, st, init, c));
      ProtocolKept(config, RunFrom(config, st, init), post[|post| - 1]);
      StandsKept(config, RunFrom(config, st, init), post[|post| - 1], c, f, Watch(config, st, init, c));
    }
  }

  lemma StandsBounds(st: State, c: nat, f: nat, v: Verdict)
    requires Stands(st, c, f, v)
    ensures c < |st.calls|
  {
  }

  /**
   In every interleaving, a prompt returns True exactly when its verdict is Yes: an approving
   response came while it held the slot, and it was neither timed out nor cancelled.
   */
  lemma PromptReturnsItsVerdict(config: Config, st: State, post: seq<Event>, c: nat, f: nat, backup: bool)
    requires Protocol(st) && Stands(st, c, f, Open) && NotResumed(post, c)
    ensures var st', v := RunFrom(config, st, post), Watch(config, st, post, c);
      && c < |st'.calls|
      && (Enabled(st', Resume(c, backup)) <==> v == Yes || v == No)
      && (Enabled(st', Resume(c, backup)) ==>
            var phase := Next(config, st', Resume(c, backup)).calls[c].phase;
            if v != Yes then phase == Denied || phase == Failed
            else if st'.calls[c].tier == Yellow && !backup then phase == Failed
            else phase == Running)
  {
    VerdictStands(config, st, post, c, f);
    hide RunFrom, Watch, Protocol;
  }

  // ---- Prompts that do not overlap -------------------------------------------------------

  /** The first response to a session. */
  function FirstAnswer(post: seq<Event>, s: nat): Option<bool> {
    if post == [] then None
    else
      var earlier, e := FirstAnswer(post[..|post| - 1], s), post[|post| - 1];
      if earlier == None && e.Respond? && e.session == s then Some(e.approved) else earlier
  }

  predicate GivenUp(post: seq<Event>, c: nat) {
    exists i :: 0 <= i < |post| && (post[i] == Timeout(c) || post[i] == Cancel(c))
  }

  ghost predicate Alone(config: Config, st: State, post: seq<Event>, c: nat) {
    forall i :: 0 <= i < |post| ==>
      var st' := RunFrom(config, st, post[..i]);
      c < |st'.calls| ==> !Meddles(st', post[i], c)
  }

  lemma GivenUpLast(post: seq<Event>, c: nat)
    requires post != []
    ensures var init, e := post[..|post| - 1], post[|post| - 1];
      GivenUp(post, c) <==> GivenUp(init, c) || e == Timeout(c) || e == Cancel(c)
  {
    var init := post[..|post| - 1];
    if i :| 0 <= i < |init| && (init[i] == Timeout(c) || init[i] == Cancel(c)) {
      assert post[i] == init[i];
    }
    if i :| 0 <= i < |post| && (post[i] == Timeout(c) || post[i] == Cancel(c)) {
      if i < |init| {
        assert post[i] == init[i];
      }
    }
  }

  function AnswerVerdict(post: seq<Event>, c: nat, s: nat): Verdict {
    if GivenUp(post, c) then No
    else
      match FirstAnswer(post, s)
      case None => Open
      case Some(approved) => if approved then Yes else No
  }

  lemma NothingAnswered(c: nat, s: nat)
    ensures AnswerVerdict([], c, s) == Open
  {
  }

  lemma AnswerVerdictLast(st: State, post: seq<Event>, c: nat, s: nat)
    requires post != [] && c < |st.calls| && st.calls[c].callback == ViaSession(s)
    requires !Meddles(st, post[|post| - 1], c)
    ensures Advance(AnswerVerdict(post[..|post| - 1], c, s), st, post[|post| - 1], c) == AnswerVerdict(post, c, s)
  {
    GivenUpLast(post, c);
    hide Meddles, GivenUp;
  }

  lemma AlonePrefix(config: Config, st: State, post: seq<Event>, c: nat)
    requires Alone(config, st, post, c) && NotResumed(post, c) && post != []
    ensures var init := post[..|post| - 1];
      && Alone(config, st, init, c) && NotResumed(init, c)
      && (c < |RunFrom(config, st, init).calls| ==> !Meddles(RunFrom(config, st, init), post[|post| - 1], c))
  {
    hide RunFrom, Meddles;
    var init := post[..|post| - 1];
    assert forall i :: 0 <= i < |init| ==> init[..i] == post[..i] && init[i] == post[i];
  }

  lemma WatchLast(config: Config, st: State, post: seq<Event>, c: nat)
    requires post != [] && c < |st.calls| && c < |RunFrom(config, st, post[..|post| - 1]).calls|
    ensures var init, e := post[..|post| - 1], post[|post| - 1];
      && Watch(config, st, post, c) == Advance(Watch(config, st, init, c), RunFrom(config, st, init), e, c)
      && RunFrom(config, st, post) == Next(config, RunFrom(config, st, init), e)
  {
    hide Next, Advance;
  }

  lemma {:induction false} AloneVerdict(config: Config, st: State, post: seq<Event>, c: nat, f: nat, s: nat)
    requires Protocol(st) && Stands(st, c, f, Open) && NotResumed(post, c) && Alone(config, st, post, c)
    requires st.calls[c].callback == ViaSession(s)
    ensures Watch(config, st, post, c) == AnswerVerdict(post, c, s)
    ensures c < |RunFrom(config, st, post).calls| && RunFrom(config, st, post).calls[c].callback == ViaSession(s)
  {
    if post != [] {
      hide *;
      var init, e := post[..|post| - 1], post[|post| - 1];
      AlonePrefix(config, st, post, c);
      AloneVerdict(config, st, init, c, f, s);
      WatchLast(config, st, post, c);
      var st' := RunFrom(config, st, init);
      StepKeeps(config, st', e);
      AnswerVerdictLast(st', post, c, s);
    } else {
      NothingAnswered(c, s);
    }
  }

  /**
   When no other callback of the session opens or ends meanwhile, a prompt returns True exactly
   when the first response after its slot was filled approves and it was not timed out or cancelled.
   */
  lemma FirstResponseDecides(config: Config, st: State, post: seq<Event>, c: nat, f: nat, s: nat)
    requires Protocol(st) && Stands(st, c, f, Open) && NotResumed(post, c) && Alone(config, st, post, c)
    requires st.calls[c].callback == ViaSession(s) && Enabled(RunFrom(config, st, post), Resume(c, true))
    ensures var st' := Next(config, RunFrom(config, st, post), Resume(c, true));
      c < |st'.calls| && (st'.calls[c].phase == Running <==> FirstAnswer(post, s) == Some(true) && !GivenUp(post, c))
  {
    hide *;
    PromptReturnsItsVerdict(config, st, post, c, f, true);
    AloneVerdict(config, st, post, c, f, s);
    AnswerIsYes(post, c, s);
    CallsStay(config, RunFrom(config, st, post), Resume(c, true));
  }

  lemma AnswerIsYes(post: seq<Event>, c: nat, s: nat)
    ensures AnswerVerdict(post, c, s) == Yes <==> FirstAnswer(post, s) == Some(true) && !GivenUp(post, c)
  {
    hide FirstAnswer, GivenUp;
  }

  lemma CallsStay(config: Config, st: State, e: Event)
    ensures |st.calls| <= |Next(config, st, e).calls|
  {
    hide TierOf, Strip, Begin;
  }

  // ---- Prompts that overlap --------------------------------------------------------------

  /** No response can ever reach the future of call `c`. */
  ghost predicate Unreachable(st: State, c: nat, f: nat) {
    && f < |st.futures| && st.futures[f].call == c && st.futures[f].status != Done(true)
    && (forall s :: s in st.slots ==> st.slots[s] != f)
  }

  lemma UnreachableKept(config: Config, st: State, e: Event, c: nat, f: nat)
    requires Unreachable(st, c, f)
    ensures Unreachable(Next(config, st, e), c, f)
  {
    hide TierOf, Strip, Begin;
  }

  /** The call has been prompted and has not started. */
  predicate Parked(st: State, c: nat, f: nat) {
    c < |st.calls| && (st.calls[c].phase.Denied? || st.calls[c].phase.Failed?
                       || (st.calls[c].phase.Waiting? && st.calls[c].phase.future == f))
  }

  lemma ParkedKept(config: Config, st: State, e: Event, c: nat, f: nat)
    requires Unreachable(st, c, f) && Parked(st, c, f)
    ensures Parked(Next(config, st, e), c, f)
  {
    hide TierOf, Strip, Begin;
  }

  lemma {:induction false} UnreachableForGood(config: Config, st: State, post: seq<Event>, c: nat, f: nat)
    requires Unreachable(st, c, f) && Parked(st, c, f)
    ensures Unreachable(RunFrom(config, st, post), c, f) && Parked(RunFrom(config, st, post), c, f)
  {
    if post != [] {
      hide Next, Unreachable, Parked;
      var init := post[..|post| - 1];
      UnreachableForGood(config, st, init, c, f);
      UnreachableKept(config, RunFrom(config, st, init), post[|post| - 1], c, f);
      ParkedKept(config, RunFrom(config, st, init), post[|post| - 1], c, f);
    }
  }

  lemma MeddlingLosesPrompt(config: Config, st: State, e: Event, c: nat, f: nat)
    requires Protocol(st) && Stands(st, c, f, Open) && Meddles(st, e, c)
    ensures Unreachable(Next(config, st, e), c, f) && Parked(Next(config, st, e), c, f)
  {
    hide TierOf, Strip, Begin;
    assert WaitsOwnFuture(st, c);
    var st' := Next(config, st, e);
    forall s | s in st'.slots ensures st'.slots[s] != f {
      if s in st.slots {
        assert SlotIsLive(st, s);
      }
    }
  }

  /**
   Once another callback of the session has opened its own prompt or ended, the command of an
   unanswered prompt never runs, whatever is answered afterwards.
   */
  lemma OverlappedPromptNeverRuns(config: Config, st: State, e: Event, post: seq<Event>, c: nat, f: nat)
    requires Protocol(st) && Stands(st, c, f, Open) && Meddles(st, e, c)
    ensures var st' := RunFrom(config, Next(config, st, e), post);
      c < |st'.calls| && !Started(st'.calls[c].phase) && c !in SessionRuns(config, st')
  {
    MeddlingLosesPrompt(config, st, e, c, f);
    UnreachableForGood(config, Next(config, st, e), post, c, f);
    hide Next, RunFrom, Unreachable, Protocol, Stands, Meddles;
  }
}
