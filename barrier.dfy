/**
 * The barrier controller of the dashboard page, as values and functions:
 * the barrier status, the open/close actions, the activity-log record,
 * the guards that enable the two buttons, the status badge mappings, the
 * bounded most-recent-first activity log, and the page state with its
 * two steps (start a transition, complete it).
 */
module Barrier {

  import opened Wrappers

  /**
   * The values the status variable can hold: the three declared ones,
   * 'open' | 'closed' | 'moving', and CloseLiteral, the string 'close', which
   * the completion of a close stores as written (line 70 of the page).
   */
  datatype Status = Open | Closed | Moving | CloseLiteral

  /** A requested transition: 'open' | 'close'. */
  datatype Action = OpenAction | CloseAction

  /**
   * One activity-log record. The source's id is a string (the seeds use
   * '1', '2', '3', new records the decimal clock reading); the model keeps
   * the number itself. Instants are milliseconds on an abstract clock.
   */
  datatype LogEntry = LogEntry(
    id: int,
    action: Action,
    timestamp: int,
    user: string,
    reason: Option<string>)

  const InitialOperationCount: nat := 47
  const MaxLogEntries: nat := 5
  const SeedLogCount: nat := 3

  /** Target angles of the barrier arm, in degrees. */
  const OpenRotation: int := -90
  const ClosedRotation: int := 0

  const MinuteMs: int := 1000 * 60

  const OperatorUser: string := "Оператор"
  const ManualOpenReason: string := "Ручное открытие"
  const ManualCloseReason: string := "Ручное закрытие"

  /** What the two status switches return for a status outside the three declared ones. */
  const UnknownStatusColor: string := "bg-muted"
  const UnknownStatusText: string := "Неизвестно"

  function Min(a: int, b: int): int {
    if a <= b then a else b
  }

  // ---------------------------------------------------------------------
  // Actions and the statuses they lead to

  /** The terminal status a completed action is meant to leave the barrier in. */
  function Target(a: Action): (s: Status)
    ensures s != Moving && s != CloseLiteral
    ensures s == Open <==> a == OpenAction
    ensures s == Closed <==> a == CloseAction
  {
    match a
    case OpenAction => Open
    case CloseAction => Closed
  }

  function Opposite(a: Action): (b: Action)
    ensures b != a
  {
    match a
    case OpenAction => CloseAction
    case CloseAction => OpenAction
  }

  /** The angle the arm is driven to: -90 for open, 0 for close. */
  function TargetRotation(a: Action): (deg: int)
    ensures deg == OpenRotation <==> a == OpenAction
    ensures deg == ClosedRotation <==> a == CloseAction
  {
    match a
    case OpenAction => OpenRotation
    case CloseAction => ClosedRotation
  }

  /** The reason written on a log entry that an operator's action produces. */
  function ReasonFor(a: Action): (reason: string)
    ensures reason == ManualOpenReason <==> a == OpenAction
    ensures reason == ManualCloseReason <==> a == CloseAction
  {
    match a
    case OpenAction => ManualOpenReason
    case CloseAction => ManualCloseReason
  }

  // ---------------------------------------------------------------------
  // Button guards

  /** The "open" button is enabled unless the barrier is moving or open. */
  predicate CanOpen(s: Status)
    ensures CanOpen(s) <==> s == Closed || s == CloseLiteral
  {
    !(s == Moving || s == Open)
  }

  /** The "close" button is enabled unless the barrier is moving or closed. */
  predicate CanClose(s: Status)
    ensures CanClose(s) <==> s == Open || s == CloseLiteral
  {
    !(s == Moving || s == Closed)
  }

  /** Whether the button for action a is enabled in status s. */
  predicate CanStart(s: Status, a: Action)
    ensures CanStart(s, a) <==> s != Moving && s != Target(a)
    ensures CanStart(s, a) <==> s == Target(Opposite(a)) || s == CloseLiteral
  {
    match a
    case OpenAction => CanOpen(s)
    case CloseAction => CanClose(s)
  }

  // ---------------------------------------------------------------------
  // Status badge

  /** CSS class of the status dot; the fallback is the `default` branch. */
  function StatusColor(s: Status): (color: string)
    ensures color == UnknownStatusColor <==> s == CloseLiteral
  {
    match s
    case Open => "bg-accent"
    case Closed => "bg-destructive"
    case Moving => "bg-primary animate-pulse"
    case CloseLiteral => UnknownStatusColor
  }

  /** Label of the status badge; the fallback is the `default` branch. */
  function StatusText(s: Status): (text: string)
    ensures text == UnknownStatusText <==> s == CloseLiteral
  {
    match s
    case Open => "Открыт"
    case Closed => "Закрыт"
    case Moving => "Движется"
    case CloseLiteral => UnknownStatusText
  }

  /**
   * Each status value has its own colour and label, and the fallback ones
   * are shown exactly for the undeclared value 'close'.
   */
  lemma StatusDisplayDistinct(s: Status, t: Status)
    ensures StatusColor(s) == UnknownStatusColor <==> s == CloseLiteral
    ensures StatusText(s) == UnknownStatusText <==> s == CloseLiteral
    ensures StatusColor(s) == StatusColor(t) <==> s == t
    ensures StatusText(s) == StatusText(t) <==> s == t
  {
  }

  /**
   * In every reachable state of the intended model the status is one of the
   * three declared values, so the badge never shows the fallback.
   */
  lemma InvKeepsDeclaredStatus(p: Panel)
    requires Inv(p)
    ensures p.status == Open || p.status == Closed || p.status == Moving
    ensures StatusColor(p.status) != UnknownStatusColor && StatusText(p.status) != UnknownStatusText
  {
  }

  // ---------------------------------------------------------------------
  // The bounded activity log

  /** JavaScript's `xs.slice(0, n)`: the first n elements, or all of them if there are fewer. */
  function Take<T>(xs: seq<T>, n: nat): (r: seq<T>)
    ensures |r| == Min(|xs|, n)
    ensures r == xs[..|r|]
  {
    xs[..Min(|xs|, n)]
  }

  /** `[entry, ...prev.slice(0, 4)]`: the entry goes first and the log keeps the newest five. */
  function PushLog(entry: LogEntry, prev: seq<LogEntry>): (r: seq<LogEntry>)
    ensures r == Take([entry] + prev, MaxLogEntries)
    ensures |r| == Min(|prev| + 1, MaxLogEntries)
  {
    [entry] + Take(prev, MaxLogEntries - 1)
  }

  /** Truncating the tail first does not matter once the head covers the rest of the window. */
  lemma TakeAfterPrefix<T>(u: seq<T>, v: seq<T>, m: nat, n: nat)
    requires n <= |u| + m
    ensures Take(u + Take(v, m), n) == Take(u + v, n)
  {
  }

  /**
   * The log entry an operator's completed action produces at instant now:
   * id and timestamp from the clock, the operator as user, and the manual
   * reason of the action.
   */
  function ManualEntry(a: Action, now: int): (e: LogEntry)
    ensures e.action == a && e.user == OperatorUser
    ensures e.id == now && e.timestamp == now
    ensures e.reason.Some?
    ensures e.reason.value == ManualOpenReason <==> a == OpenAction
    ensures e.reason.value == ManualCloseReason <==> a == CloseAction
  {
    LogEntry(now, a, now, OperatorUser, Some(ReasonFor(a)))
  }

  /** The three historical entries the page starts with, newest first. */
  function SeedLogs(loadTime: int): (logs: seq<LogEntry>)
    ensures |logs| == SeedLogCount
  {
    [ LogEntry(1, CloseAction, loadTime - 15 * MinuteMs, "Система", Some("Автоматическое закрытие")),
      LogEntry(2, OpenAction, loadTime - 45 * MinuteMs, "Администратор", Some("Проезд служебного транспорта")),
      LogEntry(3, CloseAction, loadTime - 60 * MinuteMs, "Охрана", Some("Окончание рабочего дня")) ]
  }

  // ---------------------------------------------------------------------
  // The page state and its two steps

  /**
   * The page's state. pending is the action whose animation is running;
   * rotation is the arm angle once it has come to rest.
   */
  datatype Panel = Panel(
    status: Status,
    pending: Option<Action>,
    rotation: int,
    lastOperation: int,
    operationCount: nat,
    logs: seq<LogEntry>)

  /** The state the page mounts with at instant loadTime. */
  function Initial(loadTime: int): (p: Panel)
    ensures p.status == Closed && p.pending == None
    ensures p.lastOperation == loadTime && p.rotation == ClosedRotation
    ensures p.operationCount == InitialOperationCount
    ensures p.logs == SeedLogs(loadTime) && |p.logs| == SeedLogCount
    ensures Inv(p)
  {
    Panel(Closed, None, ClosedRotation, loadTime, InitialOperationCount, SeedLogs(loadTime))
  }

  /** Pressing an enabled button: the barrier starts moving and nothing else changes yet. */
  function StartStep(p: Panel, a: Action): (r: Panel)
    requires CanStart(p.status, a)
    ensures r.status == Moving && r.pending == Some(a)
    ensures r.operationCount == p.operationCount && r.logs == p.logs
    ensures r.rotation == p.rotation && r.lastOperation == p.lastOperation
  {
    p.(status := Moving, pending := Some(a))
  }

  /**
   * The animation of the pending action finishing at instant now, with the
   * status set to the action's intended terminal status (see StoredStatus
   * for what line 70 stores instead).
   */
  function CompleteStep(p: Panel, now: int): (r: Panel)
    requires p.status == Moving && p.pending.Some?
    ensures r.status == Target(p.pending.value) && r.pending == None
    ensures r.rotation == TargetRotation(p.pending.value)
    ensures r.lastOperation == now
    ensures r.operationCount == p.operationCount + 1
    ensures |r.logs| == Min(|p.logs| + 1, MaxLogEntries)
    ensures r.logs[0] == ManualEntry(p.pending.value, now)
    ensures forall i :: 1 <= i < |r.logs| ==> r.logs[i] == p.logs[i - 1]
  {
    var a := p.pending.value;
    p.(status := Target(a),
       pending := None,
       rotation := TargetRotation(a),
       lastOperation := now,
       operationCount := p.operationCount + 1,
       logs := PushLog(ManualEntry(a, now), p.logs))
  }

  /** The status value line 70 stores: 'open' after an open, 'close' after a close. */
  function StoredStatus(a: Action): (s: Status)
    ensures s == Open <==> a == OpenAction
    ensures s == CloseLiteral <==> a == CloseAction
  {
    match a
    case OpenAction => Open
    case CloseAction => CloseLiteral
  }

  /** The completion as written; it differs from CompleteStep only in the status it stores. */
  function CompleteStepAsWritten(p: Panel, now: int): (r: Panel)
    requires p.status == Moving && p.pending.Some?
    ensures r.status == StoredStatus(p.pending.value)
    ensures r.(status := Target(p.pending.value)) == CompleteStep(p, now)
  {
    CompleteStep(p, now).(status := StoredStatus(p.pending.value))
  }

  // ---------------------------------------------------------------------
  // Sequences of events

  /** What can happen to the page: a click on a button, or the running animation finishing. */
  datatype Event = Press(action: Action) | Finish(now: int)

  /** Whether the completion stores the intended status or, as line 70 does, the action string. */
  datatype Mode = Intended | AsWritten

  /** Whether e is a finish that completes a running animation. */
  predicate Completes(p: Panel, e: Event) {
    e.Finish? && p.status == Moving && p.pending.Some?
  }

  /**
   * A click on a disabled button does nothing and one on an enabled button
   * starts a transition; a finish completes the running animation and does
   * nothing when none runs. Only a completion changes the counter and the
   * log, and the two modes differ only in the status a completion stores.
   */
  function Step(m: Mode, p: Panel, e: Event): (r: Panel)
    ensures e.Press? && !CanStart(p.status, e.action) ==> r == p
    ensures e.Press? && CanStart(p.status, e.action) ==> r.status == Moving && r.pending == Some(e.action)
    ensures e.Press? ==> r.rotation == p.rotation && r.lastOperation == p.lastOperation
    ensures e.Finish? && !Completes(p, e) ==> r == p
    ensures Completes(p, e) ==>
      r.status == (if m == Intended then Target(p.pending.value) else StoredStatus(p.pending.value))
    ensures Completes(p, e) ==>
      r.pending == None && r.lastOperation == e.now && r.rotation == TargetRotation(p.pending.value)
    ensures r.operationCount == p.operationCount + (if Completes(p, e) then 1 else 0)
    ensures r.logs == if Completes(p, e) then PushLog(ManualEntry(p.pending.value, e.now), p.logs) else p.logs
  {
    match e
    case Press(a) => if CanStart(p.status, a) then StartStep(p, a) else p
    case Finish(now) =>
      if !(p.status == Moving && p.pending.Some?) then p
      else if m == Intended then CompleteStep(p, now)
      else CompleteStepAsWritten(p, now)
  }

  function Run(m: Mode, p: Panel, es: seq<Event>): Panel
    decreases |es|
  {
    if es == [] then p else Run(m, Step(m, p, es[0]), es[1..])
  }

  /** The log entries that the events es add to p, newest first. */
  function Added(m: Mode, p: Panel, es: seq<Event>): seq<LogEntry>
    decreases |es|
  {
    if es == [] then []
    else
      Added(m, Step(m, p, es[0]), es[1..])
      + (if Completes(p, es[0]) then [ManualEntry(p.pending.value, es[0].now)] else [])
  }

  /** In either mode, the counter grows by one per added entry. */
  lemma {:induction false} RunCounts(m: Mode, p: Panel, es: seq<Event>)
    ensures Run(m, p, es).operationCount == p.operationCount + |Added(m, p, es)|
    decreases |es|
  {
    if es != [] {
      RunCounts(m, Step(m, p, es[0]), es[1..]);
    }
  }

  /** In either mode, every added entry is an operator's, with the reason of its action. */
  lemma {:induction false} AddedAreManual(m: Mode, p: Panel, es: seq<Event>)
    ensures forall i :: 0 <= i < |Added(m, p, es)| ==>
      Added(m, p, es)[i].user == OperatorUser
      && Added(m, p, es)[i].reason == Some(ReasonFor(Added(m, p, es)[i].action))
    decreases |es|
  {
    if es != [] {
      AddedAreManual(m, Step(m, p, es[0]), es[1..]);
    }
  }

  /**
   * In either mode, the log is the newest five of the added entries
   * followed by the old log: the entries dropped are always the oldest.
   */
  lemma {:induction false} RunLogWindow(m: Mode, p: Panel, es: seq<Event>)
    requires |p.logs| <= MaxLogEntries
    ensures Run(m, p, es).logs == Take(Added(m, p, es) + p.logs, MaxLogEntries)
    decreases |es|
  {
    if es == [] {
      assert Take(p.logs, MaxLogEntries) == p.logs;
    } else {
      var q := Step(m, p, es[0]);
      var aq := Added(m, q, es[1..]);
      if Completes(p, es[0]) {
        var x := ManualEntry(p.pending.value, es[0].now);
        RunLogWindow(m, q, es[1..]);
        calc {
          Run(m, p, es).logs;
          Run(m, q, es[1..]).logs;
          Take(aq + q.logs, MaxLogEntries);
          Take(aq + Take([x] + p.logs, MaxLogEntries), MaxLogEntries);
          { TakeAfterPrefix(aq, [x] + p.logs, MaxLogEntries, MaxLogEntries); }
          Take(aq + ([x] + p.logs), MaxLogEntries);
          { assert aq + ([x] + p.logs) == (aq + [x]) + p.logs; }
          Take((aq + [x]) + p.logs, MaxLogEntries);
          Take(Added(m, p, es) + p.logs, MaxLogEntries);
        }
      } else {
        RunLogWindow(m, q, es[1..]);
        assert Added(m, p, es) == aq;
      }
    }
  }

  /** While the barrier moves, no click changes anything. */
  lemma PressWhileMovingIsIgnored(m: Mode, p: Panel, a: Action)
    requires p.status == Moving
    ensures Step(m, p, Press(a)) == p
  {
  }

  // ---------------------------------------------------------------------
  // The invariant of every state reachable from the initial one

  /** The status the barrier rests in, or rested in before the running animation began. */
  function Settled(p: Panel): Status
    requires p.status == Moving ==> p.pending.Some?
  {
    if p.status == Moving then Target(Opposite(p.pending.value)) else p.status
  }

  /** The action of the n-th completed transition counted from the initial state. */
  function NthAction(n: nat): Action {
    if n % 2 == 0 then OpenAction else CloseAction
  }

  /**
   * Moving exactly when an action is pending; at least the initial count;
   * the resting status alternates with the parity of completed operations;
   * the angle matches the resting status; the log holds min(3 + completed, 5).
   */
  predicate Inv(p: Panel) {
    && (p.pending.Some? <==> p.status == Moving)
    && p.operationCount >= InitialOperationCount
    && Settled(p) == Target(Opposite(NthAction(p.operationCount - InitialOperationCount)))
    && p.rotation == (if Settled(p) == Open then OpenRotation else ClosedRotation)
    && |p.logs| == Min(SeedLogCount + (p.operationCount - InitialOperationCount), MaxLogEntries)
  }

  lemma StepPreservesInv(p: Panel, e: Event)
    requires Inv(p)
    ensures Inv(Step(Intended, p, e))
  {
  }

  lemma {:induction false} RunPreservesInv(p: Panel, es: seq<Event>)
    requires Inv(p)
    ensures Inv(Run(Intended, p, es))
    decreases |es|
  {
    if es != [] {
      StepPreservesInv(p, es[0]);
      RunPreservesInv(Step(Intended, p, es[0]), es[1..]);
    }
  }

  /**
   * With the intended completion the added actions alternate: the k-th
   * completion counted from the initial state is an open exactly when k is even.
   */
  lemma {:induction false} AddedAlternate(p: Panel, es: seq<Event>)
    requires Inv(p)
    ensures forall i :: 0 <= i < |Added(Intended, p, es)| ==>
      Added(Intended, p, es)[i].action
        == NthAction(p.operationCount - InitialOperationCount + |Added(Intended, p, es)| - 1 - i)
    decreases |es|
  {
    if es != [] {
      var q := Step(Intended, p, es[0]);
      StepPreservesInv(p, es[0]);
      AddedAlternate(q, es[1..]);
      if Completes(p, es[0]) {
        assert Added(Intended, p, es) == Added(Intended, q, es[1..]) + [ManualEntry(p.pending.value, es[0].now)];
      } else {
        assert Added(Intended, p, es) == Added(Intended, q, es[1..]);
      }
    }
  }

  /**
   * Over any sequence of events with the intended completion: the invariant
   * holds, the counter grew by one per added entry, every added entry is an
   * operator's, the added actions alternate, and the log is the newest five
   * of the added entries followed by the old log.
   */
  lemma RunFacts(p: Panel, es: seq<Event>)
    requires Inv(p)
    ensures Inv(Run(Intended, p, es))
    ensures Run(Intended, p, es).operationCount == p.operationCount + |Added(Intended, p, es)|
    ensures Run(Intended, p, es).logs == Take(Added(Intended, p, es) + p.logs, MaxLogEntries)
    ensures forall i :: 0 <= i < |Added(Intended, p, es)| ==>
      Added(Intended, p, es)[i].user == OperatorUser
      && Added(Intended, p, es)[i].reason == Some(ReasonFor(Added(Intended, p, es)[i].action))
    ensures forall i :: 0 <= i < |Added(Intended, p, es)| ==>
      Added(Intended, p, es)[i].action
        == NthAction(p.operationCount - InitialOperationCount + |Added(Intended, p, es)| - 1 - i)
  {
    RunPreservesInv(p, es);
    RunCounts(Intended, p, es);
    RunLogWindow(Intended, p, es);
    AddedAreManual(Intended, p, es);
    AddedAlternate(p, es);
  }

  /**
   * From the initial state, in either mode, after any sequence of events:
   * the counter is 47 plus the number of completed transitions, and the log
   * holds the newest five of them followed by the seeds.
   */
  lemma Reachable(m: Mode, loadTime: int, es: seq<Event>)
    ensures Run(m, Initial(loadTime), es).operationCount == InitialOperationCount + |Added(m, Initial(loadTime), es)|
    ensures Run(m, Initial(loadTime), es).logs == Take(Added(m, Initial(loadTime), es) + SeedLogs(loadTime), MaxLogEntries)
    ensures |Run(m, Initial(loadTime), es).logs| == Min(SeedLogCount + |Added(m, Initial(loadTime), es)|, MaxLogEntries)
  {
    RunCounts(m, Initial(loadTime), es);
    RunLogWindow(m, Initial(loadTime), es);
  }

  /**
   * From the initial state with the intended completion: every state keeps
   * the invariant, and the completed transitions alternate open, close,
   * open, ... starting with open.
   */
  lemma ReachableIntended(loadTime: int, es: seq<Event>)
    ensures Inv(Run(Intended, Initial(loadTime), es))
    ensures forall i :: 0 <= i < |Added(Intended, Initial(loadTime), es)| ==>
      Added(Intended, Initial(loadTime), es)[i].action == NthAction(|Added(Intended, Initial(loadTime), es)| - 1 - i)
  {
    RunPreservesInv(Initial(loadTime), es);
    AddedAlternate(Initial(loadTime), es);
  }

  // ---------------------------------------------------------------------
  // Where the completion as written departs from the intended one

  /**
   * As written, once a close completes the badge shows the fallback colour
   * and label, and both buttons are enabled, so a second close starts.
   */
  lemma CloseAsWrittenReenablesClose(p: Panel, now: int)
    requires p.status == Moving && p.pending == Some(CloseAction)
    ensures CompleteStepAsWritten(p, now).status == CloseLiteral
    ensures StatusColor(CompleteStepAsWritten(p, now).status) == UnknownStatusColor
    ensures StatusText(CompleteStepAsWritten(p, now).status) == UnknownStatusText
    ensures CanOpen(CompleteStepAsWritten(p, now).status) && CanClose(CompleteStepAsWritten(p, now).status)
    ensures Step(AsWritten, CompleteStepAsWritten(p, now), Press(CloseAction)).status == Moving
  {
  }

  /** Open, finish, close, finish, close, finish. */
  function SecondCloseEvents(t1: int, t2: int, t3: int): seq<Event> {
    [Press(OpenAction), Finish(t1), Press(CloseAction), Finish(t2), Press(CloseAction), Finish(t3)]
  }

  /**
   * From the initial state, as written, the second close is accepted: the
   * counter reaches 50 and two close entries head the log.
   */
  lemma SecondCloseAsWritten(t: int, t1: int, t2: int, t3: int)
    ensures Run(AsWritten, Initial(t), SecondCloseEvents(t1, t2, t3)).operationCount == 50
    ensures Run(AsWritten, Initial(t), SecondCloseEvents(t1, t2, t3)).status == CloseLiteral
    ensures |Run(AsWritten, Initial(t), SecondCloseEvents(t1, t2, t3)).logs| == MaxLogEntries
    ensures Run(AsWritten, Initial(t), SecondCloseEvents(t1, t2, t3)).logs[..2]
      == [ManualEntry(CloseAction, t3), ManualEntry(CloseAction, t2)]
  {
    var es := SecondCloseEvents(t1, t2, t3);
    var w0 := Initial(t);
    var w1 := Step(AsWritten, w0, es[0]);
    assert w1.status == Moving && w1.pending == Some(OpenAction) && w1.operationCount == 47;
    var w2 := Step(AsWritten, w1, es[1]);
    assert w2.status == Open && w2.pending == None && w2.operationCount == 48;
    var w3 := Step(AsWritten, w2, es[2]);
    assert w3.status == Moving && w3.pending == Some(CloseAction) && w3.logs == w2.logs;
    var w4 := Step(AsWritten, w3, es[3]);
    assert w4.status == CloseLiteral && w4.pending == None && w4.operationCount == 49;
    var w5 := Step(AsWritten, w4, es[4]);
    assert w5.status == Moving && w5.pending == Some(CloseAction) && w5.logs == w4.logs;
    var w6 := Step(AsWritten, w5, es[5]);
    assert w4.logs[0] == ManualEntry(CloseAction, t2) && |w4.logs| == MaxLogEntries;
    assert w6.logs == [ManualEntry(CloseAction, t3)] + Take(w4.logs, MaxLogEntries - 1);
    assert es[1..] == [es[1], es[2], es[3], es[4], es[5]];
    assert Run(AsWritten, w0, es) == Run(AsWritten, w1, es[1..]);
    assert es[2..] == es[1..][1..] && es[3..] == es[2..][1..];
    assert Run(AsWritten, w1, es[1..]) == Run(AsWritten, w3, es[3..]);
    assert es[4..] == es[3..][1..] && es[5..] == es[4..][1..];
    assert Run(AsWritten, w3, es[3..]) == Run(AsWritten, w5, es[5..]);
    assert Run(AsWritten, w5, es[5..]) == w6;
  }

  /**
   * The same events with the intended completion: the second close is
   * ignored, the counter is 49 and the close entry is followed by the open entry.
   */
  lemma SecondCloseIntended(t: int, t1: int, t2: int, t3: int)
    ensures Run(Intended, Initial(t), SecondCloseEvents(t1, t2, t3)).operationCount == 49
    ensures Run(Intended, Initial(t), SecondCloseEvents(t1, t2, t3)).status == Closed
    ensures |Run(Intended, Initial(t), SecondCloseEvents(t1, t2, t3)).logs| == MaxLogEntries
    ensures Run(Intended, Initial(t), SecondCloseEvents(t1, t2, t3)).logs[..2]
      == [ManualEntry(CloseAction, t2), ManualEntry(OpenAction, t1)]
  {
    var es := SecondCloseEvents(t1, t2, t3);
    var c0 := Initial(t);
    var c1 := Step(Intended, c0, es[0]);
    assert c1.status == Moving && c1.pending == Some(OpenAction) && c1.operationCount == 47;
    var c2 := Step(Intended, c1, es[1]);
    assert c2.status == Open && c2.pending == None && c2.operationCount == 48;
    var c3 := Step(Intended, c2, es[2]);
    assert c3.status == Moving && c3.pending == Some(CloseAction) && c3.logs == c2.logs;
    var c4 := Step(Intended, c3, es[3]);
    assert c4.status == Closed && c4.pending == None && c4.operationCount == 49;
    assert c2.logs[0] == ManualEntry(OpenAction, t1);
    assert c4.logs == [ManualEntry(CloseAction, t2)] + Take(c2.logs, MaxLogEntries - 1);
    var c5 := Step(Intended, c4, es[4]);
    assert c5 == c4;
    var c6 := Step(Intended, c5, es[5]);
    assert c6 == c5;
    assert es[1..] == [es[1], es[2], es[3], es[4], es[5]];
    assert Run(Intended, c0, es) == Run(Intended, c1, es[1..]);
    assert es[2..] == es[1..][1..] && es[3..] == es[2..][1..];
    assert Run(Intended, c1, es[1..]) == Run(Intended, c3, es[3..]);
    assert es[4..] == es[3..][1..] && es[5..] == es[4..][1..];
    assert Run(Intended, c3, es[3..]) == Run(Intended, c5, es[5..]);
    assert Run(Intended, c5, es[5..]) == c6;
  }
}
