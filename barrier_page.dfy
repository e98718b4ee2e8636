/**
 * The page component's state as an object whose methods change it in
 * place, one method per state update of the source. Each method's effect
 * is stated as a step of the Barrier model, so what is proved there holds
 * of every sequence of calls here.
 */
module BarrierPage {

  import opened Wrappers
  import opened Barrier

  class BarrierController {
    var status: Status
    var pending: Option<Action>
    var rotation: int
    var lastOperation: int
    var operationCount: nat
    var logs: seq<LogEntry>

    /** The object's state as a Barrier value. */
    function Snapshot(): Panel
      reads this
    {
      Panel(status, pending, rotation, lastOperation, operationCount, logs)
    }

    predicate Valid()
      reads this
    {
      Inv(Snapshot())
    }

    /** Mounting the page at instant loadTime. */
    constructor (loadTime: int)
      ensures Valid() && Snapshot() == Initial(loadTime)
    {
      status := Closed;
      pending := None;
      rotation := ClosedRotation;
      lastOperation := loadTime;
      operationCount := InitialOperationCount;
      logs := SeedLogs(loadTime);
    }

    /** handleBarrierAction's synchronous part: the barrier starts moving. */
    method Start(action: Action)
      requires Valid() && CanStart(status, action)
      modifies this
      ensures Valid() && Snapshot() == StartStep(old(Snapshot()), action)
    {
      status := Moving;
      pending := Some(action);
      StepPreservesInv(old(Snapshot()), Press(action));
    }

    /** The last animation frame: the barrier settles and the operation is logged. */
    method Complete(now: int)
      requires Valid() && status == Moving
      modifies this
      ensures Valid() && Snapshot() == CompleteStep(old(Snapshot()), now)
    {
      var action := pending.value;
      status := Target(action);
      lastOperation := now;
      operationCount := operationCount + 1;
      var newLog := ManualEntry(action, now);
      logs := PushLog(newLog, logs);
      rotation := TargetRotation(action);
      pending := None;
      StepPreservesInv(old(Snapshot()), Finish(now));
    }

    /** A click on the button for action: ignored while that button is disabled. */
    method Click(action: Action) returns (accepted: bool)
      requires Valid()
      modifies this
      ensures accepted == CanStart(old(status), action)
      ensures Valid() && Snapshot() == Step(Intended, old(Snapshot()), Press(action))
      ensures !accepted ==> Snapshot() == old(Snapshot())
    {
      accepted := CanStart(status, action);
      if accepted {
        Start(action);
      }
    }
  }

  /** Open from the initial state, then let the animation finish. */
  method OpenFromInitial(loadTime: int, doneAt: int) returns (c: BarrierController)
    ensures fresh(c) && c.Valid()
    ensures c.status == Open && c.operationCount == InitialOperationCount + 1
    ensures |c.logs| == SeedLogCount + 1 && c.logs[1..] == SeedLogs(loadTime)
    ensures c.logs[0].action == OpenAction && c.logs[0].user == OperatorUser
    ensures c.logs[0].reason == Some(ManualOpenReason)
  {
    c := new BarrierController(loadTime);
    c.Start(OpenAction);
    assert c.status == Moving && c.operationCount == InitialOperationCount;
    c.Complete(doneAt);
  }

  /** Open, then close: the close entry is the newest, the open entry next. */
  method OpenThenClose(loadTime: int, openedAt: int, closedAt: int) returns (c: BarrierController)
    ensures fresh(c) && c.Valid()
    ensures c.status == Closed && c.operationCount == InitialOperationCount + 2
    ensures |c.logs| == MaxLogEntries
    ensures c.logs[0].action == CloseAction && c.logs[0].reason == Some(ManualCloseReason)
    ensures c.logs[1].action == OpenAction && c.logs[1].reason == Some(ManualOpenReason)
  {
    c := OpenFromInitial(loadTime, openedAt);
    c.Start(CloseAction);
    c.Complete(closedAt);
  }

  /** Close while already closed: the button is disabled and nothing changes. */
  method CloseWhileClosed(loadTime: int) returns (c: BarrierController)
    ensures fresh(c) && c.Valid()
    ensures c.Snapshot() == Initial(loadTime)
  {
    c := new BarrierController(loadTime);
    var accepted := c.Click(CloseAction);
    assert !accepted;
  }

  /** Open, then close before the animation ends: the close is ignored. */
  method CloseDuringOpening(loadTime: int, doneAt: int) returns (c: BarrierController)
    ensures fresh(c) && c.Valid()
    ensures c.status == Open && c.operationCount == InitialOperationCount + 1
    ensures |c.logs| == SeedLogCount + 1 && c.logs[0].action == OpenAction
  {
    c := new BarrierController(loadTime);
    var first := c.Click(OpenAction);
    var second := c.Click(CloseAction);
    assert first && !second;
    c.Complete(doneAt);
  }
}
