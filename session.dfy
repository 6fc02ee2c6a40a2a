/** The connection session of the main window: the connect/disconnect toggle,
    the two serial ports, the polling task that reads the sensor, and the
    histories of the plotted channels that each polling task rebuilds. */
module Session {
  import opened Bytes
  import opened Config
  import opened Wrappers
  import opened Extractor
  import opened Packet
  import opened Window

  /** The text of the connection button, which selects what pressing it does. */
  datatype ButtonLabel = ConnectLabel | DisconnectLabel

  /** The state of a polling task: still running, cancelled, or ended by an
      exception. */
  datatype TaskState = Running | Cancelled | Failed

  /** The positions of the tasks that are still running. */
  function RunningTasks(tasks: seq<TaskState>): set<nat>
  {
    set t: nat | t < |tasks| && tasks[t] == Running
  }

  /** When only the task at position c may be running, at most one task runs. */
  lemma AtMostOneRunning(tasks: seq<TaskState>, c: nat)
    requires forall t :: 0 <= t < |tasks| && tasks[t] == Running ==> t == c
    ensures |RunningTasks(tasks)| <= 1
  {
    assert RunningTasks(tasks) <= {c};
    SubsetCardinality(RunningTasks(tasks), {c});
  }

  lemma {:induction false} SubsetCardinality(a: set<nat>, b: set<nat>)
    requires a <= b
    ensures |a| <= |b|
    decreases b
  {
    if b != {} {
      var x :| x in b;
      SubsetCardinality(a - {x}, b - {x});
    }
  }

  /** Task.cancel() on the task a session last started: a running task becomes
      cancelled; a task that has already ended stays as it is, and when no task
      was ever started there is nothing to cancel. */
  function Cancel(tasks: seq<TaskState>, current: Option<nat>): (r: seq<TaskState>)
    requires current.Some? ==> current.value < |tasks|
    ensures |r| == |tasks| && RunningTasks(r) <= RunningTasks(tasks)
    ensures current.Some? ==> current.value !in RunningTasks(r)
    ensures forall t :: 0 <= t < |tasks| && Some(t) != current ==> r[t] == tasks[t]
    ensures current.Some? && tasks[current.value] == Running ==> r[current.value] == Cancelled
    ensures current.None? || tasks[current.value] != Running ==> r == tasks
  {
    if current.Some? && tasks[current.value] == Running then tasks[current.value := Cancelled]
    else tasks
  }

  /** Fresh histories, one per plotted channel, each holding Capacity zeros. */
  method NewHistories() returns (hs: seq<History>)
    ensures |hs| == |Channels|
    ensures forall i :: 0 <= i < |hs| ==>
      fresh(hs[i]) && fresh(hs[i].cells) && hs[i].Valid() && hs[i].Contents() == Zeros(Capacity)
    ensures forall i, j :: 0 <= i < j < |hs| ==> hs[i].cells != hs[j].cells
  {
    hs := [];
    for n := 0 to |Channels|
      invariant |hs| == n
      invariant forall i :: 0 <= i < n ==>
        fresh(hs[i]) && fresh(hs[i].cells) && hs[i].Valid() && hs[i].Contents() == Zeros(Capacity)
      invariant forall i, j :: 0 <= i < j < n ==> hs[i].cells != hs[j].cells
    {
      var h := new History();
      hs := hs + [h];
    }
  }

  class Session {
    /** The connection button's text. */
    var button: ButtonLabel
    var generatorOpen: bool
    var sensorOpen: bool
    /** Every polling task started so far, oldest first. */
    var tasks: seq<TaskState>
    /** The position of the task last started, if any. */
    var checking: Option<nat>
    /** The channel histories the current polling task appends to, in channel order. */
    var histories: seq<History>

    /** The arrays behind the channel histories. */
    ghost function Cells(): set<object>
      reads this
    {
      set i | 0 <= i < |histories| :: histories[i].cells
    }

    /** The session's invariant: the ports are closed while the button offers to
        connect; the last task started is the only one that may be running, and
        only while both ports are open; both ports are open only once a task has
        been started; and a started task has its own history for every channel. */
    ghost predicate Valid()
      reads this, histories
    {
      (button == ConnectLabel ==> !generatorOpen && !sensorOpen) &&
      (checking.None? <==> tasks == []) &&
      (checking.Some? ==> checking.value == |tasks| - 1) &&
      (forall t :: 0 <= t < |tasks| && tasks[t] == Running ==>
        checking == Some(t) && generatorOpen && sensorOpen) &&
      (generatorOpen && sensorOpen ==> checking.Some?) &&
      |histories| == (if tasks == [] then 0 else |Channels|) &&
      (forall i :: 0 <= i < |histories| ==> histories[i].Valid()) &&
      (forall i, j :: 0 <= i < j < |histories| ==> histories[i].cells != histories[j].cells)
    }

    /** The window as it opens: the button offers to connect, both ports are
        closed and no polling task exists yet. */
    constructor ()
      ensures Valid()
      ensures button == ConnectLabel && !generatorOpen && !sensorOpen
      ensures tasks == [] && checking == None && histories == []
    {
      button := ConnectLabel;
      generatorOpen, sensorOpen := false, false;
      tasks, checking, histories := [], None, [];
    }

    /** In a valid session at most one polling task is running. */
    lemma OnePollingTask()
      requires Valid()
      ensures |RunningTasks(tasks)| <= 1
      ensures RunningTasks(tasks) != {} ==> generatorOpen && sensorOpen && button == DisconnectLabel
    {
      if tasks != [] {
        AtMostOneRunning(tasks, checking.value);
      } else {
        assert RunningTasks(tasks) == {};
      }
    }

    /** Starts a new polling task, which builds fresh histories for every channel. */
    method StartPolling()
      requires generatorOpen && sensorOpen && button == DisconnectLabel
      requires checking.Some? ==> checking.value == |tasks| - 1
      requires forall t :: 0 <= t < |tasks| ==> tasks[t] != Running
      modifies this
      ensures Valid()
      ensures tasks == old(tasks) + [Running] && checking == Some(|old(tasks)|)
      ensures button == old(button) && generatorOpen && sensorOpen
      ensures forall i :: 0 <= i < |histories| ==>
        fresh(histories[i]) && fresh(histories[i].cells) && histories[i].Contents() == Zeros(Capacity)
    {
      histories := NewHistories();
      tasks := tasks + [Running];
      checking := Some(|tasks| - 1);
    }

    /** Pressing the connection button. While it reads CONNECT, the button changes
        first, then the generator port and the sensor port are opened and a polling
        task is started; a port that fails to open ends the procedure there. While
        it reads DISCONNECT, the button changes back, both ports are closed and the
        last polling task is cancelled. */
    method ToggleConnection(generatorOpens: bool, sensorOpens: bool)
      requires Valid()
      modifies this
      ensures Valid()
      ensures old(button) == ConnectLabel ==>
        button == DisconnectLabel &&
        generatorOpen == generatorOpens && sensorOpen == (generatorOpens && sensorOpens) &&
        if generatorOpens && sensorOpens then
          tasks == old(tasks) + [Running] && checking == Some(|old(tasks)|) &&
          forall i :: 0 <= i < |histories| ==>
            fresh(histories[i]) && fresh(histories[i].cells) && histories[i].Contents() == Zeros(Capacity)
        else
          tasks == old(tasks) && checking == old(checking) && histories == old(histories)
      ensures old(button) == DisconnectLabel ==>
        button == ConnectLabel && !generatorOpen && !sensorOpen &&
        tasks == Cancel(old(tasks), old(checking)) && checking == old(checking) &&
        histories == old(histories)
    {
      if button == ConnectLabel {
        button := DisconnectLabel;
        if !generatorOpens {
          return;
        }
        generatorOpen := true;
        if !sensorOpens {
          return;
        }
        sensorOpen := true;
        StartPolling();
      } else {
        button := ConnectLabel;
        generatorOpen, sensorOpen := false, false;
        tasks := Cancel(tasks, checking);
      }
    }

    /** The reset action of a plot's context menu: only while both ports are open,
        cancels the last polling task and starts a new one with fresh histories. */
    method ResetActivity()
      requires Valid()
      modifies this
      ensures Valid()
      ensures button == old(button) && generatorOpen == old(generatorOpen) && sensorOpen == old(sensorOpen)
      ensures old(generatorOpen && sensorOpen) ==>
        tasks == Cancel(old(tasks), old(checking)) + [Running] && checking == Some(|old(tasks)|) &&
        forall i :: 0 <= i < |histories| ==>
          fresh(histories[i]) && fresh(histories[i].cells) && histories[i].Contents() == Zeros(Capacity)
      ensures !old(generatorOpen && sensorOpen) ==>
        tasks == old(tasks) && checking == old(checking) && histories == old(histories)
    {
      if generatorOpen && sensorOpen {
        tasks := Cancel(tasks, checking);
        StartPolling();
      }
    }

    /** One cycle of the running polling task: up to PollReads one-byte reads from
        the sensor port, then the split of what arrived into the packet's fields.
        No bytes change nothing; too few bytes end the task with an exception and
        leave the histories as they were; a full packet appends one value to every
        channel's history. */
    method Poll(waiting: seq<byte>) returns (raw: seq<byte>, unread: seq<byte>, outcome: PollResult)
      requires Valid() && checking.Some? && tasks[checking.value] == Running
      modifies this, histories, Cells()
      ensures Valid()
      ensures raw + unread == waiting && |raw| == Min(PollReads, |waiting|)
      ensures outcome == PollOutcome(raw)
      ensures button == old(button) && generatorOpen == old(generatorOpen) && sensorOpen == old(sensorOpen)
      ensures checking == old(checking) && histories == old(histories)
      ensures tasks == if outcome == Crashed then old(tasks)[checking.value := Failed] else old(tasks)
      ensures outcome.Sampled? ==>
        |outcome.values| == |histories| &&
        forall i :: 0 <= i < |histories| ==>
          histories[i].Contents() == Slide(old(histories[i].Contents()), outcome.values[i])
      ensures !outcome.Sampled? ==>
        forall i :: 0 <= i < |histories| ==> histories[i].Contents() == old(histories[i].Contents())
    {
      raw, unread := Collect(waiting);
      if raw == [] {
        outcome := NoData;
        return;
      }
      var extraction := Extract(SignalProtocol, raw);
      match extraction
      case PopFromEmpty =>
        tasks := tasks[checking.value := Failed];
        outcome := Crashed;
      case Fields(chunks) =>
        var values := Sample(chunks);
        AppendSample(values);
        outcome := Sampled(values);
    }

    /** Appends values[i] to the history of channel i, channel by channel. */
    method AppendSample(values: seq<nat>)
      requires Valid() && |values| == |histories|
      modifies histories, Cells()
      ensures Valid()
      ensures forall i :: 0 <= i < |histories| ==>
        histories[i].Contents() == Slide(old(histories[i].Contents()), values[i])
    {
      for n := 0 to |histories|
        invariant forall i :: 0 <= i < |histories| ==> histories[i].Valid()
        invariant forall i :: 0 <= i < n ==>
          histories[i].Contents() == Slide(old(histories[i].Contents()), values[i])
        invariant forall i :: n <= i < |histories| ==> histories[i].Contents() == old(histories[i].Contents())
      {
        var h := histories[n];
        assert h.cells in Cells();
        label Before:
        h.Append(values[n]);
        forall i | 0 <= i < |histories| && i != n
          ensures histories[i].Contents() == old@Before(histories[i].Contents())
        {
          assert histories[i].cells != h.cells;
        }
      }
    }
  }
}
