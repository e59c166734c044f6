/**
 * Scenario methods on a fresh scheduler, one per documented behaviour: what
 * callers can conclude from the method contracts alone. Each returns the
 * calls and the table state that the contracts of the methods it calls
 * determine.
 */
module SndSysScenarios {
  import opened Backend
  import opened SndSys

  /** A loader answer in which every entry loads (entry i gets handle i). */
  function AllLoad(): (loads: seq<Option<Handle>>)
    ensures |loads| == NumMsgs
    ensures forall i :: 0 <= i < NumMsgs ==> loads[i] == Some(i)
  {
    seq(NumMsgs, i => Some(i))
  }

  /** Powered: a request is played exactly once on the next tick, gains stay 1.0. */
  method RequestPlayedOnceWhenPowered() returns (tickCalls: seq<Call>, gains: seq<int>)
    ensures tickCalls == [PollPower, Play(3)]
    ensures |gains| == NumMsgs && forall i :: 0 <= i < NumMsgs ==> gains[i] == 1
  {
    var s := new Scheduler();
    var ok := s.InitResettingGate(true, AllLoad());
    s.PlayMsg(3);
    var mark := s.trace;
    s.Tick(true);
    tickCalls := s.trace[|mark|..];
    gains := s.gains[..];
  }

  /** Muting gates loudness, not dispatch: a request made while unpowered is still played, at gain 0. */
  method MutedRequestStillDispatched() returns (tickCalls: seq<Call>, gains: seq<int>)
    ensures tickCalls == [PollPower, Play(5)]
    ensures |gains| == NumMsgs && forall i :: 0 <= i < NumMsgs ==> gains[i] == 0
  {
    var s := new Scheduler();
    var ok := s.InitResettingGate(true, AllLoad());
    s.Tick(false);
    s.PlayMsg(5);
    var mark := s.trace;
    s.Tick(false);
    tickCalls := s.trace[|mark|..];
    gains := s.gains[..];
  }

  /** Only the most recent of several requests between two ticks is played. */
  method LastRequestWins() returns (tickCalls: seq<Call>, pending: int)
    ensures tickCalls == [PollPower, Play(7)]
    ensures pending == NoMsg
  {
    var s := new Scheduler();
    var ok := s.InitResettingGate(true, AllLoad());
    s.PlayMsg(2);
    s.PlayMsg(7);
    var mark := s.trace;
    s.Tick(true);
    tickCalls := s.trace[|mark|..];
    pending := s.curMsg;
  }

  /**
   * A missing file (entry 4) makes init fail: the four loaded entries are
   * freed in order, the backend is shut down once, as the last call, and
   * nothing stays loaded.
   */
  method MissingFileRollsBack() returns (first: bool, initCalls: seq<Call>, left: seq<Option<Handle>>)
    ensures !first
    ensures left == Unloaded(NumMsgs)
    ensures |initCalls| == 15
    ensures forall i :: 0 <= i < 4 ==> initCalls[10 + i] == Free(i)
    ensures initCalls[14] == BackendFini && BackendFini !in initCalls[..14]
  {
    var s := new Scheduler();
    var loads := AllLoad()[4 := None];
    assert loads[4] == None && forall i :: 0 <= i < 4 ==> loads[i] == Some(i);
    assert FirstFailure(loads) == 4;
    first := s.Init(true, loads);
    initCalls := s.trace;
    left := s.handles[..];
    assert left == Unloaded(NumMsgs);
    RollbackFreesLoadedAndShutsDownOnce(loads);
  }

  /** After a rolled-back init, a retry with every file present succeeds and loads them all. */
  method RetryAfterRollbackSucceeds() returns (first: bool, retry: bool, loaded: seq<Option<Handle>>)
    ensures !first && retry
    ensures loaded == AllLoad()
  {
    var s := new Scheduler();
    var loads := AllLoad()[4 := None];
    assert loads[4] == None;
    first := s.Init(true, loads);
    retry := s.Init(true, AllLoad());
    loaded := s.handles[..];
  }

  /** Once inited, fini twice leaves the same table and log as fini once. */
  method FiniTwiceAsOnce() returns (onceCalls: seq<Call>, twiceCalls: seq<Call>, left: seq<Option<Handle>>)
    ensures twiceCalls == onceCalls && |onceCalls| >= 16
    ensures onceCalls[|onceCalls| - 16] == StopTicker
    ensures forall i :: 0 <= i < NumMsgs ==> onceCalls[|onceCalls| - 15 + i] == Free(i)
    ensures onceCalls[|onceCalls| - 1] == BackendFini
    ensures left == Unloaded(NumMsgs)
  {
    var s := new Scheduler();
    var ok := s.InitResettingGate(true, AllLoad());
    var before := s.trace;
    s.Fini();
    onceCalls := s.trace;
    ghost var frees := FreeTrace(AllLoad());
    FreeTraceOfLoaded(AllLoad());
    assert onceCalls == before + [StopTicker] + frees + [BackendFini];
    assert |onceCalls| == |before| + 16;
    forall i | 0 <= i < NumMsgs
      ensures onceCalls[|onceCalls| - 15 + i] == Free(i)
    {
      assert onceCalls[|onceCalls| - 15 + i] == frees[i];
    }
    s.Fini();
    twiceCalls := s.trace;
    left := s.handles[..];
    assert left == Unloaded(NumMsgs);
  }

  /**
   * The tick as written, with a pending request: neither tick plays it or
   * clears it, and the gate is not refreshed although power went away, so
   * every gain stays 1.0.
   */
  method PendingRequestStuckAsWritten() returns (tickCalls: seq<Call>, pending: int, gains: seq<int>)
    ensures tickCalls == [] && pending == 3
    ensures |gains| == NumMsgs && forall i :: 0 <= i < NumMsgs ==> gains[i] == 1
  {
    var s := new Scheduler();
    var ok := s.InitResettingGate(true, AllLoad());
    s.PlayMsg(3);
    var mark := s.trace;
    var r1 := s.TickAsWritten(false);
    var r2 := s.TickAsWritten(false);
    tickCalls := s.trace[|mark|..];
    pending := s.curMsg;
    gains := s.gains[..];
  }

  /** The tick as written, with no request pending: it indexes the table with -1. */
  method IdleTickIndexesBeforeTable() returns (tableIndex: Option<int>)
    ensures tableIndex == Some(-1)
  {
    var s := new Scheduler();
    var ok := s.InitResettingGate(true, AllLoad());
    tableIndex := s.TickAsWritten(true);
  }

  /**
   * Init as written after a muted session: init/mute/fini/init with power
   * still off leaves sound_is_on false and every gain at 1.0, and the next
   * as-written tick keeps them so: the messages are audible while unpowered.
   */
  method MutedReinitAudibleAsWritten() returns (soundIsOn: bool, gains: seq<int>)
    ensures !soundIsOn
    ensures |gains| == NumMsgs && forall i :: 0 <= i < NumMsgs ==> gains[i] == 1
  {
    var s := new Scheduler();
    var ok := s.Init(true, AllLoad());
    assert ok && s.soundIsOn && s.curMsg == NoMsg;
    var idx := s.TickAsWritten(false);
    assert !s.soundIsOn && s.curMsg == NoMsg;
    s.Fini();
    assert !s.soundIsOn;
    ok := s.Init(true, AllLoad());
    assert ok && !s.soundIsOn && forall i :: 0 <= i < NumMsgs ==> s.gains[i] == 1;
    idx := s.TickAsWritten(false);
    soundIsOn := s.soundIsOn;
    gains := s.gains[..];
  }

  /** The same session with the gate flag reset by init: the tick mutes again. */
  method MutedReinitSilentWhenReset() returns (soundIsOn: bool, gains: seq<int>)
    ensures !soundIsOn
    ensures |gains| == NumMsgs && forall i :: 0 <= i < NumMsgs ==> gains[i] == 0
  {
    var s := new Scheduler();
    var ok := s.InitResettingGate(true, AllLoad());
    s.Tick(false);
    s.Fini();
    ok := s.InitResettingGate(true, AllLoad());
    s.Tick(false);
    soundIsOn := s.soundIsOn;
    gains := s.gains[..];
  }
}
