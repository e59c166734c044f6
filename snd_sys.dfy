/**
 * The advisory-voice scheduler of X-TCAS (src/snd_sys.c): a fixed table of
 * voice messages with their loaded WAV handles and gains, a one-slot request
 * mailbox, a mute gate driven by the power predicate, and the transactional
 * init/fini lifecycle. Every call into the audio backend or the host
 * scheduler is appended to `trace`.
 */
module SndSys {
  import opened Backend

  /** RA_NUM_MSGS */
  const NumMsgs: nat := 14

  /** The file of each message of `voice_msgs`, in table order. */
  function VoiceFile(msg: nat): (file: string)
  {
    match msg
    case 0 => "clb.wav"
    case 1 => "clb_cross.wav"
    case 2 => "clb_more.wav"
    case 3 => "clb_now.wav"
    case 4 => "clear.wav"
    case 5 => "des.wav"
    case 6 => "des_cross.wav"
    case 7 => "des_more.wav"
    case 8 => "des_now.wav"
    case 9 => "monitor_vs.wav"
    case 10 => "maint_vs.wav"
    case 11 => "maint_vs_cross.wav"
    case 12 => "level_off.wav"
    case _ => "tfc.wav"
  }

  const VoiceFiles: seq<string> := seq(NumMsgs, VoiceFile)

  /** The value of `cur_msg` when no request is pending. */
  const NoMsg: int := -1

  class Scheduler {
    var handles: array<Option<Handle>>   // voice_msgs[i].wav, None for NULL
    var gains: array<int>                // the gain last set on voice_msgs[i].wav
    var inited: bool
    var soundIsOn: bool
    var curMsg: int
    var backendUp: bool                  // between xtcas_openal_init and _fini
    var tickerRunning: bool              // flight-loop callback registered
    var trace: seq<Call>

    ghost predicate Valid()
      reads this, handles, gains
    {
      handles.Length == NumMsgs && gains.Length == NumMsgs &&
      (curMsg == NoMsg || 0 <= curMsg < NumMsgs) &&
      TableValid() && GainsValid()
    }

    /** Loaded exactly while initialised, together with the backend and the ticker. */
    ghost predicate TableValid()
      reads this`inited, this`backendUp, this`tickerRunning, this`handles, handles
      requires handles.Length == NumMsgs
    {
      (inited ==>
         backendUp && tickerRunning &&
         forall i :: 0 <= i < NumMsgs ==> handles[i].Some?) &&
      (!inited ==>
         !backendUp && !tickerRunning &&
         forall i :: 0 <= i < NumMsgs ==> handles[i].None?)
    }

    /** Every gain is 0.0 or 1.0, and while initialised all gains are equal. */
    ghost predicate GainsValid()
      reads this`inited, this`gains, gains
      requires gains.Length == NumMsgs
    {
      (forall i :: 0 <= i < NumMsgs ==> gains[i] == 0 || gains[i] == 1) &&
      (inited ==> forall i :: 0 <= i < NumMsgs ==> gains[i] == gains[0])
    }

    /** Every gain is the one the gate flag `soundIsOn` calls for. */
    ghost predicate GainsAgree()
      reads this, handles, gains
      requires Valid()
    {
      forall i :: 0 <= i < NumMsgs ==> gains[i] == GainOf(soundIsOn)
    }

    /** The static initial state: nothing loaded, sound on, no request. */
    constructor ()
      ensures Valid() && fresh(handles) && fresh(gains)
      ensures !inited && soundIsOn && curMsg == NoMsg && trace == []
    {
      handles := new Option<Handle>[NumMsgs](_ => None);
      gains := new int[NumMsgs](_ => 1);
      inited := false;
      soundIsOn := true;
      curMsg := NoMsg;
      backendUp := false;
      tickerRunning := false;
      trace := [];
    }

    /** set_sound_on: write one and the same gain to every table entry. */
    method SetSoundOn(flag: bool)
      requires gains.Length == NumMsgs
      modifies this`trace, gains
      ensures forall i :: 0 <= i < NumMsgs ==> gains[i] == GainOf(flag)
      ensures trace == old(trace) + GainWrites(gains.Length, GainOf(flag))
    {
      var i := 0;
      while i < NumMsgs
        invariant 0 <= i <= NumMsgs
        invariant forall j :: 0 <= j < i ==> gains[j] == GainOf(flag)
        invariant trace == old(trace) + GainWrites(i, GainOf(flag))
      {
        gains[i] := GainOf(flag);
        trace := trace + [SetGain(i, GainOf(flag))];
        i := i + 1;
      }
    }

    /** xtcas_play_msg (host build): overwrite the single request slot. */
    method PlayMsg(msg: int)
      requires Valid()
      requires 0 <= msg < NumMsgs
      modifies this`curMsg
      ensures Valid() && curMsg == msg
    {
      curMsg := msg;
    }

    /**
     * The mute gate of the tick. The predicate is evaluated exactly once: when
     * sound is on, only the first condition calls it; when off, only the second.
     */
    method RefreshGate(pred: bool)
      requires Valid() && inited
      modifies this`soundIsOn, this`trace, gains
      ensures Valid() && soundIsOn == pred
      ensures old(soundIsOn) == pred ==>
                trace == old(trace) + [PollPower] && unchanged(gains)
      ensures old(soundIsOn) != pred ==>
                trace == old(trace) + [PollPower] + GainWrites(gains.Length, GainOf(pred)) &&
                forall i :: 0 <= i < NumMsgs ==> gains[i] == GainOf(pred)
      ensures old(GainsAgree()) || old(soundIsOn) != pred ==> GainsAgree()
    {
      trace := trace + [PollPower];
      if soundIsOn && !pred {
        SetSoundOn(false);
        soundIsOn := false;
      } else if !soundIsOn && pred {
        SetSoundOn(true);
        soundIsOn := true;
      }
    }

    /** Drain the request slot and play the drained message, never the sentinel. */
    method Dispatch()
      requires Valid() && inited
      modifies this`curMsg, this`trace
      ensures Valid() && curMsg == NoMsg
      ensures trace == old(trace) + (if old(curMsg) == NoMsg then [] else [Play(old(curMsg))])
    {
      var msg := curMsg;
      curMsg := NoMsg;
      if 0 <= msg < NumMsgs {
        trace := trace + [Play(msg)];
      }
    }

    /**
     * snd_sched_cb as evidently intended: the gate is refreshed on every tick
     * and a pending request is played exactly once and cleared.
     */
    method Tick(pred: bool)
      requires Valid() && inited
      modifies this`curMsg, this`soundIsOn, this`trace, gains
      ensures Valid() && inited && curMsg == NoMsg && soundIsOn == pred
      ensures trace == old(trace) + [PollPower]
                       + (if old(soundIsOn) != pred then GainWrites(gains.Length, GainOf(pred)) else [])
                       + (if old(curMsg) == NoMsg then [] else [Play(old(curMsg))])
      ensures old(soundIsOn) == pred ==> unchanged(gains)
      ensures old(soundIsOn) != pred ==> forall i :: 0 <= i < NumMsgs ==> gains[i] == GainOf(pred)
      ensures old(GainsAgree()) || old(soundIsOn) != pred ==> GainsAgree()
    {
      RefreshGate(pred);
      Dispatch();
    }

    /**
     * snd_sched_cb as written. A pending request makes the tick return at once,
     * so the request is never played, never cleared, and the gate is never
     * refreshed again. Without a request the tick refreshes the gate and then
     * plays `voice_msgs[msg]` with `msg == -1`, one entry before the table;
     * that read is not modelled as a play: the index is returned instead.
     */
    method TickAsWritten(pred: bool) returns (tableIndex: Option<int>)
      requires Valid() && inited
      modifies this`curMsg, this`soundIsOn, this`trace, gains
      ensures Valid()
      ensures old(curMsg) != NoMsg ==>
                tableIndex == None && unchanged(this) && unchanged(gains)
      ensures old(curMsg) == NoMsg ==>
                tableIndex == Some(NoMsg) && curMsg == NoMsg && soundIsOn == pred &&
                trace == old(trace) + [PollPower]
                         + (if old(soundIsOn) != pred then GainWrites(gains.Length, GainOf(pred)) else [])
      ensures old(curMsg) == NoMsg && old(soundIsOn) == pred ==> unchanged(gains)
      ensures old(curMsg) == NoMsg && old(soundIsOn) != pred ==>
                forall i :: 0 <= i < NumMsgs ==> gains[i] == GainOf(pred)
      ensures tableIndex.Some? ==> !(0 <= tableIndex.value < NumMsgs)
    {
      var msg := curMsg;
      if msg != NoMsg {
        return None;
      }
      curMsg := NoMsg;
      RefreshGate(pred);
      tableIndex := Some(msg);
    }

    /**
     * The load loop of init: load entries in table order, each one NULL
     * beforehand, and set its gain to 1.0; stop at the first entry that does
     * not load. Returns the index it stopped at (NumMsgs when all loaded).
     */
    method LoadTable(loads: seq<Option<Handle>>) returns (k: nat)
      requires handles.Length == NumMsgs && gains.Length == NumMsgs && |loads| == NumMsgs
      requires forall i :: 0 <= i < NumMsgs ==> handles[i] == None
      modifies this`trace, handles, gains
      ensures k == FirstFailure(loads)
      ensures forall i :: 0 <= i < NumMsgs ==> handles[i] == if i < k then loads[i] else None
      ensures forall i :: 0 <= i < NumMsgs ==> gains[i] == if i < k then 1 else old(gains[i])
      ensures trace == old(trace) + LoadPhase(VoiceFiles, k)
                       + (if k < NumMsgs then [Load(VoiceFiles[k])] else [])
    {
      k := 0;
      while k < NumMsgs
        invariant 0 <= k <= NumMsgs && k <= FirstFailure(loads)
        invariant forall i :: 0 <= i < k ==> handles[i] == loads[i] && gains[i] == 1
        invariant forall i :: k <= i < NumMsgs ==> handles[i] == None && gains[i] == old(gains[i])
        invariant trace == old(trace) + LoadPhase(VoiceFiles, k)
      {
        assert handles[k] == None;
        trace := trace + [Load(VoiceFiles[k])];
        handles[k] := loads[k];
        if loads[k] == None {
          assert k == FirstFailure(loads);
          return;
        }
        gains[k] := 1;
        trace := trace + [SetGain(k, 1)];
        k := k + 1;
      }
    }

    /**
     * The free loop of init's rollback and of fini: free every non-NULL entry
     * in table order and set it to NULL.
     */
    method FreeTable()
      requires handles.Length == NumMsgs
      modifies this`trace, handles
      ensures forall i :: 0 <= i < NumMsgs ==> handles[i] == None
      ensures trace == old(trace) + FreeTrace(old(handles[..]))
    {
      var m := 0;
      while m < NumMsgs
        invariant 0 <= m <= NumMsgs
        invariant forall i :: 0 <= i < m ==> handles[i] == None
        invariant forall i :: m <= i < NumMsgs ==> handles[i] == old(handles[i])
        invariant trace == old(trace) + FreeTrace(old(handles[..])[..m])
      {
        assert old(handles[..])[..m + 1][..m] == old(handles[..])[..m];
        if handles[m] != None {
          trace := trace + [Free(handles[m].value)];
          handles[m] := None;
        }
        m := m + 1;
      }
      assert old(handles[..])[..NumMsgs] == old(handles[..]);
    }

    /**
     * xtcas_snd_sys_init. `backendOk` is the answer of the backend's init and
     * `loads[i]` what the loader returns for entry i. All or nothing: on a
     * failed load every loaded entry is freed and the backend shut down.
     */
    method Init(backendOk: bool, loads: seq<Option<Handle>>) returns (ok: bool)
      requires Valid() && !inited
      requires |loads| == NumMsgs
      modifies this`inited, this`backendUp, this`tickerRunning, this`trace, handles, gains
      ensures Valid()
      ensures ok <==> backendOk && forall i :: 0 <= i < NumMsgs ==> loads[i].Some?
      ensures inited == ok
      ensures soundIsOn == old(soundIsOn) && curMsg == old(curMsg)
      ensures !ok ==> forall i :: 0 <= i < NumMsgs ==> handles[i] == None
      ensures !backendOk ==> trace == old(trace) + [BackendInit] && unchanged(gains)
      ensures ok ==>
                handles[..] == loads &&
                (forall i :: 0 <= i < NumMsgs ==> gains[i] == 1) &&
                trace == old(trace) + [BackendInit] + LoadPhase(VoiceFiles, handles.Length) + [StartTicker]
      ensures backendOk && !ok ==>
                var k := FirstFailure(loads);
                (forall i :: 0 <= i < NumMsgs ==> gains[i] == if i < k then 1 else old(gains[i])) &&
                trace == old(trace) + [BackendInit] + LoadPhase(VoiceFiles, k) + [Load(VoiceFiles[k])]
                         + FreeTrace(loads[..k]) + [BackendFini]
    {
      trace := trace + [BackendInit];
      if !backendOk {
        return false;
      }
      backendUp := true;

      var k := LoadTable(loads);
      if k == NumMsgs {
        trace := trace + [StartTicker];
        tickerRunning := true;
        inited := true;
        return true;
      }

      // errout: free every loaded entry, then shut the backend down
      assert handles[..] == loads[..k] + Unloaded(NumMsgs - k);
      FreeTable();
      FreeTraceSkipsUnloaded(loads[..k], NumMsgs - k);
      trace := trace + [BackendFini];
      backendUp := false;
      ok := false;
    }

    /**
     * Init followed by what it evidently should also do: since it sets every
     * gain to 1.0, the gate flag must say that sound is on.
     */
    method InitResettingGate(backendOk: bool, loads: seq<Option<Handle>>) returns (ok: bool)
      requires Valid() && !inited
      requires |loads| == NumMsgs
      modifies this`inited, this`soundIsOn, this`backendUp, this`tickerRunning, this`trace
      modifies handles, gains
      ensures Valid()
      ensures ok <==> backendOk && forall i :: 0 <= i < NumMsgs ==> loads[i].Some?
      ensures inited == ok && curMsg == old(curMsg)
      ensures ok ==> soundIsOn && GainsAgree()
      ensures !ok ==> soundIsOn == old(soundIsOn) && forall i :: 0 <= i < NumMsgs ==> handles[i] == None
      ensures !backendOk ==> trace == old(trace) + [BackendInit] && unchanged(gains)
      ensures ok ==>
                handles[..] == loads &&
                (forall i :: 0 <= i < NumMsgs ==> gains[i] == 1) &&
                trace == old(trace) + [BackendInit] + LoadPhase(VoiceFiles, handles.Length) + [StartTicker]
      ensures backendOk && !ok ==>
                var k := FirstFailure(loads);
                (forall i :: 0 <= i < NumMsgs ==> gains[i] == if i < k then 1 else old(gains[i])) &&
                trace == old(trace) + [BackendInit] + LoadPhase(VoiceFiles, k) + [Load(VoiceFiles[k])]
                         + FreeTrace(loads[..k]) + [BackendFini]
    {
      ok := Init(backendOk, loads);
      if ok {
        soundIsOn := true;
      }
    }

    /**
     * xtcas_snd_sys_fini: a no-op unless initialised; otherwise stop the
     * ticker, then free every entry, then shut the backend down.
     */
    method Fini()
      requires Valid()
      modifies this`inited, this`backendUp, this`tickerRunning, this`trace, handles
      ensures Valid() && !inited
      ensures forall i :: 0 <= i < NumMsgs ==> handles[i] == None
      ensures !old(inited) ==> unchanged(this) && unchanged(handles)
      ensures old(inited) ==>
                trace == old(trace) + [StopTicker] + FreeTrace(old(handles[..])) + [BackendFini]
    {
      if !inited {
        return;
      }
      trace := trace + [StopTicker];
      tickerRunning := false;

      FreeTable();
      trace := trace + [BackendFini];
      backendUp := false;
      inited := false;
    }
  }

  /** Every message has its own file: no two table entries share one. */
  lemma VoiceFilesDistinct()
    ensures forall i: nat, j: nat :: i < j < NumMsgs ==> VoiceFile(i) != VoiceFile(j)
  {
  }

  /**
   * What the scheduler invariant says about the globals: the table is loaded
   * exactly while initialised, which is exactly while the backend is up and
   * the tick is registered; while initialised all gains are one value, 0.0
   * or 1.0.
   */
  lemma {:induction false} LoadedExactlyWhileInited(s: Scheduler)
    requires s.Valid()
    ensures s.inited <==> forall i :: 0 <= i < NumMsgs ==> s.handles[i].Some?
    ensures s.inited <==> s.backendUp && s.tickerRunning
    ensures s.inited ==>
              (s.gains[0] == 0 || s.gains[0] == 1) &&
              forall i :: 0 <= i < NumMsgs ==> s.gains[i] == s.gains[0]
  {
    if !s.inited {
      assert s.handles[0].None?;
    }
  }

  /**
   * Whatever entry fails to load, the rollback frees the entries loaded
   * before it, in table order, and shuts the backend down exactly once, as
   * the last call of the failed init.
   */
  lemma {:induction false} RollbackFreesLoadedAndShutsDownOnce(loads: seq<Option<Handle>>)
    requires |loads| == NumMsgs && FirstFailure(loads) < NumMsgs
    ensures var k := FirstFailure(loads);
            var calls := [BackendInit] + LoadPhase(VoiceFiles, k) + [Load(VoiceFiles[k])]
                         + FreeTrace(loads[..k]) + [BackendFini];
            |calls| == 3 * k + 3 &&
            (forall i :: 0 <= i < k ==> calls[2 * k + 2 + i] == Free(loads[i].value)) &&
            calls[|calls| - 1] == BackendFini &&
            BackendFini !in calls[..|calls| - 1]
  {
    var k := FirstFailure(loads);
    var phase := LoadPhase(VoiceFiles, k);
    var frees := FreeTrace(loads[..k]);
    var calls := [BackendInit] + phase + [Load(VoiceFiles[k])] + frees + [BackendFini];
    LoadPhaseAt(VoiceFiles, k);
    FreeTraceOfLoaded(loads[..k]);
    FreeTraceFrees(loads[..k]);
    assert BackendFini !in phase && BackendFini !in frees;
    assert calls[..|calls| - 1] == [BackendInit] + phase + [Load(VoiceFiles[k])] + frees;
    forall i | 0 <= i < k
      ensures calls[2 * k + 2 + i] == Free(loads[i].value)
    {
      assert calls[2 * k + 2 + i] == frees[i];
    }
  }

  /** Two consecutive finis leave the same state and log as one. */
  method FiniTwice(s: Scheduler)
    requires s.Valid()
    modifies s`inited, s`backendUp, s`tickerRunning, s`trace, s.handles
    ensures s.Valid() && !s.inited
    ensures forall i :: 0 <= i < NumMsgs ==> s.handles[i] == None
    ensures !old(s.inited) ==> unchanged(s) && unchanged(s.handles)
    ensures old(s.inited) ==>
              s.trace == old(s.trace) + [StopTicker] + FreeTrace(old(s.handles[..])) + [BackendFini]
  {
    s.Fini();
    s.Fini();
  }
}
