/**
 * The audio backend and host hooks that the advisory-voice scheduler talks to,
 * seen only through the calls it makes. Every foreign call of the scheduler is
 * appended to a log of `Call`s; the functions below give the exact shape of the
 * log that each loop of the scheduler produces, and the lemmas say what those
 * shapes mean (which entries are touched, in which order, with which value).
 */
module Backend {

  datatype Option<T> = None | Some(value: T)

  /** An opaque WAV resource as returned by the backend's loader. */
  type Handle = nat

  /** One call from the scheduler into a collaborator. */
  datatype Call =
    | BackendInit                         // xtcas_openal_init
    | BackendFini                         // xtcas_openal_fini
    | Load(file: string)                  // xtcas_wav_load of one table file
    | SetGain(msg: nat, gain: int)        // xtcas_wav_set_gain on table entry `msg`
    | Free(handle: Handle)                // xtcas_wav_free
    | Play(msg: nat)                      // xtcas_wav_play on table entry `msg`
    | PollPower                           // one evaluation of the power predicate
    | StartTicker                         // flight-loop callback registered
    | StopTicker                          // flight-loop callback unregistered

  /** The gain written for a mute flag: 1.0 when sound is on, 0.0 when off. */
  function GainOf(on: bool): (g: int)
    ensures g == 0 || g == 1
    ensures g == 1 <==> on
  {
    if on then 1 else 0
  }

  /** The table with no resource loaded. */
  function Unloaded(n: nat): (hs: seq<Option<Handle>>)
  {
    seq(n, _ => None)
  }

  /** Calls made by setting the gain of entries 0 .. n-1, in index order. */
  function GainWrites(n: nat, g: int): (calls: seq<Call>)
  {
    if n == 0 then [] else GainWrites(n - 1, g) + [SetGain(n - 1, g)]
  }

  /** Calls made by successfully loading entries 0 .. k-1: a load, then a gain of 1.0. */
  function LoadPhase(files: seq<string>, k: nat): (calls: seq<Call>)
    requires k <= |files|
  {
    if k == 0 then [] else LoadPhase(files, k - 1) + [Load(files[k - 1]), SetGain(k - 1, 1)]
  }

  /** Calls made by freeing, in table order, every non-null entry of `hs`. */
  function FreeTrace(hs: seq<Option<Handle>>): (calls: seq<Call>)
  {
    if hs == [] then []
    else
      var last := hs[|hs| - 1];
      FreeTrace(hs[..|hs| - 1]) + (if last.Some? then [Free(last.value)] else [])
  }

  /**
   * The index at which loading stops: the first entry the loader could not
   * produce, or |loads| when every entry loads.
   */
  function FirstFailure(loads: seq<Option<Handle>>): (k: nat)
    ensures k <= |loads|
    ensures forall i :: 0 <= i < k ==> loads[i].Some?
    ensures k < |loads| ==> loads[k].None?
  {
    if loads == [] then 0
    else if loads[0].None? then 0
    else 1 + FirstFailure(loads[1..])
  }

  /** Writing the gains touches every entry exactly once, in order, with the same value. */
  lemma {:induction false} GainWritesAt(n: nat, g: int)
    ensures |GainWrites(n, g)| == n
    ensures forall i :: 0 <= i < n ==> GainWrites(n, g)[i] == SetGain(i, g)
  {
    if n > 0 {
      GainWritesAt(n - 1, g);
    }
  }

  /** Entries are loaded in table order, each followed by its gain of 1.0, and nothing else. */
  lemma {:induction false} LoadPhaseAt(files: seq<string>, k: nat)
    requires k <= |files|
    ensures |LoadPhase(files, k)| == 2 * k
    ensures forall i :: 0 <= i < k ==>
              LoadPhase(files, k)[2 * i] == Load(files[i]) &&
              LoadPhase(files, k)[2 * i + 1] == SetGain(i, 1)
    ensures forall c :: c in LoadPhase(files, k) ==> c.Load? || c.SetGain?
  {
    if k > 0 {
      LoadPhaseAt(files, k - 1);
      var prev := LoadPhase(files, k - 1);
      assert LoadPhase(files, k) == prev + [Load(files[k - 1]), SetGain(k - 1, 1)];
      forall i | 0 <= i < k
        ensures LoadPhase(files, k)[2 * i] == Load(files[i])
        ensures LoadPhase(files, k)[2 * i + 1] == SetGain(i, 1)
      {
        if i < k - 1 {
          assert LoadPhase(files, k)[2 * i] == prev[2 * i];
          assert LoadPhase(files, k)[2 * i + 1] == prev[2 * i + 1];
        }
      }
    }
  }

  /** A handle is freed exactly when it is held by some entry; nothing but frees is issued. */
  lemma {:induction false} FreeTraceFrees(hs: seq<Option<Handle>>)
    ensures forall c :: c in FreeTrace(hs) <==> c.Free? && Some(c.handle) in hs
  {
    if hs != [] {
      var init := hs[..|hs| - 1];
      FreeTraceFrees(init);
      assert hs == init + [hs[|hs| - 1]];
    }
  }

  /** When every entry is loaded, entry i is the i-th one freed. */
  lemma {:induction false} FreeTraceOfLoaded(hs: seq<Option<Handle>>)
    requires forall i :: 0 <= i < |hs| ==> hs[i].Some?
    ensures |FreeTrace(hs)| == |hs|
    ensures forall i :: 0 <= i < |hs| ==> FreeTrace(hs)[i] == Free(hs[i].value)
  {
    if hs != [] {
      FreeTraceOfLoaded(hs[..|hs| - 1]);
    }
  }

  /** Null entries at the end of the table cause no free. */
  lemma {:induction false} FreeTraceSkipsUnloaded(hs: seq<Option<Handle>>, n: nat)
    ensures FreeTrace(hs + Unloaded(n)) == FreeTrace(hs)
  {
    if n > 0 {
      FreeTraceSkipsUnloaded(hs, n - 1);
      var t := hs + Unloaded(n);
      assert t[..|t| - 1] == hs + Unloaded(n - 1);
      assert t[|t| - 1] == None;
    } else {
      assert hs + Unloaded(0) == hs;
    }
  }
}
