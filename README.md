# X-TCAS advisory-voice scheduler, modelled in Dafny

This project models the sound scheduler of X-TCAS (`src/snd_sys.c`). The
scheduler owns a fixed table of 14 pre-recorded TCAS voice messages
(`voice_msgs`: file name, loaded WAV handle). It also keeps three global flags:
- `inited`;
- `sound_is_on`, the mute gate;
- `cur_msg`, a one-slot request mailbox where -1 means "nothing pending".

Each flight-loop tick is meant to re-evaluate a power predicate to mute or
unmute all messages, and then play the requested message. As written, the tick
does neither for a pending request and reads before the table when none is
pending (see "## Findings"). Initialisation is
all-or-nothing: it loads every file in table order, and on a failed load it
frees what it loaded and shuts the audio backend down. Teardown is idempotent.
It unregisters the tick before it frees anything.

The model is imperative, as the C code is:

- `Backend` (backend.dfy) holds the calls the scheduler makes into its
  collaborators as a `Call` datatype. These are OpenAL init and fini, WAV
  load, free, set-gain and play, one evaluation of the power predicate, and
  flight-loop registration and unregistration. It also gives the exact call
  sequence each loop of the scheduler produces (`GainWrites`, `LoadPhase`,
  `FreeTrace`) and the index where loading stops (`FirstFailure`). Lemmas say
  what those sequences mean: which entries are touched, in what order, with
  what value.
- `SndSys` (snd_sys.dfy) holds the class `Scheduler`. Its fields are:
  - the `handles` array (`voice_msgs[i].wav`; `None` is NULL);
  - the `gains` array (0 or 1, standing for 0.0 and 1.0);
  - `inited`, `soundIsOn` and `curMsg`;
  - `backendUp` and `tickerRunning`;
  - `trace`, the log of calls made so far.

  `Valid()` holds the invariants: every gain is 0 or 1. After a successful
  init, every handle is non-null and all gains are equal. Otherwise, every
  handle is null and the backend and the ticker are down. Each C function is a
  method whose `ensures` gives the new table, flags and call log in terms of
  the old ones.
- `SndSysScenarios` (scenarios.dfy) holds scenario methods on a fresh
  scheduler. Each returns the calls and table state that the contracts of the
  methods it calls determine. Each one shows a documented behaviour, or one of
  the source defects listed under "## Findings".

The audio backend's answers are parameters of `Init`: `backendOk` is what
`xtcas_openal_init` returns, and `loads[i]` is what `xtcas_wav_load` returns
for entry i. The power predicate `sound_on()` is a `bool` argument of each
tick.

Two points about the tick's order and control flow, as the code has them:
- The gate is refreshed (src/snd_sys.c:106-112) before anything is played
  (src/snd_sys.c:115), and `Tick` keeps that order.
- The tick returns early exactly when a request is pending
  (src/snd_sys.c:98-99). `TickAsWritten` models this as written, and `Tick`
  corrects it (see "## Findings").

## Model

| member | source | states |
|---|---|---|
| `Backend.FirstFailure` | src/snd_sys.c:157-167 | The load loop stops at the first entry the loader returns NULL for, or runs to the end of the table: every earlier entry loaded and that entry did not. |
| `Backend.GainWritesAt` | src/snd_sys.c:68-73 | `set_sound_on` writes a gain to every entry 0..N-1 exactly once, in index order, and always the same value. |
| `Backend.LoadPhaseAt` | src/snd_sys.c:157-170 | Init loads the entries in table order. Entry i's load (of its own file) is immediately followed by setting its gain to 1.0, and the load phase makes no other call. |
| `Backend.FreeTraceFrees` | src/snd_sys.c:186-191 | The free loop frees a handle exactly when some entry holds it, and it makes no other call. So NULL entries are skipped and no handle is missed. |
| `Backend.FreeTraceOfLoaded` | src/snd_sys.c:211-216 | When every entry is loaded, as during fini, the i-th free is of entry i's handle. |
| `Backend.FreeTraceSkipsUnloaded` | src/snd_sys.c:186-191 | NULL entries after the failure point add no free. So the rollback frees exactly the entries loaded before the failure. |
| `SndSys.VoiceFilesDistinct` | src/snd_sys.c:40-53 | The file column of `voice_msgs` (`VoiceFile`, in table order): no two of the 14 messages share a file. |
| `SndSys.LoadedExactlyWhileInited` | src/snd_sys.c:56-58 | The scheduler invariant (`Valid`: `TableValid` and `GainsValid`) on the globals. Every handle is non-NULL exactly while `inited` holds, which is exactly while the backend is up and the tick is registered. While inited, all gains are one value, 0.0 or 1.0. `GainsAgree` (every gain matches `sound_is_on`) is not part of the invariant: `Init` as written can break it (see "## Findings"), and `RefreshGate`, `Tick` and `InitResettingGate` restore it. |
| `SndSys.Scheduler.constructor` | src/snd_sys.c:39-58 | Initial state: every handle is NULL, not initialised, sound on, no request pending, no backend call made. |
| `SndSys.Scheduler.SetSoundOn` | src/snd_sys.c:68-73 | Every gain becomes 1 if the flag holds and 0 otherwise. The calls are exactly one gain write per entry, in order. |
| `SndSys.Scheduler.PlayMsg` | src/snd_sys.c:75-84 | Requires `0 <= msg < RA_NUM_MSGS`. The slot is overwritten unconditionally with `msg`, so the last write wins. |
| `SndSys.Scheduler.RefreshGate` | src/snd_sys.c:106-112 | The gate is level-triggered. The predicate is evaluated exactly once. Afterwards `soundIsOn` equals the predicate. If the flag already matched, no gain is written. Otherwise every gain is set to the predicate's value, in order. A flip always leaves the gains agreeing with the flag, and agreement is preserved. |
| `SndSys.Scheduler.Dispatch` | src/snd_sys.c:98-115 | The slot is drained. A pending message is played exactly once. The sentinel is never used as an index. |
| `SndSys.Scheduler.Tick` | src/snd_sys.c:86-119 | The tick as intended: one predicate evaluation, the gate writes of a flip, and then one play of the pending message if there is one. Afterwards the slot is empty and `soundIsOn` equals the predicate. |
| `SndSys.Scheduler.TickAsWritten` | src/snd_sys.c:90-116 | The tick as written. With a request pending it changes nothing: no play, no clear, no gate refresh. With none pending it polls the predicate once and sets `soundIsOn` to it. With no flip the gains are unchanged; after a flip every gain is the predicate's value. It then indexes the table with -1, which is outside `[0, N)`. |
| `SndSys.Scheduler.LoadTable` | src/snd_sys.c:157-170 | Each entry is NULL before it is loaded. Entries before the stop index hold their loaded handles with gain 1.0. The failing entry and all later ones stay NULL with their gains untouched. The calls are the load phase plus the failing load. |
| `SndSys.Scheduler.FreeTable` | src/snd_sys.c:211-216 | Every handle becomes NULL, and the calls are exactly the frees of the non-NULL entries in table order. |
| `SndSys.Scheduler.Init` | src/snd_sys.c:146-195 | Requires `!inited`. Init succeeds exactly when the backend starts and every file loads. If the backend fails, the table and flags are unchanged. On success every handle is the loaded one, every gain is 1.0, the tick is registered and `inited` holds. On a failed load at k, all handles are NULL, exactly the first k are freed, the backend is shut down once as the last call, and `inited` stays false. `sound_is_on` is never touched. |
| `SndSys.Scheduler.InitResettingGate` | src/snd_sys.c:146-195 | The corrected init. It promises everything `Init` does: the success condition, the table, the gains and the call log on each of the three paths. It also sets the gate flag on success, so the gains agree with `soundIsOn` afterwards. |
| `SndSys.Scheduler.Fini` | src/snd_sys.c:197-222 | With `!inited`, nothing changes. Otherwise the ticker stops before any free, every handle is freed and nulled, the backend is shut down once, and `inited` becomes false. |
| `SndSys.FiniTwice` | src/snd_sys.c:202-203 | Two finis in a row have exactly the effect of one. |
| `SndSys.RollbackFreesLoadedAndShutsDownOnce` | src/snd_sys.c:157-194 | For any failing entry k, the failed init makes 3k+3 calls. The frees are of the k loaded handles, in table order. The backend shutdown is the last call and appears nowhere before it. |
| `SndSysScenarios.RequestPlayedOnceWhenPowered` | src/snd_sys.c:76-115 | With the corrected tick, when powered, a request is played exactly once on the next tick, and the gains stay 1.0. |
| `SndSysScenarios.MutedRequestStillDispatched` | src/snd_sys.c:106-115 | With the corrected tick, when unpowered, a tick mutes all gains to 0. A later request is still played, at gain 0. |
| `SndSysScenarios.LastRequestWins` | src/snd_sys.c:76-84 | With the corrected tick, of two requests before a tick only the later one is played, and the slot is then empty. |
| `SndSysScenarios.MissingFileRollsBack` | src/snd_sys.c:157-194 | With file 4 missing, init fails. Handles 0-3 are freed in order. The backend is shut down once, as the last call. Nothing stays loaded. |
| `SndSysScenarios.RetryAfterRollbackSucceeds` | src/snd_sys.c:146-194 | After a rolled-back init, a retry with every file present succeeds and holds every loaded handle. |
| `SndSysScenarios.FiniTwiceAsOnce` | src/snd_sys.c:197-222 | After a successful init, fini logs the ticker stop, the 14 frees in order and one shutdown. A second fini adds nothing. |
| `SndSysScenarios.PendingRequestStuckAsWritten` | src/snd_sys.c:98-99 | As written, a pending request survives two ticks unplayed and uncleared. The gate is not refreshed although power is off, so the gains stay 1.0. |
| `SndSysScenarios.IdleTickIndexesBeforeTable` | src/snd_sys.c:100-115 | As written, a tick with nothing pending indexes `voice_msgs` with -1. |
| `SndSysScenarios.MutedReinitAudibleAsWritten` | src/snd_sys.c:90-183 | As written, the sequence init, unpowered as-written tick, fini, init, unpowered as-written tick leaves `sound_is_on` false with every gain at 1.0: audible while unpowered. |
| `SndSysScenarios.MutedReinitSilentWhenReset` | src/snd_sys.c:106-112 | The same sequence using `InitResettingGate` ends muted: `soundIsOn` false and every gain 0. |

## Findings

| source | as written | input that shows it | evidently intended | confidence | as-written member | corrected member |
|---|---|---|---|---|---|---|
| src/snd_sys.c:98-99 | The tick returns early exactly when a request is pending, without playing or clearing it. From then on no tick plays or refreshes the gate. | `xtcas_play_msg(3)`, then ticks with the power predicate false | Play the pending message once, clear the slot, and refresh the gate on every tick | high (not executed) | `SndSysScenarios.PendingRequestStuckAsWritten` | `SndSys.Scheduler.Tick` |
| src/snd_sys.c:115 | With nothing pending the tick plays `voice_msgs[msg]` with `msg == -1`, an out-of-bounds read | any tick while `cur_msg == -1` | Play only when a message was drained from the slot | high (not executed) | `SndSysScenarios.IdleTickIndexesBeforeTable` | `SndSys.Scheduler.Dispatch` |
| src/snd_sys.c:168 | Init sets every gain to 1.0 but leaves `sound_is_on` as it was, so a muted flag survives fini and re-init. The gate then never mutes again while power stays off. | init, tick with power off, fini, init, tick with power off | Init also sets `sound_is_on` true, matching the gains it writes | medium (not executed) | `SndSysScenarios.MutedReinitAudibleAsWritten` | `SndSys.Scheduler.InitResettingGate` |

## Left out

- The self-hosted worker thread, its mutex, condition variable and timed wait (`snd_sched_loop`, `shutdown_worker`, src/snd_sys.c:121-144, 176-178, 208) are concurrency. The ticker is the `tickerRunning` flag plus the `StartTicker`/`StopTicker` calls. Serialisation of ticks is not modelled.
- The atomicity of the request slot against concurrent producers is a concurrency property and is not modelled.
- The test-build branch of `xtcas_play_msg` (src/snd_sys.c:82), which plays at once instead of filling the slot, is not modelled; the host build is.
- The flight-loop callback's arguments (elapsed times, counter, refcon), its float return value `-1.0` and the registration delay are host-scheduler plumbing, reduced to the `StartTicker`/`StopTicker` calls.
- Storing the predicate in `sound_on` (src/snd_sys.c:172) is not modelled. The predicate's value is passed to each tick instead, because src/xplane.h only declares the power functions; their bodies are not part of this model.
- `mkpathname`, `free(pathname)` and `dbg_log` are path building, memory and logging. A load is recorded with the table file name, not the full path.
- The backend itself (OpenAL, WAV decoding) is outside the model. Its answers are the parameters `backendOk` and `loads`, where `loads` gives one answer per table entry. Gains are the integers 0 and 1 instead of floats. Handles are natural numbers instead of pointers. Gain writes and plays are logged by table index.
- The `ASSERT`s of the source (src/snd_sys.c:78, 92, 151, 160) are preconditions or proved assertions, not aborts.
- `Tick` reads the request slot after refreshing the gate, whereas the C code reads it first (src/snd_sys.c:90). The gate never touches the slot, so the two orders have the same effect.
- VoiceFilesDistinct: the call log names each load's file as `VoiceFiles[i]`, where `VoiceFiles` is `seq(NumMsgs, VoiceFile)`. The verifier does not reduce `VoiceFiles[i]` to `VoiceFile(i)`, so no contract proves which file a `Load` names. Distinctness is therefore proved about `VoiceFile` and does not carry over to the loads in the log.
- TickAsWritten: the out-of-bounds play at src/snd_sys.c:115 is not modelled as a call. The method returns the index that would be read instead, so the log does not show what the read would do.
