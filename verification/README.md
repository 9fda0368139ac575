# Verification of the laptop control daemon and its clients

A Dafny model of the parts of the repository where correctness is not visible
from one function body: the embedded controller (EC) driver under concurrent
threads, the daemon's settings machine over whole runs, the wire protocol, the
telemetry server's two formats, the GUI's poller, and four small kernels.

## How the model is built

**Ports to registers.** `EcPort` is the chip as a latch machine with the
driver's port sequences and a script of which port calls fail. `EcSchedule` puts
any number of threads, the I/O mutex and the watchdog's marker on top, one port
step at a time, and proves that every interleaving is a serial run of whole
batches on an atomic register file, and that every serial run is possible.
`SharedPairs` uses that for the values that take more than one access.

**Handlers.** `Handlers` adds the settings lock, which is only ever tried, and the
LED flag, which has no lock, and makes request handlers and events concurrent
programs over all three. `AtomicHandlers` proves that their error-free
interleavings of port steps are exactly the runs in which every batch happens at
once. `SetterRaces` and `LedRaces` use both directions to find exactly which
handlers may overlap without harm; `LedHandlers` ties the LED's programs to the
operation they stand for.

**Registers to settings.** `EcRegs` holds the address tables and `EcActs` the
ordered writes of every operation. `EcDevice` is the driver as a class whose
methods issue port calls and are proved to perform those writes, or a prefix of
them when a call fails. `Daemon` is the process as a class over it, with
`OnRequest` and `OnEvent` as its specification; its methods also cover a settings
lock that somebody else holds and saving that fails. `Coherence` and `DaemonRuns`
prove the properties of whole runs: registers, remembered settings, saved file
and the hidden LED flag. `FaultyRuns` does the same for the settings, and
`FaultyLed` for the LED, when port calls, the lock or saving may fail.
`DaemonAnswers` says what clients are told and which settings a restart brings
back, and `ChipFacts` says all of it in addresses and bytes.

**Bytes and messages.** `Codec` is a codec driven by record shapes, `Messages`
and `Wire` the repository's message types in it, `WireBytes` the same messages byte
by byte, `Framing` the framed stream and
`Session` both ends of a connection, as code and as two processes over two byte
queues. `Dialogue` puts the modelled daemon at one end. `TelemetryIngest` is the
server's decode cascade and its rows.

**Around them.** `Poller` (pause, resume, wake-up), `Calendar` (dates of log
files), `Versions` (update check), `TelemetryStore` (bounded history),
`Settings` and `Bytes` (shared types).

## Assumptions

- The chip: after `0x2E` a data byte selects which latch later data goes to,
  after `0x2F` it goes there; `0x11` is the high address byte, `0x10` the low
  one, `0x12` the addressed memory cell. A failing port call has no effect. The
  chip answers at one port pair; other ports read 0xFF. Between the daemon's
  writes, memory changes only where a property says so.
- The mutex is exclusive; the system clock may read anything.
- Saving creates the file, which may fail, and then writes a buffered record; an
  error while the buffer is flushed goes unnoticed and leaves no usable file.
- bincode's standard configuration, which is not in the repository: integers
  wider than a byte as one byte up to 250, else a marker 251, 252 or 253 and
  two, four or eight little-endian bytes; an enum as the index of its variant,
  then its fields; a text as its length, then its bytes, which must be UTF-8;
  trailing bytes are ignored. With a limit, each integer is charged the full
  width of its type and a text eight bytes and its length, before it is read.
- Tokio's `Notify`: one stored permit, as described in `Poller.dfy`.

## Where code and comments disagree

The model follows the code.

- daemon/src/ec/mod.rs:185-187 promises 0 when the lock is free. The marker is
  cleared after the mutex is released, so a free lock can show a nonzero marker
  (`EcSchedule.FreeLockLooksHeld`), and a late clear can make a held lock show 0
  (`EcSchedule.LateClearHidesTheHolder`). A holder's marker is reliable exactly
  while no thread is between the two (`EcSchedule.MarkIsStableIff`).
- gui/src/updates.rs:76-78 calls the comparison "strict-but-tolerant semver" that
  looks at numeric components only and takes anything after the patch for an older
  version. Where that departs from Semantic Versioning 2.0.0: two prereleases of one
  version compare equal (`Versions.SemVerIff`); build metadata, which precedence
  ignores, makes the patch number read as 0, adds components behind its dots and
  counts as a prerelease only if it has a dash (`Versions.MetadataIff`).
- daemon/src/ec/offsets.rs:135 gives the N155D bypass the address that line 99
  gives the CPU fan policy; registers and settings stay coherent over all runs
  exactly on the N155A table (`DaemonRuns.CoherentIffN155A`).
- The LED skip flag survives sleep and a failed automatic mode, so the LED is not
  always restored (`DaemonRuns.SleepThenWakeIff`, `Coherence.FailedAutoDisablesTheLed`).
- A setter writes registers and settings under two locks, so overlapping setters
  can leave one limit in each, and a setter that finds the settings locked leaves
  its writes behind (`SetterRaces.OverlappingSettersDiverge`,
  `SetterRaces.RefusedSetterLeavesItsWrites`). They are sure to agree exactly when
  all setters ask for one limit, and nobody else tries the settings or that limit is
  remembered already (`SetterRaces.SettersAgreeIff`).
- The LED flag is loaded and stored outside any lock, so overlapping automatic and
  other modes can leave it set over a cleared bypass, which the daemon then never
  writes again until the next automatic mode (`LedRaces.FlagSurvivesRacesIff`).
- Resetting to defaults sets the telemetry setting but not the worker's flag
  (`DaemonRuns.WorkerFollowsSettingIff`).
- gui/src-ui/stores/telemetry.ts:38 bounds the limit from below only: after NaN or
  infinity the history is never trimmed (`TelemetryStore.UnboundedIff`).

## Model

| member | source | states |
|---|---|---|
| EcPort.TransactionEffect | daemon/src/ec/mod.rs:229-276 | For every initial latch contents, the twelve port steps are exactly one access of the addressed register: memory changes as the access says, and a read delivers that register's byte. |
| EcPort.PartialTransactionLeavesMemory | daemon/src/ec/mod.rs:229-276 | A transaction cut after any number of steps short of the last has not touched memory; after eleven the latches address the register. |
| EcPort.ForeignPortIsInert | daemon/src/ec/mod.rs:127-152 | A transaction, or any part of one, at a port pair the chip does not answer at changes nothing and reads 0xFF. |
| EcPort.PortIo.ReadReg | daemon/src/ec/mod.rs:229-250 | Under any pattern of failing port calls memory is unchanged; a successful read at the chip's port returns the addressed byte whatever the latches held, and without faults it succeeds. |
| EcPort.PortIo.WriteReg | daemon/src/ec/mod.rs:253-276 | Under any pattern of failing port calls, success changes exactly the addressed byte and failure changes none. |
| EcSchedule.EveryInterleavingIsSerial | daemon/src/ec/mod.rs:157-183 | For any number of threads, any schedule of port steps, any faults and any initial latches, every finished batch read the values, and left the memory, of an atomic register file that runs the batches one by one in lock order; a failed batch counts with the accesses it completed. |
| EcSchedule.EverySerialOrderHappens | daemon/src/ec/mod.rs:157-183 | The converse: for every list of batches and threads there is a schedule whose log is the serial run of that list, ending with the lock free and every thread idle. |
| EcSchedule.RunAlone | daemon/src/ec/mod.rs:157-183 | From any reachable state with the lock free, any idle thread can run any batch to its end, with exactly that batch added to the log and all threads as before. |
| EcSchedule.EveryRequestRunsOnce | daemon/src/ec/mod.rs:157-183 | Each thread's finished batches, followed by the one it is busy with, are exactly the batches it asked for, in order. |
| EcSchedule.MarkerMeaning | daemon/src/ec/mod.rs:163-173 | In every run the held-since marker is nonzero exactly when the latest stamped batch has not been followed by any clear (and the clock did not read 0); then it is that batch's start and its thread is inside `with_batch`. It is 0 when no thread is inside. |
| EcSchedule.FreeLockLooksHeld | daemon/src/ec/mod.rs:170-198 | For every batch there is a run after which the lock is free and the marker is nonzero: the comment's "0 when it's currently free" fails. |
| EcSchedule.MarkIsStableIff | daemon/src/ec/mod.rs:163-173 | While a holder is running with a nonzero marker, no continuation changes the marker before the holder releases the lock exactly when no thread has released the lock without clearing the marker yet. |
| EcSchedule.LateClearHidesTheHolder | daemon/src/ec/mod.rs:170-198 | For every batch there is a run in which a thread holds the lock with a nonzero start time while the marker is 0: another thread cleared it after releasing the mutex. |
| EcSchedule.EveryScheduleDrains | daemon/src/ec/mod.rs:157-183 | Without new requests no schedule from a reachable state is longer than the remaining steps counted per thread. |
| EcSchedule.NoDeadlock | daemon/src/ec/mod.rs:157-183 | As long as some thread is not idle, some step other than a new request is enabled; with the settings lock as well, see `HandlersNeverDeadlock`. |
| EcSchedule.StoppedMemory | daemon/src/ec/mod.rs:229-276 | A batch that stops in the middle of a transaction has had the effect of its completed accesses and nothing else. |
| Handlers.HandlersNeverDeadlock | daemon/src/handlers.rs:93-128 | With both locks and under any errors: as long as a handler or event has something left to do, some move is enabled. Commands keep the settings locked around their batches, but the settings are only ever tried, never waited for. |
| Handlers.HandlersFinish | daemon/src/main.rs:59-121 | Under any scheduler and any faults handlers and events make at most as many moves as their remaining work amounts to. |
| Handlers.EventsIgnoreErrors | daemon/src/main.rs:81-92 | Wherever the LED operation of a power-down event fails, the event goes on with reading back and saving; where that of a request fails, the request ends without trying the settings. |
| Handlers.OnlyOwnErrorsStop | daemon/src/handlers.rs:178-184 | A handler gives up only after its own latest batch failed, and goes on only after it succeeded, whatever batches of others did. |
| Handlers.ProgramsArePaired | daemon/src/main.rs:62-92 | The programs of setters, restoring commands, LED requests and power-down events take the settings at most once at a time and always give them back. |
| AtomicHandlers.EveryRunIsAtomic | daemon/src/ec/mod.rs:154-183 | Every error-free interleaving of the port steps of any handlers is, in its finished batches, settings and flag, a run in which each batch happens at once. |
| AtomicHandlers.EveryAtomicRunHappens | daemon/src/ec/mod.rs:154-183 | The converse: each such run is that of some error-free interleaving of port steps. |
| SetterRaces.SettersAgreeIff | daemon/src/handlers.rs:169-184 | For any handlers of which some set a charge limit and the others run any other batches of the daemon and may lock the settings: all error-free runs end with registers and settings agreeing exactly when all setters ask for the same limit, and either no other handler tries the settings or that limit is remembered already. |
| SetterRaces.OverlappingSettersDiverge | daemon/src/handlers.rs:178-184 | For any two limits there is an error-free run of two overlapping setters that both succeed and leave the registers at one limit and the settings at the other. |
| SetterRaces.RefusedSetterLeavesItsWrites | daemon/src/handlers.rs:169-184 | For any two limits there is an error-free run in which a setter finds the settings locked and is refused, with its limit in the registers and the other one in the settings. |
| SetterRaces.LedHandlerIsValid | daemon/src/handlers.rs:213-219 | LED requests are among those other handlers, and they try the settings. |
| LedRaces.FlagSurvivesRacesIff | daemon/src/ec/hw/led.rs:6-70 | For any handlers that apply LED modes, each followed by anything that leaves bypass, multiplexer and flag alone, from a sound flag: all error-free runs end with a sound flag exactly when no mode is automatic, or all are, or the flag is set at first and only one mode is automatic. |
| LedHandlers.LedProgramPerforms | daemon/src/ec/hw/led.rs:18-70 | On its own, an LED handler of the concurrent model leaves the registers and the flag exactly as `apply_led_mode` does, whatever they held. |
| LedHandlers.ReadingsSuffice | daemon/src/main.rs:62-75 | What a power-down event remembers depends only on the cells its concurrent program reads. |
| SharedPairs.FanPairsNeverMix | daemon/src/ec/hw/fan.rs:5-26 | In every concurrent fault-free run of the daemon's batches, whenever the lock is free each fan's (policy, duty) pair is its initial pair or exactly the pair of one requested mode, with duty at most 220. |
| SharedPairs.TornLimitReadNeverMixes | daemon/src/ec/hw/flexicharger.rs:5-24 | With any batches of other threads between the two unbatched reads, what the read decodes to is nothing or the limit in force at the second read, and that limit was in force at the first read exactly when the pair in force then was a predefined one. |
| SharedPairs.TornReadCanMissTheFirst | daemon/src/ec/hw/flexicharger.rs:5-24 | For every table, limit and initial pair with that limit's minimum beside another maximum, there is a run in which one thread reads the limit although it was not in force at the first read. |
| SharedPairs.HalvesIdentifyTheLimit | ipc/src/structs.rs:94-103 | Two predefined limits share a minimum, or a maximum, only if they are the same limit. |
| SharedPairs.TornKeyboardReadWasInForce | daemon/src/ec/hw/kbd_backlight.rs:5-18 | With any batches of other threads between the two unbatched reads of a custom keyboard level, the level reported was in force at some moment from the first read to the second. |
| SharedPairs.TornKeyboardReadCanMissBoth | daemon/src/ec/hw/kbd_backlight.rs:5-18 | That moment need be neither read: for every two custom values and preset there is a run in which the level reported is in force at neither. |
| EcRegs.DistinctIffN155A | daemon/src/ec/offsets.rs:86-139 | For every HRAM base the daemon tries, the table keeps all registers the model names, chip ids and PWM clock included, at different addresses exactly on the N155A layout. |
| EcActs.BatteryByteTouchesTwoBits | daemon/src/ec/hw/led.rs:72-89 | The port A byte written keeps every bit but bits 1 and 2, which are the low-active orange and white LEDs. |
| EcActs.OperationsStayWithin | daemon/src/ec/hw/kbd_backlight.rs:20-43 | Each hardware operation writes only registers of its own setting, for every argument and either value of the LED flag. |
| EcActs.FaultIsolation | daemon/src/ec/mod.rs:229-288 | A failing operation, wherever it stops, leaves every register of every other setting as it was. |
| EcDevice.EcDevice.ApplyKeyboardBacklight | daemon/src/ec/hw/kbd_backlight.rs:20-43 | Performs the operation's writes in order: all of them on success, a proper prefix on failure. |
| EcDevice.EcDevice.ReadKeyboardBacklight | daemon/src/ec/hw/kbd_backlight.rs:5-18 | Without faults returns the level the registers encode, and fails exactly for a code that is none. |
| EcDevice.EcDevice.ApplyLedMode | daemon/src/ec/hw/led.rs:18-70 | Performs the mode's writes and its store of the flag in order, skipping bypass and multiplexer exactly when the flag is set; a proper prefix of them on failure. |
| EcDevice.EcDevice.ApplyBatteryLeds | daemon/src/ec/hw/led.rs:72-89 | Reads port A and writes it back with the two LED bits replaced; a failure leaves all registers. |
| EcDevice.EcDevice.ApplyPowerProfile | daemon/src/ec/hw/power_profile.rs:5-11 | On success the profile register holds the profile's code and nothing else changed; on failure nothing changed. |
| EcDevice.EcDevice.ReadPowerProfile | daemon/src/ec/hw/power_profile.rs:13-21 | Without faults decodes codes 1, 2 and 3 and fails on every other byte. |
| EcDevice.EcDevice.ReadChargeLimit | daemon/src/ec/hw/flexicharger.rs:5-9 | Returns the minimum and the maximum register, in that order, and changes nothing. |
| EcDevice.EcDevice.ApplyChargeLimit | daemon/src/ec/hw/flexicharger.rs:15-24 | Writes minimum, then maximum; a proper prefix on failure. |
| EcDevice.EcDevice.ApplyFanMode | daemon/src/ec/hw/fan.rs:5-26 | Refuses a duty over 220 without touching any register; otherwise writes policy, then duty, a proper prefix on failure. |
| EcDevice.EcDevice.ReadFanRpm | daemon/src/ec/hw/getters.rs:13-25 | Combines each fan's two bytes, most significant first, and changes nothing. |
| EcDevice.EcDevice.ReadTemperatures | daemon/src/ec/hw/getters.rs:27-33 | Returns the two temperature cells and changes nothing. |
| EcDevice.EcDevice.ReadSystemInfo | daemon/src/ec/hw/getters.rs:4-11 | Returns the two chip ids and the revision, in that order, and changes nothing. |
| EcDevice.ProbeChip | daemon/src/ec/mod.rs:127-152 | Never writes chip memory; outside insecure mode it succeeds only at the port where a known chip answers, and without faults exactly then; in insecure mode it falls back to the last port probed. |
| EcDevice.DetectWindow | daemon/src/ec/mod.rs:102-116 | Without faults returns the first base whose temperature cell lies strictly between 0x10 and 0x50, and fails when there is none. |
| EcDevice.Open | daemon/src/ec/mod.rs:41-124 | Whatever port calls fail, chip memory is untouched and a success is at the chip's port with a window whose temperature cell is plausible; its bypass is at offset 0x4F, and its table has a collision, exactly when the board's name contains N155D and neither N155A nor N155C. Without faults it succeeds exactly when one of the five known ids answers at one of the three ports (or insecure mode ends on its port) and a window is found, which is then the first plausible one. |
| EcDevice.TableByName | daemon/src/ec/mod.rs:45-62 | For every name and window: the chosen table has the bypass at 0x4F exactly for names with N155D and without N155A and N155C, at 0x55 otherwise, and is free of collisions exactly in the second case. |
| Settings.FromPredefinedInverts | ipc/src/structs.rs:94-117 | `from_predefined` returns a limit exactly for that limit's own pair. |
| Settings.BreathBytesAreInjective | daemon/src/ec/hw/led.rs:51-62 | The two packed control bytes determine all five fields of a breathing configuration. |
| Messages.NamesIdentifyTheChip | daemon/src/handlers.rs:148-155 | The formatted chip name and revision, and the formatted firmware name, determine the three identifier bytes. |
| Messages.NamesSpellTheChip | daemon/src/handlers.rs:151-152 | They read back as the identifiers in capital hexadecimal after `IT`, most significant digit first. |
| Messages.ValidUtf8Iff | ipc/src/structs.rs:341-367 | A byte string is accepted as text exactly when it is the UTF-8 encoding of some sequence of code points. |
| Daemon.Daemon.constructor | daemon/src/main.rs:153-156 | Opening the process over arbitrary registers and any file remembers what was loaded or the defaults and performs a prefix of the restoration, all of it if the restoration is reported as done; without faults it ends in the world the specification gives, and reports the restoration done exactly when no stored fan duty is over 220. |
| Daemon.StartDaemon | daemon/src/main.rs:153-170 | The whole start-up: it is given up only when telemetry is on and the chip cannot be identified, then without a message and after part of the restoration; otherwise it ends as above. Without faults it succeeds, and the start-up message names the firmware and window exactly when telemetry is on. |
| Daemon.Daemon.RestoreState | daemon/src/handlers.rs:44-52 | Performs the six stages in order and stops at the first failure, having performed a prefix of all writes; without faults it fails exactly when a stored fan duty is over 220. |
| Daemon.Daemon.ReadAndSaveState | daemon/src/main.rs:62-75 | Changes no register. With the settings locked by somebody else nothing changes; otherwise each of keyboard, profile and charge limit is kept or replaced by what the registers encode, always the latter without faults if they encode anything, and the file becomes the result, stays, or is unusable as saving went. |
| Daemon.Daemon.SaveOnReset | daemon/src/main.rs:40-49 | The file becomes the settings when they are not locked and saving works, stays when they are locked or the file cannot be created, and is unusable when the record was torn; nothing else changes. |
| Daemon.Daemon.ProcessEvent | daemon/src/main.rs:77-121 | Without faults, contention or failing saves leaves the world the event's specification gives, for all six events. On the chip's memory: with the charger connected bit 2 of port A is 0 exactly when the charge has reached the maximum limit and bit 1 exactly when it has not, with the charger disconnected both are 1, and no other bit or register changes; under faults that or nothing. Otherwise registers get a prefix of the event's writes, and only the overrides touch settings and file, and only when the settings are free. |
| Daemon.Daemon.SetChargeLimit | daemon/src/handlers.rs:178-184 | The setting is remembered exactly when the answer is a success, which it is exactly when all writes worked and the settings were free afterwards; otherwise only a prefix of the writes happened (all of them when the settings were locked). |
| Daemon.Daemon.SetKeyboardBacklight | daemon/src/handlers.rs:186-192 | The setting is remembered exactly when the answer is a success, which it is exactly when all writes worked and the settings were free afterwards; otherwise only a prefix of the writes happened. |
| Daemon.Daemon.SetFanMode | daemon/src/handlers.rs:194-203 | The named fan's mode is remembered exactly when the answer is a success, which it is exactly when the duty is allowed, both writes worked and the settings were free afterwards; a refused duty changes nothing. |
| Daemon.Daemon.SetPowerProfile | daemon/src/handlers.rs:205-211 | The setting is remembered exactly when the answer is a success, which it is exactly when all writes worked and the settings were free afterwards; otherwise only a prefix of the writes happened. |
| Daemon.Daemon.SetLedMode | daemon/src/handlers.rs:213-219 | The setting is remembered exactly when the answer is a success, which it is exactly when all writes worked and the settings were free afterwards; otherwise only a prefix of the writes happened. |
| Daemon.Daemon.ProcessDaemonCommand | daemon/src/handlers.rs:93-128 | Reset, telemetry switch, apply and the two queries: without faults, contention or failing saves the specified world and answer; otherwise the specified answer or an error, settings, file and worker determined by whether the settings were free and how saving went, and registers with a prefix of the restoration, all of it unless the answer is an error. What the specified answers are: `RequestChangesTheReport`. |
| Daemon.Daemon.DoWork | daemon/src/handlers.rs:55-91 | Every request the daemon implements leaves the specified world and response without faults, contention or failing saves; otherwise the answer is the specified one or an error, registers get a prefix of the request's writes, all of them unless the answer is an error, and a setter or getter that fails leaves settings, file and worker as they were. In numbers: `SettersStore` and the getters' rows. |
| Coherence.LedAppliesIff | daemon/src/ec/hw/led.rs:18-70 | Applying a mode makes the LED registers encode it exactly when the mode is automatic or the flag is sound (set only while bypass is 1 and the multiplexer 0); the flag ends set exactly for the other two modes, and stays sound. |
| Coherence.SkippingIsInvisible | daemon/src/ec/hw/led.rs:29-44 | With a sound flag, the skipping operation ends in the same registers and flag as one that always writes bypass and multiplexer. |
| Coherence.FlagSoundUnderFaultsIff | daemon/src/ec/hw/led.rs:20-25 | Over every mode and every point of failure, the flag stays sound except when an automatic mode with the flag set fails after clearing the bypass and before clearing the flag. |
| Coherence.FailedAutoDisablesTheLed | daemon/src/ec/hw/led.rs:20-36 | After exactly such a failure, and any further sequence of custom and animated modes, the flag is still set, the bypass still 0 and the last of those modes not shown. |
| Coherence.RestoreEstablishes | daemon/src/handlers.rs:44-52 | On arbitrary registers, restoring makes keyboard, profile, charge and both fans encode the settings, and the LED too exactly when its mode is automatic or the flag was sound. |
| DaemonRuns.CoherenceOverRuns | daemon/src/main.rs:59-121 | From any registers and any admissible file, after any sequence of requests, events, connection resets and restarts without faults: keyboard, profile, charge and fan registers encode the remembered settings, the LED registers encode the last mode applied or override, the flag is sound, and no remembered or saved duty exceeds 220. |
| DaemonRuns.CoherenceOnN155A | daemon/src/ec/offsets.rs:86-132 | The same for the real N155A table in all five windows, LED, flag and saved file included, with both duty registers at most 220. |
| DaemonRuns.ServeKeepsInv | daemon/src/handlers.rs:93-219 | Each single request, event, reset or restart keeps that invariant and moves what the LED shows as stated. |
| DaemonRuns.ReadBackIsFixpoint | daemon/src/main.rs:62-75 | On coherent registers `read_and_save_state` stores what is remembered already. |
| DaemonRuns.EventsKeepSettings | daemon/src/main.rs:77-112 | On coherent registers no event changes a setting, and the three power-down events save exactly the settings. |
| DaemonRuns.GettersReportTheSettings | daemon/src/handlers.rs:132-146 | On coherent registers the getters answer with the remembered settings and change nothing. |
| DaemonAnswers.ReportIsCoherent | daemon/src/handlers.rs:122-123 | Over whole fault-free runs from a start: GetSettings answers with one record, with which the registers are coherent and whose duties are at most 220, GetTelemetryId with that record's id, and neither changes anything. |
| DaemonAnswers.StartReportsTheFile | daemon/src/main.rs:153-156 | After a start both answer from the file as it is, or from the eight default values if there is none. |
| DaemonAnswers.RequestChangesTheReport | daemon/src/handlers.rs:93-219 | In every world: an accepted setter is answered with Success, and the next GetSettings has the requested value in its field and the previous one in the seven others; a fan duty over 220 is answered with an error and changes nothing; the telemetry switch changes its field and answers Success or TelemetryDisabledInfo; a reset answers Success and gives the eight defaults. |
| DaemonAnswers.FileIsTheLastSave | daemon/src/main.rs:40-49 | Over whole runs the file holds the settings as of the last connection reset, power-down event, reset to defaults or telemetry switch, and is untouched before the first. |
| DaemonAnswers.RestartReportsTheLastSave | daemon/src/main.rs:153-156 | After a restart over any registers, GetSettings answers with the settings as of that input. |
| DaemonRuns.HibernateThenWake | daemon/src/main.rs:81-96 | After hibernating, any inputs that apply no LED mode mixed with any number of losses of all registers, and a wake-up, every register including the LED's encodes the settings, from any earlier state of registers and flag. |
| DaemonRuns.WakeOverLostRegisters | daemon/src/main.rs:94-96 | Waking over arbitrary registers re-establishes everything, the LED exactly when its mode is automatic or the flag is sound for the new registers. |
| DaemonRuns.SleepThenWakeIff | daemon/src/main.rs:86-96 | After sleep, loss of all registers and wake-up, the LED shows its setting exactly when the mode is automatic or the lost memory happens to hold bypass 1 and multiplexer 0; the other settings always do. |
| DaemonRuns.SettingsSurviveReboot | daemon/src/main.rs:148-173 | Shutting down and starting again over arbitrary registers gives back every setting, in memory and in the registers, LED included. |
| DaemonRuns.SkippingRefinesEager | daemon/src/ec/hw/led.rs:18-70 | Over whole fault-free runs, registers, settings, file and worker are those of a daemon that never skips a write. |
| DaemonRuns.N155DLosesTheFanPolicy | daemon/src/ec/offsets.rs:134-139 | On every N155D layout, from any world whose flag is clear, setting the CPU fan by hand and then taking over the LED breaks coherence: bypass and CPU fan policy share an address. |
| DaemonRuns.CoherentIffN155A | daemon/src/ec/offsets.rs:86-139 | For every window the daemon looks for: all runs from all starts with an admissible file are coherent exactly on the N155A table. |
| DaemonRuns.SharedBypassLosesTheFanPolicy | daemon/src/ec/offsets.rs:99-135 | For any table in which bypass and CPU policy coincide, that run leaves policy 1 whatever mode was asked for. |
| DaemonRuns.RegistersDetermineSettings | daemon/src/handlers.rs:44-52 | Registers that encode two settings records encode the same keyboard, profile, charge limit and LED mode and the same fan pairs. |
| DaemonRuns.FanPairCollides | daemon/src/ec/hw/fan.rs:11-20 | Two fan modes write the same pair exactly when they are equal or are full speed and custom 150. |
| DaemonRuns.WorkerFollowsSettingIff | daemon/src/handlers.rs:95-115 | Over whole runs the telemetry worker's enable flag equals the setting exactly unless the defaults were restored while the worker was off and neither a switch nor a restart followed. |
| ChipFacts.SettersStore | daemon/src/ec/hw/led.rs:18-70 | On every N155A window each setter stores exactly the listed cells, address by address, byte by byte and in order, for every argument and either value of the flag: keyboard, LED, profile, limits and fans. |
| ChipFacts.SpeedsRead | daemon/src/ec/hw/getters.rs:13-25 | GetFansRPM answers 256 times cell 0x76 plus cell 0x77 for the CPU fan, and 0x79 and 0x7A for the other. |
| ChipFacts.TemperaturesRead | daemon/src/ec/hw/getters.rs:27-33 | GetTemperatures answers cells 0x70 and 0x62. |
| ChipFacts.LimitsRead | daemon/src/ec/hw/flexicharger.rs:5-13 | GetChargeLimit answers cells 0xBC, 0xBB and 0x93. |
| ChipFacts.SystemRead | daemon/src/handlers.rs:148-155 | GetSystemState answers from cells 0x2000 to 0x2002 and names the window. |
| ChipFacts.ProfileRead | daemon/src/ec/hw/power_profile.rs:13-21 | GetPowerProfile decodes cell 0xB1 as 1, 2 or 3 and answers an error for every other byte. |
| ChipFacts.KeyboardRead | daemon/src/ec/hw/kbd_backlight.rs:5-18 | GetKeyboardBacklight decodes cell 0x0F05, or 0xCF05 in window 0xC400, as 0 to 3 or 0xFF with cell 0x1806, and answers an error for every other byte. |
| ChipFacts.PowerDownStores | daemon/src/main.rs:81-84 | Shutdown and hibernation store 0 in the bypass and switch the animation engine off. |
| ChipFacts.SleepStores | daemon/src/main.rs:86-92 | Sleep takes the LED over unless the flag is set and starts the breathing 0x00, 0x34. |
| ChipFacts.PowerDownRemembers | daemon/src/main.rs:62-92 | From any registers, the three power-down events remember the level, profile and limit that cells 0x0F05 (or 0xCF05) and 0x1806, 0xB1, 0xBC and 0xBB encode, each only if they encode one, keep the other five settings and save the result. |
| ChipFacts.WakeStores | daemon/src/main.rs:94-96 | Waking up stores the cells of keyboard, LED, profile, limits and fans in this order, and stops before a fan whose duty is over 220. |
| ChipFacts.ApplyStores | daemon/src/handlers.rs:117-121 | ApplySettings stores the same cells. |
| ChipFacts.StartStores | daemon/src/main.rs:153-156 | A start stores the same cells for the loaded settings, with the take-over, since the flag is clear. |
| ChipFacts.DefaultsStore | daemon/src/handlers.rs:95-101 | A reset, and a start without a file, store the twelve listed cells of the defaults. |
| FaultyRuns.FailuresStayLocal | daemon/src/handlers.rs:44-219 | Over whole runs in which any port call, lock attempt or save may fail: every setting whose last application succeeded, on its own or in a successful reset, apply, wake-up or start, is what the registers say, through failed requests for other settings, failed events, failed restorations and read-backs alike. For the LED see `LedUnderFailures`. |
| FaultyRuns.TrustIff | daemon/src/handlers.rs:44-219 | Which settings these are, in closed form: exactly those with some input that applied them successfully, alone or with all others, and no later input that failed to apply another value. |
| FaultyRuns.StepKeepsTrust | daemon/src/main.rs:59-121 | Each single request, event, reset or restart, with any failures, loses at most the setting it was applying; a successful apply, reset, wake-up or start regains all; a failed reset of all settings or start may lose all. The LED is followed by `LedUnderFailures`. |
| FaultyRuns.PartOfRestoreKeeps | daemon/src/handlers.rs:44-52 | Restoring a setting that is in force already leaves it in force at every point where the restoration may stop. |
| FaultyRuns.RereadKeeps | daemon/src/main.rs:62-75 | Reading back under errors cannot change a setting that is in force. |
| FaultyRuns.DutiesStayBounded | daemon/src/ec/hw/fan.rs:14-19 | Whatever fails, and whatever duties the saved file holds, no run raises a fan's duty register above 220. |
| FaultyLed.LedUnderFailures | daemon/src/ec/hw/led.rs:18-70 | Over the same runs, starts and wake-ups included: the LED registers show the mode applied last if that succeeded, unless an automatic mode failed with the flag set since the last successful automatic mode or restart; and the flag is sound under the same condition. |
| FaultyLed.KnownUnlessAutoFails | daemon/src/ec/hw/led.rs:18-36 | As long as no automatic mode ever fails with the flag set, the flag is known to be sound in every such run and each successful application is known to be shown. |
| Codec.RoundTrip | ipc/src/structs.rs:302-320 | For every record shape, value, trailing bytes and decode limit: decoding the encoding returns the value, the trailing bytes and the rest of the limit when the limit covers the value's cost, and fails otherwise. |
| Codec.PrefixFree | ipc/src/lib.rs:19-94 | Two encodings of one shape that agree up to trailing bytes are encodings of the same value with the same trailing bytes. |
| Codec.ProperPrefixFails | ipc/src/lib.rs:175-179 | A value's encoding that is cut anywhere never decodes, under any limit. |
| Codec.MoreInput | ipc/src/lib.rs:175-179 | For every shape and input: appending bytes to an input that decodes gives the same value, with those bytes left over. |
| Wire.SettingsRoundTrip | ipc/src/structs.rs:302-320 | Any settings record followed by any bytes decodes to itself and those bytes. |
| Wire.TornSettingsAreUnusable | daemon/src/handlers.rs:17-27 | A settings file that lost any part of its end never loads. |
| Wire.RequestRoundTrip | ipc/src/lib.rs:19-59 | Any request followed by any bytes decodes to itself and those bytes. |
| Wire.ResponseRoundTrip | ipc/src/lib.rs:62-94 | Any response followed by any bytes decodes to itself and those bytes. |
| WireBytes.RequestsAre | ipc/src/lib.rs:19-59 | Every request, byte by byte, without reference to schemas. |
| WireBytes.ResponsesAre | ipc/src/lib.rs:62-94 | Every response, byte by byte. |
| WireBytes.SettingsAre | ipc/src/structs.rs:302-320 | The settings record, byte by byte. |
| WireBytes.PayloadsAre | ipc/src/structs.rs:355-367 | Every telemetry message of the current format, byte by byte. |
| WireBytes.OldPayloadsAre | ipc/src/structs.rs:341-353 | Every telemetry message of the old format, byte by byte. |
| WireBytes.FrameIs | ipc/src/lib.rs:130-141 | A frame is four length bytes, least significant first, three version bytes and the payload. |
| Framing.Stream.ReadExact | ipc/src/lib.rs:101-103 | However the stream splits its reads, exactly the first `n` bytes are returned and consumed, or the stream is drained and the read fails. |
| Framing.IpcConnection.Send | ipc/src/lib.rs:130-141 | Appends the length, wrapped to 32 bits, the version and the payload; when the peer takes only so many bytes, exactly those are appended, and it fails exactly when that is not all. |
| Framing.IpcConnection.Recv | ipc/src/lib.rs:143-179 | For every splitting into partial reads, result and remaining bytes are those of one function of the whole byte string, with all five kinds of error. |
| Framing.FrameArrivesIff | ipc/src/lib.rs:130-179 | For payloads of every length: a frame of the same major and minor version arrives as the value sent exactly when its payload is at most 5 MiB. A longer one is rejected after its header, or, when its length wraps below the limit, after the part of the payload that the wrapped length names; the rest stays in the stream. |
| Framing.ForeignFrameIsRejected | ipc/src/lib.rs:161-166 | A frame of another major or minor version is rejected as such, whatever its length. |
| Framing.CutFrame | ipc/src/lib.rs:147-157 | A stream that ends inside a frame is an unexpected end, one that ends before it a connection reset. |
| Framing.StreamDelivers | ipc/src/lib.rs:143-179 | For any list of messages, followed by any proper part of one more frame: receiving yields exactly the messages, then a reset if the stream ended at a boundary and an unexpected end otherwise. |
| Session.AcceptHandshake | ipc/src/lib.rs:101-128 | Consumes five bytes, writes the reply as far as the peer takes it, and accepts exactly when the handshake function does and all of the reply was taken; a short stream is drained and refused. |
| Session.Connect | ipc/src/client.rs:12-43 | Sends the hello and returns what the client makes of exactly the next five bytes, or nothing when the hello cannot be sent or the stream ends first. |
| Session.Request | ipc/src/client.rs:45-48 | Sends one frame and returns what the next frame is to the client; when the frame cannot be sent it fails without receiving. |
| Session.VerdictsAgree | ipc/src/client.rs:18-42 | Client and daemon reach the same verdict, which is acceptance exactly when major and minor versions agree. |
| Session.HandshakeIs | ipc/src/lib.rs:101-128 | For every five bytes of a hello: no reply unless they begin with LCC, then OKK and the daemon's version exactly for its own major and minor numbers and ERR and the daemon's version otherwise. |
| Session.JudgementIs | ipc/src/client.rs:18-42 | For every five bytes of a reply: accepted exactly after OKK, refused exactly after ERR, invalid otherwise, with the version in the last two. |
| Session.ResponseArrivesIff | ipc/src/client.rs:45-48 | A response of any size is received as it was sent exactly when the versions agree and it is within the frame limit; what follows it then stays in the stream. |
| Session.ProcessConnection | daemon/src/main.rs:21-56 | Answers the requests received before the first error in order, one frame each, stopping with the first answer the peer does not take; saves exactly when all answers were taken, the error is a reset and the settings are not locked. |
| Session.ConnectionServesWhatWasSent | daemon/src/main.rs:28-53 | For any requests sent, followed by a proper part of one more, the daemon serves exactly those requests, and the end is a reset exactly at a message boundary. |
| Session.RequestIsShort | ipc/src/lib.rs:168-170 | No request comes near the frame limit: every encoding is at most 56 bytes. |
| Session.SessionIsSound | ipc/src/client.rs:18-48 | Over every interleaving of the two processes: past the handshake exactly on agreeing versions, both sides agree, no receive ever fails, at most one request is outstanding, and the i-th answer answers the i-th request with its history. |
| Session.SessionNeverStuck | ipc/src/client.rs:45-48 | Unless the client is ready or was refused, one of the two processes can move. |
| Dialogue.ClientHearsTheDaemon | ipc/src/client.rs:45-48 | The same with the modelled daemon, whatever requests of others, events and restarts it serves in between: no receive fails, and the i-th answer is the daemon's to the i-th request in the world of that moment. |
| Dialogue.AnswerIsShort | ipc/src/lib.rs:168-170 | No answer of the daemon comes near the frame limit: every encoding is at most 128 bytes, in every world and for every request it implements. |
| TelemetryIngest.OldStartupIsNotCurrent | telemetry_server/src/main.rs:135-169 | Any old start-up message fails to decode as a current one, under every limit. |
| TelemetryIngest.OldStartupIsRecovered | telemetry_server/src/main.rs:169-182 | Any old start-up message is recovered exactly by the fallback when its cost is within the limit. |
| TelemetryIngest.MissingFieldFails | telemetry_server/src/main.rs:135-169 | For any record shape, a record without its last field never decodes as the record with it. |
| TelemetryIngest.FormatsCoincide | ipc/src/structs.rs:341-367 | Old status and panic messages are byte for byte the current ones, with the same cost. |
| TelemetryIngest.CurrentIsRecoveredIff | telemetry_server/src/main.rs:135-209 | Any current message is recovered exactly when its cost is within the limit; above it, a start-up message whose other fields fit is recorded as an old one without its motherboard, and everything else stays raw. |
| TelemetryIngest.StartupCosts | telemetry_server/src/main.rs:132-133 | The cost of a start-up message in both formats, in terms of the lengths of its texts. |
| TelemetryIngest.OldSendersGetTheirRow | telemetry_server/src/main.rs:169-203 | Any old message within the limit produces the row its own fields describe. |
| TelemetryIngest.CurrentSendersGetTheirRow | telemetry_server/src/main.rs:135-167 | Any current message within the limit produces a row whose columns are its own fields, compared one by one. |
| TelemetryIngest.RowsDifferInTheMotherboard | telemetry_server/src/main.rs:140-182 | The rows of an old start-up message and of the current one that extends it differ in the motherboard alone. |
| TelemetryIngest.Database.HandlePost | telemetry_server/src/main.rs:96-211 | Which tables gain which row and which status code is returned, for every body, announced size and outcome of reading and inserting: everything past the size checks is kept raw. If all inserts work, posting the encoding of any message within 64 KiB returns 201 and adds exactly one row, to the table of its kind, whose columns are the message's own fields, with the motherboard for current and without it for old start-ups. |
| Poller.ResumeIsNeverLost | gui/src/poller.rs:56-65 | In every interleaving, a poller that is parked or about to park because it saw the pause flag, while the flag is clear, either will take a stored permit at once or some UI thread is between clearing the flag and notifying. |
| Poller.ResumedPollerCanMove | gui/src/tauri_cmds.rs:297-306 | After a resume the poller or a UI thread always has a step that needs no timer. |
| Poller.SettlingComesCloser | gui/src/tauri_cmds.rs:297-306 | Every such step strictly decreases a distance to the next fetch. |
| Poller.ResumeReachesFetch | gui/src/tauri_cmds.rs:297-306 | From every reachable state with the flag clear, a schedule of such steps as long as the distance has reached the next fetch, and a shorter one that has not can be continued. |
| Poller.NoFetchWhilePaused | gui/src/poller.rs:56-79 | Every telemetry request directly follows a check that saw the flag clear. |
| Poller.PauseStopsFetching | gui/src/lib.rs:55-64 | From a pause until a resume, whatever else happens, at most the one request already decided on is still made. |
| Poller.IntervalsStayInRange | gui/src/tauri_cmds.rs:312-319 | For every requested interval the poller sleeps between half a second and a minute between samples. |
| Poller.NapWasAskedFor | gui/src/tauri_cmds.rs:312-319 | Over every run: the poller's sleep between samples is the one chosen last, and lasts 1000 ms times the seconds asked for last before the choice when these are 1 to 60, 500 ms for 0, a minute above, and three seconds if nothing was asked for. |
| Poller.NotificationsCount | gui/src/tauri_cmds.rs:286-306 | Every notification wakes a sleeping poller, or is kept so that the next attempt to sleep does not. |
| Poller.ChangesNotify | gui/src/tauri_cmds.rs:297-319 | From every state, a new interval or a resume makes its notification possible at once, and a reconnect is always possible. |
| Poller.FlagIsAsked | gui/src/tauri_cmds.rs:297-306 | Over every run the pause flag is the last of the pause and resume commands, and the notifications outstanding are the resumes not yet followed by one. |
| Poller.ConnectsAfterFailures | gui/src/poller.rs:37-80 | Over every run the poller checks, fetches and sleeps between samples only if its latest attempt to connect or fetch worked, and is otherwise about to connect again. |
| Calendar.CivilUncastIsRight | gui/src/logging.rs:116-128 | For every day number the algorithm yields a valid Gregorian date whose independently counted day number is the input; no unsigned subtraction underflows on the way. |
| Calendar.CivilInverts | gui/src/logging.rs:116-128 | For every valid date, the algorithm applied to its day number gives the date back. |
| Calendar.DayNumbersCount | gui/src/logging.rs:116-128 | The reference day number grows by one from each valid date to the calendar's next date, and is 0 on 1 January 1970. |
| Calendar.DayNumbersAreUnique | gui/src/logging.rs:116-128 | No two valid dates share a day number. |
| Calendar.YearOfEraIsRight | gui/src/logging.rs:120-122 | The closed formula finds the year of the era for each of its 146097 days. |
| Calendar.CivilFromDaysIff | gui/src/logging.rs:116-128 | With the cast to 32 bits, the result is the date of the day exactly for day numbers from -784353015833 to 784351576776, the days whose year fits. |
| Calendar.LogNamesFollowTheCalendar | gui/src/logging.rs:105-113 | Within that range day n+1 gets the calendar successor of day n's date. |
| Calendar.DayZero | gui/src/logging.rs:105-113 | Day 0 is 1 January 1970. |
| Versions.CompareVersion | gui/src/updates.rs:84-111 | The scan returns the order defined by the first differing zero-padded component, and by the suffixes when there is none. |
| Versions.PlusIsRead | gui/src/updates.rs:87-91 | A component with one leading plus reads as the number without it; an empty component and a plus alone read as no number. |
| Versions.IsNewer | gui/src/updates.rs:79-82 | True exactly when the baseline is older than the candidate in that order. |
| Versions.OrderFlips | gui/src/updates.rs:84-111 | Swapping the arguments reverses the result, every version equals itself, and equal means same padded components and same presence of a suffix. |
| Versions.OrderIsTransitive | gui/src/updates.rs:84-111 | "Not newer" is transitive across different component counts, and the outcome is equal only through two equals. |
| Versions.EqualsInterchange | gui/src/updates.rs:84-111 | Equal versions compare alike with every third. |
| Versions.SemVerIff | gui/src/updates.rs:76-111 | For all X.Y.Z versions below 2^64 with any prerelease, the result is Semantic Versioning 2.0.0 section 11 precedence exactly unless both are different prereleases of one X.Y.Z. |
| Versions.CandidatesTie | gui/src/updates.rs:106-110 | 1.0.0-rc.1 and 1.0.0-rc.2 compare equal although precedence orders them. |
| Versions.MetadataIff | gui/src/updates.rs:84-111 | For every release and every build metadata: the release with it compares equal to the release without it exactly when the patch number is 0, the metadata has no dash, and every piece of it after its first dot reads as 0. |
| Versions.ZeroPadding | gui/src/updates.rs:97-100 | Appending `.0` to any string without a dash gives an equal version. |
| TelemetryStore.TelemetryHistory.Push | gui/src-ui/stores/telemetry.ts:31-37 | Keeps the newest elements of history plus sample, exactly min(old length + 1, limit rounded up) of them or all when the limit is not finite, and sets `latest`. |
| TelemetryStore.TelemetryHistory.SetMaxHistory | gui/src-ui/stores/telemetry.ts:38 | For every number, fractions, NaN and infinities included: sets the limit to at least 60 (NaN stays NaN) and leaves the history alone. |
| TelemetryStore.HistoryIsASuffix | gui/src-ui/stores/telemetry.ts:27-38 | After any sequence of pushes and limit changes the history is a contiguous suffix of everything pushed, ends in `latest`, is empty only if nothing was pushed, and never exceeds the largest limit there ever was, if all were finite. |
| TelemetryStore.PushesKeepTheNewest | gui/src-ui/stores/telemetry.ts:31-37 | Any run of pushes keeps exactly the newest samples the limit allows, also right after the limit shrank. |
| TelemetryStore.KeepsEighteenHundred | gui/src-ui/stores/telemetry.ts:25-37 | Without a limit asked for, exactly the newest 1800 samples are kept. |
| TelemetryStore.KeepsWhatWasAsked | gui/src-ui/stores/telemetry.ts:31-38 | After a whole-number limit, exactly that many of the newest samples are kept, and 60 for anything less. |
| TelemetryStore.HistoryLength | gui/src-ui/stores/telemetry.ts:31-38 | The length of the history is the least of the number of pushes and, over all pushes, the limit in force then plus the number of pushes since. |
| TelemetryStore.OverTheLimitIff | gui/src-ui/stores/telemetry.ts:31-38 | In terms of the actions alone: the history is longer than its limit exactly when more samples were pushed than the limit allows and every push, with the limit in force then and all pushes since, left room for more than that; the last action is then a limit. |
| TelemetryStore.UnboundedIff | gui/src-ui/stores/telemetry.ts:31-38 | After any actions: for every bound there are further samples that make the history longer than it, exactly when the last limit asked for was NaN or plus infinity. |

## Left out

- CoherenceOverRuns: one handler at a time and no failures, because `apply_led_mode` is several batches and a setter takes two locks; failures are the subject of `FaultyRuns` and `FaultyLed`, overlapping handlers of `SetterRaces` and `LedRaces`.
- SettersAgreeIff: the other handlers neither apply nor remember a charge limit, so commands that restore all settings and power-down events, which remember what they read, are not among them; the other settings have the same two locks in the same order.
- EveryRunIsAtomic: error-free runs; with errors, single batches are covered by `EveryInterleavingIsSerial` and single operations by `FlagSoundUnderFaultsIff`.
- HibernateThenWake: power-down events that arrive after a loss remember what the registers then say, and it is those settings that are restored.
- FanPairsNeverMix: fault-free runs only; a batch that fails between its two writes leaves half a pair.
- TornLimitReadNeverMixes: "in force at both reads" fails when the chip starts with a pair that is no predefined limit, hence the condition on the first pair; `TornReadCanMissTheFirst` is the witness.
- CurrentIsRecoveredIff: the charge per integer and text is bincode's limit accounting as assumed above.
- SessionIsSound: no transport errors, answers within the frame limit, and the daemon's answer is a function of the requests of the connection so far; `ClientHearsTheDaemon` discharges the last two for the modelled daemon, whose error texts are empty; failing sends are covered by `ProcessConnection`, `Connect` and `Request`.
- CivilFromDaysIff: unbounded day numbers; the 64-bit additions cannot overflow for any day number derived from a 64-bit count of seconds.
- Open: sleeping between attempts and logging have no counterpart.
- DoWork: the four `todo!()` commands, which panic; error texts, which are represented by one error response.
- Decoder inputs that no encoder produces, such as an integer in a longer form than needed: the model accepts them like bincode, and no property is about them.
- Poisoned mutexes and panics in handlers.
- Errors of the database, SQLite and HTTP themselves; inserting appends a row. Reading the settings file yields a record or none.
- The chip changing its own registers between the bytes of a two-byte reading.
- Port backends, DLL loading, D-Bus and Windows services; only their event alphabet is kept.
- The telemetry worker's loop, client identity, command line, `parse_u8`, the formatting of dates and the hexadecimal text of ids and offsets in rows.
- The watchdog thread's logging, retry delays and the poller's error texts and tooltips.
- User interface, themes, translations, tray menus, installers, update download.
