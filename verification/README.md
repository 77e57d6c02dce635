# The stateful parts of a voice-chat client

This project models the parts of a Windows voice-chat client that carry real
state and arithmetic, and proves what holds of them over every run. Each file is
one component:

| file | component |
|---|---|
| `LoginLink.dfy`, `LoginLaws.dfy`, `LinkHistory.dfy` | login, heartbeat and automatic reconnection; the saved list of addresses |
| `SyncControl.dfy`, `SyncLaws.dfy` | receiving sound: the audio/video sync controller |
| `Playback.dfy`, `PlaybackLaws.dfy` | receiving sound: the pacing clocks and the mixer |
| `SlotTable.dfy`, `ThreadRegistry.dfy` | the socket library's slot table and its per-thread registry |
| `RateLimiter.dfy` | the limiter for requests to the proxied servers |
| `BlockBuffer.dfy` | the byte buffer that grows in blocks, and the cursor that erases lazily |
| `MicQueue.dfy` | the queue for the microphone |
| `GuidText.dfy`, `Wire.dfy`, `FormatExamples.dfy` | text and wire formats |
| `VoiceQueue.dfy`, `PingTasks.dfy` | the window of resendable voice packets; the pending pings |
| `Common.dfy` | sequences and `Option` |

The files named for laws and examples hold what single events and short runs come
to in plain numbers and bytes, without naming the functions that compute them.

A component that changes state in place is a class whose handlers are methods.
Each handler is one atomic step, and its postcondition equates the whole new
state with a function of the old one; the main results are lemmas about those
functions over arbitrary event sequences. Calls to sockets, watchers and the
upper layer are entries in a ghost log, oldest first. The clock is an argument,
read once per handler, and what the environment decides (a server's answer,
whether an allocation succeeds, how many packets a session hands out) is an
argument or an event.

## What the proofs found

- **Retrying.** The five waits are 2, 2, 4, 6 and 8 seconds, so the clamp to 120
  never binds (`WaitIsScheduled`). The retry timer is stopped after the login it
  starts, so a retry scheduled inside that login would be lost, exactly under
  the condition of `RetryInsideRetryIsLost`; no run that the servers and the
  network can produce meets it. A retry that comes due there is made, with two
  exceptions: while a login is under way nothing is to be done, and an address
  without ports, which is only left where no login has succeeded, is reported
  (`NoRetryIsLost`). A series of retries need not end with a report, though: a
  refused login or a cancelled one inside the series reports nothing, stops the
  login timer and leaves the counter positive (`RefusedRetryIsSilent`). Every
  series goes on or has its failure reported if and only if that never happens
  while no retry is pending (`SeriesAreAnsweredIff`). A login request that is
  ignored because the user is logged in still clears the success count, and the
  next broken connection is reported instead of retried
  (`BrokenLinkIsRetriedIff`).
- **Logging out and cancelling.** A logout is final: no socket, no timer but a
  retry that was already pending, and nothing happens any more
  (`LoggedOutIsQuiet`). Cancelling is not: it keeps an established connection
  with its heartbeat, whose fourth unanswered tick logs the client in again
  (`CancelKeepsConnection`). So does a link that is given up while connected
  (`GivenUpLinkStillBeats`), and the socket of a silent link stays open while its
  retry is pending (`SilentSocketStays`).
- **Rate limiting.** A waiting request need not ever be sent. Every request that
  has to wait restarts the drain timer, and the timer's window test is strict.
  One of the waiting requests is sent before the next arrival if and only if the
  timer fires twice by then, or once with the window over or not used up
  (`WaitingIsSentIff`); for a punctual timer that means two seconds, or one
  second if the window opened before the last arrival or is not used up
  (`PunctuallySentIff`). Over whole runs nothing more is sent if and only if no
  round meets that (`StarvesIff`). Two families of such runs start from a new
  limiter: four requests at once, then any number less than a second apart
  (`StarvesFromStart`), and bursts of three every 1001 ms, between which the
  timer does fire (`BurstsStarve`). A pause sends everything that arrived
  (`PauseSendsEverything`), in two firings for three requests
  (`PunctualTicksTakeTwoForThree`). Order, conservation and the bound of six a
  second hold regardless.
- **Sync.** A new turn inherits the run counters of the one before, so its first
  sample can already be corrected (`FirstSampleMayCorrect`). A correction has
  eleven samples of its own turn before it if and only if the turn inherited no
  run on that side or did not continue it up to the correction
  (`TurnInheritsRun`). An early correction drops 24/25 of the n packets that the
  audio is behind, counting queued packets and not their numbers. It stays short
  of the video if and only if no more numbers are missing among them than the
  rest, n/25 rounded up (`EarlyCatchesUp`). So it overshoots on packets that
  `sendAudioPack` numbers itself, in steps of 2, if all of them arrive
  (`EvenStepsCatchUp`); with the video plug-in at 48 kHz the plug-in numbers
  them instead, which is not part of this model.
- **Microphone queue.** `CanTopQueue` does not ask whether the user is queued,
  and for an absent user the handler then lets the user in behind the speaker
  (`TopAdmitsAbsent`). The guard also holds for the reserved id 0, for which the
  handler does nothing (`TopIsRepeatedUp`).
- **Formats.** A map of users comes back as it was sent exactly when no key is
  without users (`SameMapIff`). A message without guests is read as having none
  exactly when what follows is at most four bytes, or reads as an empty list
  (`NoGuestsIff`).

## Model

| member | source | states |
|---|---|---|
| LoginLink.EveryRunIsProper | xproto/Login.cpp:339-762 | over every event sequence: the retry counter is the number of automatic retries since the last success, accepted login or logout, and at most 5; the ping timer runs only while it is 0; the waits of a series are 2, 2, 4, 6, 8 s; during a series only a renewed success or a net-error give-up is reported; as many successes are reported as successful answers came |
| LoginLink.StepKeeps | xproto/Login.cpp:364-403 | each single event keeps all of that, and a successful answer adds exactly one reported success |
| LoginLink.WaitIsScheduled | xproto/Login.cpp:573-581 | with fewer than five retries made, the wait is the schedule's entry and at most 8 s: neither clamp to 120 s nor anything longer is reached |
| LoginLink.SuccessIsReportedOnce | xproto/Login.cpp:623-633 | a success adds exactly one report, a renewed one exactly when there were retries, ends the series and starts the heartbeat |
| LoginLink.BrokenLinkIsRetriedIff | xproto/Login.cpp:373-381 | on every run a broken connection is retried, after the scheduled wait, exactly when a login succeeded since the last login request and fewer than five retries were made; otherwise it is reported and the retry timer is left alone |
| LoginLink.OutageIsRetried | xproto/Login.cpp:555-584 | n breaks with n retries after a success, n at most 5, add exactly the first n scheduled waits to what happened and report nothing; each retry looks for a new address |
| LoginLink.SixthBreakIsReported | xproto/Login.cpp:376-381 | the break after five retries is reported once and schedules nothing |
| LoginLink.LoginGoesThrough | xproto/Login.cpp:430-519 | from any logged-out state a login whose stages succeed reports each stage once in order and ends connected to the found address, with the heartbeat on, one success counted and the address saved |
| LoginLink.SilentLinkIsRetried | xproto/Login.cpp:339-353 | three unanswered heartbeats are waited for; the fourth tick schedules a retry |
| LoginLink.LogoutReports | xproto/Login.cpp:521-532 | logging out reports exactly one logout, whatever was going on, and ends a retry series |
| LoginLaws.LogoutEndsAll | xproto/Login.cpp:521-532 | after a logout, or a kick, there is no socket, nothing is dialing and neither the login timer nor the heartbeat runs; exactly the logout, and the kick, are reported |
| LoginLaws.LoggedOutIsQuiet | xproto/Login.cpp:521-532 | with no retry pending at the logout, any number of timer ticks and late heartbeat answers after it changes nothing and reports nothing |
| LoginLaws.CancelEndsLogin | xproto/Login.cpp:410-425 | cancelling an unfinished login closes it and tells nobody |
| LoginLaws.CancelKeepsConnection | xproto/Login.cpp:410-425 | cancelling when logged in keeps the connection and its heartbeat: three more unanswered ticks do nothing, the fourth schedules a retry after 2 s |
| LoginLaws.GivenUpLinkStillBeats | xproto/Login.cpp:373-381 | a connected link that breaks and is given up is closed and reported, but four heartbeats later a retry is scheduled |
| LoginLaws.SilentSocketStays | xproto/Login.cpp:339-353 | the fourth silent heartbeat schedules a retry and forgets the address but leaves the socket |
| LoginLaws.BreakCloses | xproto/Login.cpp:606-609 | a break closes the socket, whether retried or given up; before a retry the address is forgotten and the heartbeat stopped |
| LoginLaws.HeartbeatKeepsLink | xproto/Login.cpp:840-845 | as long as never four heartbeats in a row go unanswered nothing happens; the first fourth one schedules a retry |
| LoginLaws.RefusalIsTold | xproto/Login.cpp:383-399 | outside a series every refusal, by the key, the location service or the login, is told once as what it is; a final one closes the connection, any other leaves it |
| LoginLaws.AnswerIsSaved | xproto/Login.cpp:719-739 | every answer of the server, accepted or refused, saves the address, and nothing else does |
| LoginLaws.SlowLoginIsTold | xproto/Login.cpp:644-658 | a first login that takes too long is told as a timeout and closed |
| LoginLaws.SlowRetryIsBroken | xproto/Login.cpp:644-658 | a slow retry is retried after 2, 4, 6 or 8 s, or reported as a broken net when none is left |
| LoginLaws.LoggedInIgnoresLoginTimer | xproto/Login.cpp:648-649 | once logged in, the login timer only ends itself |
| LoginLaws.SecondLoginIsIgnored | xproto/Login.cpp:430-455 | a login request while logged in changes nothing but the success count |
| LoginLaws.AddressWithoutPortsFails | xproto/Login.cpp:690-692 | an address without ports is reported as a failure of the location service |
| LoginLaws.NoAddressAsksAgain | xproto/Login.cpp:667-679 | an empty address makes the client ask again |
| LoginLaws.RetryDuringLogin | xproto/Login.cpp:954-961 | a retry that comes due during a login only starts the login timer |
| LoginLink.LogoutLeavesRetryPending | xproto/Login.cpp:410-425 | neither logout nor cancel stops a pending retry: when its timer fires, the logged-out client asks for an address, or connects to the one it has |
| LoginLink.RetryInsideRetryIsLost | xproto/Login.cpp:954-961 | after the retry timer fired it is stopped; a retry scheduled meanwhile would be lost, exactly when an address without ports is left, no login is under way and retries are still allowed |
| LoginLink.NoRetryIsLost | xproto/Login.cpp:555-694 | on every run the servers and the network can produce, from any uninitialised start, the retry that comes due schedules no other: unless a login is under way it asks for an address or connects, and only where no success came before can it fail on an address without ports |
| LoginLink.StepSafe | xproto/Login.cpp:364-762 | each possible event keeps what excludes a lost retry: a client that dials has an address with ports, and an address without ports is left only without a pending retry or without a success |
| LoginLink.SeriesAreAnsweredIff | xproto/Login.cpp:364-403 | at every point of a possible run each retry series goes on or has its failure reported, if and only if no cancelling and no final refusal of a login occurs in a series while no retry is pending |
| LoginLink.RefusedRetryIsSilent | xproto/Login.cpp:383-399 | after a success, a break and a retry whose login is refused, only the retry is on record: nothing is reported, no timer is left and the counter stays 1 |
| LoginLink.EndsSilently | xproto/Login.cpp:383-399 | inside a series such an end reports nothing, keeps the counter and stops the login timer |
| LoginLink.Login.NotifyStatus | xproto/Login.cpp:364-403 | a status retries, gives up, cancels or is told to the upper layer as the three cases say; the mutual calls terminate under the stated measure |
| LoginLink.Login.OnBroken | xproto/Login.cpp:373-381 | a net error is retried or given up |
| LoginLink.Login.TellUpper | xproto/Login.cpp:391-399 | a status is told only outside a series; a success inside one is told as renewed and ends it |
| LoginLink.Login.CancelLogin | xproto/Login.cpp:410-425 | drops an unfinished connection, keeps an established one, stops the login timer and nothing else |
| LoginLink.Login.ReLogin | xproto/Login.cpp:555-584 | schedules a retry after the current wait, or starts a fresh login with the counter at 0 |
| LoginLink.Login.TryLogin | xproto/Login.cpp:661-694 | does nothing while logging in, asks for an address, connects, or reports that the location service failed |
| LoginLink.Login.Locate | xproto/Login.cpp:586-604 | stores the answer of the location service, reports and connects |
| LoginLink.Login.LogIn | xproto/Login.cpp:430-519 | clears the success count even when the request is ignored |
| LoginLink.Login.LogOut | xproto/Login.cpp:521-532 | closes the connection, resets the counter, stops the heartbeat and reports |
| LoginLink.Login.OnClose | xproto/Login.cpp:606-609 | a closed connection is a net error |
| LoginLink.Login.OnCreate | xproto/Login.cpp:611-621 | a connection restarts the login timer and starts the key exchange |
| LoginLink.Login.OnLoginSuccess | xproto/Login.cpp:623-633 | starts the heartbeat, reports, then counts the success |
| LoginLink.Login.OnLoginError | xproto/Login.cpp:635-642 | stops the login timer and notifies |
| LoginLink.Login.OnLoginTimer | xproto/Login.cpp:644-658 | a login that takes too long is cancelled and notified as a timeout, or as a broken net during a series |
| LoginLink.Login.OnLogin | xproto/Login.cpp:696-754 | success, refusal by result, refusal by code; in the first two the address is saved |
| LoginLink.Login.OnKick | xproto/Login.cpp:756-762 | logs out, then notifies the kick |
| LoginLink.Login.OnPingTimer | xproto/Login.cpp:339-353 | counts the heartbeat, and retries from the fourth on |
| LoginLink.Login.OnRetryTimer | xproto/Login.cpp:954-961 | starts the login timer, logs in, then stops the retry timer |
| LinkHistory.HistoryIsMostRecent | xproto/Login.cpp:723-739 | after any number of answers the saved list is exactly the at most 11 most recently used distinct addresses, in order of last use |
| LinkHistory.UseMovesToEnd | xproto/Login.cpp:727-738 | one more use moves an address to the end of the order of last use |
| LinkHistory.RecordOfLast | xproto/Login.cpp:733-738 | dropping the oldest before the next use loses nothing that use would keep |
| LinkHistory.RecordAnswer | xproto/Login.cpp:723-739 | the in-place update is the one whose runs are characterised above |
| SyncControl.CorrectionsFollowEleven | client/rex/channel/AudioReciver.cpp:197-399 | over every run each correction follows exactly eleven consecutive counted samples on its side; the late and early counters are the run lengths, never both nonzero, in 0..10, and the early count is at most 11 |
| SyncControl.CorrectionsAreSpaced | client/rex/channel/AudioReciver.cpp:161-399 | with nondecreasing time two corrections of one turn are at least 30 s apart, over every run; a turn ends whenever a speaker is announced, also the same one again, or stops |
| SyncControl.TurnInheritsRun | client/rex/channel/AudioReciver.cpp:161-183 | on every run, for every correction on either side: eleven samples of its own turn come right before it if and only if the turn did not inherit a run on that side that continues up to it; if it did, they are eleven less the inherited ones |
| SyncControl.CorrectionInTurn | client/rex/channel/AudioReciver.cpp:287-340 | the same about any log in which each correction follows a run of eleven |
| SyncControl.FirstSampleMayCorrect | client/rex/channel/AudioReciver.cpp:161-183 | a run of two speakers, with a packet and ten late reports in the first turn, in which the first sample of the second is corrected |
| SyncControl.EarlyCatchesUp | client/rex/channel/AudioReciver.cpp:323-385 | an early correction of a queue with more than k = floor(24n/25) packets leaves the audio at missing - (n - k): not past the video if and only if at most n - k numbers are missing up to there, and at most 4% plus one packet behind it if none is repeated; a shorter queue is emptied |
| SyncControl.EvenStepsCatchUp | client/rex/channel/AudioReciver.cpp:323-385 | on a queue whose numbers step by d it is not past the video if and only if d = 1 |
| SyncControl.LateHoldsBack | client/rex/channel/AudioReciver.cpp:424-443 | a late correction makes exactly the missing number of callbacks play nothing, less one |
| SyncLaws.LateCorrectionHolds | client/rex/channel/AudioReciver.cpp:307-321 | the eleventh late sample at a distance of n packets makes n - 1 callbacks play nothing and the n-th play the first packet |
| SyncLaws.LoggedHoldIsKept | client/rex/channel/AudioReciver.cpp:307-321 | after any logged late correction of k packets with something queued, the first k - 1 callbacks play nothing and the k-th does, whatever comes in meanwhile |
| SyncLaws.LoggedHoldIsSet | client/rex/channel/AudioReciver.cpp:307-321 | a late correction logs the delay it sets, and takes nothing from the queue |
| SyncLaws.EarlyCorrectionLogs | client/rex/channel/AudioReciver.cpp:323-385 | an early correction logs what it throws away: packets of the queue, or eleven fewer than the distance from the session |
| SyncLaws.SideIsOneSecond | client/rex/channel/AudioReciver.cpp:274-323 | late and early mean more than a second at the packet duration |
| SyncLaws.ReportIsJudgedIff | client/rex/channel/AudioReciver.cpp:209-293 | exactly when a report is judged: sound, on time, not skipped, new, no hold-off, something to compare with, and no queue of 1000 when late |
| SyncLaws.LateHoldOff | client/rex/channel/AudioReciver.cpp:307-321 | the n-th late correction of a turn keeps every report from being judged for 30 n seconds, and no longer |
| SyncLaws.EarlyHoldOff | client/rex/channel/AudioReciver.cpp:334-341 | the n-th early one for 60 n seconds, with n at most eleven |
| SyncLaws.QuietMinutesRelax | client/rex/channel/AudioReciver.cpp:392-398 | a sample more than five minutes after the hold-off cuts both counts to at most one; an earlier one keeps them |
| SyncLaws.GapHoldsOff | client/rex/channel/AudioReciver.cpp:220-235 | the n-th gap of more than two seconds holds off for 30 n seconds, and the next fifty reports are not judged |
| SyncLaws.PlaysInOrder | client/rex/channel/AudioReciver.cpp:411-443 | within a turn packets are played in order of arrival, each once |
| SyncLaws.TurnStartsFresh | client/rex/channel/AudioReciver.cpp:161-183 | a new turn starts with an empty queue, no hold-off and no counts, and queues nothing before a report |
| SyncLaws.NobodySpeaks | client/rex/channel/AudioReciver.cpp:161-183 | when nobody is next only the speaker and the queue go |
| SyncLaws.StopEndsTurn | client/rex/channel/AudioReciver.cpp:185-195 | the end of a turn empties the queue and lifts the hold-off, and keeps the run counters and the delay |
| SyncControl.AudioReceiver.OnStreamData | client/rex/channel/AudioReciver.cpp:197-399 | the whole effect of one report of the video stream |
| SyncControl.AudioReceiver.Adjust | client/rex/channel/AudioReciver.cpp:275-399 | judges one counted sample |
| SyncControl.AudioReceiver.HoldBack | client/rex/channel/AudioReciver.cpp:307-321 | the late correction and its growing hold-off |
| SyncControl.AudioReceiver.CatchUp | client/rex/channel/AudioReciver.cpp:334-385 | the early correction and its growing hold-off |
| SyncControl.AudioReceiver.DropQueued | client/rex/channel/AudioReciver.cpp:372-383 | takes exactly the wanted packets from the front of the queue, or all there are |
| SyncControl.AudioReceiver.ReleaseFetched | client/rex/channel/AudioReciver.cpp:353-371 | fetches exactly the wanted packets from the session, or all it hands out |
| SyncControl.AudioReceiver.RelaxCounts | client/rex/channel/AudioReciver.cpp:392-398 | the hold-off counts are cut back only five minutes after the hold-off ended |
| SyncControl.AudioReceiver.DecodeDefault | client/rex/channel/AudioReciver.cpp:684-721 | the speaker's packets are queued once the video stream is known, except the end marker -1 |
| SyncControl.AudioReceiver.GetForSyncVideo | client/rex/channel/AudioReciver.cpp:424-443 | a packet is played exactly when one is queued and no delay is left, and it is the first |
| SyncControl.AudioReceiver.TurnTo | client/rex/channel/AudioReciver.cpp:161-183 | what a new speaker resets |
| SyncControl.AudioReceiver.StopTurn | client/rex/channel/AudioReciver.cpp:185-195 | what the end of a turn resets |
| Playback.AlwaysPaced | client/rex/channel/AudioReciver.cpp:467-554 | with any mix of mono and stereo callbacks, after every callback the fetched time is ahead of the playing time by less than one period, for both streams, and the speex fetches since the reset are ceil(z/period) |
| PlaybackLaws.TimeIsPlayed | client/rex/channel/AudioReciver.cpp:467-483 | m mono and s stereo callbacks play 60 m + 128 s thirds of a millisecond, and the speex fetches cover exactly that, rounded up to packets |
| PlaybackLaws.DueIsFetchedOnce | client/rex/channel/AudioReciver.cpp:536-553 | a callback fetches the default stream once when due, for 42 2/3 ms in stereo and one packet in mono |
| Playback.TickKeepsPace | client/rex/channel/AudioReciver.cpp:467-554 | one callback of either kind keeps that pace |
| Playback.DefaultRunsOnce | client/rex/channel/AudioReciver.cpp:536-553 | the default-stream loop runs at most once per callback, so its early return skips no due fetch |
| Playback.CatchUpIsNextMultiple | client/rex/channel/AudioReciver.cpp:479-534 | the fetch loop stops within one period past the playing time and keeps the phase |
| Playback.AudioPlayer.GetVoices | client/rex/channel/AudioReciver.cpp:467-554 | the clocks after one callback and how many fetches it made of each stream |
| Playback.AudioPlayer.FetchSpeexDue | client/rex/channel/AudioReciver.cpp:479-534 | fetches once per period that is due |
| Playback.AudioPlayer.FetchDefaultDue | client/rex/channel/AudioReciver.cpp:536-553 | fetches once exactly when due |
| Playback.MixIsExactWhenItFits | client/rex/channel/AudioReciver.cpp:631-649 | when every sum is within 32767 the mixed frame is the exact sum |
| Playback.MixStaysInRange | client/rex/channel/AudioReciver.cpp:631-649 | every mixed sample is within 32767, and the loudest reaches it when scaled |
| Playback.MixKeepsOrderAndSign | client/rex/channel/AudioReciver.cpp:631-649 | louder stays louder and signs stay |
| PlaybackLaws.MixIsProportional | client/rex/channel/AudioReciver.cpp:631-649 | a frame that is too loud is scaled and not clipped: each sample is within one of its share of the peak |
| PlaybackLaws.SampleIsLittleEndian | client/rex/channel/AudioReciver.cpp:608-623 | samples are little-endian two's complement |
| PlaybackLaws.OneVoiceIsHeard | client/rex/channel/AudioReciver.cpp:592-623 | a voice that fills the frame is heard as it is, a shorter one not at all |
| PlaybackLaws.VoicesAdd | client/rex/channel/AudioReciver.cpp:580-623 | voices add up, however they are grouped |
| PlaybackLaws.TwoVoicesMix | client/rex/channel/AudioReciver.cpp:580-649 | two voices that fit together come out as the sum of both |
| Playback.SumsStaySmall | client/rex/channel/AudioReciver.cpp:580-623 | a sum of n voices lies between -32768 n and 32767 n |
| Playback.EachLosesOneFrame | client/rex/channel/AudioReciver.cpp:580-623 | each buffer with sound beyond one frame loses exactly that frame and keeps its place among those; the others, and only they, are dropped |
| Playback.AudioPlayer.MixFrame | client/rex/channel/AudioReciver.cpp:560-664 | what a callback plays and leaves behind, with the clocks reset when there is nothing to play |
| Playback.AudioPlayer.AddVoices | client/rex/channel/AudioReciver.cpp:580-623 | the sample-wise sums of one frame of each voice |
| SlotTable.RunsStayExact | xproto/AsyncSocketEx.cpp:178-246 | under any run of adds and removes the counter is the number of occupied slots and of attached sockets, and each attached socket's index names its own slot |
| SlotTable.IndexIsStable | xproto/AsyncSocketEx.cpp:178-246 | an index stays the same until its own socket is removed, whatever else is added, removed or grown |
| SlotTable.AddFailsOnlyWhenFull | xproto/AsyncSocketEx.cpp:178-228 | adding fails if and only if all MAX_SOCKETS slots are taken, and then changes nothing; otherwise it fills a free slot and changes no other |
| SlotTable.ScanFindsFree | xproto/AsyncSocketEx.cpp:213-227 | from any start the circular scan finds a free slot if and only if one exists |
| SlotTable.CircleReaches | xproto/AsyncSocketEx.cpp:213-227 | the circular scan passes every slot within one round |
| SlotTable.GrowthKeeps | xproto/AsyncSocketEx.cpp:198-211 | growth keeps every slot in place, adds only free ones, stops at MAX_SOCKETS, and leaves the table full only there |
| SlotTable.AttachKeeps | xproto/AsyncSocketEx.cpp:178-228 | attaching keeps the table exact, moves nobody, and succeeds if and only if fewer than MAX_SOCKETS are attached |
| SlotTable.DetachKeeps | xproto/AsyncSocketEx.cpp:231-246 | detaching keeps the table exact |
| SlotTable.DetachTakesOut | xproto/AsyncSocketEx.cpp:231-246 | detaching empties exactly the socket's own slot and leaves where the next scan starts |
| SlotTable.AttachedIsAsTheOperationsSay | xproto/AsyncSocketEx.cpp:178-246 | over any run of at most MAX_SOCKETS operations, exactly the sockets whose last operation was an attach are attached |
| SlotTable.GrowsBy512 | xproto/AsyncSocketEx.cpp:198-211 | the table grows by 512 slots when fewer than eleven would be free, up to 48126 |
| SlotTable.FreedSlotWaits | xproto/AsyncSocketEx.cpp:213-222 | a slot that was given out last and freed is not given to the next socket |
| SlotTable.HelperWindow.AddSocket | xproto/AsyncSocketEx.cpp:178-228 | the array, the counters and the socket's index after an add; a socket that has a slot is left where it is |
| SlotTable.HelperWindow.Attach | xproto/AsyncSocketEx.cpp:198-227 | the same for a socket without a slot |
| SlotTable.HelperWindow.Search | xproto/AsyncSocketEx.cpp:213-216 | finds the first free slot on the circle |
| SlotTable.HelperWindow.Grow | xproto/AsyncSocketEx.cpp:198-211 | the new array holds the old slots in place and free ones after them |
| SlotTable.HelperWindow.RemoveSocket | xproto/AsyncSocketEx.cpp:231-246 | frees exactly the socket's slot and clears its index |
| ThreadRegistry.RegistryCountsLiveSockets | xproto/AsyncSocketEx.cpp:639-740 | under any run there is at most one node per thread, and its count is the number of live sockets of its thread and positive |
| ThreadRegistry.FreeingLastUnlinksOnlyIt | xproto/AsyncSocketEx.cpp:694-740 | freeing removes the thread's node if and only if it was the thread's last live socket, otherwise counts it down, and leaves every other node as it was |
| ThreadRegistry.InitKeepsInv | xproto/AsyncSocketEx.cpp:639-692 | initialising a socket keeps the counts right |
| ThreadRegistry.FreeKeepsInv | xproto/AsyncSocketEx.cpp:694-740 | freeing a socket keeps the counts right |
| ThreadRegistry.InitCountsOnOwnThread | xproto/AsyncSocketEx.cpp:639-692 | a first initialisation makes the socket live on its own thread and changes no other thread's count; a repeated one changes nothing |
| ThreadRegistry.FreeCountsOnOwnThread | xproto/AsyncSocketEx.cpp:694-740 | freeing takes the socket out and one from its own thread's count |
| ThreadRegistry.LiveIsAsTheOperationsSay | xproto/AsyncSocketEx.cpp:639-740 | over any run exactly the sockets that the operations say are live, on the thread of their first creation since the last close |
| ThreadRegistry.NodeCountsCreations | xproto/AsyncSocketEx.cpp:639-740 | so each node counts the sockets created on its thread and not closed since |
| ThreadRegistry.ThreadDataList.InitInstance | xproto/AsyncSocketEx.cpp:639-692 | the linked list after an initialisation: shared with the thread's node, or a new one in front |
| ThreadRegistry.ThreadDataList.FreeInstance | xproto/AsyncSocketEx.cpp:694-740 | the linked list after freeing, for any position of the node |
| ThreadRegistry.ThreadDataList.Locate | xproto/AsyncSocketEx.cpp:703-737 | the walk finds the thread's node and the one before it |
| ThreadRegistry.ThreadDataList.Unlink | xproto/AsyncSocketEx.cpp:720-729 | takes exactly one node out of the chain |
| RateLimiter.SentThenQueuedIsArrivals | xproto/proxyManager.cpp:42-92 | on every run, whatever the clock does, what was sent followed by what waits is what arrived, in order |
| RateLimiter.AtMostSixPerSecond | xproto/proxyManager.cpp:42-92 | on every run with nondecreasing time, from any uninitialised window, no window carries more than three sends and any seven successive sends span more than 1000 ms |
| RateLimiter.SentAtOnceIff | xproto/proxyManager.cpp:42-57 | after any run a request is sent at its own arrival if and only if nothing waits and the window is over or not used up; otherwise it waits, last, and the timer is set |
| RateLimiter.SparseRequestsGoAtOnce | xproto/proxyManager.cpp:42-57 | requests of which any four in a row take more than a second never wait: each is sent at its own arrival |
| RateLimiter.EarlierTimeIsSentAtOnce | xproto/proxyManager.cpp:45-47 | a clock that was set back opens a new window |
| RateLimiter.TickSendsNow | xproto/proxyManager.cpp:74-92 | what a tick sends goes out at its time |
| RateLimiter.WindowHoldsThree | xproto/proxyManager.cpp:42-57 | sends that are at least three to a new window apart put at most three in one |
| RateLimiter.RunKeepsInv | xproto/proxyManager.cpp:42-92 | over every run the sends stay ordered and spaced, and the count covers the current window |
| RateLimiter.TickSends | xproto/proxyManager.cpp:74-92 | a tick sends exactly what the window still allows, min(3, queue length) when the window is over |
| RateLimiter.BusyArrivalsOnlyQueue | xproto/proxyManager.cpp:51-53 | a request that finds others waiting is queued and restarts the drain timer |
| RateLimiter.BusyArrivalsStarve | xproto/proxyManager.cpp:51-53 | while requests arrive less than a second apart and some wait, the drain timer never comes due and nothing is sent |
| RateLimiter.DrainComesDueIff | xproto/proxyManager.cpp:51-53 | on every run, after an arrival that leaves requests waiting, the drain timer (not necessarily a send) comes due before the next one if and only if that is at least a second away |
| RateLimiter.WaitingIsSentIff | xproto/proxyManager.cpp:42-92 | after any run that ends with an arrival and leaves requests waiting, however late the timer: one of them is sent by the firings until the next arrival if and only if those are two, or one more than a second after the window opened, or one with the window not used up |
| RateLimiter.PunctuallySentIff | xproto/proxyManager.cpp:42-92 | the same for a punctual timer, by the time of the next arrival: two seconds later, or one with the window opened earlier or not used up |
| RateLimiter.StarvesIff | xproto/proxyManager.cpp:42-92 | over runs of any length from a state with waiting requests, nothing more is sent if and only if every round of an arrival and the firings after it is blocked |
| RateLimiter.BurstsStarve | xproto/proxyManager.cpp:42-92 | from a new limiter, four requests and then bursts of three every 1001 ms, each followed by the due timer: three are sent and all others wait |
| RateLimiter.OneBurstStarves | xproto/proxyManager.cpp:42-92 | a burst of three that finds the window over and requests waiting, and the due timer after it, send nothing |
| RateLimiter.StarvesFromStart | xproto/proxyManager.cpp:42-57 | from a new limiter with any uninitialised window, four requests at once followed by any number less than a second apart: at most three are ever sent |
| RateLimiter.PauseSendsEverything | xproto/proxyManager.cpp:74-92 | after any run, whenever the drain timer fires twice for every three waiting requests without new arrivals, everything that arrived has been sent, in order |
| RateLimiter.TicksDrainThreePerPair | xproto/proxyManager.cpp:74-92 | every two firings of the timer take at least three waiting requests |
| RateLimiter.RunWaits | xproto/proxyManager.cpp:42-92 | on every run, while requests wait the timer runs and comes due no sooner than a second after the window opened |
| RateLimiter.PunctualTicksTakeTwoForThree | xproto/proxyManager.cpp:74-92 | a punctual timer takes exactly three requests in every two firings from a used-up window, and none in the first of them |
| RateLimiter.FirstDueTickSendsNothing | xproto/proxyManager.cpp:76-84 | a new limiter asked four times at time 0 holds one request back; the timer due at 1000 sends nothing, the next one sends it |
| RateLimiter.ProxyManager.WriteRequest | xproto/proxyManager.cpp:42-57 | sends at once, or queues and restarts the timer |
| RateLimiter.ProxyManager.OnListTimeout | xproto/proxyManager.cpp:74-92 | the drain loop's result |
| BlockBuffers.BlocksForIsLeast | include/common/blockbuffer.h:197-228 | k blocks hold n bytes if and only if k is at least the computed number |
| BlockBuffers.GrowthIsExact | include/common/blockbuffer.h:197-228 | growing by the missing bytes ends at exactly the blocks for all bytes |
| BlockBuffers.SumUpdate | include/common/blockbuffer.h:197-228 | the shared total moves by the change of one buffer |
| BlockBuffers.BlockBuffer.IncreaseCapacity | include/common/blockbuffer.h:197-228 | succeeds if and only if it fits already or allocation succeeds within max_blocks, ends at ceil(needed/blocksize) blocks, keeps the contents and the totals |
| BlockBuffers.BlockBuffer.Append | include/common/blockbuffer.h:124-136 | appends the bytes, or fails and changes nothing, exactly when they do not fit in max_blocks |
| BlockBuffers.BlockBuffer.Resize | include/common/blockbuffer.h:145-156 | cuts or pads the contents |
| BlockBuffers.BlockBuffer.Replace | include/common/blockbuffer.h:159-172 | replaces in place or cuts and appends; says when it fails, what it then leaves, and the blocks in every case |
| BlockBuffers.BlockBuffer.Erase | include/common/blockbuffer.h:175-190 | takes out the stretch, clipped at the end, and gives the blocks back when nothing is left and they are not held |
| BlockBuffers.BlockBuffer.Free | include/common/blockbuffer.h:112-121 | returns all blocks to the shared total |
| BlockBuffers.ErasedIs | include/common/blockbuffer.h:175-190 | length and every byte after an erasure |
| BlockBuffers.ReplacedIs | include/common/blockbuffer.h:159-172 | length and every byte after a replacement |
| BlockBuffers.ResizedIs | include/common/blockbuffer.h:145-156 | length and every byte after a resize |
| BlockBuffers.ApplyAll | include/common/blockbuffer.h:124-228 | any operations on any of several buffers: each holds the bytes of its own operations, and the shared total is the sum of the blocks over them |
| BlockBuffers.Apply | include/common/blockbuffer.h:124-228 | any operation on one buffer keeps the shared bookkeeping, leaves every other buffer alone and moves the shared total by its own blocks |
| BlockBuffers.PoolTotal | include/common/blockbuffer.h:94-106 | while the bookkeeping is kept the static total is the sum of blocks over the live buffers |
| BlockBuffers.SumOfLive | include/common/blockbuffer.h:94-106 | blocks that only the live buffers hold add up to theirs |
| BlockBuffers.Open | include/common/blockbuffer.h:64 | a new buffer joins the others, empty and without blocks |
| BlockBuffers.Close | include/common/blockbuffer.h:65 | a destroyed buffer takes its blocks out of the total and the others stay |
| BlockBuffers.LazyIsEager | include/common/blockbuffer.h:230-255 | for any sequence of erasures, erasing lazily and flushing once gives what erasing each time gives |
| BlockBuffers.LazyEraseShows | include/common/blockbuffer.h:240-249 | one lazy erasure shows the eagerly erased bytes |
| BlockBuffers.ErasedBeyond | include/common/blockbuffer.h:240-249 | erasing past the cursor erases what the cursor shows |
| BlockBuffers.ForwardBuffer.Erase | include/common/blockbuffer.h:240-249 | what the cursor shows loses exactly the erased stretch; at the front the buffer itself is not touched |
| BlockBuffers.ForwardBuffer.Destroy | include/common/blockbuffer.h:235 | afterwards the buffer holds exactly what the cursor showed, and no block when that is nothing |
| MicQueue.MoveIsOneStep | xproto/MicrophoneListImp.cpp:436-483 | a move is a permutation that takes the user exactly one place, or none where it is not allowed, and keeps the speaker and the order of all others |
| MicQueue.CanMoveIffChanges | xproto/MicrophoneListImp.cpp:111-130 | the guard holds if and only if the handler changes the queue |
| MicQueue.MovesUndo | xproto/MicrophoneListImp.cpp:436-483 | up and down undo each other |
| MicQueue.TopIsRepeatedUp | xproto/MicrophoneListImp.cpp:539-560 | top is moving up until nothing changes; for the reserved id 0 it does nothing |
| MicQueue.TopPermutes | xproto/MicrophoneListImp.cpp:156-170 | top is a permutation that keeps the speaker and the order of all others, and its guard holds if and only if it changes the queue, id 0 aside |
| MicQueue.TopAdmitsAbsent | xproto/MicrophoneListImp.cpp:539-560 | for an absent user the guard holds on every queue of more than two, and the handler then inserts the user behind the speaker |
| MicQueue.RunsStayDistinct | xproto/MicrophoneListImp.cpp:357-573 | over every run whose joins are of absent users no user is queued twice |
| MicQueue.ReorderingKeepsSpeaker | xproto/MicrophoneListImp.cpp:132-139 | no sequence of moves and tops changes who may speak or who is queued |
| MicQueue.JoinersWaitBehind | xproto/MicrophoneListImp.cpp:357-375 | whoever joins waits behind everybody there, and several in the order given |
| MicQueue.FirstComeFirstServed | xproto/MicrophoneListImp.cpp:357-408 | however many come and go, of two users who stay the first is still in front |
| MicQueue.GoingTakesOut | xproto/MicrophoneListImp.cpp:376-408 | who goes is out and all others stay; the turn time is given back exactly when a kick empties the queue |
| MicQueue.OneSpeaker | xproto/MicrophoneListImp.cpp:132-139 | at most one user who is no guest may speak, the first, and none when muted; the next one may when that one has gone |
| MicQueue.MicrophoneList.OnJoinQueue | xproto/MicrophoneListImp.cpp:357-366 | a join puts the user at the end |
| MicQueue.MicrophoneList.OnMulJoinQueue | xproto/MicrophoneListImp.cpp:367-375 | several joins in order |
| MicQueue.MicrophoneList.OnTuoRenQueue | xproto/MicrophoneListImp.cpp:512-529 | a user who is dragged in goes to the end |
| MicQueue.MicrophoneList.OnLeaveQueue | xproto/MicrophoneListImp.cpp:376-389 | the user is taken out |
| MicQueue.MicrophoneList.OnKickOffQueue | xproto/MicrophoneListImp.cpp:390-408 | the user is taken out, and an emptied queue gets its full turn time back |
| MicQueue.MicrophoneList.OnTimeout | xproto/MicrophoneListImp.cpp:498-511 | the user whose time is up is taken out |
| MicQueue.MicrophoneList.OnMoveQueue | xproto/MicrophoneListImp.cpp:436-483 | the iterator walk, removal and insertion amount to one swap |
| MicQueue.MicrophoneList.OnTopQueue | xproto/MicrophoneListImp.cpp:539-560 | removal and insertion behind the speaker |
| MicQueue.MicrophoneList.OnKickAllQueue | xproto/MicrophoneListImp.cpp:530-538 | empties the queue |
| MicQueue.MicrophoneList.OnSync | xproto/MicrophoneListImp.cpp:562-573 | takes over the server's state |
| GuidText.GuidRoundTrip | include/client/xuimisc.h:239-264 | reading the text of any GUID gives that GUID |
| FormatExamples.GuidLayout | include/client/xuimisc.h:151 | the text has 36 characters in the layout 8-4-4-4-12, the fields in their order and the third in lower case |
| FormatExamples.ByteDigits | include/client/xuimisc.h:360-366 | bytes are printed in their order, two digits each |
| FormatExamples.FourDigits | include/client/xuimisc.h:151 | digits are printed from the most significant on, with zeros in front |
| FormatExamples.DigitsAre | include/client/xuimisc.h:151 | the digits are 0 to 9 and A to F |
| FormatExamples.NoDigitReadsAsZero | include/client/xuimisc.h:300-339 | a character that is no digit makes the whole number 0 |
| FormatExamples.FiveGroupsAreRead | include/client/xuimisc.h:239-264 | a text is read if and only if hyphens divide it into five pieces |
| GuidText.JoinOfPieces | include/client/xuimisc.h:169-186 | joining the pieces with the separator gives the text back |
| GuidText.PiecesLackSeparator | include/client/xuimisc.h:169-186 | no piece contains the separator, however long it is |
| GuidText.PiecesOfJoin | include/client/xuimisc.h:169-186 | splitting undoes joining for a one-character separator |
| GuidText.HexReadsBack | include/client/xuimisc.h:300-339 | a number printed in hexadecimal, in either case and with leading zeros, reads back |
| GuidText.BytesReadBack | include/client/xuimisc.h:360-366 | bytes printed one after the other read back as a big-endian number |
| GuidText.Split | include/client/xuimisc.h:169-186 | the loop's pieces join back to the text and lack the separator |
| GuidText.Atohex | include/client/xuimisc.h:300-339 | the loop accumulates the digits modulo 2^64 |
| GuidText.ReadGuid | include/client/xuimisc.h:239-264 | reads back every printed GUID and refuses texts without five groups |
| Wire.UserMapRoundTrip | include/protocol/psessionbase.h:41-70 | a fresh receiver gets the sent map minus the keys without users, and what follows is left |
| Wire.UserMapMerges | include/protocol/psessionbase.h:41-70 | any receiver gets the union with what it had, key by key |
| Wire.SameMapIff | include/protocol/psessionbase.h:41-70 | the map comes back unchanged if and only if no key is without users |
| FormatExamples.UserMapBytes | include/protocol/psessionbase.h:44-54 | the bytes of a map of one key: counts first, and the key before its user |
| FormatExamples.CutPair | include/protocol/psessionbase.h:58-64 | a key whose user is cut off is entered without a user |
| Wire.QueueRoundTrip | include/protocol/psessionbase.h:75-95 | the queue's fields read back; the list is appended to what the receiver had |
| Wire.MaixuRoundTrip | include/protocol/psmemberlist.h:106-121 | a message reads back into a fresh object, guests included, whatever follows it |
| Wire.NoGuestsIff | include/protocol/psmemberlist.h:106-121 | a message from a sender without guests reads as having none if and only if at most four bytes follow, or an empty list |
| FormatExamples.MaixuBytes | include/protocol/psmemberlist.h:106-121 | the bytes of a message, field by field in the order sent |
| FormatExamples.CutMessage | include/protocol/psessionbase.h:91-94 | a message cut off after the third field changes those three alone |
| FormatExamples.FieldsAreAtTheirPlaces | include/protocol/psessionbase.h:91-94 | whatever the bytes, each field is read at its place and keeps its value when they do not reach that far |
| Wire.U32RoundTrip | include/common/nsox/packet.h:126 | four bytes carry a number modulo 2^32 |
| FormatExamples.NumberBytes | include/common/nsox/packet.h:126 | the least significant byte comes first |
| FormatExamples.NegativeBytes | include/common/nsox/packet.h:126 | a negative number is written as the one 2^32 higher |
| FormatExamples.NumbersNeedFourBytes | include/common/nsox/packet.h:301-303 | fewer than four bytes are refused |
| FormatExamples.BoolBytes | include/common/nsox/packet.h:430-434 | truth values are one byte, and any byte but 0 is true |
| FormatExamples.ListBytes | include/common/nsox/packet.h:577-582 | a list is its length and its numbers |
| FormatExamples.CutList | include/common/nsox/packet.h:585-594 | a list that is cut short has what could be read of it |
| FormatExamples.ListKeepsWhatWasThere | include/common/nsox/packet.h:585-594 | reading a list never loses what was there |
| Wire.ListRoundTrip | include/common/nsox/packet.h:640-660 | a counted list is appended to what the receiver had and leaves what follows |
| Wire.AscendingIsSorted | include/common/nsox/packet.h:683-691 | sets are written in increasing order |
| Wire.ChannelUserMap.Marshal | include/protocol/psessionbase.h:44-54 | the nested loops append exactly the encoding |
| Wire.ChannelUserMap.Unmarshal | include/protocol/psessionbase.h:55-66 | the count-down loops leave exactly the decoded map and input, also when the message is cut short |
| Wire.ChannelUserMap.ReadPairs | include/protocol/psessionbase.h:57-64 | the inner loop for one key, also when it is cut short |
| Wire.ChannelUserMap.ReadPair | include/protocol/psessionbase.h:58-64 | one pair; a key whose value is cut short is entered without a user |
| Wire.MaixuJoin.Marshal | include/protocol/psmemberlist.h:106-121 | appends exactly the encoding |
| Wire.MaixuJoin.Unmarshal | include/protocol/psmemberlist.h:106-121 | the object, the unread bytes and the success are exactly the decoded ones, also when the message is cut short in any field |
| Wire.Pack.PushU32 | include/common/nsox/packet.h:126 | appends the four bytes of the number |
| Wire.Unpack.PopU32 | include/common/nsox/packet.h:301-307 | takes four bytes or refuses and takes none |
| VoiceQueue.WindowIsLastSixty | xproto/voice_queue.cpp:23-56 | over every run the numbers of sent packs strictly increase and the window is the last sixty accepted packets, sorted |
| VoiceQueue.ResendFindsExactly | xproto/voice_queue.cpp:40-51 | on every run a resend request finds the packet with that number if and only if it is in that window |
| VoiceQueue.ScanIsMembership | xproto/voice_queue.cpp:40-51 | on a sorted queue the early exit misses nothing |
| VoiceQueue.FramesAreGrouped | client/rex/channel/AudioSender.cpp:978-1003 | every pack carries exactly one group of frames, and packs followed by pending frames are the kept frames in order |
| VoiceQueue.AcceptedIsHanded | client/rex/channel/AudioSender.cpp:978-1003 | the packets kept for resending have the content and kind of what the captures handed over since the last stop, in order, without what exceeds 900 bytes |
| VoiceQueue.NumbersAre | client/rex/channel/AudioSender.cpp:674-681 | numbers are 1000 plus 2 for each pack and 1500 for each stop |
| VoiceQueue.StepKeepsInv | client/rex/channel/AudioSender.cpp:978-1003 | each event keeps the numbers increasing and the window right |
| VoiceQueue.OutputVoiceQueue.Push | xproto/voice_queue.cpp:23-38 | refuses what is too long, else appends and keeps the last sixty |
| VoiceQueue.OutputVoiceQueue.Get | xproto/voice_queue.cpp:40-51 | on a sorted queue finds the packet if and only if it is there, with the argument converted to 32 bits |
| VoiceQueue.OutputVoiceQueue.End | xproto/voice_queue.cpp:53-56 | empties the window |
| VoiceQueue.AudioSender.SendAudioPack | client/rex/channel/AudioSender.cpp:978-1003 | a frame joins the group; a full group is sent under the next number |
| VoiceQueue.AudioSender.StopVoice | client/rex/channel/AudioSender.cpp:674-681 | skips numbers and empties the window |
| VoiceQueue.AudioSender.DiscardCapture | client/rex/channel/AudioSender.cpp:820-834 | drops the frames not yet sent |
| PingTasks.EveryPingLeavesOnce | xproto/WinPingMgr.cpp:35-114 | over every run a started ping is either still listed or retired by exactly one of send failure, reply, timeout and end |
| PingTasks.NoSecondCallback | xproto/WinPingMgr.cpp:216-271 | no ping is called back twice, none that is listed has been |
| PingTasks.ResultsAreRight | xproto/WinPingMgr.cpp:216-271 | on every run a callback without an answer carries ping -1, an answered one the time since its start, and only expired pings time out |
| PingTasks.TasksAreAsBegun | xproto/WinPingMgr.cpp:35-91 | on every run each task, listed or retired, has the id, name, time limit and callback of a request and the time at which that began |
| PingTasks.BeginStartsIff | xproto/WinPingMgr.cpp:35-91 | exactly when a ping starts, with which data and under which number |
| PingTasks.EndTakesExactly | xproto/WinPingMgr.cpp:93-114 | ending takes out exactly the tasks of that callback and id, all ids for -1, and closes the socket when none is left |
| PingTasks.UnmatchedAppend | xproto/WinPingMgr.cpp:93-114 | what stays, stays in order |
| PingTasks.ReplyAnswersItsTask | xproto/WinPingMgr.cpp:254-271 | a reply retires its own task and calls it back with the time passed |
| PingTasks.StrayReplyIsIgnored | xproto/WinPingMgr.cpp:254-271 | a reply without a task changes nothing |
| PingTasks.TickTimesOutFirst | xproto/WinPingMgr.cpp:216-238 | a tick retires the first task whose time is up |
| PingTasks.QuietTick | xproto/WinPingMgr.cpp:216-238 | a tick with none does nothing, but closes an unused socket |
| PingTasks.TicksDrain | xproto/WinPingMgr.cpp:216-238 | n expired tasks leave in exactly n ticks, one each, and the others stay in order |
| PingTasks.WithoutExpired | xproto/WinPingMgr.cpp:216-238 | a tick retires one expired task and no unexpired one |
| PingTasks.StepAccounts | xproto/WinPingMgr.cpp:35-271 | each event keeps every ping in exactly one place |
| PingTasks.RunAccounts | xproto/WinPingMgr.cpp:35-271 | a number is given to at most one ping, on every run |
| PingTasks.PingServerManager.Begin | xproto/WinPingMgr.cpp:35-91 | the list, socket and number after a start, and its failures |
| PingTasks.PingServerManager.End | xproto/WinPingMgr.cpp:93-114 | takes out all tasks of the callback and id, erasing while walking |
| PingTasks.PingServerManager.TimerTick | xproto/WinPingMgr.cpp:216-238 | retires the first expired task |
| PingTasks.PingServerManager.EchoReply | xproto/WinPingMgr.cpp:254-271 | retires the task the reply answers |

## Left out

- The disabled duplicate of the login in `xproto/LinkFront.cpp`.
- The location service's socket fan-out, key exchange, password hashing and the `rcEnv.ini` override: answers, with the address they carry, are events.
- The session-key refresh timer, the rotating port index, reports and status lookups of the login: none of them changes the modelled state.
- Re-entrant watcher callbacks and thread interleavings: every handler is one atomic step.
- Wrap-around of the clock, of sequence numbers and of counters; nondecreasing time is assumed only where a lemma says so.
- Rounding of floating-point numbers: delays are exact rationals, the mixer scales over `real`, and `dbl2s`, which is not part of the repository, is any monotone conversion that is exact on integers in range.
- LoginLink.NoRetryIsLost: which events are possible is read off the life times of the sockets, which are not modelled beyond whether one is there and still dialing; an answer without an address or ports comes only while one is awaited.
- The end marker's removal of a user from the mixer, and the sound that `decode` hands to it: the mixer starts from any buffers.
- Volume processing and recording in `PlayAudioData`, decoding and the codecs.
- `BlockBuffer::reserve`, appending a buffer to itself, and overflow of `size_t`.
- The branch of `AddSocket` for a table of size 0, which only occurs after its destructor; the window and the message pump around the table.
- ThreadRegistry.ThreadDataList.FreeInstance: a list node and the thread data it points to are one object, and the helper window inside is left out.
- The plain field-by-field packets, string fields and compression.
- Style changes, disabling, turns and doubled time of the microphone queue, whose handlers only set fields.
- Moves of users who are not queued and repeated joins: they are preconditions of the microphone results.
- Sockets, windows, user interface, configuration and logging.
