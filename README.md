# A Dafny model of the radio servers

The repository holds three variants of one internet-radio server, written in
JavaScript for Node.js. This project models each as a state machine and proves
properties of that model.

- **`server.js`, the broadcast station.** It collects the `.mp3` files of a
  directory tree and shuffles them with Fisher–Yates. It plays them one at a
  time through one transcoder process and copies that process's output to
  every connected listener. If any listener must not be sent more yet, output
  stops for everyone. The station also answers skip, pause and resume.
- **`backend/server.js`, the synchronised sequencer.** It holds a shuffled list
  of audio files and the current position in it. It steps forward and back
  modulo the list's length, and it serves file byte ranges for a `Range`
  header.
- **`src/server.js`, the minimal radio.** It plays the `.mp3` files of one
  directory in a loop and copies each chunk to every listener, in list order.

External events are explicit calls:
- a transcoder's `close`, `error` and `data` events;
- a listener's `drain`;
- a listener connecting or going away;
- a control request.

The clock (`Date.now()`) and `Math.random()` are parameters. `Math.random()`
is an oracle sequence of the choices it would have made. Directory listings
and file sizes are also parameters, since the file system is not modelled.

Modules:

- `Common`: `Option`, byte chunks, `endsWith`, `path.join` and `path.basename`
  on plain names, and duplicate-free lists. `Remove` models both `Set.delete`
  and `filter(c => c !== x)`, and `RemoveFirst` models a `once` handler
  unregistering itself.
- `Cyclic`: `(i + 1) % n` and `(i - 1 + n) % n`, with the cycle lemmas all
  three servers rely on.
- `Catalog`: the recursive `.mp3` walk over an in-memory tree, and the in-place
  Fisher–Yates shuffle of an `array` (`server.js`).
- `Station`: the broadcast station (`server.js`). `State` is one value holding:
  - the module-level variables;
  - which transcoder processes have not closed yet (`unclosed`), and which have
    been signalled (`killed`);
  - which processes' output is paused (`pausedOut`);
  - each listener's socket buffer;
  - the `drain` handlers still pending (`drainWaiters`).

  The `...Step` functions say what each handler does to that value. Class
  `Station` holds the same variables as fields, and each of its methods is
  proved to perform its step function.
- `Sequencer`: the sequencer of `backend/server.js`. It is built the same way,
  over the `Deck` datatype.
- `RangeHeader`: the `Range` header handling of `backend/server.js`. It
  includes JavaScript's `parseInt(_, 10)`, `replace` and `split`, and numbers
  as integers or NaN.
- `MiniRadio`: the minimal radio of `src/server.js`, as class `Radio`.

## Model

| member | source | states |
|---|---|---|
| `Common.Remove` | server.js:142 | `clients.delete(res)`: the result holds every element except `x`, as often as before, and never `x` |
| `Common.RemoveSplices` | src/server.js:62 | in a duplicate-free list, removing the element at `k` gives exactly the elements before `k` followed by those after it, in their order |
| `Common.RemoveAbsent` | server.js:142 | removing a listener that is not attached changes nothing |
| `Common.RemoveKeepsNoDup` | server.js:142 | removing keeps the listener set free of duplicates |
| `Common.RemoveFirst` | server.js:70-72 | a `once` handler that fires takes one registration of its listener out of the handler list and adds none |
| `Common.RemoveFirstKeeps` | server.js:70-72 | taking a handler out leaves only handlers that were registered before |
| `Common.RemoveFirstSplices` | server.js:70-72 | only the earliest registration is taken out; later registrations of the same listener stay, in order |
| `Common.AppendKeepsNoDup` | server.js:139 | adding a new listener keeps the listener set free of duplicates |
| `Common.BasenameOfJoin` | server.js:87 | `path.basename(path.join(dir, name))` is `name` for a non-empty entry name without '/' |
| `Common.AfterLastSlashOfJoin` | server.js:87 | the last '/'-free segment of a joined path is the entry name |
| `Common.EndsWithJoin` | server.js:29-33 | joining a directory in front of a name keeps the name's `.mp3` suffix |
| `Cyclic.NextIndex` | backend/server.js:48 | `(i + 1) % n` lies in `[0, n)` and is `i + 1`, or 0 after the last position |
| `Cyclic.PrevIndex` | backend/server.js:55 | `(i - 1 + n) % n` lies in `[0, n)` and is `i - 1`, or `n - 1` before the first position |
| `Cyclic.PrevNextInverse` | backend/server.js:47-59 | stepping back after stepping forward restores the position, and so does the reverse |
| `Cyclic.StepsWrapOnce` | backend/server.js:48 | `k <= n` forward steps from `i` land on `i + k`, wrapped once past `n` |
| `Cyclic.StepsCycle` | backend/server.js:48 | `n` forward steps return to the start, and the `n` positions visited are pairwise distinct and cover `[0, n)` |
| `Catalog.Mp3FilesExactly` | server.js:25-37 | a path is collected exactly when it is the joined path of a regular file whose name ends in `.mp3` (case-sensitive), somewhere below the listing |
| `Catalog.EntryMp3FilesExactly` | server.js:29-34 | the same, for one entry: a directory contributes its subtree, a regular `.mp3` file its own path, anything else nothing |
| `Catalog.Mp3FilesEndInMp3` | server.js:32-33 | every collected path ends in `.mp3` |
| `Catalog.GetAllMp3Files` | server.js:25-37 | the loop, recursing into directories, returns `Mp3Files(dir, entries)`: the files in listing order, each directory's files in its place |
| `Catalog.Swap` | server.js:43 | the destructuring swap exchanges positions `i` and `j` and leaves every other position alone |
| `Catalog.ShuffleStepsPermutes` | server.js:40-45 | the remaining swaps keep the length and the multiset of elements, whatever the choices |
| `Catalog.ShuffledIsPermutation` | server.js:40-45 | `shuffle` leaves a permutation of its input of the same length, for any choices with `j` in `[0, i]` |
| `Catalog.ShuffleStepsIdentity` | server.js:41-43 | choosing `j == i` at every step leaves the order unchanged |
| `Catalog.Shuffle` | server.js:40-45 | the in-place loop from the last index down to 1 leaves `a[..] == Shuffled(old(a[..]), choices)`, a permutation of the old contents |
| `Station.Write` | server.js:62 | `res.write(chunk)` queues the chunk, and a `drain` is owed once a write finds the buffer at or above its high-water mark |
| `Station.FirstRefusal` | server.js:60-77 | the position of the first listener that refuses the chunk: all listeners before it accept, and it refuses (or none does) |
| `Station.WriteAll` | server.js:60-62 | writing to a list of listeners keeps the set of sockets |
| `Station.WriteAllEffect` | server.js:60-62 | each listener written to has the chunk written once; every other socket is untouched |
| `Station.WriteUntilRefused` | server.js:59-79 | the loop with its `break` writes to exactly the listeners up to and including the first refusing one, and reports that position |
| `Station.Advance` | server.js:109 | every advance keeps `currentIndex` inside a non-empty playlist |
| `Station.AtMostOneLiveSession` | server.js:81-128 | at most one transcoder is alive without having been killed, and it is the current handle |
| `Station.InitialInv` | server.js:13-20 | the initial state satisfies the invariant |
| `Station.StopKeepsInv` | server.js:123-128 | `stopFFmpeg` keeps the invariant, drops the handle, and leaves every live process killed |
| `Station.SpawnKeepsInv` | server.js:86-100 | spawning for the current track, after a stop, keeps the invariant |
| `Station.PlayCurrentKeepsInv` | server.js:81-121 | `playCurrent` keeps the invariant |
| `Station.CloseKeepsInv` | server.js:102-112 | the `close` handler keeps the invariant |
| `Station.ErrorKeepsInv` | server.js:114-120 | the `error` handler keeps the invariant |
| `Station.SkipKeepsInv` | server.js:156-161 | skip keeps the invariant, the index in range included |
| `Station.PauseKeepsInv` | server.js:163-167 | pause keeps the invariant |
| `Station.ResumeKeepsInv` | server.js:169-174 | resume keeps the invariant |
| `Station.AttachKeepsInv` | server.js:139 | attaching a new response keeps the invariant |
| `Station.DetachKeepsInv` | server.js:141-143 | detaching keeps the invariant |
| `Station.DataKeepsInv` | server.js:59-79 | `broadcastChunk` keeps the invariant |
| `Station.DrainKeepsInv` | server.js:70-72 | a listener's `drain` keeps the invariant |
| `Station.SkipThenCloseAdvancesOnce` | server.js:102-105 | a skip followed by the `close` of the process it killed moves exactly one track forward, clears `skipPending`, and leaves the new track playing |
| `Station.DoubleSkipAdvancesThrice` | server.js:156-159 | two skips before the first killed process closes move three tracks forward in total: the second `close` is taken for the end of a track |
| `Station.ErrorThenCloseAdvancesTwice` | server.js:102-120 | a process that emits `error` and then `close` makes both handlers advance: two tracks forward, one skipped unplayed, and the track after it playing |
| `Station.PauseCloseResumeRestartsTrack` | server.js:163-172 | the `close` after a pause does not advance, and resume restarts the same `currentIndex` in a new process |
| `Station.SkipWhilePausedStartsNothing` | server.js:156-159 | a skip while paused moves the index and sets `skipPending` but changes nothing else |
| `Station.SkipWhilePausedStallsAfterResume` | server.js:103-105 | pause, close, skip, resume: the natural `close` of the resumed track is taken for the skip, so the station is left unpaused with no process running |
| `Station.PrefixNoDup` | server.js:20 | a prefix of the duplicate-free listener list is duplicate-free |
| `Station.DataReachesPrefix` | server.js:59-79 | in iteration order, the listeners up to and including the first refusing one receive the chunk, and those after it do not |
| `Station.DataStallsIffRefused` | server.js:65-72 | the current output ends up paused exactly when some listener refuses the chunk, and then the first refusing listener is the one waited for |
| `Station.DrainOfBlockerResumes` | server.js:70-72 | the `drain` of the listener being waited for resumes the current output, without fault, and removes its handlers |
| `Station.RestartClearsStall` | server.js:84-100 | starting a track gives a new process whose output is not paused, so a kill clears any backpressure wait |
| `Station.DetachKeepsStall` | server.js:141-143 | detaching a listener removes it but leaves paused output paused and pending `drain` handlers registered |
| `Station.PauseDuringStallThenDrainFaults` | server.js:67-72 | a pause while the broadcast waits for a listener, then that listener's `drain`: the handler resumes a null handle and throws, the output stays paused, and the listener keeps as many handlers as it had before the stall |
| `Station.Station.constructor` | server.js:13-20 | the station starts with the initial state |
| `Station.Station.LoadPlaylist` | server.js:49-53 | `loadPlaylist` sets the playlist to the shuffled `.mp3` files, a permutation of the collected files; nothing else changes |
| `Station.Station.Listen` | server.js:180-184 | the listen callback loads the playlist and plays the current track |
| `Station.Station.StopFFmpeg` | server.js:123-128 | performs `StopStep`: the handle, if any, is killed and set to null |
| `Station.Station.PlayCurrent` | server.js:81-121 | performs `PlayCurrentStep`, and changes nothing at all when paused or when the playlist is empty |
| `Station.Station.OnClose` | server.js:102-112 | performs `CloseStep`: a pending skip is consumed; otherwise, unless paused, the index advances and the next track plays |
| `Station.Station.OnError` | server.js:114-120 | performs `ErrorStep`: unless a skip is pending, advances and plays |
| `Station.Station.Skip` | server.js:156-161 | performs `SkipStep`: sets `skipPending`, advances, plays |
| `Station.Station.Pause` | server.js:163-167 | performs `PauseStep`: sets `paused` and stops the process |
| `Station.Station.Resume` | server.js:169-174 | performs `ResumeStep`, and leaves all state unchanged when not paused |
| `Station.Station.Attach` | server.js:131-140 | performs `AttachStep`: the new response joins the end of the listener set, with an empty socket |
| `Station.Station.Detach` | server.js:141-143 | performs `DetachStep`: the listener leaves the set |
| `Station.Station.NowPlaying` | server.js:147-153 | reports `currentTrack`, `paused` and the number of listeners |
| `Station.Station.OnData` | server.js:59-79 | performs `DataStep` and reports the fault of dereferencing a null handle exactly when `DataFault` holds |
| `Station.Station.OnDrain` | server.js:70-72 | performs `DrainStep` and reports `DrainFault` exactly when a handler resumes a null handle |
| `Sequencer.SongsOfExactly` | backend/server.js:31-37 | a song is loaded exactly when its name is in the listing and ends in `.mp3`, `.ogg` or `.wav` in any letter case, and its path is that name under the music directory |
| `Sequencer.SongsOfAppend` | backend/server.js:33-37 | the filter and map keep the listing's order |
| `Sequencer.Mp3IsAudio` | backend/server.js:33 | every name the `.mp3` filters accept is accepted by the audio filter |
| `Sequencer.Boot` | backend/server.js:23-26 | the initial deck is empty, started at boot time, with duration 0 |
| `Sequencer.StepsKeepInv` | backend/server.js:47-59 | `nextSong`, `prevSong` and the tick keep the index in `[0, len)` and the duration 0; both steps set `startedAt` to now and keep the playlist |
| `Sequencer.PrevUndoesNext` | backend/server.js:47-59 | `prevSong` after `nextSong` (and the reverse) restores the index; only `startedAt` moves |
| `Sequencer.NextTimesIsSteps` | backend/server.js:48 | `k` consecutive `nextSong` calls move `k` positions forward, modulo the length |
| `Sequencer.NextCyclesThroughAll` | backend/server.js:48 | `len` consecutive `nextSong` calls return to the start, visiting every index once |
| `Sequencer.TickNeverAdvances` | backend/server.js:128-132 | since `durationMs` is always 0 the auto-advance predicate never holds and the tick changes nothing |
| `Sequencer.StepAnnouncesCurrent` | backend/server.js:108-115 | after a step the broadcast payload names the new current song and the time of the step, exactly when the playlist has songs |
| `Sequencer.Sequencer.constructor` | backend/server.js:23-26 | the module-level declarations at boot time |
| `Sequencer.Sequencer.LoadSongs` | backend/server.js:30-40 | the playlist becomes the given rearrangement of the filtered songs, and each of its songs is one of them |
| `Sequencer.Sequencer.CurrentSong` | backend/server.js:42-45 | `playlist[index]`, a song of the playlist whenever it is non-empty, and `undefined` otherwise |
| `Sequencer.Sequencer.NextSong` | backend/server.js:47-52 | performs `NextStep` and returns the payload broadcast for the new state |
| `Sequencer.Sequencer.PrevSong` | backend/server.js:54-59 | performs `PrevStep` and returns the payload broadcast for the new state |
| `Sequencer.Sequencer.Broadcast` | backend/server.js:108-115 | builds `{ song, startedAt }` for the current song, `None` where it throws |
| `Sequencer.Sequencer.Tick` | backend/server.js:128-132 | performs `TickStep`, and in every reachable state changes nothing and sends nothing |
| `RangeHeader.Split` | backend/server.js:78 | `split("-")` always yields at least one piece |
| `RangeHeader.SplitNone` | backend/server.js:78 | a string without '-' splits into itself |
| `RangeHeader.SplitOnce` | backend/server.js:78 | a string with one '-' splits into the text before it and the text after it |
| `RangeHeader.SplitJoin` | backend/server.js:78 | for every string, no piece of `split("-")` contains '-', and joining the pieces with '-' gives the string back |
| `RangeHeader.ReplaceFirstSplices` | backend/server.js:78 | `replace(/bytes=/, "")` cuts out exactly the first occurrence of `bytes=` and keeps the text on both sides of it |
| `RangeHeader.ReplaceFirstAbsent` | backend/server.js:78 | a header without `bytes=` is left unchanged |
| `RangeHeader.ReplaceFirstPrefix` | backend/server.js:78 | `replace(/bytes=/, "")` removes a leading `bytes=` |
| `RangeHeader.PartsOf` | backend/server.js:78 | `bytes=a-b` yields the pieces `a` and `b` |
| `RangeHeader.DecimalIsDigits` | backend/server.js:85 | the decimal form of a number is a non-empty run of digits |
| `RangeHeader.DecimalValue` | backend/server.js:79-80 | the digits of `n` read back as `n` |
| `RangeHeader.DigitPrefixOf` | backend/server.js:79-80 | `parseInt` stops at the first non-digit |
| `RangeHeader.TrimStartAtNumber` | backend/server.js:79-80 | `parseInt` skips nothing before a digit or a minus sign |
| `RangeHeader.ParseDigits` | backend/server.js:79-80 | `parseInt` of a digit run followed by a non-digit is the run's value |
| `RangeHeader.ParseShow` | backend/server.js:79-80 | `parseInt(String(v) + t, 10) == v` for every integer `v` and every `t` not starting with a digit |
| `RangeHeader.ShowHasNoDash` | backend/server.js:79-80 | a non-negative number is written without '-' and reads back as itself |
| `RangeHeader.Respond` | backend/server.js:67-85 | the whole file is sent exactly when the header is absent or empty, with the file size as length |
| `RangeHeader.ClosedRange` | backend/server.js:78-85 | `bytes=S-E` gives start S, end E, length `E - S + 1` and `Content-Range: bytes S-E/size` |
| `RangeHeader.OpenRange` | backend/server.js:78-85 | `bytes=S-` gives end `fileSize - 1`, length `fileSize - S` and `Content-Range: bytes S-(size-1)/size` |
| `RangeHeader.SuffixRange` | backend/server.js:78-85 | `bytes=-N` gives start NaN, end N, length NaN and `Content-Range: bytes NaN-N/size` |
| `MiniRadio.Mp3NamesExactly` | src/server.js:18 | the filter keeps exactly the names ending in `.mp3` |
| `MiniRadio.Mp3NamesNoDup` | src/server.js:16-18 | the filtered listing has no repetitions when the listing has none |
| `MiniRadio.PlaylistExactly` | src/server.js:16-19 | the playlist is, in listing order, each `.mp3` name joined under `/music`, and only those |
| `MiniRadio.NowPlayingIsNeverPlaying` | src/server.js:28-29 | with two or more tracks, the name `/now-playing` reports after a track is handed over is the next track's, never that track's |
| `MiniRadio.ReceivedAppend` | src/server.js:41 | what a listener receives from two runs of writes is what it receives from each, in order |
| `MiniRadio.FanoutDeliversOnce` | src/server.js:40-42 | one fan-out writes the chunk exactly once to each attached listener and to no one else |
| `MiniRadio.ChunkExtendsEachListener` | src/server.js:40-42 | after a `data` event each attached listener has received its earlier chunks followed by the new one |
| `MiniRadio.Radio.constructor` | src/server.js:15-22 | the playlist is the filtered listing, the position 0, no listeners |
| `MiniRadio.Radio.PlayNext` | src/server.js:27-36 | hands `playlist[old]` over and sets `currentTrack` to `(old + 1) % len`, in range; on an empty playlist hands over nothing |
| `MiniRadio.Radio.NowPlaying` | src/server.js:66-70 | the base name of `playlist[currentTrack]`, the track after the one last handed over |
| `MiniRadio.Radio.OnChunk` | src/server.js:40-42 | the loop writes the chunk to every listener, in list order, and nothing else |
| `MiniRadio.Radio.Attach` | src/server.js:59 | the new listener is added at the end |
| `MiniRadio.Radio.Detach` | src/server.js:61-63 | exactly that listener is removed and the others keep their order |

## Left out

- Express routing, response headers, status codes, `res.json` and the health
  endpoints. Each route is the state change it triggers.
- Spawning `ffmpeg`, its arguments, `fluent-ffmpeg` and the `PassThrough`
  pipe. A transcoder is a process name (`Pid`) with explicit `close`, `error`
  and `data` events. The `kill` signal is not modelled.
- `fs.readdirSync`, `fs.statSync` and `fs.createReadStream`. A listing is an
  in-memory tree or a list of names, and a file size is a parameter. The bytes
  actually read for a range are not modelled.
- `MUSIC_DIR` and `PORT` from the environment. The defaults are used:
  `./music` and `/music`.
- `path.join` normalisation of `.` and `..` segments and of repeated
  separators. A join is `dir + "/" + name`.
- The WebSocket server of `backend/server.js`: connections, the `readyState`
  check and the sending. `broadcast()` is the payload it builds. The message
  sent to a new connection is the same payload and is not modelled apart.
- `setInterval` and `Date.now()`. A tick is a call with the time as parameter.
- `Sequencer.Sequencer.LoadSongs`: `playlist.sort(() => Math.random() - 0.5)`
  has an inconsistent comparator, so its order is engine-defined. The model
  takes the resulting order as a parameter, constrained only to be a
  rearrangement of the filtered songs. It is called once at boot, so it
  requires the index to be 0.
- `Math.random()` in `shuffle`. It is the oracle `choices`, with `choices[i]`
  in `[0, i]`.
- NaN positions: `x % 0` on an empty playlist stores NaN in the index. In
  `server.js` only a skip does this, because no process is ever started for an
  empty playlist, so no `close` or `error` arrives. In `backend/server.js`,
  next and prev do it, and in `src/server.js`, `playNext` does. The model keeps the index instead.
  No later operation can tell the difference: the playlist never grows after
  boot, and every read of the index with an empty playlist yields `undefined`.
- Uncaught exceptions. Several operations throw on an empty playlist or a
  null handle, and the model turns each throw into a result:
  - In the minimal radio, `/now-playing` calls `path.basename(undefined)`,
    which throws. `MiniRadio.Radio.NowPlaying` returns `None`.
  - In the sequencer, `broadcast()` reads `.name` of `undefined` after
    `/next` or `/prev`, which throws. `Sequencer.Sequencer.NextSong`,
    `PrevSong` and `Broadcast` return `None`.
  - In the station, a null-handle dereference is the `fault` result. The
    state is as it stood when the exception was thrown. In a failing `drain`,
    the handler that threw has already unregistered itself, and the
    listener's later handlers stay registered.

  What Node does afterwards (crash the process, or answer 500) is not
  modelled.
- The `res.on('error', ...)` registration repeated on every chunk. A listener
  error is a `Detach`.
- Partial socket flushes. A `drain` empties a listener's buffer at once, and
  other buffer sizes between writes are not modelled.
- Attach of a response object that is already attached: each request brings a
  fresh response object, so `Attach` requires a new listener.
- Numbers beyond 2^53 and their exponent notation in `String(n)`. Header
  numbers, sizes and times are exact integers.
- JavaScript strings are UTF-16. Here they are sequences of Unicode
  characters, which agree on every character the header and file names use.
- Console output, `SIGTERM` shutdown and the static configuration files
  (`frontend/vite.config.js`, `k8s/overlays/shokohsc/browser-sync/config/bs-config.js`).
- Detaching the blocking listener. One would expect this to resume a stream
  paused for backpressure. The code removes the listener from the set
  but leaves the output paused and the listener's `drain` handler registered.
  The model follows the code (`Station.DetachKeepsStall`): only a `drain`, a
  new track, or a skip or resume that starts one gets output flowing again.
- Concurrency: handlers run one at a time, as on Node's event loop. The
  interleavings that matter are the orders of the explicit events.
