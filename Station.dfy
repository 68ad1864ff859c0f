/** The broadcast station of server.js: one playlist played through one
    transcoder process at a time, whose output is fanned out to every
    connected listener with a stop-the-world backpressure policy, and the
    skip/pause/resume controls.

    The module-level variables of server.js are the fields of class `Station`.
    `State` collects them in one value, and the `...Step` functions say what
    each handler does to that value: they specify the methods of `Station`.
    The lemmas further down are stated over the step functions.

    The external events are explicit calls: `OnClose` and `OnError` are the
    transcoder's 'close' and 'error' events, `OnData` is one 'data' event of
    its stdout, `OnDrain` is a listener socket flushing its buffer, `Attach`
    and `Detach` are a listener connecting and going away. A spawned process
    is named by a `Pid`; `unclosed` holds the processes whose 'close' has not
    been delivered yet and `killed` those that `stopFFmpeg` has signalled. */
module Station {
  import opened Common
  import opened Cyclic
  import Catalog

  type Pid = nat

  /** The default of `MUSIC_DIR`. */
  const MusicDir: string := "./music"

  /** A listener's response stream: its high-water mark and the bytes it holds
      (both in bytes), whether a 'drain' event is owed, and every chunk written
      to it so far. */
  datatype Socket = Socket(highWater: nat, buffered: nat, needDrain: bool, received: seq<Chunk>)

  /** The value `res.write(chunk)` returns: true while the buffer, with the
      chunk queued, is still below the high-water mark. */
  predicate Accepts(sock: Socket, chunk: Chunk)
  {
    sock.buffered + |chunk| < sock.highWater
  }

  /** `res.write(chunk)`: the chunk is queued whether or not it is accepted. */
  function Write(sock: Socket, chunk: Chunk): (r: Socket)
    ensures r.received == sock.received + [chunk]
    ensures r.needDrain <==> sock.needDrain || !Accepts(sock, chunk)
  {
    sock.(buffered := sock.buffered + |chunk|,
          needDrain := sock.needDrain || !Accepts(sock, chunk),
          received := sock.received + [chunk])
  }

  /** The position in `clients` of the first listener that refuses `chunk`,
      or `|clients|` when all of them accept it. */
  function FirstRefusal(clients: seq<ClientId>, sockets: map<ClientId, Socket>, chunk: Chunk): (r: nat)
    requires forall c | c in clients :: c in sockets
    ensures r <= |clients|
    ensures forall i | 0 <= i < r :: Accepts(sockets[clients[i]], chunk)
    ensures r < |clients| ==> !Accepts(sockets[clients[r]], chunk)
  {
    if clients == [] then 0
    else if !Accepts(sockets[clients[0]], chunk) then 0
    else 1 + FirstRefusal(clients[1..], sockets, chunk)
  }

  /** The listener table after `chunk` has been written to each of `cs`. */
  function WriteAll(sockets: map<ClientId, Socket>, cs: seq<ClientId>, chunk: Chunk): (r: map<ClientId, Socket>)
    requires forall c | c in cs :: c in sockets
    ensures r.Keys == sockets.Keys
    decreases |cs|
  {
    if cs == [] then sockets
    else
      var last := cs[|cs| - 1];
      var before := WriteAll(sockets, cs[..|cs| - 1], chunk);
      before[last := Write(before[last], chunk)]
  }

  /** Each listener of `cs` has had the chunk written once; the others are untouched. */
  lemma {:induction false} WriteAllEffect(sockets: map<ClientId, Socket>, cs: seq<ClientId>, chunk: Chunk, c: ClientId)
    requires forall c | c in cs :: c in sockets
    requires NoDup(cs) && c in sockets
    ensures WriteAll(sockets, cs, chunk)[c] == if c in cs then Write(sockets[c], chunk) else sockets[c]
    decreases |cs|
  {
    if cs != [] {
      var init := cs[..|cs| - 1];
      assert cs == init + [cs[|cs| - 1]];
      WriteAllEffect(sockets, init, chunk, c);
    }
  }

  /** The loop of `broadcastChunk`: write `chunk` to each listener in order and
      stop right after the first one that refuses it, whose position is
      `refusedAt` (or `|clients|` when none refuses). */
  method WriteUntilRefused(clients: seq<ClientId>, sockets: map<ClientId, Socket>, chunk: Chunk)
    returns (written: map<ClientId, Socket>, refusedAt: nat)
    requires NoDup(clients) && forall c | c in clients :: c in sockets
    ensures refusedAt == FirstRefusal(clients, sockets, chunk)
    ensures written == WriteAll(sockets, if refusedAt < |clients| then clients[..refusedAt + 1] else clients, chunk)
  {
    ghost var k0 := FirstRefusal(clients, sockets, chunk);
    written := sockets;
    var k := 0;
    while k < |clients|
      invariant k <= k0 && k <= |clients|
      invariant written == WriteAll(sockets, clients[..k], chunk)
    {
      var res := clients[k];
      assert clients[..k + 1] == clients[..k] + [res];
      assert NoDup(clients[..k]);
      WriteAllEffect(sockets, clients[..k], chunk, res);
      var ok := Accepts(written[res], chunk);
      written := written[res := Write(written[res], chunk)];
      if !ok {
        refusedAt := k;
        return;
      }
      k := k + 1;
    }
    refusedAt := k;
    assert clients[..k] == clients;
  }

  /** Everything server.js keeps, together with the part of the environment
      the handlers act on. */
  datatype State = State(
    playlist: seq<string>,
    currentIndex: nat,
    currentTrack: Option<string>,
    paused: bool,
    skipPending: bool,
    ffmpeg: Option<Pid>,
    clients: seq<ClientId>,
    nextPid: Pid,
    unclosed: set<Pid>,
    killed: set<Pid>,
    pausedOut: set<Pid>,
    sockets: map<ClientId, Socket>,
    drainWaiters: seq<ClientId>)

  /** The state before the server starts listening (server.js:13-20). */
  const Initial: State := State([], 0, None, false, false, None, [], 0, {}, {}, {}, map[], [])

  predicate IndexInRange(s: State)
  {
    |s.playlist| > 0 ==> s.currentIndex < |s.playlist|
  }

  /** What holds in every reachable state. */
  predicate Inv(s: State)
  {
    && IndexInRange(s)
    // a process is only ever started for a non-empty playlist
    && (s.nextPid > 0 ==> |s.playlist| > 0)
    && (s.ffmpeg.Some? ==> s.ffmpeg.value < s.nextPid)
    && (forall q | q in s.unclosed :: q < s.nextPid)
    && (forall q | q in s.pausedOut :: q < s.nextPid)
    // every live process other than the current handle has been killed
    && (forall q | q in s.unclosed && q !in s.killed :: s.ffmpeg == Some(q))
    && NoDup(s.clients)
    && (forall c | c in s.clients :: c in s.sockets)
    && (forall c | c in s.drainWaiters :: c in s.sockets)
  }

  /** At most one transcoder is alive without having been told to stop. */
  lemma AtMostOneLiveSession(s: State, q1: Pid, q2: Pid)
    requires Inv(s)
    requires q1 in s.unclosed && q1 !in s.killed
    requires q2 in s.unclosed && q2 !in s.killed
    ensures q1 == q2 && s.ffmpeg == Some(q1)
  {
  }

  /** `stopFFmpeg()`: kill the current process, if any, and drop the handle. */
  function StopStep(s: State): State
  {
    if s.ffmpeg.Some? then s.(ffmpeg := None, killed := s.killed + {s.ffmpeg.value}) else s
  }

  /** `spawn(...)` for the current track: a fresh process becomes the handle. */
  function SpawnStep(s: State): State
    requires s.currentIndex < |s.playlist|
  {
    s.(currentTrack := Some(Basename(s.playlist[s.currentIndex])),
       ffmpeg := Some(s.nextPid),
       nextPid := s.nextPid + 1,
       unclosed := s.unclosed + {s.nextPid})
  }

  /** `playCurrent()`: nothing while paused or without tracks; otherwise stop
      the running process and start one for `playlist[currentIndex]`. */
  function PlayCurrentStep(s: State): State
    requires IndexInRange(s)
  {
    if s.paused || |s.playlist| == 0 then s else SpawnStep(StopStep(s))
  }

  /** `(currentIndex + 1) % playlist.length`. On an empty playlist JavaScript
      yields NaN there; the model keeps the index, which nothing reads then. */
  function Advance(s: State): (r: State)
    requires IndexInRange(s)
    ensures IndexInRange(r)
  {
    if |s.playlist| == 0 then s
    else s.(currentIndex := NextIndex(s.currentIndex, |s.playlist|))
  }

  /** The 'close' handler of process `p`. */
  function CloseStep(s: State, p: Pid): State
    requires Inv(s) && p in s.unclosed
  {
    var s1 := s.(unclosed := s.unclosed - {p});
    if s1.skipPending then s1.(skipPending := false)
    else if s1.paused then s1
    else PlayCurrentStep(Advance(s1))
  }

  /** The 'error' handler of process `p`. */
  function ErrorStep(s: State, p: Pid): State
    requires Inv(s) && p < s.nextPid
  {
    if s.skipPending then s else PlayCurrentStep(Advance(s))
  }

  /** POST /control/skip. */
  function SkipStep(s: State): State
    requires Inv(s)
  {
    PlayCurrentStep(Advance(s.(skipPending := true)))
  }

  /** POST /control/pause. */
  function PauseStep(s: State): State
  {
    StopStep(s.(paused := true))
  }

  /** POST /control/resume. */
  function ResumeStep(s: State): State
    requires Inv(s)
  {
    if !s.paused then s else PlayCurrentStep(s.(paused := false))
  }

  /** GET /stream: `clients.add(res)` for a new response object. */
  function AttachStep(s: State, c: ClientId, highWater: nat): State
  {
    s.(clients := s.clients + [c], sockets := s.sockets[c := Socket(highWater, 0, false, [])])
  }

  /** The request's 'close' (or the response's 'error'): `clients.delete(res)`. */
  function DetachStep(s: State, c: ClientId): State
  {
    s.(clients := Remove(s.clients, c))
  }

  /** The listeners `broadcastChunk` writes to: those before the first refusal
      and the refusing one. */
  function Reached(s: State, chunk: Chunk): (r: seq<ClientId>)
    requires Inv(s)
  {
    var k := FirstRefusal(s.clients, s.sockets, chunk);
    if k < |s.clients| then s.clients[..k + 1] else s.clients
  }

  /** True when `broadcastChunk` throws: a write is refused while the handle
      is null, so `ffmpeg.stdout.pause()` dereferences null. */
  predicate DataFault(s: State, chunk: Chunk)
    requires Inv(s)
  {
    FirstRefusal(s.clients, s.sockets, chunk) < |s.clients| && s.ffmpeg.None?
  }

  /** `broadcastChunk(chunk)`: write to the listeners in order and, at the
      first refusal, pause the current process's stdout, register one
      'drain' handler on the refusing listener, and stop. */
  function DataStep(s: State, chunk: Chunk): State
    requires Inv(s)
  {
    var k := FirstRefusal(s.clients, s.sockets, chunk);
    var reached := Reached(s, chunk);
    var s1 := s.(sockets := WriteAll(s.sockets, reached, chunk));
    if k == |s.clients| || s.ffmpeg.None? then s1
    else s1.(pausedOut := s.pausedOut + {s.ffmpeg.value}, drainWaiters := s.drainWaiters + [s.clients[k]])
  }

  /** True when the 'drain' handlers of `c` throw: they call
      `ffmpeg.stdout.resume()` while the handle is null. */
  predicate DrainFault(s: State, c: ClientId)
    requires c in s.sockets
  {
    s.sockets[c].needDrain && c in s.drainWaiters && s.ffmpeg.None?
  }

  /** Listener `c` flushes its buffer; if a 'drain' was owed it is emitted and
      every handler registered on `c` unregisters itself and resumes the
      current process's stdout. When the handle is null the first handler
      throws after unregistering itself, and the handlers after it stay
      registered. */
  function DrainStep(s: State, c: ClientId): State
    requires c in s.sockets
  {
    var sock := s.sockets[c];
    var s1 := s.(sockets := s.sockets[c := sock.(buffered := 0, needDrain := false)]);
    if !sock.needDrain then s1
    else if s.ffmpeg.None? then s1.(drainWaiters := RemoveFirst(s.drainWaiters, c))
    else
      var s2 := s1.(drainWaiters := Remove(s.drainWaiters, c));
      if c !in s.drainWaiters then s2
      else s2.(pausedOut := s.pausedOut - {s.ffmpeg.value})
  }

  /** `DataStep` in terms of what the write loop returns. */
  lemma DataStepShape(s: State, chunk: Chunk, written: map<ClientId, Socket>, refusedAt: nat)
    requires Inv(s)
    requires refusedAt == FirstRefusal(s.clients, s.sockets, chunk)
    requires written == WriteAll(s.sockets, if refusedAt < |s.clients| then s.clients[..refusedAt + 1] else s.clients, chunk)
    ensures DataFault(s, chunk) <==> refusedAt < |s.clients| && s.ffmpeg.None?
    ensures DataStep(s, chunk) ==
      if refusedAt < |s.clients| && s.ffmpeg.Some?
      then s.(sockets := written, pausedOut := s.pausedOut + {s.ffmpeg.value}, drainWaiters := s.drainWaiters + [s.clients[refusedAt]])
      else s.(sockets := written)
  {
  }

  /** `DrainStep` field by field. */
  lemma DrainStepShape(s: State, c: ClientId)
    requires c in s.sockets
    ensures DrainStep(s, c) == s.(
      sockets := s.sockets[c := s.sockets[c].(buffered := 0, needDrain := false)],
      pausedOut := if s.sockets[c].needDrain && c in s.drainWaiters && s.ffmpeg.Some? then s.pausedOut - {s.ffmpeg.value} else s.pausedOut,
      drainWaiters :=
        if !s.sockets[c].needDrain then s.drainWaiters
        else if s.ffmpeg.None? then RemoveFirst(s.drainWaiters, c)
        else Remove(s.drainWaiters, c))
  {
  }

  /* ---------- every step keeps the invariant ---------- */

  lemma InitialInv()
    ensures Inv(Initial)
  {
  }

  lemma StopKeepsInv(s: State)
    requires Inv(s)
    ensures Inv(StopStep(s)) && StopStep(s).ffmpeg.None?
    ensures forall q | q in StopStep(s).unclosed :: q in StopStep(s).killed
  {
  }

  lemma SpawnKeepsInv(s: State)
    requires Inv(s) && s.ffmpeg.None? && s.currentIndex < |s.playlist|
    requires forall q | q in s.unclosed :: q in s.killed
    ensures Inv(SpawnStep(s))
  {
    var t := SpawnStep(s);
    forall q | q in t.unclosed && q !in t.killed ensures t.ffmpeg == Some(q) {
      assert q == s.nextPid;
    }
    forall q | q in t.unclosed ensures q < t.nextPid {
    }
    forall q | q in t.pausedOut ensures q < t.nextPid {
    }
  }

  lemma PlayCurrentKeepsInv(s: State)
    requires Inv(s)
    ensures Inv(PlayCurrentStep(s))
  {
    if !s.paused && |s.playlist| > 0 {
      StopKeepsInv(s);
      SpawnKeepsInv(StopStep(s));
    }
  }

  lemma CloseKeepsInv(s: State, p: Pid)
    requires Inv(s) && p in s.unclosed
    ensures Inv(CloseStep(s, p))
  {
    var s1 := s.(unclosed := s.unclosed - {p});
    if !s1.skipPending && !s1.paused {
      PlayCurrentKeepsInv(Advance(s1));
    }
  }

  lemma ErrorKeepsInv(s: State, p: Pid)
    requires Inv(s) && p < s.nextPid
    ensures Inv(ErrorStep(s, p))
  {
    if !s.skipPending {
      PlayCurrentKeepsInv(Advance(s));
    }
  }

  lemma SkipKeepsInv(s: State)
    requires Inv(s)
    ensures Inv(SkipStep(s))
  {
    PlayCurrentKeepsInv(Advance(s.(skipPending := true)));
  }

  lemma PauseKeepsInv(s: State)
    requires Inv(s)
    ensures Inv(PauseStep(s))
  {
  }

  lemma ResumeKeepsInv(s: State)
    requires Inv(s)
    ensures Inv(ResumeStep(s))
  {
    if s.paused {
      PlayCurrentKeepsInv(s.(paused := false));
    }
  }

  lemma AttachKeepsInv(s: State, c: ClientId, highWater: nat)
    requires Inv(s) && c !in s.sockets
    ensures Inv(AttachStep(s, c, highWater))
  {
    AppendKeepsNoDup(s.clients, c);
  }

  lemma DetachKeepsInv(s: State, c: ClientId)
    requires Inv(s)
    ensures Inv(DetachStep(s, c))
  {
    RemoveKeepsNoDup(s.clients, c);
  }

  lemma DataKeepsInv(s: State, chunk: Chunk)
    requires Inv(s)
    ensures Inv(DataStep(s, chunk))
  {
  }

  lemma DrainKeepsInv(s: State, c: ClientId)
    requires Inv(s) && c in s.sockets
    ensures Inv(DrainStep(s, c))
  {
    if s.sockets[c].needDrain && s.ffmpeg.None? {
      RemoveFirstKeeps(s.drainWaiters, c);
    }
  }

  /* ---------- what sequences of events do ---------- */

  /** A station playing process `p` of a non-empty playlist, with no skip under way. */
  predicate Playing(s: State, p: Pid)
  {
    Inv(s) && |s.playlist| > 0 && !s.paused && !s.skipPending && s.ffmpeg == Some(p) && p in s.unclosed
  }

  /** A skip, followed by the 'close' of the process it killed, moves exactly one
      track forward and leaves the new track's process playing. */
  lemma SkipThenCloseAdvancesOnce(s: State, p: Pid)
    requires Playing(s, p)
    ensures Inv(SkipStep(s)) && p in SkipStep(s).unclosed
    ensures var t := CloseStep(SkipStep(s), p);
      && t.currentIndex == NextIndex(s.currentIndex, |s.playlist|)
      && t.currentTrack == Some(Basename(s.playlist[t.currentIndex]))
      && Playing(t, s.nextPid)
  {
    SkipKeepsInv(s);
    var t := CloseStep(SkipStep(s), p);
    CloseKeepsInv(SkipStep(s), p);
    assert s.nextPid in t.unclosed;
  }

  /** Two skips in a row, before the first killed process has closed, move three
      tracks forward: the first 'close' consumes the pending skip and the second
      one is taken for the end of a track. */
  lemma DoubleSkipAdvancesThrice(s: State, p: Pid)
    requires Playing(s, p)
    ensures Inv(SkipStep(SkipStep(s))) && p in SkipStep(SkipStep(s)).unclosed
    ensures Inv(CloseStep(SkipStep(SkipStep(s)), p)) && s.nextPid in CloseStep(SkipStep(SkipStep(s)), p).unclosed
    ensures var t := CloseStep(CloseStep(SkipStep(SkipStep(s)), p), s.nextPid);
      && t.currentIndex == Steps(s.currentIndex, |s.playlist|, 3)
      && Playing(t, s.nextPid + 2)
  {
    SkipKeepsInv(s);
    SkipKeepsInv(SkipStep(s));
    var t2 := SkipStep(SkipStep(s));
    CloseKeepsInv(t2, p);
    var t3 := CloseStep(t2, p);
    CloseKeepsInv(t3, s.nextPid);
    var t4 := CloseStep(t3, s.nextPid);
    var n := |s.playlist|;
    assert t2.currentIndex == NextIndex(NextIndex(s.currentIndex, n), n);
    assert t4.currentIndex == NextIndex(t3.currentIndex, n);
    assert Steps(s.currentIndex, n, 1) == NextIndex(s.currentIndex, n);
    assert Steps(s.currentIndex, n, 2) == NextIndex(Steps(s.currentIndex, n, 1), n);
    assert Steps(s.currentIndex, n, 3) == NextIndex(Steps(s.currentIndex, n, 2), n);
    assert s.nextPid + 2 in t4.unclosed;
  }

  /** A process that fails to start emits 'error' and then 'close': both
      handlers advance, so one track is skipped unplayed. */
  lemma ErrorThenCloseAdvancesTwice(s: State, p: Pid)
    requires Playing(s, p)
    ensures Inv(ErrorStep(s, p)) && p in ErrorStep(s, p).unclosed
    ensures var t := CloseStep(ErrorStep(s, p), p);
      && t.currentIndex == Steps(s.currentIndex, |s.playlist|, 2)
      && Playing(t, s.nextPid + 1)
  {
    ErrorKeepsInv(s, p);
    var t1 := ErrorStep(s, p);
    CloseKeepsInv(t1, p);
    var t := CloseStep(t1, p);
    var n := |s.playlist|;
    assert Steps(s.currentIndex, n, 1) == NextIndex(s.currentIndex, n);
    assert Steps(s.currentIndex, n, 2) == NextIndex(Steps(s.currentIndex, n, 1), n);
    assert s.nextPid + 1 in t.unclosed;
  }

  /** Pausing kills the process; its 'close' does not advance, and resuming
      restarts the same track from its beginning in a new process. */
  lemma PauseCloseResumeRestartsTrack(s: State, p: Pid)
    requires Playing(s, p)
    ensures Inv(PauseStep(s)) && p in PauseStep(s).unclosed
    ensures Inv(CloseStep(PauseStep(s), p))
    ensures var t := ResumeStep(CloseStep(PauseStep(s), p));
      && t.currentIndex == s.currentIndex
      && t.currentTrack == Some(Basename(s.playlist[s.currentIndex]))
      && Playing(t, s.nextPid)
      && t.unclosed == s.unclosed - {p} + {s.nextPid}
  {
    PauseKeepsInv(s);
    CloseKeepsInv(PauseStep(s), p);
    var t := ResumeStep(CloseStep(PauseStep(s), p));
    ResumeKeepsInv(CloseStep(PauseStep(s), p));
    assert s.nextPid in t.unclosed;
  }

  /** A skip while paused moves the position but starts nothing. */
  lemma SkipWhilePausedStartsNothing(s: State)
    requires Inv(s) && s.paused && |s.playlist| > 0
    ensures SkipStep(s) == s.(skipPending := true, currentIndex := NextIndex(s.currentIndex, |s.playlist|))
  {
  }

  /** Pause, let the killed process close, skip, resume: the 'close' at the
      natural end of the resumed track is taken for the skip, so nothing is
      started and the station falls silent although it is not paused. */
  lemma SkipWhilePausedStallsAfterResume(s: State, p: Pid)
    requires Playing(s, p) && s.unclosed == {p}
    ensures Inv(CloseStep(PauseStep(s), p))
    ensures Inv(ResumeStep(SkipStep(CloseStep(PauseStep(s), p))))
    ensures s.nextPid in ResumeStep(SkipStep(CloseStep(PauseStep(s), p))).unclosed
    ensures var t := CloseStep(ResumeStep(SkipStep(CloseStep(PauseStep(s), p))), s.nextPid);
      && !t.paused && !t.skipPending
      && t.unclosed == {}
  {
    PauseKeepsInv(s);
    var t1 := CloseStep(PauseStep(s), p);
    CloseKeepsInv(PauseStep(s), p);
    SkipKeepsInv(t1);
    var t2 := ResumeStep(SkipStep(t1));
    ResumeKeepsInv(SkipStep(t1));
    assert s.nextPid in t2.unclosed;
  }

  /** A prefix of a duplicate-free list is duplicate-free. */
  lemma PrefixNoDup<T>(xs: seq<T>, k: nat)
    requires NoDup(xs) && k <= |xs|
    ensures NoDup(xs[..k])
  {
    forall i, j | 0 <= i < j < k ensures xs[..k][i] != xs[..k][j] {
      assert xs[..k][i] == xs[i] && xs[..k][j] == xs[j];
    }
  }

  /** A chunk reaches the listeners up to and including the first one that
      refuses it, and no listener after that one. */
  lemma DataReachesPrefix(s: State, chunk: Chunk, i: nat)
    requires Inv(s) && i < |s.clients|
    ensures var c := s.clients[i];
      DataStep(s, chunk).sockets[c].received ==
        if i <= FirstRefusal(s.clients, s.sockets, chunk) then s.sockets[c].received + [chunk]
        else s.sockets[c].received
  {
    var k := FirstRefusal(s.clients, s.sockets, chunk);
    var reached := Reached(s, chunk);
    var c := s.clients[i];
    if k < |s.clients| {
      PrefixNoDup(s.clients, k + 1);
      if i <= k {
        assert reached[i] == c;
      } else {
        assert c !in reached by {
          forall j | 0 <= j < |reached| ensures reached[j] != c {
            assert reached[j] == s.clients[j];
          }
        }
      }
    }
    WriteAllEffect(s.sockets, reached, chunk, c);
  }

  /** The running process's output is held back exactly when some listener
      refuses the chunk, and the first such listener then waits for 'drain'. */
  lemma DataStallsIffRefused(s: State, chunk: Chunk, p: Pid)
    requires Inv(s) && s.ffmpeg == Some(p) && p !in s.pausedOut
    ensures p in DataStep(s, chunk).pausedOut <==>
      exists i | 0 <= i < |s.clients| :: !Accepts(s.sockets[s.clients[i]], chunk)
    ensures p in DataStep(s, chunk).pausedOut ==>
      DataStep(s, chunk).drainWaiters == s.drainWaiters + [s.clients[FirstRefusal(s.clients, s.sockets, chunk)]]
  {
    var k := FirstRefusal(s.clients, s.sockets, chunk);
    if exists i | 0 <= i < |s.clients| :: !Accepts(s.sockets[s.clients[i]], chunk) {
      var i :| 0 <= i < |s.clients| && !Accepts(s.sockets[s.clients[i]], chunk);
      assert k <= i;
    }
  }

  /** The 'drain' of the listener that stalled the broadcast resumes the
      running process's output. */
  lemma DrainOfBlockerResumes(s: State, c: ClientId, p: Pid)
    requires Inv(s) && c in s.drainWaiters && s.sockets[c].needDrain && s.ffmpeg == Some(p)
    ensures p !in DrainStep(s, c).pausedOut
    ensures c !in DrainStep(s, c).drainWaiters
    ensures !DrainFault(s, c)
  {
  }

  /** Starting a track (after a skip, a resume, an error or the end of the
      previous one) gets output flowing again: the new process's stdout is
      not held back, whatever listener the old one was waiting for. */
  lemma RestartClearsStall(s: State)
    requires Inv(s) && !s.paused && |s.playlist| > 0
    ensures PlayCurrentStep(s).ffmpeg == Some(s.nextPid)
    ensures s.nextPid !in PlayCurrentStep(s).pausedOut
    ensures PlayCurrentStep(s).pausedOut == s.pausedOut
  {
  }

  /** Dropping a listener does not resume a stalled output, even when it is the
      listener the broadcast waits for. */
  lemma DetachKeepsStall(s: State, c: ClientId)
    requires Inv(s)
    ensures c !in DetachStep(s, c).clients
    ensures DetachStep(s, c).pausedOut == s.pausedOut
    ensures DetachStep(s, c).drainWaiters == s.drainWaiters
  {
  }

  /** A pause while the broadcast waits for a listener, followed by that
      listener's 'drain': the handler resumes a null handle and throws. Only
      that one handler is gone afterwards; the output stays paused. */
  lemma PauseDuringStallThenDrainFaults(s: State, chunk: Chunk, p: Pid)
    requires Inv(s) && s.ffmpeg == Some(p) && p !in s.pausedOut
    requires FirstRefusal(s.clients, s.sockets, chunk) < |s.clients|
    ensures var c := s.clients[FirstRefusal(s.clients, s.sockets, chunk)];
      var t := PauseStep(DataStep(s, chunk));
      && c in t.sockets && DrainFault(t, c)
      && p in DrainStep(t, c).pausedOut
      && multiset(DrainStep(t, c).drainWaiters)[c] == multiset(s.drainWaiters)[c]
  {
    var k := FirstRefusal(s.clients, s.sockets, chunk);
    var c := s.clients[k];
    var reached := Reached(s, chunk);
    PrefixNoDup(s.clients, k + 1);
    assert reached[k] == c;
    WriteAllEffect(s.sockets, reached, chunk, c);
    var d := DataStep(s, chunk);
    assert d.drainWaiters == s.drainWaiters + [c];
    assert d.sockets[c].needDrain;
  }

  /* ---------- the station ---------- */

  class Station {
    var playlist: seq<string>
    var currentIndex: nat
    var currentTrack: Option<string>
    var paused: bool
    var skipPending: bool
    var ffmpeg: Option<Pid>
    var clients: seq<ClientId>

    // the environment: process handles, process liveness, listener sockets
    var nextPid: Pid
    ghost var unclosed: set<Pid>
    ghost var killed: set<Pid>
    var pausedOut: set<Pid>
    var sockets: map<ClientId, Socket>
    var drainWaiters: seq<ClientId>

    ghost function Snapshot(): State
      reads this
    {
      State(playlist, currentIndex, currentTrack, paused, skipPending, ffmpeg, clients,
            nextPid, unclosed, killed, pausedOut, sockets, drainWaiters)
    }

    ghost predicate Valid()
      reads this
    {
      Inv(Snapshot())
    }

    /** The module-level declarations (server.js:13-20). */
    constructor ()
      ensures Valid() && Snapshot() == Initial
    {
      playlist, currentIndex, currentTrack := [], 0, None;
      paused, skipPending, ffmpeg, clients := false, false, None, [];
      nextPid, unclosed, killed, pausedOut := 0, {}, {}, {};
      sockets, drainWaiters := map[], [];
    }

    /** `loadPlaylist()`: collect the `.mp3` files under the music directory,
        whose tree is `root`, and shuffle them with the oracle `choices`. */
    method LoadPlaylist(root: seq<Catalog.Entry>, choices: seq<nat>)
      requires Valid() && nextPid == 0 && currentIndex == 0
      requires Catalog.ValidChoices(choices, |Catalog.Mp3Files(MusicDir, root)|)
      modifies this
      ensures Valid()
      ensures Snapshot() == old(Snapshot()).(playlist := Catalog.Shuffled(Catalog.Mp3Files(MusicDir, root), choices))
      ensures multiset(playlist) == multiset(Catalog.Mp3Files(MusicDir, root))
    {
      var files := Catalog.GetAllMp3Files(MusicDir, root);
      var a := new string[|files|](i requires 0 <= i < |files| => files[i]);
      assert a[..] == files;
      Catalog.Shuffle(a, choices);
      playlist := a[..];
      Catalog.ShuffledIsPermutation(files, choices);
    }

    /** The `app.listen` callback: load the playlist and start playing. */
    method Listen(root: seq<Catalog.Entry>, choices: seq<nat>)
      requires Valid() && nextPid == 0 && currentIndex == 0
      requires Catalog.ValidChoices(choices, |Catalog.Mp3Files(MusicDir, root)|)
      modifies this
      ensures Valid()
      ensures Snapshot() == PlayCurrentStep(old(Snapshot()).(playlist := Catalog.Shuffled(Catalog.Mp3Files(MusicDir, root), choices)))
    {
      LoadPlaylist(root, choices);
      PlayCurrent();
    }

    /** `stopFFmpeg()`. */
    method StopFFmpeg()
      requires Valid()
      modifies this
      ensures Valid() && Snapshot() == StopStep(old(Snapshot()))
    {
      if ffmpeg.Some? {
        killed := killed + {ffmpeg.value};
        ffmpeg := None;
      }
    }

    /** `playCurrent()`. */
    method PlayCurrent()
      requires Valid()
      modifies this
      ensures Valid() && Snapshot() == PlayCurrentStep(old(Snapshot()))
      ensures old(paused) || old(|playlist|) == 0 ==> unchanged(this)
    {
      if paused || |playlist| == 0 {
        return;
      }
      ghost var s0 := Snapshot();
      PlayCurrentKeepsInv(s0);
      StopFFmpeg();
      ghost var stopped := Snapshot();
      assert stopped == StopStep(s0);
      var trackPath := playlist[currentIndex];
      currentTrack := Some(Basename(trackPath));
      ffmpeg := Some(nextPid);
      unclosed := unclosed + {nextPid};
      nextPid := nextPid + 1;
      assert Snapshot() == SpawnStep(stopped) == PlayCurrentStep(s0);
    }

    /** The 'close' event of process `p`. */
    method OnClose(p: Pid)
      requires Valid() && p in unclosed
      modifies this
      ensures Valid() && Snapshot() == CloseStep(old(Snapshot()), p)
    {
      CloseKeepsInv(Snapshot(), p);
      unclosed := unclosed - {p};
      if skipPending {
        skipPending := false;
        return;
      }
      if !paused {
        currentIndex := NextIndex(currentIndex, |playlist|);
        PlayCurrent();
      }
    }

    /** The 'error' event of process `p`. */
    method OnError(p: Pid)
      requires Valid() && p < nextPid
      modifies this
      ensures Valid() && Snapshot() == ErrorStep(old(Snapshot()), p)
    {
      if !skipPending {
        currentIndex := NextIndex(currentIndex, |playlist|);
        PlayCurrent();
      }
    }

    /** POST /control/skip. */
    method Skip()
      requires Valid()
      modifies this
      ensures Valid() && Snapshot() == SkipStep(old(Snapshot()))
    {
      skipPending := true;
      if |playlist| > 0 {
        currentIndex := NextIndex(currentIndex, |playlist|);
      }
      PlayCurrent();
    }

    /** POST /control/pause. */
    method Pause()
      requires Valid()
      modifies this
      ensures Valid() && Snapshot() == PauseStep(old(Snapshot()))
    {
      paused := true;
      StopFFmpeg();
    }

    /** POST /control/resume. */
    method Resume()
      requires Valid()
      modifies this
      ensures Valid() && Snapshot() == ResumeStep(old(Snapshot()))
      ensures !old(paused) ==> unchanged(this)
    {
      if !paused {
        return;
      }
      paused := false;
      PlayCurrent();
    }

    /** GET /stream for the new response object `c`. */
    method Attach(c: ClientId, highWater: nat)
      requires Valid() && c !in sockets
      modifies this
      ensures Valid() && Snapshot() == AttachStep(old(Snapshot()), c, highWater)
    {
      AttachKeepsInv(Snapshot(), c, highWater);
      clients := clients + [c];
      sockets := sockets[c := Socket(highWater, 0, false, [])];
    }

    /** The request of listener `c` closes, or its response fails. */
    method Detach(c: ClientId)
      requires Valid()
      modifies this
      ensures Valid() && Snapshot() == DetachStep(old(Snapshot()), c)
    {
      DetachKeepsInv(Snapshot(), c);
      clients := Remove(clients, c);
    }

    /** GET /now-playing. */
    method NowPlaying() returns (track: Option<string>, isPaused: bool, listeners: nat)
      requires Valid()
      ensures track == currentTrack && isPaused == paused
      ensures listeners == |clients|
    {
      track, isPaused, listeners := currentTrack, paused, |clients|;
    }

    /** One 'data' event of process `p`'s stdout, handled by `broadcastChunk`.
        A paused stdout emits nothing and a closed process has no stdout. */
    method OnData(p: Pid, chunk: Chunk) returns (fault: bool)
      requires Valid() && p in unclosed && p !in pausedOut
      modifies this
      ensures Valid() && Snapshot() == DataStep(old(Snapshot()), chunk)
      ensures fault == DataFault(old(Snapshot()), chunk)
    {
      ghost var s0 := Snapshot();
      DataKeepsInv(s0, chunk);
      var written, refusedAt := WriteUntilRefused(clients, sockets, chunk);
      DataStepShape(s0, chunk, written, refusedAt);
      var stall := refusedAt < |clients|;
      fault := stall && ffmpeg.None?;
      var out, waiters := pausedOut, drainWaiters;
      if stall && ffmpeg.Some? {
        out, waiters := out + {ffmpeg.value}, waiters + [clients[refusedAt]];
      }
      sockets, pausedOut, drainWaiters := written, out, waiters;
    }

    /** Listener `c`'s socket flushes its buffer. */
    method OnDrain(c: ClientId) returns (fault: bool)
      requires Valid() && c in sockets
      modifies this
      ensures Valid() && Snapshot() == DrainStep(old(Snapshot()), c)
      ensures fault == DrainFault(old(Snapshot()), c)
    {
      DrainKeepsInv(Snapshot(), c);
      DrainStepShape(Snapshot(), c);
      var sock := sockets[c];
      var waiting := c in drainWaiters;
      fault := sock.needDrain && waiting && ffmpeg.None?;
      var out, waiters := pausedOut, drainWaiters;
      if sock.needDrain && ffmpeg.None? {
        waiters := RemoveFirst(drainWaiters, c);
      } else if sock.needDrain {
        waiters := Remove(drainWaiters, c);
        if waiting {
          out := out - {ffmpeg.value};
        }
      }
      sockets, pausedOut, drainWaiters := sockets[c := sock.(buffered := 0, needDrain := false)], out, waiters;
    }
  }
}
