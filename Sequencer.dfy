/** The synchronised-playback sequencer of backend/server.js: a shuffled list
    of audio files, the position of the current song, and when it started.
    Clients are told `{ song, startedAt }` after every change and play the
    file themselves; the server never learns how long a song lasts.

    `Deck` collects the module-level variables in one value and the `...Step`
    functions say what each function of the server does to it; class
    `Sequencer` holds the same variables as fields and its methods are proved
    against the step functions. `Date.now()` is the parameter `now`. */
module Sequencer {
  import opened Common
  import opened Cyclic

  /** The default of `MUSIC_DIR`. */
  const MusicDir: string := "/music"

  /** One playlist entry: the file name and its path under the music directory. */
  datatype Song = Song(name: string, path: string)

  /** The message `broadcast()` sends to every open socket. */
  datatype Announcement = Announcement(song: string, startedAt: int)

  /** ASCII lower-casing, which is all the case folding a non-Unicode `/i`
      regular expression applies to the ASCII letters of its pattern. */
  function Lower(c: char): char
  {
    if 'A' <= c <= 'Z' then (c as int + 32) as char else c
  }

  /** `s` ends in `suffix` when compared case-insensitively; `suffix` is lower-case. */
  predicate EndsWithIgnoringCase(s: string, suffix: string)
  {
    |suffix| <= |s| && forall i | 0 <= i < |suffix| :: Lower(s[|s| - |suffix| + i]) == suffix[i]
  }

  /** `/\.(mp3|ogg|wav)$/i.test(f)`. */
  predicate IsAudio(f: string)
  {
    EndsWithIgnoringCase(f, ".mp3") || EndsWithIgnoringCase(f, ".ogg") || EndsWithIgnoringCase(f, ".wav")
  }

  /** The `filter` and `map` of `loadSongs()` over the directory listing `names`. */
  function SongsOf(dir: string, names: seq<string>): seq<Song>
  {
    if names == [] then []
    else
      var rest := SongsOf(dir, names[1..]);
      if IsAudio(names[0]) then [Song(names[0], Join(dir, names[0]))] + rest else rest
  }

  /** A song is listed exactly when its name is an audio file of the listing
      and its path is that name under the directory. */
  lemma {:induction false} SongsOfExactly(dir: string, names: seq<string>, song: Song)
    ensures song in SongsOf(dir, names) <==>
      song.name in names && IsAudio(song.name) && song.path == Join(dir, song.name)
  {
    if names != [] {
      SongsOfExactly(dir, names[1..], song);
      assert names == [names[0]] + names[1..];
    }
  }

  /** Filtering keeps the listing's order: the songs of two consecutive parts
      of a listing are the songs of the first part, then those of the second. */
  lemma {:induction false} SongsOfAppend(dir: string, a: seq<string>, b: seq<string>)
    ensures SongsOf(dir, a + b) == SongsOf(dir, a) + SongsOf(dir, b)
  {
    if a != [] {
      assert (a + b)[0] == a[0] && (a + b)[1..] == a[1..] + b;
      SongsOfAppend(dir, a[1..], b);
    } else {
      assert a + b == b;
    }
  }

  /** The audio filter accepts every name the `.mp3` filters of the other two
      servers accept, whatever the case of the extension. */
  lemma Mp3IsAudio(f: string)
    requires EndsWith(f, Mp3)
    ensures IsAudio(f)
  {
    forall i | 0 <= i < 4 ensures Lower(f[|f| - 4 + i]) == ".mp3"[i] {
      assert f[|f| - 4 + i] == f[|f| - 4..][i];
    }
  }

  /** `playlist`, `index`, `startedAt` and `durationMs`. */
  datatype Deck = Deck(playlist: seq<Song>, index: nat, startedAt: int, durationMs: int)

  /** The position lies in the playlist whenever it has songs. */
  predicate Positioned(d: Deck)
  {
    |d.playlist| > 0 ==> d.index < |d.playlist|
  }

  /** What holds in every reachable state: the position lies in the playlist,
      and no song duration is ever known. */
  predicate Inv(d: Deck)
  {
    Positioned(d) && d.durationMs == 0
  }

  /** The module-level declarations, evaluated at time `now` (backend/server.js:23-26). */
  function Boot(now: int): (d: Deck)
    ensures Inv(d) && d.playlist == [] && d.startedAt == now
  {
    Deck([], 0, now, 0)
  }

  /** `loadSongs()`: the filtered listing, in the order `playlist.sort` leaves
      it, which is passed in as `order`. */
  function LoadStep(d: Deck, order: seq<Song>): Deck
  {
    d.(playlist := order)
  }

  /** `currentSong()`: `playlist[index]`, which is `undefined` on an empty playlist. */
  function Current(d: Deck): Option<Song>
  {
    if d.index < |d.playlist| then Some(d.playlist[d.index]) else None
  }

  /** The payload `broadcast()` builds; `None` where reading `.name` of
      `undefined` throws. */
  function Announce(d: Deck): Option<Announcement>
  {
    if d.index < |d.playlist| then Some(Announcement(d.playlist[d.index].name, d.startedAt)) else None
  }

  /** `nextSong()` at time `now`. On an empty playlist JavaScript stores NaN
      in `index`; the model keeps the index, which nothing can then read. */
  function NextStep(d: Deck, now: int): Deck
  {
    var i := if |d.playlist| == 0 then d.index else NextIndex(d.index, |d.playlist|);
    d.(index := i, startedAt := now, durationMs := 0)
  }

  /** `prevSong()` at time `now`, with the same treatment of the empty playlist. */
  function PrevStep(d: Deck, now: int): Deck
  {
    var i := if |d.playlist| == 0 then d.index else PrevIndex(d.index, |d.playlist|);
    d.(index := i, startedAt := now, durationMs := 0)
  }

  /** The condition of the auto-advance timer: the song has run longer than
      its duration, and the duration is known (non-zero). */
  predicate ShouldAdvance(d: Deck, now: int)
  {
    now - d.startedAt > d.durationMs && d.durationMs != 0
  }

  /** One tick of the auto-advance timer. */
  function TickStep(d: Deck, now: int): Deck
  {
    if ShouldAdvance(d, now) then NextStep(d, now) else d
  }

  /* ---------- properties ---------- */

  /** Stepping keeps the position in the playlist, resets the duration, and
      records the time of the change. */
  lemma StepsKeepInv(d: Deck, now: int)
    requires Inv(d)
    ensures Inv(NextStep(d, now)) && Inv(PrevStep(d, now)) && Inv(TickStep(d, now))
    ensures NextStep(d, now).startedAt == now && PrevStep(d, now).startedAt == now
    ensures NextStep(d, now).playlist == d.playlist && PrevStep(d, now).playlist == d.playlist
  {
  }

  /** Going back after going forward, or forward after going back, returns to
      the same song; only the start time moves. */
  lemma PrevUndoesNext(d: Deck, t1: int, t2: int)
    requires Inv(d) && |d.playlist| > 0
    ensures PrevStep(NextStep(d, t1), t2) == d.(startedAt := t2)
    ensures NextStep(PrevStep(d, t1), t2) == d.(startedAt := t2)
  {
    PrevNextInverse(d.index, |d.playlist|);
  }

  /** `k` consecutive `nextSong()` calls, all at time `now`. */
  function NextTimes(d: Deck, k: nat, now: int): Deck
  {
    if k == 0 then d else NextStep(NextTimes(d, k - 1, now), now)
  }

  lemma {:induction false} NextTimesIsSteps(d: Deck, k: nat, now: int)
    requires |d.playlist| > 0
    ensures NextTimes(d, k, now).index == Steps(d.index, |d.playlist|, k)
    ensures NextTimes(d, k, now).playlist == d.playlist
  {
    if k > 0 {
      NextTimesIsSteps(d, k - 1, now);
    }
  }

  /** As many `nextSong()` calls as there are songs play every song once and
      come back to the song they started from. */
  lemma NextCyclesThroughAll(d: Deck, now: int)
    requires Inv(d) && |d.playlist| > 0
    ensures NextTimes(d, |d.playlist|, now).index == d.index
    ensures var n := |d.playlist|;
      seq(n, (k: nat) requires k < n => NextTimes(d, k, now).index) == Lap(d.index, n)
    ensures NoDup(Lap(d.index, |d.playlist|))
    ensures forall j | 0 <= j < |d.playlist| :: j in Lap(d.index, |d.playlist|)
  {
    var n := |d.playlist|;
    NextTimesIsSteps(d, n, now);
    forall k | 0 <= k < n ensures NextTimes(d, k, now).index == Lap(d.index, n)[k] {
      NextTimesIsSteps(d, k, now);
    }
    StepsCycle(d.index, n);
  }

  /** Since the duration is always 0 the timer never advances. */
  lemma TickNeverAdvances(d: Deck, now: int)
    requires Inv(d)
    ensures !ShouldAdvance(d, now) && TickStep(d, now) == d
  {
  }

  /** After a step, the announcement names the new current song and the time
      of the step, whenever the playlist has songs. */
  lemma StepAnnouncesCurrent(d: Deck, now: int)
    requires Inv(d)
    ensures var a := Announce(NextStep(d, now));
      |d.playlist| > 0 <==> a.Some?
    ensures |d.playlist| > 0 ==>
      && Announce(NextStep(d, now)) == Some(Announcement(Current(NextStep(d, now)).value.name, now))
      && Announce(PrevStep(d, now)) == Some(Announcement(Current(PrevStep(d, now)).value.name, now))
  {
  }

  /* ---------- the server ---------- */

  class Sequencer {
    var playlist: seq<Song>
    var index: nat
    var startedAt: int
    var durationMs: int

    ghost function Snapshot(): Deck
      reads this
    {
      Deck(playlist, index, startedAt, durationMs)
    }

    ghost predicate Valid()
      reads this
    {
      Inv(Snapshot())
    }

    /** The module-level declarations, at time `now`. */
    constructor (now: int)
      ensures Valid() && Snapshot() == Boot(now)
    {
      playlist, index, startedAt, durationMs := [], 0, now, 0;
    }

    /** `loadSongs()` over the listing `names` of the music directory, run once
        at boot. `order` is the list as the random `sort` leaves it: some
        rearrangement of the filtered songs. */
    method LoadSongs(names: seq<string>, order: seq<Song>)
      requires Valid() && index == 0
      requires multiset(order) == multiset(SongsOf(MusicDir, names))
      modifies this
      ensures Valid() && Snapshot() == LoadStep(old(Snapshot()), order)
      ensures forall s | s in playlist :: s in SongsOf(MusicDir, names)
    {
      playlist := order;
      forall s | s in playlist ensures s in SongsOf(MusicDir, names) {
        assert s in multiset(order);
      }
    }

    /** `currentSong()`. */
    method CurrentSong() returns (song: Option<Song>)
      requires Positioned(Snapshot())
      ensures song == Current(Snapshot())
      ensures |playlist| > 0 ==> song.Some? && song.value in playlist
    {
      if index < |playlist| {
        song := Some(playlist[index]);
      } else {
        song := None;
      }
    }

    /** POST /next: `nextSong()` at time `now`, with the payload it broadcasts
        (`None` where it throws). */
    method NextSong(now: int) returns (payload: Option<Announcement>)
      requires Positioned(Snapshot())
      modifies this
      ensures Valid() && Snapshot() == NextStep(old(Snapshot()), now)
      ensures payload == Announce(Snapshot())
    {
      if |playlist| > 0 {
        index := NextIndex(index, |playlist|);
      }
      startedAt, durationMs := now, 0;
      payload := Broadcast();
    }

    /** POST /prev: `prevSong()` at time `now`. */
    method PrevSong(now: int) returns (payload: Option<Announcement>)
      requires Positioned(Snapshot())
      modifies this
      ensures Valid() && Snapshot() == PrevStep(old(Snapshot()), now)
      ensures payload == Announce(Snapshot())
    {
      if |playlist| > 0 {
        index := PrevIndex(index, |playlist|);
      }
      startedAt, durationMs := now, 0;
      payload := Broadcast();
    }

    /** The payload of `broadcast()`. */
    method Broadcast() returns (payload: Option<Announcement>)
      requires Positioned(Snapshot())
      ensures payload == Announce(Snapshot())
    {
      var song := CurrentSong();
      if song.Some? {
        payload := Some(Announcement(song.value.name, startedAt));
      } else {
        payload := None;
      }
    }

    /** The auto-advance timer firing at time `now`. */
    method Tick(now: int) returns (payload: Option<Announcement>)
      requires Positioned(Snapshot())
      modifies this
      ensures Positioned(Snapshot()) && Snapshot() == TickStep(old(Snapshot()), now)
      ensures payload == if ShouldAdvance(old(Snapshot()), now) then Announce(Snapshot()) else None
      ensures old(Valid()) ==> unchanged(this) && payload.None?
    {
      payload := None;
      if now - startedAt > durationMs && durationMs != 0 {
        payload := NextSong(now);
      }
    }
  }
}
