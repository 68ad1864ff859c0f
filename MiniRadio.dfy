/** The minimal radio of src/server.js: the `.mp3` files of one directory
    played in a loop through one transcoder whose output is copied to every
    connected listener, with no backpressure and no controls.

    Class `Radio` holds the module-level variables; the transcoder's 'end'
    event is a call of `PlayNext`, and `log` records every `res.write` in the
    order it is made. */
module MiniRadio {
  import opened Common
  import opened Cyclic

  const PlaylistDir: string := "/music"

  /** `names.filter(f => f.endsWith('.mp3'))`. */
  function Mp3Names(names: seq<string>): seq<string>
  {
    if names == [] then []
    else if EndsWith(names[0], Mp3) then [names[0]] + Mp3Names(names[1..])
    else Mp3Names(names[1..])
  }

  /** `.map(f => path.join(dir, f))`. */
  function Paths(dir: string, files: seq<string>): seq<string>
  {
    seq(|files|, (k: nat) requires k < |files| => Join(dir, files[k]))
  }

  /** The playlist built from the directory listing `names`. */
  function PlaylistOf(names: seq<string>): seq<string>
  {
    Paths(PlaylistDir, Mp3Names(names))
  }

  /** The filter keeps exactly the names ending in `.mp3`. */
  lemma {:induction false} Mp3NamesExactly(names: seq<string>, f: string)
    ensures f in Mp3Names(names) <==> f in names && EndsWith(f, Mp3)
  {
    if names != [] {
      Mp3NamesExactly(names[1..], f);
      assert names == [names[0]] + names[1..];
    }
  }

  /** Filtering a listing without repetitions gives a list without repetitions. */
  lemma {:induction false} Mp3NamesNoDup(names: seq<string>)
    requires NoDup(names)
    ensures NoDup(Mp3Names(names))
  {
    if names != [] {
      assert NoDup(names[1..]) by {
        forall i, j | 0 <= i < j < |names[1..]| ensures names[1..][i] != names[1..][j] {
          assert names[1..][i] == names[i + 1] && names[1..][j] == names[j + 1];
        }
      }
      Mp3NamesNoDup(names[1..]);
      if EndsWith(names[0], Mp3) {
        Mp3NamesExactly(names[1..], names[0]);
        assert names[0] !in names[1..] by {
          forall k | 0 <= k < |names[1..]| ensures names[1..][k] != names[0] {
            assert names[1..][k] == names[k + 1];
          }
        }
      }
    }
  }

  /** The playlist holds exactly the joined paths of the `.mp3` names, in
      listing order. */
  lemma PlaylistExactly(names: seq<string>)
    ensures |PlaylistOf(names)| == |Mp3Names(names)|
    ensures forall k | 0 <= k < |PlaylistOf(names)| :: PlaylistOf(names)[k] == Join(PlaylistDir, Mp3Names(names)[k])
    ensures forall f | f in Mp3Names(names) :: f in names && EndsWith(f, Mp3)
  {
    forall f | f in Mp3Names(names) ensures f in names && EndsWith(f, Mp3) {
      Mp3NamesExactly(names, f);
    }
  }

  /** With more than one `.mp3` file, the name /now-playing reports after a
      track has been handed to the transcoder is never that track's name: it
      is the name of the track after it. Directory entries are distinct,
      non-empty and free of '/'. */
  lemma NowPlayingIsNeverPlaying(names: seq<string>, i: nat)
    requires NoDup(names) && forall f | f in names :: f != [] && '/' !in f
    requires 1 < |PlaylistOf(names)| && i < |PlaylistOf(names)|
    ensures var p := PlaylistOf(names);
      Basename(p[NextIndex(i, |p|)]) != Basename(p[i])
  {
    var p := PlaylistOf(names);
    var fs := Mp3Names(names);
    var j := NextIndex(i, |p|);
    Mp3NamesNoDup(names);
    assert fs[i] in fs && fs[j] in fs;
    Mp3NamesExactly(names, fs[i]);
    Mp3NamesExactly(names, fs[j]);
    BasenameOfJoin(PlaylistDir, fs[i]);
    BasenameOfJoin(PlaylistDir, fs[j]);
  }

  /** One `res.write(chunk)` on the response of listener `client`. */
  datatype Delivery = Delivery(client: ClientId, chunk: Chunk)

  /** `clients.forEach(res => res.write(chunk))`: one write per listener, in
      list order. */
  function Fanout(clients: seq<ClientId>, chunk: Chunk): seq<Delivery>
  {
    seq(|clients|, (k: nat) requires k < |clients| => Delivery(clients[k], chunk))
  }

  /** The chunks written to `c`, in order. */
  function Received(log: seq<Delivery>, c: ClientId): seq<Chunk>
  {
    if log == [] then []
    else
      var last := log[|log| - 1];
      Received(log[..|log| - 1], c) + (if last.client == c then [last.chunk] else [])
  }

  lemma {:induction false} ReceivedAppend(a: seq<Delivery>, b: seq<Delivery>, c: ClientId)
    ensures Received(a + b, c) == Received(a, c) + Received(b, c)
    decreases |b|
  {
    if b == [] {
      assert a + b == a;
    } else {
      var b' := b[..|b| - 1];
      assert (a + b)[..|a + b| - 1] == a + b';
      ReceivedAppend(a, b', c);
    }
  }

  /** Every attached listener has each chunk written to it exactly once, after
      everything written to it before; a listener not attached gets nothing. */
  lemma {:induction false} FanoutDeliversOnce(clients: seq<ClientId>, chunk: Chunk, c: ClientId)
    requires NoDup(clients)
    ensures Received(Fanout(clients, chunk), c) == if c in clients then [chunk] else []
    decreases |clients|
  {
    if clients != [] {
      var init := clients[..|clients| - 1];
      var last := clients[|clients| - 1];
      assert clients == init + [last];
      assert NoDup(init);
      assert Fanout(clients, chunk)[..|clients| - 1] == Fanout(init, chunk);
      FanoutDeliversOnce(init, chunk, c);
      assert c == last ==> c !in init;
    }
  }

  /** After a 'data' event, each attached listener has received what it had
      before followed by the new chunk, and nothing else has changed for it. */
  lemma ChunkExtendsEachListener(log: seq<Delivery>, clients: seq<ClientId>, chunk: Chunk, c: ClientId)
    requires NoDup(clients)
    ensures Received(log + Fanout(clients, chunk), c) ==
      Received(log, c) + (if c in clients then [chunk] else [])
  {
    ReceivedAppend(log, Fanout(clients, chunk), c);
    FanoutDeliversOnce(clients, chunk, c);
  }

  class Radio {
    const playlist: seq<string>
    var currentTrack: nat
    var clients: seq<ClientId>
    var log: seq<Delivery>

    ghost predicate Valid()
      reads this
    {
      (|playlist| > 0 ==> currentTrack < |playlist|) && NoDup(clients)
    }

    /** The module-level declarations, with the listing `names` of `/music`. */
    constructor (names: seq<string>)
      ensures Valid() && playlist == PlaylistOf(names)
      ensures currentTrack == 0 && clients == [] && log == []
    {
      playlist := PlaylistOf(names);
      currentTrack, clients, log := 0, [], [];
    }

    /** `playNext()`, run by `startRadio()` and again on every 'end' event:
        the track handed to the transcoder, and the position moved past it.
        On an empty playlist the track is `undefined` and JavaScript stores
        NaN in `currentTrack`; the model keeps the position. */
    method PlayNext() returns (track: Option<string>)
      requires Valid()
      modifies this
      ensures Valid() && clients == old(clients) && log == old(log)
      ensures |playlist| > 0 ==>
        track == Some(playlist[old(currentTrack)]) && currentTrack == NextIndex(old(currentTrack), |playlist|)
      ensures |playlist| == 0 ==> track == None && currentTrack == old(currentTrack)
    {
      if |playlist| == 0 {
        return None;
      }
      track := Some(playlist[currentTrack]);
      currentTrack := NextIndex(currentTrack, |playlist|);
    }

    /** GET /now-playing: the base name of `playlist[currentTrack]`; `None`
        where `path.basename(undefined)` throws. */
    method NowPlaying() returns (track: Option<string>)
      requires Valid()
      ensures |playlist| > 0 ==> track == Some(Basename(playlist[currentTrack]))
      ensures |playlist| == 0 ==> track == None
    {
      if |playlist| == 0 {
        return None;
      }
      track := Some(Basename(playlist[currentTrack]));
    }

    /** One 'data' event of the shared stream: write the chunk to every
        listener, in list order. */
    method OnChunk(chunk: Chunk)
      requires Valid()
      modifies this
      ensures Valid() && currentTrack == old(currentTrack) && clients == old(clients)
      ensures log == old(log) + Fanout(clients, chunk)
    {
      for i := 0 to |clients|
        invariant clients == old(clients) && currentTrack == old(currentTrack)
        invariant log == old(log) + Fanout(clients[..i], chunk)
      {
        log := log + [Delivery(clients[i], chunk)];
        assert Fanout(clients[..i + 1], chunk) == Fanout(clients[..i], chunk) + [Delivery(clients[i], chunk)];
      }
      assert clients[..|clients|] == clients;
    }

    /** GET /stream: `clients.push(res)` for a new response object `c`. */
    method Attach(c: ClientId)
      requires Valid() && c !in clients
      modifies this
      ensures Valid() && currentTrack == old(currentTrack) && log == old(log)
      ensures clients == old(clients) + [c]
    {
      AppendKeepsNoDup(clients, c);
      clients := clients + [c];
    }

    /** The request's 'close': `clients = clients.filter(c => c !== res)`. */
    method Detach(c: ClientId)
      requires Valid()
      modifies this
      ensures Valid() && currentTrack == old(currentTrack) && log == old(log)
      ensures clients == Remove(old(clients), c)
      ensures forall k | 0 <= k < |old(clients)| && old(clients)[k] == c ::
        clients == old(clients)[..k] + old(clients)[k + 1..]
    {
      RemoveKeepsNoDup(clients, c);
      forall k | 0 <= k < |clients| && clients[k] == c ensures Remove(clients, c) == clients[..k] + clients[k + 1..] {
        RemoveSplices(clients, k);
      }
      clients := Remove(clients, c);
    }
  }
}
