/** Strings, paths, byte chunks and duplicate-free client lists, shared by the
    three variants of the radio server. */
module Common {

  datatype Option<+T> = None | Some(value: T)

  /** One byte of an audio chunk, and a chunk as the transcoder emits it. */
  newtype byte = x: int | 0 <= x < 256
  type Chunk = seq<byte>

  /** A listener's response object, by identity. */
  type ClientId = nat

  /** The one extension the `server.js` and `src/server.js` playlists accept. */
  const Mp3: string := ".mp3"

  /** `String.prototype.endsWith`: case-sensitive suffix test. */
  predicate EndsWith(s: string, suffix: string)
  {
    |suffix| <= |s| && s[|s| - |suffix|..] == suffix
  }

  /** `path.join(dir, name)` for a single entry name; the normalisation of
      `.` and `..` segments is not modelled. */
  function Join(dir: string, name: string): string
  {
    dir + "/" + name
  }

  /** What is left of `p` once every trailing '/' is removed. */
  function StripTrailingSlashes(p: string): string
  {
    if |p| > 0 && p[|p| - 1] == '/' then StripTrailingSlashes(p[..|p| - 1]) else p
  }

  /** The longest suffix of `p` that contains no '/'. */
  function AfterLastSlash(p: string): string
  {
    if p == [] || p[|p| - 1] == '/' then [] else AfterLastSlash(p[..|p| - 1]) + [p[|p| - 1]]
  }

  /** POSIX `path.basename(p)`: the last path segment, ignoring trailing separators. */
  function Basename(p: string): string
  {
    AfterLastSlash(StripTrailingSlashes(p))
  }

  /** The segment after the separator `Join` inserts is the entry name. */
  lemma {:induction false} AfterLastSlashOfJoin(dir: string, name: string)
    requires '/' !in name
    ensures AfterLastSlash(Join(dir, name)) == name
    decreases |name|
  {
    if name != [] {
      var init := name[..|name| - 1];
      assert Join(dir, name)[..|Join(dir, name)| - 1] == Join(dir, init);
      AfterLastSlashOfJoin(dir, init);
      assert init + [name[|name| - 1]] == name;
    }
  }

  /** The entry name comes back out of a joined path. */
  lemma BasenameOfJoin(dir: string, name: string)
    requires name != [] && '/' !in name
    ensures Basename(Join(dir, name)) == name
  {
    var p := Join(dir, name);
    assert p[|p| - 1] == name[|name| - 1];
    assert StripTrailingSlashes(p) == p;
    AfterLastSlashOfJoin(dir, name);
  }

  /** A joined path keeps every suffix of its entry name. */
  lemma EndsWithJoin(dir: string, name: string, suffix: string)
    requires EndsWith(name, suffix)
    ensures EndsWith(Join(dir, name), suffix)
  {
    var p := Join(dir, name);
    assert p[|p| - |suffix|..] == name[|name| - |suffix|..];
  }

  /** No element occurs twice: the shape of a JavaScript `Set` in insertion order. */
  predicate NoDup<T(==)>(xs: seq<T>)
  {
    forall i, j | 0 <= i < j < |xs| :: xs[i] != xs[j]
  }

  /** `xs.filter(y => y !== x)`, and `Set.prototype.delete` on an insertion-ordered set. */
  function Remove<T(==)>(xs: seq<T>, x: T): (r: seq<T>)
    ensures multiset(r) == multiset(xs)[x := 0]
    ensures x !in r && |r| <= |xs|
    ensures forall i | 0 <= i < |r| :: r[i] in xs
  {
    if xs == [] then []
    else
      assert xs == [xs[0]] + xs[1..];
      if xs[0] == x then Remove(xs[1..], x)
      else [xs[0]] + Remove(xs[1..], x)
  }

  /** Removing an element that occurs once splices it out and keeps the
      others in their order. */
  lemma {:induction false} RemoveSplices<T>(xs: seq<T>, k: nat)
    requires NoDup(xs) && k < |xs|
    ensures Remove(xs, xs[k]) == xs[..k] + xs[k + 1..]
  {
    if k == 0 {
      RemoveAbsent(xs[1..], xs[0]);
    } else {
      assert NoDup(xs[1..]) by {
        forall i, j | 0 <= i < j < |xs[1..]| ensures xs[1..][i] != xs[1..][j] {
          assert xs[1..][i] == xs[i + 1] && xs[1..][j] == xs[j + 1];
        }
      }
      RemoveSplices(xs[1..], k - 1);
      assert xs[1..][k - 1] == xs[k];
      assert xs[0] != xs[k];
      assert xs[..k] == [xs[0]] + xs[1..][..k - 1];
      assert xs[k + 1..] == xs[1..][k..];
    }
  }

  /** Removing an absent element changes nothing. */
  lemma {:induction false} RemoveAbsent<T>(xs: seq<T>, x: T)
    requires x !in xs
    ensures Remove(xs, x) == xs
  {
    if xs != [] {
      RemoveAbsent(xs[1..], x);
    }
  }

  /** Removing keeps a list duplicate-free. */
  lemma RemoveKeepsNoDup<T>(xs: seq<T>, x: T)
    requires NoDup(xs)
    ensures NoDup(Remove(xs, x))
  {
    if x in xs {
      var k :| 0 <= k < |xs| && xs[k] == x;
      RemoveSplices(xs, k);
      var r := xs[..k] + xs[k + 1..];
      forall i, j | 0 <= i < j < |r| ensures r[i] != r[j] {
        var i' := if i < k then i else i + 1;
        var j' := if j < k then j else j + 1;
        assert r[i] == xs[i'] && r[j] == xs[j'];
      }
    } else {
      RemoveAbsent(xs, x);
    }
  }

  /** The first occurrence of `x` taken out: what a `once` handler does to the
      emitter's handler list when it fires. */
  function RemoveFirst<T(==)>(xs: seq<T>, x: T): (r: seq<T>)
    ensures multiset(r) == multiset(xs) - multiset{x}
    ensures x !in xs ==> r == xs
  {
    if xs == [] then []
    else
      assert xs == [xs[0]] + xs[1..];
      if xs[0] == x then xs[1..]
      else [xs[0]] + RemoveFirst(xs[1..], x)
  }

  /** Taking out an occurrence adds nothing. */
  lemma RemoveFirstKeeps<T>(xs: seq<T>, x: T)
    ensures forall y | y in RemoveFirst(xs, x) :: y in xs
  {
    forall y | y in RemoveFirst(xs, x) ensures y in xs {
      assert multiset(RemoveFirst(xs, x))[y] > 0;
    }
  }

  /** Taking out the first occurrence splices exactly it out, and keeps every
      later occurrence and the order. */
  lemma {:induction false} RemoveFirstSplices<T>(xs: seq<T>, k: nat)
    requires k < |xs| && xs[k] !in xs[..k]
    ensures RemoveFirst(xs, xs[k]) == xs[..k] + xs[k + 1..]
  {
    if k > 0 {
      assert xs[0] in xs[..k];
      assert xs[k] !in xs[1..][..k - 1] by {
        assert xs[1..][..k - 1] == xs[1..k];
      }
      RemoveFirstSplices(xs[1..], k - 1);
      assert xs[..k] == [xs[0]] + xs[1..][..k - 1];
      assert xs[k + 1..] == xs[1..][k..];
    }
  }

  /** Appending a new element keeps a list duplicate-free. */
  lemma AppendKeepsNoDup<T>(xs: seq<T>, x: T)
    requires NoDup(xs) && x !in xs
    ensures NoDup(xs + [x])
  {
  }
}
