/** The playlist-building helpers of the broadcast server (server.js): the
    recursive collection of `.mp3` files and the in-place Fisher-Yates shuffle.
    The file system is an in-memory directory tree and `Math.random` is an
    oracle sequence of the choices it would have produced. */
module Catalog {
  import opened Common

  /** What `fs.readdirSync(dir, { withFileTypes: true })` says of one entry:
      a regular file, a directory with its own listing, or anything else
      (symbolic link, socket, device), for which neither `isFile()` nor
      `isDirectory()` holds. */
  datatype Kind = RegularFile | Directory(children: seq<Entry>) | Special
  datatype Entry = Entry(name: string, kind: Kind)

  /** The `.mp3` paths found under the listing `entries` of `dir`, in the order
      the walk finds them: entries in listing order, a directory's files in
      place of the directory. */
  function Mp3Files(dir: string, entries: seq<Entry>): seq<string>
    decreases entries
  {
    if entries == [] then []
    else
      var e := entries[|entries| - 1];
      Mp3Files(dir, entries[..|entries| - 1]) + EntryMp3Files(dir, e)
  }

  /** The `.mp3` paths contributed by one entry of `dir`'s listing. */
  function EntryMp3Files(dir: string, e: Entry): seq<string>
    decreases e
  {
    match e.kind
    case Directory(children) => Mp3Files(Join(dir, e.name), children)
    case RegularFile => if EndsWith(e.name, Mp3) then [Join(dir, e.name)] else []
    case Special => []
  }

  /** An independent description of the same set: `p` is the joined path of a
      regular file named `*.mp3` somewhere below the listing `entries` of `dir`. */
  ghost predicate Lists(dir: string, entries: seq<Entry>, p: string)
    decreases entries
  {
    exists i | 0 <= i < |entries| :: EntryLists(dir, entries[i], p)
  }

  ghost predicate EntryLists(dir: string, e: Entry, p: string)
    decreases e
  {
    match e.kind
    case Directory(children) => Lists(Join(dir, e.name), children, p)
    case RegularFile => EndsWith(e.name, Mp3) && p == Join(dir, e.name)
    case Special => false
  }

  /** The walk returns exactly the regular `.mp3` files of the tree. */
  lemma {:induction false} Mp3FilesExactly(dir: string, entries: seq<Entry>, p: string)
    ensures p in Mp3Files(dir, entries) <==> Lists(dir, entries, p)
    decreases entries
  {
    if entries != [] {
      var init, e := entries[..|entries| - 1], entries[|entries| - 1];
      Mp3FilesExactly(dir, init, p);
      EntryMp3FilesExactly(dir, e, p);
      if Lists(dir, entries, p) {
        var i :| 0 <= i < |entries| && EntryLists(dir, entries[i], p);
        if i < |init| {
          assert init[i] == entries[i];
        }
      }
      if Lists(dir, init, p) {
        var i :| 0 <= i < |init| && EntryLists(dir, init[i], p);
        assert entries[i] == init[i];
      }
    }
  }

  lemma {:induction false} EntryMp3FilesExactly(dir: string, e: Entry, p: string)
    ensures p in EntryMp3Files(dir, e) <==> EntryLists(dir, e, p)
    decreases e
  {
    match e.kind
    case Directory(children) => Mp3FilesExactly(Join(dir, e.name), children, p);
    case RegularFile =>
    case Special =>
  }

  /** Every collected path ends in `.mp3`. */
  lemma {:induction false} Mp3FilesEndInMp3(dir: string, entries: seq<Entry>)
    ensures forall p | p in Mp3Files(dir, entries) :: EndsWith(p, Mp3)
    decreases entries
  {
    if entries != [] {
      var e := entries[|entries| - 1];
      Mp3FilesEndInMp3(dir, entries[..|entries| - 1]);
      match e.kind
      case Directory(children) => Mp3FilesEndInMp3(Join(dir, e.name), children);
      case RegularFile =>
        if EndsWith(e.name, Mp3) {
          EndsWithJoin(dir, e.name, Mp3);
        }
      case Special =>
    }
  }

  /** `getAllMp3Files(dir)`, with the directory's listing passed in: walks the
      entries in order, descending into subdirectories. */
  method GetAllMp3Files(dir: string, entries: seq<Entry>) returns (files: seq<string>)
    ensures files == Mp3Files(dir, entries)
    decreases entries
  {
    files := [];
    for k := 0 to |entries|
      invariant files == Mp3Files(dir, entries[..k])
    {
      var entry := entries[k];
      var fullPath := Join(dir, entry.name);
      match entry.kind {
        case Directory(children) =>
          var sub := GetAllMp3Files(fullPath, children);
          files := files + sub;
        case RegularFile =>
          if EndsWith(entry.name, Mp3) {
            files := files + [fullPath];
          }
        case Special =>
      }
      assert entries[..k + 1][..k] == entries[..k];
    }
    assert entries[..|entries|] == entries;
  }

  /** The oracle for `Math.floor(Math.random() * (i + 1))`: the swap partner
      `choices[i]` used at step `i` lies in `[0, i]`. */
  predicate ValidChoices(choices: seq<nat>, n: nat)
  {
    |choices| == n && forall i | 0 < i < n :: choices[i] <= i
  }

  function Swap<T>(s: seq<T>, i: nat, j: nat): (r: seq<T>)
    requires i < |s| && j < |s|
    ensures |r| == |s| && r[i] == s[j] && r[j] == s[i]
    ensures forall k | 0 <= k < |s| && k != i && k != j :: r[k] == s[k]
  {
    s[i := s[j]][j := s[i]]
  }

  /** The Fisher-Yates steps still to do when positions `m - 1` down to 1
      remain to be swapped. */
  function ShuffleSteps<T>(s: seq<T>, choices: seq<nat>, m: nat): seq<T>
    requires m <= |s| && ValidChoices(choices, |s|)
    decreases m
  {
    if m <= 1 then s
    else ShuffleSteps(Swap(s, m - 1, choices[m - 1]), choices, m - 1)
  }

  /** The order `shuffle` leaves behind for the given random choices. */
  function Shuffled<T>(s: seq<T>, choices: seq<nat>): seq<T>
    requires ValidChoices(choices, |s|)
  {
    ShuffleSteps(s, choices, |s|)
  }

  /** Whatever the random choices, the shuffle only reorders. */
  lemma {:induction false} ShuffleStepsPermutes<T>(s: seq<T>, choices: seq<nat>, m: nat)
    requires m <= |s| && ValidChoices(choices, |s|)
    ensures |ShuffleSteps(s, choices, m)| == |s|
    ensures multiset(ShuffleSteps(s, choices, m)) == multiset(s)
    decreases m
  {
    if m > 1 {
      var t := Swap(s, m - 1, choices[m - 1]);
      assert t == s[m - 1 := s[choices[m - 1]]][choices[m - 1] := s[m - 1]];
      ShuffleStepsPermutes(t, choices, m - 1);
    }
  }

  lemma ShuffledIsPermutation<T>(s: seq<T>, choices: seq<nat>)
    requires ValidChoices(choices, |s|)
    ensures |Shuffled(s, choices)| == |s|
    ensures multiset(Shuffled(s, choices)) == multiset(s)
  {
    ShuffleStepsPermutes(s, choices, |s|);
  }

  /** Choosing `j == i` at every step swaps each element with itself. */
  lemma {:induction false} ShuffleStepsIdentity<T>(s: seq<T>, choices: seq<nat>, m: nat)
    requires m <= |s| && ValidChoices(choices, |s|)
    requires forall i | 0 <= i < |s| :: choices[i] == i
    ensures ShuffleSteps(s, choices, m) == s
    decreases m
  {
    if m > 1 {
      assert Swap(s, m - 1, choices[m - 1]) == s;
      ShuffleStepsIdentity(s, choices, m - 1);
    }
  }

  /** `shuffle(array)`: Fisher-Yates in place, from the last index down to 1. */
  method Shuffle<T>(a: array<T>, choices: seq<nat>)
    requires ValidChoices(choices, a.Length)
    modifies a
    ensures a[..] == Shuffled(old(a[..]), choices)
    ensures multiset(a[..]) == multiset(old(a[..]))
  {
    var i := a.Length - 1;
    while i > 0
      invariant -1 <= i < a.Length
      invariant ShuffleSteps(a[..], choices, i + 1) == Shuffled(old(a[..]), choices)
      invariant multiset(a[..]) == multiset(old(a[..]))
    {
      var j := choices[i];
      ghost var before := a[..];
      a[i], a[j] := a[j], a[i];
      assert a[..] == Swap(before, i, j);
      i := i - 1;
    }
  }
}
