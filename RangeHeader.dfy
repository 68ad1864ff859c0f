/** The `Range` handling of GET /stream in backend/server.js: the header is
    stripped of `bytes=`, split at '-', and both halves are read with
    `parseInt(_, 10)`; the response is the whole file or the bytes from
    `start` to `end`.

    JavaScript numbers appear here only as integers or NaN, which `Num`
    models; the header text is a `string`. The file size comes from
    `fs.statSync`, and is a parameter. */
module RangeHeader {
  import opened Common

  /** A JavaScript number as it arises here: an integer, or NaN. */
  datatype Num = Int(v: int) | NaN

  /** `a - b`, with NaN absorbing. */
  function Sub(a: Num, b: Num): Num
  {
    if a.Int? && b.Int? then Int(a.v - b.v) else NaN
  }

  /** `a + b`, with NaN absorbing. */
  function Add(a: Num, b: Num): Num
  {
    if a.Int? && b.Int? then Int(a.v + b.v) else NaN
  }

  predicate IsDigit(c: char)
  {
    '0' <= c <= '9'
  }

  function DigitChar(d: nat): char
    requires d < 10
  {
    ('0' as int + d) as char
  }

  /** The decimal digits of `n`, most significant first, without leading zeros. */
  function Decimal(n: nat): string
  {
    if n < 10 then [DigitChar(n)] else Decimal(n / 10) + [DigitChar(n % 10)]
  }

  /** `String(v)` for an integer `v`. */
  function Show(v: int): string
  {
    if v < 0 then "-" + Decimal(-v) else Decimal(v)
  }

  /** A number in a template literal: "NaN", or its decimal form. */
  function NumText(n: Num): string
  {
    if n.NaN? then "NaN" else Show(n.v)
  }

  /** The characters `parseInt` skips before the number: the white space and
      line terminators of section 7.2 and 7.3 of ECMA-262, space separators included. */
  predicate IsJsSpace(c: char)
  {
    var k := c as int;
    k == 0x09 || k == 0x0A || k == 0x0B || k == 0x0C || k == 0x0D || k == 0x20
    || k == 0xA0 || k == 0x1680 || (0x2000 <= k <= 0x200A) || k == 0x2028 || k == 0x2029
    || k == 0x202F || k == 0x205F || k == 0x3000 || k == 0xFEFF
  }

  function TrimStart(s: string): string
  {
    if s != [] && IsJsSpace(s[0]) then TrimStart(s[1..]) else s
  }

  /** The longest prefix of `s` made of decimal digits. */
  function DigitPrefix(s: string): string
  {
    if s != [] && IsDigit(s[0]) then [s[0]] + DigitPrefix(s[1..]) else []
  }

  /** The value of a string of decimal digits. */
  function DigitsValue(d: string): nat
  {
    if d == [] then 0
    else
      var c := d[|d| - 1];
      DigitsValue(d[..|d| - 1]) * 10 + (if IsDigit(c) then c as int - '0' as int else 0)
  }

  /** `parseInt(s, 10)`: skip leading white space, take an optional sign, read
      the longest run of digits; NaN when there is none. */
  function ParseInt(s: string): Num
  {
    ParseSigned(TrimStart(s))
  }

  /** `parseInt` once the leading white space is gone. */
  function ParseSigned(t: string): Num
  {
    if t != [] && t[0] == '-' then Negate(ParseUnsigned(t[1..]))
    else if t != [] && t[0] == '+' then ParseUnsigned(t[1..])
    else ParseUnsigned(t)
  }

  /** The value of the digit run at the start of `t`, NaN when there is none. */
  function ParseUnsigned(t: string): Num
  {
    var digits := DigitPrefix(t);
    if digits == [] then NaN else Int(DigitsValue(digits))
  }

  function Negate(n: Num): Num
  {
    if n.NaN? then NaN else Int(-n.v)
  }

  /** `s.replace(/pat/, "")` for a literal pattern: drop its first occurrence. */
  function ReplaceFirst(s: string, pat: string): string
    requires pat != []
    decreases |s|
  {
    if |s| < |pat| then s
    else if s[..|pat|] == pat then s[|pat|..]
    else [s[0]] + ReplaceFirst(s[1..], pat)
  }

  /** `s.split(sep)` for a one-character separator: the pieces between the
      separators, empty pieces included, and always at least one. */
  function Split(s: string, sep: char): (r: seq<string>)
    ensures |r| > 0
  {
    if s == [] then [""]
    else
      var init := Split(s[..|s| - 1], sep);
      var c := s[|s| - 1];
      if c == sep then init + [""]
      else init[..|init| - 1] + [init[|init| - 1] + [c]]
  }

  /** The status line and the headers GET /stream answers with: 200 with the
      whole file, or 206 with `Content-Range` and `Content-Length`. */
  datatype Response =
    | Whole(size: nat)
    | Partial(start: Num, end: Num, chunkSize: Num, contentRange: string)

  /** The response to a request whose `Range` header is `range` (`None` when
      absent), for a file of `fileSize` bytes. */
  function Respond(range: Option<string>, fileSize: nat): (r: Response)
    ensures r.Whole? <==> range.None? || range.value == ""
    ensures r.Whole? ==> r.size == fileSize
  {
    if range.None? || range.value == "" then Whole(fileSize)
    else FromParts(Split(ReplaceFirst(range.value, "bytes="), '-'), fileSize)
  }

  /** The 206 response for the pieces of the header around its first '-'. */
  function FromParts(parts: seq<string>, fileSize: nat): Response
    requires |parts| > 0
  {
    var start := ParseInt(parts[0]);
    var end := if |parts| > 1 && parts[1] != "" then ParseInt(parts[1]) else Int(fileSize - 1);
    var chunkSize := Add(Sub(end, start), Int(1));
    Partial(start, end, chunkSize, "bytes " + NumText(start) + "-" + NumText(end) + "/" + Show(fileSize))
  }

  /* ---------- the decimal parser reads back what `Show` writes ---------- */

  lemma {:induction false} DecimalIsDigits(n: nat)
    ensures Decimal(n) != [] && forall i | 0 <= i < |Decimal(n)| :: IsDigit(Decimal(n)[i])
  {
    if n >= 10 {
      DecimalIsDigits(n / 10);
    }
  }

  lemma {:induction false} DecimalValue(n: nat)
    ensures DigitsValue(Decimal(n)) == n
  {
    if n >= 10 {
      DecimalValue(n / 10);
      var d := Decimal(n);
      assert d[..|d| - 1] == Decimal(n / 10);
    }
  }

  /** The digit run of `d + t` is `d` when `t` does not go on with a digit. */
  lemma {:induction false} DigitPrefixOf(d: string, t: string)
    requires forall i | 0 <= i < |d| :: IsDigit(d[i])
    requires t == [] || !IsDigit(t[0])
    ensures DigitPrefix(d + t) == d
  {
    if d != [] {
      assert (d + t)[1..] == d[1..] + t;
      DigitPrefixOf(d[1..], t);
    } else {
      assert d + t == t;
    }
  }

  /** No digit and no sign is white space, so `parseInt` skips nothing. */
  lemma TrimStartAtNumber(s: string)
    requires s != [] && (IsDigit(s[0]) || s[0] == '-')
    ensures TrimStart(s) == s
  {
  }

  /** `parseInt` of a run of digits followed by something that is not a digit. */
  lemma ParseDigits(d: string, t: string)
    requires d != [] && forall i | 0 <= i < |d| :: IsDigit(d[i])
    requires t == [] || !IsDigit(t[0])
    ensures ParseUnsigned(d + t) == Int(DigitsValue(d))
  {
    DigitPrefixOf(d, t);
  }

  /** `parseInt` reads back any integer written out in decimal, ignoring
      whatever follows it that is not a digit. */
  lemma ParseShow(v: int, t: string)
    requires t == [] || !IsDigit(t[0])
    ensures ParseInt(Show(v) + t) == Int(v)
  {
    var m: nat := if v < 0 then -v else v;
    var d := Decimal(m);
    DecimalIsDigits(m);
    DecimalValue(m);
    ParseDigits(d, t);
    var s := Show(v) + t;
    if v < 0 {
      assert s == "-" + d + t;
      assert s[0] == '-' && s[1..] == d + t;
    } else {
      assert s == d + t;
      assert s[0] == d[0];
    }
    TrimStartAtNumber(s);
  }

  /* ---------- splitting ---------- */

  lemma {:induction false} SplitNone(s: string, sep: char)
    requires sep !in s
    ensures Split(s, sep) == [s]
  {
    if s != [] {
      SplitNone(s[..|s| - 1], sep);
      assert s[..|s| - 1] + [s[|s| - 1]] == s;
    }
  }

  /** A string with one separator splits into the text before and after it. */
  lemma {:induction false} SplitOnce(a: string, b: string, sep: char)
    requires sep !in a && sep !in b
    ensures Split(a + [sep] + b, sep) == [a, b]
    decreases |b|
  {
    var s := a + [sep] + b;
    if b == [] {
      SplitNone(a, sep);
      assert s[..|s| - 1] == a;
    } else {
      var b' := b[..|b| - 1];
      SplitOnce(a, b', sep);
      assert s[..|s| - 1] == a + [sep] + b';
      assert b' + [b[|b| - 1]] == b;
    }
  }

  /** `parts.join(sep)`: the pieces with one separator between neighbours. */
  function JoinWith(parts: seq<string>, sep: char): string
    requires |parts| > 0
  {
    if |parts| == 1 then parts[0]
    else JoinWith(parts[..|parts| - 1], sep) + [sep] + parts[|parts| - 1]
  }

  /** `split` cuts at every separator and at nothing else: no piece holds the
      separator, and joining the pieces with it gives back the string. */
  lemma {:induction false} SplitJoin(s: string, sep: char)
    ensures forall i | 0 <= i < |Split(s, sep)| :: sep !in Split(s, sep)[i]
    ensures JoinWith(Split(s, sep), sep) == s
    decreases |s|
  {
    if s != [] {
      var s' := s[..|s| - 1];
      var c := s[|s| - 1];
      var init := Split(s', sep);
      var m := |init|;
      SplitJoin(s', sep);
      assert s == s' + [c];
      if c == sep {
        assert Split(s, sep) == init + [""];
        assert (init + [""])[..m] == init;
      } else {
        var last := init[m - 1] + [c];
        var r := init[..m - 1] + [last];
        assert Split(s, sep) == r;
        assert sep !in last;
        forall i | 0 <= i < m ensures sep !in r[i] {
          if i < m - 1 {
            assert r[i] == init[i];
          }
        }
        if m > 1 {
          assert r[..m - 1] == init[..m - 1];
          assert JoinWith(init, sep) == JoinWith(init[..m - 1], sep) + [sep] + init[m - 1];
        }
      }
    }
  }

  /** `pat` occurs in `s` starting at position `k`. */
  predicate OccursAt(s: string, pat: string, k: nat)
  {
    k + |pat| <= |s| && s[k..k + |pat|] == pat
  }

  /** An occurrence in the tail is an occurrence one position further on. */
  lemma OccursInTail(s: string, pat: string, j: nat)
    requires s != []
    ensures OccursAt(s[1..], pat, j) <==> OccursAt(s, pat, j + 1)
  {
    if j + |pat| <= |s[1..]| {
      assert s[1..][j..j + |pat|] == s[j + 1..j + 1 + |pat|];
    }
  }

  /** `replace` cuts out the first occurrence of the pattern and keeps the
      text on either side of it. */
  lemma {:induction false} ReplaceFirstSplices(s: string, pat: string, k: nat)
    requires pat != [] && OccursAt(s, pat, k)
    requires forall j | 0 <= j < k :: !OccursAt(s, pat, j)
    ensures ReplaceFirst(s, pat) == s[..k] + s[k + |pat|..]
    decreases k
  {
    if k == 0 {
      assert s[..|pat|] == s[0..|pat|];
    } else {
      assert !OccursAt(s, pat, 0);
      assert s[..|pat|] == s[0..|pat|];
      forall j | 0 <= j < k - 1 ensures !OccursAt(s[1..], pat, j) {
        OccursInTail(s, pat, j);
      }
      OccursInTail(s, pat, k - 1);
      ReplaceFirstSplices(s[1..], pat, k - 1);
      assert s[..k] == [s[0]] + s[1..][..k - 1];
      assert s[k + |pat|..] == s[1..][k - 1 + |pat|..];
    }
  }

  /** Without an occurrence of the pattern, `replace` changes nothing. */
  lemma {:induction false} ReplaceFirstAbsent(s: string, pat: string)
    requires pat != []
    requires forall j | 0 <= j <= |s| :: !OccursAt(s, pat, j)
    ensures ReplaceFirst(s, pat) == s
    decreases |s|
  {
    if |s| >= |pat| {
      assert !OccursAt(s, pat, 0);
      assert s[..|pat|] == s[0..|pat|];
      forall j | 0 <= j <= |s[1..]| ensures !OccursAt(s[1..], pat, j) {
        OccursInTail(s, pat, j);
      }
      ReplaceFirstAbsent(s[1..], pat);
      assert [s[0]] + s[1..] == s;
    }
  }

  lemma ReplaceFirstPrefix(pat: string, x: string)
    requires pat != []
    ensures ReplaceFirst(pat + x, pat) == x
  {
    assert (pat + x)[..|pat|] == pat;
  }

  /* ---------- the responses ---------- */

  /** The pieces of `bytes=` followed by `a-b`. */
  lemma PartsOf(a: string, b: string)
    requires '-' !in a && '-' !in b
    ensures Split(ReplaceFirst("bytes=" + a + "-" + b, "bytes="), '-') == [a, b]
  {
    var x := a + "-" + b;
    assert "bytes=" + a + "-" + b == "bytes=" + x;
    ReplaceFirstPrefix("bytes=", x);
    assert x == a + ['-'] + b;
    SplitOnce(a, b, '-');
  }

  lemma ShowHasNoDash(n: nat)
    ensures '-' !in Show(n) && Show(n) != "" && ParseInt(Show(n)) == Int(n)
  {
    DecimalIsDigits(n);
    ParseShow(n, "");
    assert Show(n) + "" == Show(n);
  }

  /** A non-empty header is answered from its pieces. */
  lemma RespondByParts(h: string, fileSize: nat, parts: seq<string>)
    requires h != "" && Split(ReplaceFirst(h, "bytes="), '-') == parts
    ensures Respond(Some(h), fileSize) == FromParts(parts, fileSize)
  {
  }

  /** `bytes=S-E`: the bytes from S to E, E - S + 1 of them. */
  lemma ClosedRange(s: nat, e: nat, fileSize: nat)
    ensures Respond(Some("bytes=" + Show(s) + "-" + Show(e)), fileSize) ==
      Partial(Int(s), Int(e), Int(e - s + 1), "bytes " + Show(s) + "-" + Show(e) + "/" + Show(fileSize))
  {
    var a, b := Show(s), Show(e);
    ShowHasNoDash(s);
    ShowHasNoDash(e);
    PartsOf(a, b);
    RespondByParts("bytes=" + a + "-" + b, fileSize, [a, b]);
    var r := FromParts([a, b], fileSize);
    assert [a, b][0] == a && [a, b][1] == b;
    assert r.start == Int(s);
    assert r.end == Int(e);
    assert r.chunkSize == Int(e - s + 1);
    assert r.contentRange == "bytes " + a + "-" + b + "/" + Show(fileSize);
  }

  /** `bytes=S-`: the bytes from S to the end of the file. */
  lemma OpenRange(s: nat, fileSize: nat)
    ensures Respond(Some("bytes=" + Show(s) + "-"), fileSize) ==
      Partial(Int(s), Int(fileSize - 1), Int(fileSize - s),
              "bytes " + Show(s) + "-" + Show(fileSize - 1) + "/" + Show(fileSize))
  {
    var a := Show(s);
    ShowHasNoDash(s);
    PartsOf(a, "");
    assert "bytes=" + a + "-" + "" == "bytes=" + a + "-";
    RespondByParts("bytes=" + a + "-", fileSize, [a, ""]);
    var r := FromParts([a, ""], fileSize);
    assert [a, ""][0] == a && [a, ""][1] == "";
    assert r.start == Int(s);
    assert r.end == Int(fileSize - 1);
    assert r.chunkSize == Int(fileSize - s);
    assert r.contentRange == "bytes " + a + "-" + Show(fileSize - 1) + "/" + Show(fileSize);
  }

  /** `bytes=-N`, the suffix form asking for the last N bytes: the start reads
      as NaN, and so do the length and the start in `Content-Range`. */
  lemma SuffixRange(n: nat, fileSize: nat)
    ensures Respond(Some("bytes=-" + Show(n)), fileSize) ==
      Partial(NaN, Int(n), NaN, "bytes " + "NaN" + "-" + Show(n) + "/" + Show(fileSize))
  {
    var b := Show(n);
    ShowHasNoDash(n);
    PartsOf("", b);
    assert "bytes=" + "" + "-" + b == "bytes=-" + b;
    RespondByParts("bytes=-" + b, fileSize, ["", b]);
    var r := FromParts(["", b], fileSize);
    assert ["", b][0] == "" && ["", b][1] == b;
    assert ParseInt("") == NaN;
    assert r.start == NaN;
    assert r.end == Int(n);
    assert r.contentRange == "bytes " + "NaN" + "-" + b + "/" + Show(fileSize);
  }

  /** Whenever a range is answered, its length is `end - start + 1` and its
      `Content-Range` is `bytes start-end/size`. */
  lemma PartialShape(range: string, fileSize: nat)
    requires range != ""
    ensures var r := Respond(Some(range), fileSize);
      && r.Partial?
      && r.chunkSize == Add(Sub(r.end, r.start), Int(1))
      && r.contentRange == "bytes " + NumText(r.start) + "-" + NumText(r.end) + "/" + Show(fileSize)
  {
  }
}
