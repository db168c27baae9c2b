/** The last lines of a log file, read block by block from its end, against the plain reading of the whole. */
module LogTail {
  import opened Text

  const BLOCK_SIZE := 32768
  const DEFAULT_MAX_BYTES := 1048576

  function Split(s: string): (lines: seq<string>)
    ensures |lines| >= 1
  {
    if s == "" then [""]
    else
      var rest := Split(s[1..]);
      if s[0] == '\n' then [""] + rest else [[s[0]] + rest[0]] + rest[1..]
  }

  function DropBlanks(lines: seq<string>): seq<string> {
    if lines != [] && TrimSpace(lines[|lines| - 1]) == "" then DropBlanks(lines[..|lines| - 1]) else lines
  }

  /** The lines of a text without the blank ones at its end. */
  function Lines(s: string): seq<string> {
    DropBlanks(Split(s))
  }

  function Last(lines: seq<string>, n: nat): seq<string> {
    if |lines| <= n then lines else lines[|lines| - n..]
  }

  /** Split the whole file, drop trailing blank lines, take the last n. */
  function PlainTail(file: string, n: int): seq<string> {
    if n <= 0 then [] else Last(Lines(file), n)
  }

  function Newlines(s: string): nat {
    if s == "" then 0 else (if s[0] == '\n' then 1 else 0) + Newlines(s[1..])
  }

  /** Where reading backwards from `offset` stops: at the start, at the byte cap or with enough newlines. */
  function Cut(file: string, n: int, maxBytes: int, offset: nat): (cut: nat)
    requires offset <= |file|
    ensures cut <= offset
    ensures cut == 0 || |file| - cut >= maxBytes || Newlines(file[cut..]) > n
    decreases offset
  {
    if offset > 0 && |file| - offset < maxBytes && Newlines(file[offset..]) <= n
    then Cut(file, n, maxBytes, if offset < BLOCK_SIZE then 0 else offset - BLOCK_SIZE)
    else offset
  }

  function Cap(maxBytes: int): int {
    if maxBytes <= 0 then DEFAULT_MAX_BYTES else maxBytes
  }

  function CutOf(file: string, n: int, maxBytes: int): (cut: nat)
    ensures cut <= |file|
  {
    Cut(file, n, Cap(maxBytes), |file|)
  }

  /** What the block-wise reading returns. */
  function BlockTail(file: string, n: int, maxBytes: int): seq<string> {
    if n <= 0 then [] else Last(Lines(file[CutOf(file, n, maxBytes)..]), n)
  }

  // ---- splitting ------------------------------------------------------------------------------------

  /** Two lists of lines with the last line of one continued by the first of the other. */
  function Joined(x: seq<string>, y: seq<string>): seq<string>
    requires x != [] && y != []
  {
    x[..|x| - 1] + [x[|x| - 1] + y[0]] + y[1..]
  }

  lemma JoinedAfterNewline(x: seq<string>, y: seq<string>)
    requires x != [] && y != []
    ensures Joined([""] + x, y) == [""] + Joined(x, y)
  {
    assert ([""] + x)[..|x|] == [""] + x[..|x| - 1];
  }

  lemma JoinedAfterChar(c: char, x: seq<string>, y: seq<string>)
    requires x != [] && y != []
    ensures Joined([[c] + x[0]] + x[1..], y) == [[c] + Joined(x, y)[0]] + Joined(x, y)[1..]
  {
    if |x| == 1 {
      assert [c] + (x[0] + y[0]) == ([c] + x[0]) + y[0];
    } else {
      assert ([[c] + x[0]] + x[1..])[..|x| - 1] == [[c] + x[0]] + x[1..|x| - 1];
    }
  }

  lemma {:induction false} SplitConcat(a: string, b: string)
    ensures Split(a + b) == Joined(Split(a), Split(b))
  {
    if a == "" {
      assert a + b == b && "" + Split(b)[0] == Split(b)[0];
    } else {
      SplitConcat(a[1..], b);
      assert (a + b)[1..] == a[1..] + b;
      if a[0] == '\n' {
        JoinedAfterNewline(Split(a[1..]), Split(b));
      } else {
        JoinedAfterChar(a[0], Split(a[1..]), Split(b));
      }
    }
  }

  lemma {:induction false} SplitCount(s: string)
    ensures |Split(s)| == Newlines(s) + 1
  {
    if s != "" {
      SplitCount(s[1..]);
    }
  }

  lemma {:induction false} SplitEnd(s: string)
    ensures Split(s)[|Split(s)| - 1] == "" <==> s == "" || s[|s| - 1] == '\n'
  {
    if s != "" {
      SplitEnd(s[1..]);
      if |s| > 1 {
        assert s[1..][|s| - 2] == s[|s| - 1];
      }
    }
  }

  /** The lines put together again. */
  function Unsplit(lines: seq<string>): string
    requires lines != []
  {
    if |lines| == 1 then lines[0] else lines[0] + "\n" + Unsplit(lines[1..])
  }

  /** Splitting loses nothing, and no line has a newline in it. */
  lemma {:induction false} SplitRoundTrip(s: string)
    ensures Unsplit(Split(s)) == s
    ensures forall i, j :: 0 <= i < |Split(s)| && 0 <= j < |Split(s)[i]| ==> Split(s)[i][j] != '\n'
  {
    if s != "" {
      SplitRoundTrip(s[1..]);
      var rest := Split(s[1..]);
      if s[0] == '\n' {
        assert ([""] + rest)[1..] == rest;
      } else {
        assert ([[s[0]] + rest[0]] + rest[1..])[1..] == rest[1..];
        assert |rest| > 1 ==> [s[0]] + (rest[0] + "\n" + Unsplit(rest[1..])) == ([s[0]] + rest[0]) + "\n" + Unsplit(rest[1..]);
      }
    }
  }

  // ---- trailing blank lines -----------------------------------------------------------------------------

  lemma {:induction false} DropBlanksConcat(a: seq<string>, b: seq<string>)
    ensures DropBlanks(b) != [] ==> DropBlanks(a + b) == a + DropBlanks(b)
    ensures DropBlanks(b) == [] ==> DropBlanks(a + b) == DropBlanks(a)
  {
    if b == [] {
      assert a + b == a;
    } else {
      assert (a + b)[..|a + b| - 1] == a + b[..|b| - 1];
      if TrimSpace(b[|b| - 1]) == "" {
        DropBlanksConcat(a, b[..|b| - 1]);
      }
    }
  }

  lemma {:induction false} DropBlanksPrefix(lines: seq<string>)
    ensures DropBlanks(lines) <= lines
    ensures forall i :: |DropBlanks(lines)| <= i < |lines| ==> TrimSpace(lines[i]) == ""
  {
    if lines != [] && TrimSpace(lines[|lines| - 1]) == "" {
      DropBlanksPrefix(lines[..|lines| - 1]);
    }
  }

  /** The lines of a text are those it splits into, up to the last one that is not blank. */
  lemma LinesAre(s: string)
    ensures Lines(s) <= Split(s)
    ensures forall i :: |Lines(s)| <= i < |Split(s)| ==> TrimSpace(Split(s)[i]) == ""
    ensures Lines(s) != [] ==> TrimSpace(Lines(s)[|Lines(s)| - 1]) != ""
  {
    DropBlanksPrefix(Split(s));
    LastIsNotBlank(Split(s));
  }

  lemma {:induction false} LastIsNotBlank(lines: seq<string>)
    ensures DropBlanks(lines) != [] ==> TrimSpace(DropBlanks(lines)[|DropBlanks(lines)| - 1]) != ""
  {
    if lines != [] && TrimSpace(lines[|lines| - 1]) == "" {
      LastIsNotBlank(lines[..|lines| - 1]);
    }
  }

  lemma BlankConcat(a: string, b: string)
    requires TrimSpace(b) != ""
    ensures TrimSpace(a + b) != ""
  {
    TrimSpaceEmpty(b);
    TrimSpaceEmpty(a + b);
    var i :| 0 <= i < |b| && !IsSpace(b[i]);
    assert (a + b)[|a| + i] == b[i];
  }

  /** Dropping blanks behind a joined line, where the continued line y[0] has something to keep after it or in it. */
  lemma DropBlanksJoined(a: seq<string>, y: seq<string>)
    requires a != [] && y != [] && DropBlanks(y) != []
    ensures DropBlanks(Joined(a, y)) == Joined(a, DropBlanks(y))
  {
    var front, rest := a[..|a| - 1] + [a[|a| - 1] + y[0]], y[1..];
    assert y == [y[0]] + rest && Joined(a, y) == front + rest;
    DropBlanksConcat([y[0]], rest);
    DropBlanksConcat(front, rest);
    if DropBlanks(rest) == [] {
      BlankConcat(a[|a| - 1], y[0]);
    }
  }

  /** The lines of a file whose end has some: those before, the one cut in two, and those of the end. */
  lemma LinesOfConcat(p: string, t: string)
    requires Lines(t) != []
    ensures Lines(p + t) == Joined(Split(p), Lines(t))
  {
    SplitConcat(p, t);
    DropBlanksJoined(Split(p), Split(t));
  }

  // ---- how much is read ----------------------------------------------------------------------------------------

  /** Where the last k blocks begin. */
  function Start(file: string, k: nat): nat {
    if 32 * 1024 * k < |file| then |file| - 32 * 1024 * k else 0
  }

  /** Having read the last k blocks, the scan goes on. */
  predicate GoesOn(file: string, n: int, maxBytes: int, k: nat) {
    Start(file, k) > 0 && 32 * 1024 * k < maxBytes && Newlines(file[Start(file, k)..]) <= n
  }

  lemma CutGoesOn(file: string, n: int, maxBytes: int, k: nat)
    requires GoesOn(file, n, maxBytes, k)
    ensures Cut(file, n, maxBytes, Start(file, k)) == Cut(file, n, maxBytes, Start(file, k + 1))
    ensures Start(file, k + 1) < Start(file, k)
  {
    StartNext(file, k);
    OneBlockBack(file, n, maxBytes, Start(file, k), Start(file, k + 1));
  }

  lemma StartNext(file: string, k: nat)
    requires Start(file, k) > 0
    ensures Start(file, k + 1) == (if Start(file, k) < BLOCK_SIZE then 0 else Start(file, k) - BLOCK_SIZE)
    ensures |file| - Start(file, k) == 32 * 1024 * k && Start(file, k) <= |file|
  {
  }

  lemma OneBlockBack(file: string, n: int, maxBytes: int, offset: nat, offset': nat)
    requires 0 < offset <= |file| && |file| - offset < maxBytes && Newlines(file[offset..]) <= n
    requires offset' == if offset < BLOCK_SIZE then 0 else offset - BLOCK_SIZE
    ensures Cut(file, n, maxBytes, offset) == Cut(file, n, maxBytes, offset')
  {
  }

  lemma CutStops(file: string, n: int, maxBytes: int, k: nat)
    requires !GoesOn(file, n, maxBytes, k) && 32 * 1024 * k < |file|
    ensures Cut(file, n, maxBytes, Start(file, k)) == Start(file, k)
  {
  }

  lemma {:induction false} CutAfter(file: string, n: int, maxBytes: int, k: nat) returns (stop: nat)
    ensures k <= stop && (forall j :: k <= j < stop ==> GoesOn(file, n, maxBytes, j)) && !GoesOn(file, n, maxBytes, stop)
    ensures Cut(file, n, maxBytes, Start(file, k)) == Start(file, stop)
    decreases Start(file, k)
  {
    if GoesOn(file, n, maxBytes, k) {
      CutGoesOn(file, n, maxBytes, k);
      stop := CutAfter(file, n, maxBytes, k + 1);
    } else {
      stop := k;
      if Start(file, k) > 0 {
        CutStops(file, n, maxBytes, k);
      }
    }
  }

  /** The file is read in whole blocks from its end, up to the first that makes enough lines or bytes; unset, the cap is a mebibyte. */
  lemma ReadsBlocks(file: string, n: int, maxBytes: int) returns (blocks: nat)
    ensures var cap := if maxBytes <= 0 then 1024 * 1024 else maxBytes;
      && CutOf(file, n, maxBytes) == Start(file, blocks)
      && (forall j :: 0 <= j < blocks ==> GoesOn(file, n, cap, j)) && !GoesOn(file, n, cap, blocks)
  {
    blocks := CutAfter(file, n, Cap(maxBytes), 0);
  }

  // ---- when the two readings agree ---------------------------------------------------------------------------

  /** Reading only the end t of the file p + t gives its last n lines. */
  predicate EndSuffices(p: string, t: string, n: nat) {
    || p == "" || |Lines(t)| > n || (|Lines(t)| == n && p[|p| - 1] == '\n') || Lines(p + t) == []
  }

  lemma LastOfSuffix(a: seq<string>, b: seq<string>, n: nat)
    requires |b| >= n
    ensures Last(a + b, n) == Last(b, n)
  {
  }

  lemma EndSufficesIff(p: string, t: string, n: nat)
    requires n > 0
    ensures Last(Lines(t), n) == Last(Lines(p + t), n) <==> EndSuffices(p, t, n)
  {
    if p == "" {
      assert p + t == t;
    } else if Lines(t) != [] {
      LinesOfConcat(p, t);
      SplitEnd(p);
      LastAgree(Split(p), Lines(t), n);
      if |Split(p)| == 1 {
        SingleLine(p);
      }
    }
  }

  lemma {:induction false} SingleLine(p: string)
    requires |Split(p)| == 1
    ensures Split(p)[0] == p
  {
    if p != "" {
      SingleLine(p[1..]);
    }
  }

  lemma JoinedEnd(a: seq<string>, b: seq<string>)
    requires a != [] && b != []
    ensures Joined(a, b) == a[..|a| - 1] + ([a[|a| - 1] + b[0]] + b[1..])
    ensures [a[|a| - 1] + b[0]] + b[1..] == b <==> a[|a| - 1] == ""
  {
    var cut := [a[|a| - 1] + b[0]] + b[1..];
    assert |cut[0]| == |a[|a| - 1]| + |b[0]|;
    if a[|a| - 1] == "" {
      assert "" + b[0] == b[0];
      assert cut == b;
    }
  }

  lemma LastOfMany(first: seq<string>, cut: seq<string>, b: seq<string>, n: nat)
    requires |cut| == |b| > n && b[1..] == cut[1..]
    ensures Last(first + cut, n) == Last(b, n)
  {
    LastOfSuffix(first, cut, n);
    assert cut[|b| - n..] == cut[1..][|b| - n - 1..] == b[|b| - n..];
  }

  lemma LastAgree(a: seq<string>, b: seq<string>, n: nat)
    requires a != [] && b != [] && n > 0
    ensures Last(b, n) == Last(Joined(a, b), n) <==>
            |b| > n || (|b| == n && a[|a| - 1] == "") || (|b| < n && |a| == 1 && a[0] == "")
  {
    var first, cut := a[..|a| - 1], [a[|a| - 1] + b[0]] + b[1..];
    JoinedEnd(a, b);
    if |b| > n {
      LastOfMany(first, cut, b, n);
    } else if |b| == n {
      LastOfSuffix(first, cut, n);
    } else if |a| == 1 {
      assert first + cut == cut;
    } else {
      assert |Last(first + cut, n)| > |b|;
    }
  }

  /** The block-wise tail is the plain tail exactly when the part read holds the lines asked for. */
  lemma TailsAgreeIff(file: string, n: int, maxBytes: int)
    requires n > 0
    ensures var cut := CutOf(file, n, maxBytes);
      BlockTail(file, n, maxBytes) == PlainTail(file, n) <==> EndSuffices(file[..cut], file[cut..], n)
  {
    var cut := CutOf(file, n, maxBytes);
    assert file == file[..cut] + file[cut..];
    EndSufficesIff(file[..cut], file[cut..], n);
  }

  // ---- files with at most one trailing blank line ----------------------------------------------------------------

  lemma TwoBlanks(lines: seq<string>)
    requires |lines| >= 2 && TrimSpace(lines[|lines| - 1]) == "" && TrimSpace(lines[|lines| - 2]) == ""
    ensures |DropBlanks(lines)| <= |lines| - 2
  {
    var front := lines[..|lines| - 1];
    assert DropBlanks(lines) == DropBlanks(front) == DropBlanks(front[..|front| - 1]);
    DropBlanksPrefix(front[..|front| - 1]);
  }

  lemma FewBlanks(p: string, t: string)
    requires |Split(p + t)| - |Lines(p + t)| <= 1 && |Split(t)| >= 3
    ensures |Lines(t)| >= |Split(t)| - 1
  {
    var whole, y := Split(p + t), Split(t);
    SplitConcat(p, t);
    assert whole[|whole| - 1] == y[|y| - 1] && whole[|whole| - 2] == y[|y| - 2];
    DropBlanksPrefix(y);
    if TrimSpace(y[|y| - 1]) == "" && TrimSpace(y[|y| - 2]) == "" {
      TwoBlanks(whole);
    }
  }

  /** The scan was not ended by the byte cap. */
  predicate CapNotReached(file: string, n: int, maxBytes: int) {
    var cut := CutOf(file, n, maxBytes);
    cut == 0 || Newlines(file[cut..]) > n
  }

  /** With at most one trailing blank line, only the byte cap can make the two readings differ. */
  lemma TailsAgree(file: string, n: int, maxBytes: int)
    requires |Split(file)| - |Lines(file)| <= 1 && CapNotReached(file, n, maxBytes)
    ensures BlockTail(file, n, maxBytes) == PlainTail(file, n)
  {
    if n > 0 {
      var cut := CutOf(file, n, maxBytes);
      TailsAgreeIff(file, n, maxBytes);
      if cut > 0 {
        assert file == file[..cut] + file[cut..];
        SplitCount(file[cut..]);
        FewBlanks(file[..cut], file[cut..]);
      }
    }
  }

  // ---- two trailing blank lines behind a line longer than a block ------------------------------------------------

  predicate OneLine(x: string) {
    x != "" && !IsSpace(x[|x| - 1]) && forall i :: 0 <= i < |x| ==> x[i] != '\n'
  }

  lemma {:induction false} SplitOneLine(x: string)
    requires forall i :: 0 <= i < |x| ==> x[i] != '\n'
    ensures Split(x) == [x]
  {
    if x != "" {
      SplitOneLine(x[1..]);
      assert [x[0]] + x[1..] == x;
    }
  }

  lemma BlankEndSplit()
    ensures Split("\n\n") == ["", "", ""] && TrimSpace("") == ""
  {
    assert "\n\n"[1..] == "\n" && "\n"[1..] == "";
  }

  lemma LinesOfPadded(x: string)
    requires OneLine(x)
    ensures Lines(x + "\n\n") == [x] && Newlines(x + "\n\n") == 2
  {
    SplitOneLine(x);
    BlankEndSplit();
    SplitConcat(x, "\n\n");
    assert x + "" == x;
    assert Split(x + "\n\n") == [x, "", ""];
    SplitCount(x + "\n\n");
    TwoBlankEnds(x);
  }

  lemma TwoBlankEnds(x: string)
    requires OneLine(x)
    ensures DropBlanks([x, "", ""]) == [x]
  {
    TrimSpaceEmpty(x);
    BlankEndSplit();
    assert DropBlanks([x]) == [x];
    assert [x, ""][..1] == [x] && DropBlanks([x, ""]) == [x];
    assert [x, "", ""][..2] == [x, ""];
  }

  /** Every single line longer than a block, followed by two newlines, comes back cut off. */
  lemma LongLineIsCut(x: string)
    requires OneLine(x) && |x| >= 32 * 1024
    ensures var file := x + "\n\n";
      PlainTail(file, 1) == [x] && BlockTail(file, 1, 0) == [x[|x| + 2 - 32 * 1024..]]
  {
    var file, keep := x + "\n\n", |x| + 2 - BLOCK_SIZE;
    LinesOfPadded(x);
    LinesOfPadded(x[keep..]);
    assert file[keep..] == x[keep..] + "\n\n";
    assert file[|file|..] == "";
    assert CutOf(file, 1, 0) == Cut(file, 1, DEFAULT_MAX_BYTES, keep) == keep;
    assert Lines(file) == [x] && Lines(file[keep..]) == [x[keep..]];
  }

  // ---- the reading itself -----------------------------------------------------------------------------------------

  lemma {:induction false} NewlinesConcat(a: string, b: string)
    ensures Newlines(a + b) == Newlines(a) + Newlines(b)
  {
    if a == "" {
      assert a + b == b;
    } else {
      assert (a + b)[1..] == a[1..] + b;
      NewlinesConcat(a[1..], b);
    }
  }

  /** The chunks were read last to first. */
  function JoinBack(chunks: seq<string>): string {
    if chunks == [] then "" else chunks[|chunks| - 1] + JoinBack(chunks[..|chunks| - 1])
  }

  lemma OneBlockMore(file: string, offset: nat, step: nat, chunks: seq<string>)
    requires offset + step <= |file|
    ensures var b := file[offset..offset + step];
      && Newlines(file[offset..]) == Newlines(b) + Newlines(file[offset + step..])
      && (JoinBack(chunks) == file[offset + step..] ==> JoinBack(chunks + [b]) == file[offset..])
  {
    var b := file[offset..offset + step];
    assert file[offset..] == b + file[offset + step..];
    NewlinesConcat(b, file[offset + step..]);
    assert (chunks + [b])[..|chunks|] == chunks;
  }

  /** The scan has come back to `offset`, and what it has read is the file from there. */
  ghost predicate Scanned(file: string, maxLines: nat, cap: int, offset: int, chunks: seq<string>) {
    0 <= offset <= |file| && JoinBack(chunks) == file[offset..] && SameStop(file, maxLines, cap, offset)
  }

  ghost predicate SameStop(file: string, maxLines: nat, cap: int, offset: nat) {
    offset <= |file| && Cut(file, maxLines, cap, offset) == Cut(file, maxLines, cap, |file|)
  }

  lemma StopStays(file: string, maxLines: nat, cap: int, offset: nat, step: nat)
    requires SameStop(file, maxLines, cap, offset)
    requires offset > 0 && |file| - offset < cap && Newlines(file[offset..]) <= maxLines
    requires step == if offset < BLOCK_SIZE then offset else BLOCK_SIZE
    ensures SameStop(file, maxLines, cap, offset - step)
  {
    OneBlockBack(file, maxLines, cap, offset, offset - step);
  }

  lemma ScanOn(file: string, maxLines: nat, cap: int, offset: nat, step: nat, chunks: seq<string>)
    requires Scanned(file, maxLines, cap, offset, chunks)
    requires offset > 0 && |file| - offset < cap && Newlines(file[offset..]) <= maxLines
    requires step == if offset < BLOCK_SIZE then offset else BLOCK_SIZE
    ensures Scanned(file, maxLines, cap, offset - step, chunks + [file[offset - step..offset]])
    ensures Newlines(file[offset - step..]) == Newlines(file[offset - step..offset]) + Newlines(file[offset..])
  {
    StopStays(file, maxLines, cap, offset, step);
    OneBlockMore(file, offset - step, step, chunks);
  }

  lemma ScanEnds(file: string, maxLines: nat, cap: int, offset: nat, chunks: seq<string>)
    requires Scanned(file, maxLines, cap, offset, chunks)
    requires offset == 0 || |file| - offset >= cap || Newlines(file[offset..]) > maxLines
    ensures JoinBack(chunks) == file[Cut(file, maxLines, cap, |file|)..]
  {
  }

  method ReadBlocks(file: string, maxLines: nat, cap: int) returns (chunks: seq<string>)
    ensures JoinBack(chunks) == file[Cut(file, maxLines, cap, |file|)..]
  {
    var offset, readBytes, newlines := |file|, 0, 0;
    chunks := [];
    assert file[offset..] == "";
    while offset > 0 && readBytes < cap && newlines <= maxLines
      invariant Scanned(file, maxLines, cap, offset, chunks)
      invariant readBytes == |file| - offset && newlines == Newlines(file[offset..])
    {
      var step := BLOCK_SIZE;
      if offset < step {
        step := offset;
      }
      ScanOn(file, maxLines, cap, offset, step, chunks);
      var b := file[offset - step..offset];
      offset := offset - step;
      chunks := chunks + [b];
      readBytes := readBytes + |b|;
      newlines := newlines + Newlines(b);
    }
    ScanEnds(file, maxLines, cap, offset, chunks);
  }

  method Assemble(chunks: seq<string>) returns (buf: string)
    ensures buf == JoinBack(chunks)
  {
    buf := "";
    assert chunks[..|chunks|] == chunks;
    for i := |chunks| downto 0
      invariant buf + JoinBack(chunks[..i]) == JoinBack(chunks)
    {
      assert chunks[..i + 1][..i] == chunks[..i];
      assert buf + (chunks[i] + JoinBack(chunks[..i])) == (buf + chunks[i]) + JoinBack(chunks[..i]);
      buf := buf + chunks[i];
    }
    assert buf + "" == buf;
  }

  method TrimmedLines(buf: string) returns (all: seq<string>)
    ensures all == Lines(buf)
  {
    all := Split(buf);
    while |all| > 0 && TrimSpace(all[|all| - 1]) == ""
      invariant DropBlanks(all) == Lines(buf)
    {
      all := all[..|all| - 1];
    }
  }

  lemma EmptyTail(file: string, maxLines: int, maxBytes: int)
    requires file == ""
    ensures BlockTail(file, maxLines, maxBytes) == []
  {
    TrimmedIsFixed(file);
    assert Split(file) == [file];
    assert DropBlanks([file]) == DropBlanks([file][..0]);
    assert file[CutOf(file, maxLines, maxBytes)..] == file;
  }

  method ReadLastLines(file: string, maxLines: int, maxBytes: int) returns (lines: seq<string>)
    ensures lines == BlockTail(file, maxLines, maxBytes)
  {
    if maxLines <= 0 {
      return [];
    }
    var cap := maxBytes;
    if cap <= 0 {
      cap := DEFAULT_MAX_BYTES;
    }
    if |file| == 0 {
      EmptyTail(file, maxLines, maxBytes);
      return [];
    }
    assert cap == Cap(maxBytes);
    var chunks := ReadBlocks(file, maxLines, cap);
    var buf := Assemble(chunks);
    var all := TrimmedLines(buf);
    if |all| <= maxLines {
      return all;
    }
    return all[|all| - maxLines..];
  }
}
