/** The rotating log file (logging/sink.cc).  Name 0 is the active file, name n > 0
    the n-th rolled one; a file is its lines, each followed by a newline.  File
    operations succeed, except that a rename of a missing file does nothing. */
module RotatingFileSink {

  type File = seq<string>
  type Files = map<nat, File>

  datatype Settings = Settings(maxBytes: nat, maxFiles: nat)

  /** `written` counts the bytes of the active file. */
  datatype Log = Log(files: Files, written: nat)

  function Size(f: File): nat {
    if f == [] then 0 else Size(f[..|f| - 1]) + |f[|f| - 1]| + 1
  }

  lemma SizeAdd(f: File, line: string)
    ensures Size(f + [line]) == Size(f) + |line| + 1
  {
    assert (f + [line])[..|f|] == f;
  }

  function LinesOf(files: Files, k: nat): File {
    if k in files then files[k] else []
  }

  /** The files from the k-th rolled one to the active one, as one text. */
  function Text(files: Files, k: nat): File {
    if k == 0 then LinesOf(files, 0) else LinesOf(files, k) + Text(files, k - 1)
  }

  // ---- Operations -----------------------------------------------------------------------------

  /** `g` has under `k` what `f` has under `from`, or both have nothing. */
  predicate Same(g: Files, k: nat, f: Files, from: nat) {
    (k in g <==> from in f) && (k in g ==> g[k] == f[from])
  }

  /** Where file `k` comes from once the names above `i` have been shifted. */
  function Source(k: nat, i: nat, max: nat): nat {
    if i < k <= max then k - 1 else k
  }

  /** Every file up to `max` moves one name up, the oldest is gone, the active one is
      empty. */
  ghost predicate IsRotated(f: Files, max: nat, g: Files) {
    0 in g && g[0] == [] && forall k: nat :: k > 0 ==> Same(g, k, f, Source(k, 0, max))
  }

  function Rotate(f: Files, max: nat): (g: Files)
    ensures IsRotated(f, max, g)
  {
    map k: nat | k in (set j | j in f.Keys && j < max :: j + 1) + (set j | j in f.Keys && j > max) + {0}
      :: if k == 0 then [] else f[Source(k, 0, max)]
  }

  lemma RotatedIsRotate(f: Files, max: nat, g: Files)
    requires IsRotated(f, max, g)
    ensures g == Rotate(f, max)
  {
    hide Rotate;
    var r := Rotate(f, max);
    forall k: nat ensures (k in g <==> k in r) && (k in g ==> g[k] == r[k]) {
      assert k > 0 ==> Same(g, k, f, Source(k, 0, max)) && Same(r, k, f, Source(k, 0, max));
    }
  }

  function Append(s: Settings, log: Log, line: string): Log {
    var full := log.written + |line| + 1 > s.maxBytes && log.written > 0;
    var files := if full then Rotate(log.files, s.maxFiles) else log.files;
    var written := if full then 0 else log.written;
    Log(files[0 := LinesOf(files, 0) + [line]], written + |line| + 1)
  }

  function AppendAll(s: Settings, log: Log, lines: seq<string>): Log {
    if lines == [] then log else Append(s, AppendAll(s, log, lines[..|lines| - 1]), lines[|lines| - 1])
  }

  /** Opening appends to what is there. */
  function Open(files: Files): Log {
    Log(if 0 in files then files else files[0 := []], Size(LinesOf(files, 0)))
  }

  class RotatingFile {
    const settings: Settings
    var files: Files
    var written: nat

    ghost function View(): Log
      reads this
    {
      Log(files, written)
    }

    /** The active file is there and its bytes are counted. */
    ghost predicate Valid()
      reads this
    {
      0 in files && written == Size(files[0])
    }

    constructor (maxBytes: nat, maxFiles: nat, files: Files)
      ensures Valid() && View() == Open(files)
      ensures settings == Settings(if maxBytes == 0 then 1 else maxBytes, maxFiles)
    {
      settings := Settings(if maxBytes == 0 then 1 else maxBytes, maxFiles);
      this.files := if 0 in files then files else files[0 := []];
      written := Size(LinesOf(files, 0));
    }

    method Rename(from: nat, to: nat)
      modifies this`files
      ensures files == Renamed(old(files), from, to)
    {
      if from in files {
        files := (files - {from})[to := files[from]];
      }
    }

    method RotateFiles()
      modifies this`files
      ensures files == Rotate(old(files), settings.maxFiles)
    {
      hide Rotate, Shifting, Renamed;
      var max := settings.maxFiles;
      ghost var f := files;
      if max == 0 {
        files := files[0 := []];
        RotatedIsRotate(f, max, files);
        return;
      }
      files := files - {max};
      StartShift(f, max);
      var i := max;
      while i > 1
        invariant 1 <= i <= max && Shifting(f, max, i, files)
        decreases i
      {
        ShiftStep(f, max, i, files);
        Rename(i - 1, i);
        i := i - 1;
      }
      ShiftEnd(f, max, files);
      Rename(0, 1);
      files := files[0 := []];
    }

    /** The line goes to the end of the log, of which at most the oldest file is lost; the
        limits are kept if they were. */
    method AppendLine(line: string)
      requires Valid()
      modifies this
      ensures Valid() && View() == Append(settings, old(View()), line)
      ensures Suffix(Text(files, settings.maxFiles), old(Text(files, settings.maxFiles)) + [line])
      ensures Ok(settings, old(View())) ==> Ok(settings, View())
    {
      hide Rotate, Size, Text, Suffix;
      AppendSuffix(settings, View(), line);
      if Ok(settings, View()) { AppendOk(settings, View(), line); }
      SizeAdd(files[0], line);
      SizeAdd([], line);
      EmptySize();
      if written + |line| + 1 > settings.maxBytes && written > 0 {
        RotateFiles();
        assert IsRotated(old(files), settings.maxFiles, files);
        written := 0;
      }
      files := files[0 := files[0] + [line]];
      written := written + |line| + 1;
    }
  }

  function Renamed(f: Files, from: nat, to: nat): Files {
    if from in f then (f - {from})[to := f[from]] else f
  }

  /** The renames down to name `i` are done, and `i` is free. */
  ghost predicate Shifting(f: Files, max: nat, i: nat, g: Files) {
    i !in g && forall k: nat :: k != i ==> Same(g, k, f, Source(k, i, max))
  }

  lemma StartShift(f: Files, max: nat)
    ensures Shifting(f, max, max, f - {max})
  {
  }

  lemma ShiftStep(f: Files, max: nat, i: nat, g: Files)
    requires 1 <= i <= max && Shifting(f, max, i, g)
    ensures Shifting(f, max, i - 1, Renamed(g, i - 1, i))
  {
    assert Same(g, i - 1, f, Source(i - 1, i, max));
    var j, h := i - 1, Renamed(g, i - 1, i);
    forall k: nat | k != j ensures Same(h, k, f, Source(k, j, max)) {
      if k != i { assert Same(g, k, f, Source(k, i, max)); }
    }
  }

  lemma ShiftEnd(f: Files, max: nat, g: Files)
    requires 1 <= max && Shifting(f, max, 1, g)
    ensures Renamed(g, 0, 1)[0 := []] == Rotate(f, max)
  {
    hide Rotate;
    var h := Renamed(g, 0, 1);
    ShiftStep(f, max, 1, g);
    forall k: nat | k > 0 ensures Same(h[0 := []], k, f, Source(k, 0, max)) {
      assert Same(h, k, f, Source(k, 0, max));
    }
    RotatedIsRotate(f, max, h[0 := []]);
  }

  // ---- A suffix of the log ----------------------------------------------------------------------

  ghost predicate Suffix(a: File, b: File) {
    |a| <= |b| && b[|b| - |a|..] == a
  }

  lemma SuffixSteps(a: File, b: File, c: File)
    requires Suffix(a, b)
    ensures Suffix(a + c, b + c)
  {
    var n := |b| - |a|;
    assert b == b[..n] + a;
    assert b + c == b[..n] + (a + c);
  }

  lemma SuffixTrans(a: File, b: File, c: File)
    requires Suffix(a, b) && Suffix(b, c)
    ensures Suffix(a, c)
  {
    assert c[|c| - |b|..][|b| - |a|..] == c[|c| - |a|..];
  }

  lemma {:induction false} RotatedText(f: Files, max: nat, k: nat)
    requires 0 < k <= max
    ensures Text(Rotate(f, max), k) == Text(f, k - 1)
  {
    hide Rotate;
    var g := Rotate(f, max);
    assert Same(g, k, f, Source(k, 0, max));
    if k > 1 {
      RotatedText(f, max, k - 1);
    } else {
      assert LinesOf(f, 0) + [] == LinesOf(f, 0);
    }
  }

  /** A rotation loses the oldest file and nothing else. */
  lemma RotateDropsOldest(f: Files, max: nat)
    ensures Text(f, max) == LinesOf(f, max) + Text(Rotate(f, max), max)
  {
    hide Rotate;
    if max > 0 { RotatedText(f, max, max); }
  }

  /** A new line in the active file ends the text. */
  lemma {:induction false} TextAppend(f: Files, k: nat, line: string)
    ensures Text(f[0 := LinesOf(f, 0) + [line]], k) == Text(f, k) + [line]
  {
    var g := f[0 := LinesOf(f, 0) + [line]];
    if k > 0 {
      TextAppend(f, k - 1, line);
      assert LinesOf(g, k) == LinesOf(f, k);
      assert LinesOf(f, k) + (Text(f, k - 1) + [line]) == LinesOf(f, k) + Text(f, k - 1) + [line];
    }
  }

  lemma AppendSuffix(s: Settings, log: Log, line: string)
    ensures Suffix(Text(Append(s, log, line).files, s.maxFiles), Text(log.files, s.maxFiles) + [line])
  {
    hide Rotate, Text;
    var full := log.written + |line| + 1 > s.maxBytes && log.written > 0;
    var files := if full then Rotate(log.files, s.maxFiles) else log.files;
    assert Suffix(Text(files, s.maxFiles), Text(log.files, s.maxFiles)) by {
      if full { RotateDropsOldest(log.files, s.maxFiles); }
    }
    SuffixSteps(Text(files, s.maxFiles), Text(log.files, s.maxFiles), [line]);
    TextAppend(files, s.maxFiles, line);
  }

  /** Whatever was there and whatever is appended, the files from the oldest kept to
      the active one hold the latest part of all of it, with nothing missing. */
  lemma {:induction false} LogIsSuffix(s: Settings, log: Log, lines: seq<string>)
    ensures Suffix(Text(AppendAll(s, log, lines).files, s.maxFiles), Text(log.files, s.maxFiles) + lines)
    decreases |lines|
  {
    hide Append, Text;
    var before := Text(log.files, s.maxFiles);
    if lines == [] {
      assert before + lines == before;
    } else {
      var n := |lines| - 1;
      var prev := AppendAll(s, log, lines[..n]);
      LogIsSuffix(s, log, lines[..n]);
      AppendSuffix(s, prev, lines[n]);
      SuffixSteps(Text(prev.files, s.maxFiles), before + lines[..n], [lines[n]]);
      assert before + lines[..n] + [lines[n]] == before + lines by { assert lines == lines[..n] + [lines[n]]; }
      SuffixTrans(Text(AppendAll(s, log, lines).files, s.maxFiles), Text(prev.files, s.maxFiles) + [lines[n]], before + lines);
    }
  }

  /** No gaps among the names. */
  ghost predicate Closed(files: Files) {
    0 in files && forall k: nat :: k + 1 in files ==> k in files
  }

  lemma ClosedDown(files: Files, k: nat, j: nat)
    requires Closed(files) && k in files && j <= k
    ensures j in files
    decreases k - j
  {
    if j < k {
      assert (k - 1) + 1 in files;
      ClosedDown(files, k - 1, j);
    }
  }

  lemma AppendClosed(s: Settings, log: Log, line: string)
    requires Closed(log.files)
    ensures Closed(Append(s, log, line).files)
  {
    hide Rotate;
    var f, g := log.files, Rotate(log.files, s.maxFiles);
    forall k: nat | k + 1 in g ensures k in g {
      assert Same(g, k + 1, f, Source(k + 1, 0, s.maxFiles));
      if k > 0 {
        ClosedDown(f, Source(k + 1, 0, s.maxFiles), Source(k, 0, s.maxFiles));
        assert Same(g, k, f, Source(k, 0, s.maxFiles));
      }
    }
  }

  /** Lines are lost only once every name is in use: with no files to begin with, the
      files hold all the lines until then. */
  lemma {:induction false} NothingLostEarly(s: Settings, lines: seq<string>)
    ensures var log := AppendAll(s, Open(map[]), lines);
            Closed(log.files) && (Text(log.files, s.maxFiles) == lines || s.maxFiles in log.files)
    decreases |lines|
  {
    hide Rotate, Text;
    if lines == [] {
      EmptyText(s.maxFiles);
    } else {
      var n := |lines| - 1;
      var prev := AppendAll(s, Open(map[]), lines[..n]);
      NothingLostEarly(s, lines[..n]);
      AppendClosed(s, prev, lines[n]);
      assert lines == lines[..n] + [lines[n]];
      var f, g := prev.files, Rotate(prev.files, s.maxFiles);
      RotateDropsOldest(f, s.maxFiles);
      TextAppend(f, s.maxFiles, lines[n]);
      TextAppend(g, s.maxFiles, lines[n]);
      if s.maxFiles in f && s.maxFiles > 0 {
        ClosedDown(f, s.maxFiles, s.maxFiles - 1);
        assert Same(g, s.maxFiles, f, Source(s.maxFiles, 0, s.maxFiles));
      }
    }
  }

  // ---- Bounds ---------------------------------------------------------------------------------------

  predicate Small(s: Settings, f: File) {
    Size(f) <= s.maxBytes || |f| <= 1
  }

  /** At most `maxFiles` rolled files, each within the limit or a single line; the
      byte count is that of the active file. */
  ghost predicate Ok(s: Settings, log: Log) {
    && 0 in log.files && log.written == Size(log.files[0])
    && (forall k :: k in log.files ==> k <= s.maxFiles && Small(s, log.files[k]))
  }

  lemma AppendOk(s: Settings, log: Log, line: string)
    requires Ok(s, log)
    ensures Ok(s, Append(s, log, line))
  {
    hide Rotate, Size;
    NoBytes(log.files[0]);
    SizeAdd(log.files[0], line);
    SizeAdd([], line);
    EmptySize();
    var full := log.written + |line| + 1 > s.maxBytes && log.written > 0;
    if full {
      var g := Rotate(log.files, s.maxFiles);
      forall k | k in g ensures k <= s.maxFiles && Small(s, g[k]) {
        assert k > 0 ==> Same(g, k, log.files, Source(k, 0, s.maxFiles));
      }
      assert [] + [line] == [line];
    }
  }

  lemma NoBytes(f: File)
    ensures Size(f) == 0 ==> f == []
  {
  }

  lemma EmptySize()
    ensures Size([]) == 0
  {
  }

  lemma {:induction false} AppendAllOk(s: Settings, log: Log, lines: seq<string>)
    requires Ok(s, log)
    ensures Ok(s, AppendAll(s, log, lines))
    decreases |lines|
  {
    hide Append, Ok;
    if lines != [] {
      AppendAllOk(s, log, lines[..|lines| - 1]);
      AppendOk(s, AppendAll(s, log, lines[..|lines| - 1]), lines[|lines| - 1]);
    }
  }

  /** Starting with no files: the files are a suffix of the lines, and within bounds. */
  lemma RotationTheorem(s: Settings, lines: seq<string>)
    ensures var log := AppendAll(s, Open(map[]), lines);
            Suffix(Text(log.files, s.maxFiles), lines) && Ok(s, log)
  {
    LogIsSuffix(s, Open(map[]), lines);
    EmptyText(s.maxFiles);
    assert [] + lines == lines;
    AppendAllOk(s, Open(map[]), lines);
  }

  lemma {:induction false} EmptyText(k: nat)
    ensures Text(map[0 := []], k) == []
  {
    if k > 0 { EmptyText(k - 1); }
  }

  // ---- Disk use ----------------------------------------------------------------------------------------

  function TotalSize(files: Files, k: nat): nat {
    Size(LinesOf(files, k)) + if k == 0 then 0 else TotalSize(files, k - 1)
  }

  /** Total disk use, where `most` covers the limit and the longest line. */
  lemma {:induction false} DiskBound(s: Settings, log: Log, most: nat, k: nat)
    requires Ok(s, log) && s.maxBytes <= most
    requires forall j :: j in log.files && |log.files[j]| == 1 ==> |log.files[j][0]| + 1 <= most
    ensures TotalSize(log.files, k) <= (k + 1) * most
  {
    hide Size;
    var f := LinesOf(log.files, k);
    EmptySize();
    if |f| == 1 {
      assert f == [] + [f[0]];
      SizeAdd([], f[0]);
    }
    assert Size(f) <= most;
    if k > 0 {
      DiskBound(s, log, most, k - 1);
      assert (k + 1) * most == k * most + most;
    }
  }

  // ---- No file is rolled early -----------------------------------------------------------------------------

  /** The line that begins file `k - 1` would not have fitted into file `k`. */
  ghost predicate FullBefore(s: Settings, files: Files, k: nat) {
    k > 0 && k in files && LinesOf(files, k - 1) != [] ==>
      Size(files[k]) + |LinesOf(files, k - 1)[0]| + 1 > s.maxBytes
  }

  ghost predicate Packed(s: Settings, log: Log) {
    && 0 in log.files && log.written == Size(log.files[0])
    && (1 in log.files ==> log.files[0] != [])
    && (forall k: nat :: k in log.files ==> k <= s.maxFiles)
    && (forall k: nat :: FullBefore(s, log.files, k))
  }

  lemma AppendPacked(s: Settings, log: Log, line: string)
    requires Packed(s, log)
    ensures Packed(s, Append(s, log, line))
  {
    hide Rotate, Size;
    SizeAdd(log.files[0], line);
    SizeAdd([], line);
    EmptySize();
    assert [] + [line] == [line];
    var f := log.files;
    var full := log.written + |line| + 1 > s.maxBytes && log.written > 0;
    var g := if full then Rotate(f, s.maxFiles) else f;
    var h := Append(s, log, line).files;
    assert h == g[0 := LinesOf(g, 0) + [line]];
    forall k: nat ensures FullBefore(s, h, k) && (k in h ==> k <= s.maxFiles) {
      assert FullBefore(s, f, k);
      if full && k > 0 {
        assert Same(g, k, f, Source(k, 0, s.maxFiles));
        if k > 1 {
          assert Same(g, k - 1, f, Source(k - 1, 0, s.maxFiles));
          assert FullBefore(s, f, k - 1);
        }
      }
    }
  }

  lemma {:induction false} NotRolledEarly(s: Settings, lines: seq<string>)
    ensures Packed(s, AppendAll(s, Open(map[]), lines))
    decreases |lines|
  {
    hide Append;
    if lines != [] {
      NotRolledEarly(s, lines[..|lines| - 1]);
      AppendPacked(s, AppendAll(s, Open(map[]), lines[..|lines| - 1]), lines[|lines| - 1]);
    }
  }

  /** Every history of the sink, from no files. */
  method WriteLog(maxBytes: nat, maxFiles: nat, lines: seq<string>) returns (r: RotatingFile)
    ensures r.Valid() && Ok(r.settings, r.View()) && Packed(r.settings, r.View())
    ensures Suffix(Text(r.files, maxFiles), lines) && (Text(r.files, maxFiles) == lines || maxFiles in r.files)
  {
    hide Append, Rotate, Size, Text, Suffix, Ok, Packed;
    r := new RotatingFile(maxBytes, maxFiles, map[]);
    assert lines[..0] == [];
    for i := 0 to |lines|
      invariant fresh(r) && r.Valid() && r.settings.maxFiles == maxFiles
      invariant r.View() == AppendAll(r.settings, Open(map[]), lines[..i])
    {
      assert lines[..i + 1][..i] == lines[..i];
      r.AppendLine(lines[i]);
    }
    assert lines[..|lines|] == lines;
    RotationTheorem(r.settings, lines);
    NotRolledEarly(r.settings, lines);
    NothingLostEarly(r.settings, lines);
  }
}
