/** src/logfile.rs: a size-rotated log over a file system whose calls may fail. */
module LogFile {
  import opened Prelude

  /** One write: all of it reaches the file or none of it does. */
  type Line = seq<bv8>

  type Body = seq<Line>

  /** The log's files: 0 is the live file, n its backup ".n". */
  type Files = map<nat, Body>

  datatype Config = Config(maxSize: nat, maxFiles: nat)

  /** Which file-system calls of one write_line fail. renames holds the source index of every
      failing rename; open is the open at the end of rotate, reopen the one in write_line. */
  datatype Faults = Faults(remove: bool, renames: set<nat>, open: bool, reopen: bool, write: bool)

  const NO_FAULTS := Faults(false, {}, false, false, false)

  datatype State = State(files: Files, open: bool, size: nat)

  function Bytes(body: Body): nat {
    if body == [] then 0 else Bytes(body[..|body| - 1]) + |body[|body| - 1]|
  }

  function At(files: Files, n: nat): Body { if n in files then files[n] else [] }

  /** Reading .n, ..., .1 and the live file, in that order. */
  function Chain(files: Files, n: nat): seq<Line> {
    if n == 0 then At(files, 0) else At(files, n) + Chain(files, n - 1)
  }

  // ------------------------------------------------------------ file-system calls

  function Removed(files: Files, n: nat, fails: bool): Files {
    if fails then files else files - {n}
  }

  /** Renaming replaces the target; it fails when there is no source. */
  function Renamed(files: Files, from: nat, to: nat, fails: bool): Files {
    if fails || from !in files then files else (files - {from})[to := files[from]]
  }

  class Disk {
    var files: Files

    constructor (files: Files)
      ensures this.files == files
    {
      this.files := files;
    }

    method Remove(n: nat, fails: bool)
      modifies this
      ensures files == Removed(old(files), n, fails)
    {
      if !fails {
        files := files - {n};
      }
    }

    method Rename(from: nat, to: nat, fails: bool)
      modifies this
      ensures files == Renamed(old(files), from, to, fails)
    {
      if !fails && from in files {
        files := (files - {from})[to := files[from]];
      }
    }

    /** Opens the live file for appending, creating it when absent; returns its size. */
    method OpenLive(fails: bool) returns (size: Option<nat>)
      modifies this
      ensures fails ==> size == None && files == old(files)
      ensures !fails ==> size == Some(Bytes(At(old(files), 0))) && files == old(files)[0 := At(old(files), 0)]
    {
      if fails {
        return None;
      }
      if 0 !in files {
        files := files[0 := []];
      }
      size := Some(Bytes(files[0]));
    }

    method AppendLive(line: Line, fails: bool) returns (ok: bool)
      modifies this
      ensures ok == !fails
      ensures files == if fails then old(files) else old(files)[0 := At(old(files), 0) + [line]]
    {
      ok := !fails;
      if ok {
        files := files[0 := At(files, 0) + [line]];
      }
    }
  }

  // ---------------------------------------------------------- what the calls compute

  /** The rename cascade n-1 -> n, ..., 0 -> 1. */
  function Shifted(files: Files, n: nat, renames: set<nat>): Files
    decreases n
  {
    if n == 0 then files
    else Shifted(Renamed(files, n - 1, n, n - 1 in renames), n - 1, renames)
  }

  function RotatedFiles(files: Files, maxFiles: nat, faults: Faults): Files {
    Shifted(Removed(files, maxFiles, faults.remove), maxFiles, faults.renames)
  }

  function OpenedLive(files: Files): State {
    State(files[0 := At(files, 0)], true, Bytes(At(files, 0)))
  }

  function Rotated(s: State, cfg: Config, faults: Faults): State {
    var files := RotatedFiles(s.files, cfg.maxFiles, faults);
    if faults.open then State(files, false, 0) else OpenedLive(files)
  }

  predicate NeedsRotation(s: State, cfg: Config, line: Line) {
    s.size > 0 && s.size + |line| > cfg.maxSize
  }

  function Ready(s: State, cfg: Config, line: Line, faults: Faults): State {
    var s1 := if NeedsRotation(s, cfg, line) then Rotated(s, cfg, faults) else s;
    if !s1.open && !faults.reopen then OpenedLive(s1.files) else s1
  }

  function Written(s: State, cfg: Config, line: Line, faults: Faults): State {
    var s2 := Ready(s, cfg, line, faults);
    if s2.open && !faults.write then
      State(s2.files[0 := At(s2.files, 0) + [line]], true, s2.size + |line|)
    else s2
  }

  class Inner {
    const disk: Disk
    const cfg: Config
    var open: bool
    var size: nat

    function View(): State
      reads this, disk
    {
      State(disk.files, open, size)
    }

    constructor (disk: Disk, cfg: Config, size: nat)
      ensures this.disk == disk && this.cfg == cfg && View() == State(disk.files, true, size)
    {
      this.disk, this.cfg, this.open, this.size := disk, cfg, true, size;
    }

    method Rotate(faults: Faults)
      modifies this, disk
      ensures View() == Rotated(old(View()), cfg, faults)
    {
      open := false;
      if cfg.maxFiles == 0 {
        disk.Remove(0, faults.remove);
      } else {
        disk.Remove(cfg.maxFiles, faults.remove);
        var n := cfg.maxFiles - 1;
        while n > 0
          invariant 0 <= n < cfg.maxFiles && !open
          invariant Shifted(disk.files, n + 1, faults.renames)
                 == RotatedFiles(old(disk.files), cfg.maxFiles, faults)
        {
          disk.Rename(n, n + 1, n in faults.renames);
          n := n - 1;
        }
        disk.Rename(0, 1, 0 in faults.renames);
      }
      var length := disk.OpenLive(faults.open);
      match length {
        case Some(bytes) => open, size := true, bytes;
        case None => size := 0;
      }
    }

    method WriteLine(line: Line, faults: Faults)
      modifies this, disk
      ensures View() == Written(old(View()), cfg, line, faults)
    {
      if size > 0 && size + |line| > cfg.maxSize {
        Rotate(faults);
      }
      if !open {
        var length := disk.OpenLive(faults.reopen);
        if length.Some? {
          open, size := true, length.value;
        }
      }
      if open {
        var ok := disk.AppendLive(line, faults.write);
        if ok {
          size := size + |line|;
        }
      }
    }
  }

  /** RotatingFile::new: opens the live file or fails; a size limit of 0 means 1. */
  method NewRotatingFile(disk: Disk, maxSize: nat, maxFiles: nat, openFails: bool) returns (r: Option<Inner>)
    modifies disk
    ensures openFails ==> r == None && disk.files == old(disk.files)
    ensures !openFails ==>
      && r.Some? && fresh(r.value) && r.value.disk == disk
      && r.value.cfg == Config(Max(maxSize, 1), maxFiles)
      && r.value.View() == OpenedLive(old(disk.files))
  {
    var length := disk.OpenLive(openFails);
    if length.None? {
      return None;
    }
    var inner := new Inner(disk, Config(Max(maxSize, 1), maxFiles), length.value);
    r := Some(inner);
  }

  // ------------------------------------------------------------------- helpers

  lemma BytesSnoc(body: Body, line: Line)
    ensures Bytes(body + [line]) == Bytes(body) + |line|
  {
    assert (body + [line])[..|body|] == body;
  }

  lemma {:induction false} BytesConcat(a: Body, b: Body)
    ensures Bytes(a + b) == Bytes(a) + Bytes(b)
  {
    if b == [] {
      assert a + b == a;
    } else {
      var front, line := b[..|b| - 1], b[|b| - 1];
      BytesConcat(a, front);
      BytesSnoc(a + front, line);
      assert a + b == (a + front) + [line];
    }
  }

  lemma {:induction false} ChainAgree(f: Files, g: Files, n: nat)
    requires forall k: nat :: k <= n ==> At(f, k) == At(g, k)
    ensures Chain(f, n) == Chain(g, n)
  {
    if n > 0 {
      ChainAgree(f, g, n - 1);
    }
  }

  // ---------------------------------------------------------- failure-free rotation

  /** The files 0..n-1 of f are the files 1..n of g. */
  predicate MovedUp(f: Files, g: Files, n: nat) {
    forall k: nat :: 1 <= k <= n ==> (k in g <==> k - 1 in f) && At(g, k) == At(f, k - 1)
  }

  ghost predicate SameAbove(f: Files, g: Files, n: nat) {
    forall k: nat :: k > n ==> (k in g <==> k in f) && At(g, k) == At(f, k)
  }

  lemma OneMovedUp(files: Files, g: Files, h: Files, n: nat)
    requires n > 0 && n !in files && g == Renamed(files, n - 1, n, false)
    requires MovedUp(g, h, n - 1) && SameAbove(g, h, n - 1)
    ensures MovedUp(files, h, n) && SameAbove(files, h, n)
  {
    assert forall k: nat :: k < n - 1 ==> (k in g <==> k in files) && At(g, k) == At(files, k);
    assert n in g <==> n - 1 in files;
  }

  /** A clean cascade moves every file up by one, gaps included. */
  lemma {:induction false} CleanShift(files: Files, n: nat)
    requires n !in files
    ensures MovedUp(files, Shifted(files, n, {}), n) && SameAbove(files, Shifted(files, n, {}), n)
    ensures 0 !in Shifted(files, n, {})
    decreases n
  {
    hide MovedUp, SameAbove, Renamed, At;
    if n == 0 {
      NoneMovedUp(files);
    } else {
      var g := Renamed(files, n - 1, n, false);
      SourceGone(files, n);
      CleanShift(g, n - 1);
      OneMovedUp(files, g, Shifted(g, n - 1, {}), n);
    }
  }

  lemma NoneMovedUp(files: Files)
    ensures MovedUp(files, files, 0) && SameAbove(files, files, 0)
  {
  }

  lemma SourceGone(files: Files, n: nat)
    requires n > 0 && n !in files
    ensures n - 1 !in Renamed(files, n - 1, n, false)
  {
  }

  /** Reading a chain whose files moved up by one and whose live file is empty. */
  lemma {:induction false} ShiftedChain(f: Files, g: Files, n: nat)
    requires At(g, 0) == [] && MovedUp(f, g, n)
    ensures Chain(g, n) == if n == 0 then [] else Chain(f, n - 1)
  {
    if n > 1 {
      ShiftedChain(f, g, n - 1);
    } else if n == 1 {
      assert Chain(g, 1) == At(g, 1) + At(g, 0);
    }
  }

  lemma CleanRotatedFiles(files: Files, n: nat)
    ensures var g := RotatedFiles(files, n, NO_FAULTS); 0 !in g && MovedUp(files, g, n)
  {
    var f := files - {n};
    CleanShift(f, n);
    assert forall k: nat :: k < n ==> At(f, k) == At(files, k);
  }

  lemma OpenKeepsFiles(files: Files)
    ensures forall k: nat :: At(OpenedLive(files).files, k) == At(files, k)
    ensures forall k: nat :: k >= 1 ==> (k in OpenedLive(files).files <==> k in files)
  {
  }

  /** A clean rotation cuts off exactly the oldest file of the chain and empties the live one. */
  lemma CleanRotation(s: State, cfg: Config)
    ensures var t := Rotated(s, cfg, NO_FAULTS);
      && t.open && t.size == 0 && 0 in t.files && At(t.files, 0) == []
      && MovedUp(s.files, t.files, cfg.maxFiles)
      && Chain(s.files, cfg.maxFiles) == At(s.files, cfg.maxFiles) + Chain(t.files, cfg.maxFiles)
  {
    var g := RotatedFiles(s.files, cfg.maxFiles, NO_FAULTS);
    CleanRotatedFiles(s.files, cfg.maxFiles);
    OpenKeepsFiles(g);
    ShiftedChain(s.files, OpenedLive(g).files, cfg.maxFiles);
    if cfg.maxFiles == 0 {
      assert At(s.files, 0) + [] == At(s.files, 0);
    }
  }

  // ------------------------------------------------------- failure-free runs

  /** The live file is open and size is its length. */
  predicate InStep(s: State) {
    s.open && 0 in s.files && s.size == Bytes(At(s.files, 0))
  }

  /** The whole file that writing this line cuts off the old end of the chain. */
  function CutBy(s: State, cfg: Config, line: Line): Body {
    if NeedsRotation(s, cfg, line) then At(s.files, cfg.maxFiles) else []
  }

  function WrittenAll(s: State, cfg: Config, lines: seq<Line>): State {
    if lines == [] then s
    else Written(WrittenAll(s, cfg, lines[..|lines| - 1]), cfg, lines[|lines| - 1], NO_FAULTS)
  }

  /** The whole files cut off, oldest first, while writing the lines. */
  function Cuts(s: State, cfg: Config, lines: seq<Line>): seq<Body> {
    if lines == [] then []
    else
      var front := lines[..|lines| - 1];
      Cuts(s, cfg, front) + [CutBy(WrittenAll(s, cfg, front), cfg, lines[|lines| - 1])]
  }

  lemma ChainAppend(f: Files, line: Line, n: nat)
    ensures Chain(f[0 := At(f, 0) + [line]], n) == Chain(f, n) + [line]
  {
    var g := f[0 := At(f, 0) + [line]];
    if n > 0 {
      ChainAppend(f, line, n - 1);
      assert At(f, n) + (Chain(f, n - 1) + [line]) == (At(f, n) + Chain(f, n - 1)) + [line];
    }
  }

  /** The files a clean write appends to: the old ones, or the old ones rotated. */
  lemma CleanReady(s: State, cfg: Config, line: Line)
    requires InStep(s)
    ensures var r := Ready(s, cfg, line, NO_FAULTS);
      && InStep(r)
      && Chain(s.files, cfg.maxFiles) == CutBy(s, cfg, line) + Chain(r.files, cfg.maxFiles)
      && (if NeedsRotation(s, cfg, line) then At(r.files, 0) == [] && MovedUp(s.files, r.files, cfg.maxFiles) else r == s)
      && Written(s, cfg, line, NO_FAULTS) == State(r.files[0 := At(r.files, 0) + [line]], true, r.size + |line|)
  {
    if NeedsRotation(s, cfg, line) {
      CleanRotation(s, cfg);
    } else {
      assert [] + Chain(s.files, cfg.maxFiles) == Chain(s.files, cfg.maxFiles);
    }
  }

  /** A clean write keeps every line in order, cutting at most the one whole oldest file. */
  lemma CleanWrite(s: State, cfg: Config, line: Line)
    requires InStep(s)
    ensures var t := Written(s, cfg, line, NO_FAULTS);
      && InStep(t)
      && Chain(s.files, cfg.maxFiles) + [line] == CutBy(s, cfg, line) + Chain(t.files, cfg.maxFiles)
  {
    CleanReady(s, cfg, line);
    var r := Ready(s, cfg, line, NO_FAULTS);
    var cut, chain := CutBy(s, cfg, line), Chain(r.files, cfg.maxFiles);
    BytesSnoc(At(r.files, 0), line);
    ChainAppend(r.files, line, cfg.maxFiles);
    assert (cut + chain) + [line] == cut + (chain + [line]);
  }

  lemma RetainsOneMore(start: seq<Line>, front: seq<Line>, cuts: seq<Body>, m: State, cfg: Config, line: Line)
    requires InStep(m) && start + front == Joined(cuts) + Chain(m.files, cfg.maxFiles)
    ensures var t := Written(m, cfg, line, NO_FAULTS);
      && InStep(t)
      && start + (front + [line]) == Joined(cuts + [CutBy(m, cfg, line)]) + Chain(t.files, cfg.maxFiles)
  {
    CleanWrite(m, cfg, line);
    var cut := CutBy(m, cfg, line);
    JoinedSnoc(cuts, cut);
    Reassociate(start, front, line, Joined(cuts), Chain(m.files, cfg.maxFiles), cut,
                Chain(Written(m, cfg, line, NO_FAULTS).files, cfg.maxFiles));
  }

  /** Over every failure-free run the chain read in order is what it held at the start followed
      by every line written, minus whole files cut off the old end; and size stays in step. */
  lemma {:induction false} RetainsSuffix(s: State, cfg: Config, lines: seq<Line>)
    requires InStep(s)
    ensures InStep(WrittenAll(s, cfg, lines))
    ensures Chain(s.files, cfg.maxFiles) + lines
         == Joined(Cuts(s, cfg, lines)) + Chain(WrittenAll(s, cfg, lines).files, cfg.maxFiles)
  {
    hide InStep, Chain, Written, CutBy;
    var chain := Chain(s.files, cfg.maxFiles);
    if lines == [] {
      assert chain + [] == [] + chain;
    } else {
      hide Joined;
      var front, line := lines[..|lines| - 1], lines[|lines| - 1];
      RetainsSuffix(s, cfg, front);
      RetainsOneMore(chain, front, Cuts(s, cfg, front), WrittenAll(s, cfg, front), cfg, line);
      assert lines == front + [line];
    }
  }

  lemma JoinedSnoc(bodies: seq<Body>, body: Body)
    ensures Joined(bodies + [body]) == Joined(bodies) + body
  {
    assert (bodies + [body])[..|bodies|] == bodies;
  }

  lemma Reassociate(start: seq<Line>, front: seq<Line>, line: Line, cuts: seq<Line>, mid: seq<Line>, cut: seq<Line>, end: seq<Line>)
    requires start + front == cuts + mid && mid + [line] == cut + end
    ensures start + (front + [line]) == (cuts + cut) + end
  {
    assert start + (front + [line]) == (start + front) + [line];
    assert (cuts + mid) + [line] == cuts + (mid + [line]);
    assert cuts + (cut + end) == (cuts + cut) + end;
  }

  // ------------------------------------------------------------------ sizes

  predicate AllAtMost(files: Files, n: nat, bound: nat) {
    forall k: nat :: k <= n ==> Bytes(At(files, k)) <= bound
  }

  lemma CleanWriteBounded(s: State, cfg: Config, line: Line, bound: nat)
    requires InStep(s) && AllAtMost(s.files, cfg.maxFiles, bound)
    requires cfg.maxSize <= bound && |line| <= bound
    ensures AllAtMost(Written(s, cfg, line, NO_FAULTS).files, cfg.maxFiles, bound)
  {
    CleanReady(s, cfg, line);
    var r := Ready(s, cfg, line, NO_FAULTS);
    BytesSnoc(At(r.files, 0), line);
    var t := Written(s, cfg, line, NO_FAULTS);
    assert At(t.files, 0) == At(r.files, 0) + [line];
    assert forall k: nat :: k > 0 ==> At(t.files, k) == At(r.files, k);
  }

  lemma OneMore(n: nat, bound: nat)
    ensures (n + 1) * bound == n * bound + bound
  {
  }

  lemma {:induction false} ChainBytes(files: Files, n: nat, bound: nat)
    requires AllAtMost(files, n, bound)
    ensures Bytes(Chain(files, n)) <= (n + 1) * bound
  {
    if n > 0 {
      ChainBytes(files, n - 1, bound);
      BytesConcat(At(files, n), Chain(files, n - 1));
      OneMore(n, bound);
    }
  }

  /** In failure-free runs no file outgrows the size limit, the longest single write and its size
      at the start; so the disk use is at most max_files + 1 times that. */
  lemma {:induction false} DiskUseBounded(s: State, cfg: Config, lines: seq<Line>, bound: nat)
    requires InStep(s) && AllAtMost(s.files, cfg.maxFiles, bound)
    requires cfg.maxSize <= bound && forall i :: 0 <= i < |lines| ==> |lines[i]| <= bound
    ensures var t := WrittenAll(s, cfg, lines);
      && AllAtMost(t.files, cfg.maxFiles, bound)
      && Bytes(Chain(t.files, cfg.maxFiles)) <= (cfg.maxFiles + 1) * bound
  {
    hide InStep, AllAtMost, Chain, Bytes, Written;
    if lines != [] {
      var front := lines[..|lines| - 1];
      DiskUseBounded(s, cfg, front, bound);
      RetainsSuffix(s, cfg, front);
      CleanWriteBounded(WrittenAll(s, cfg, front), cfg, lines[|lines| - 1], bound);
    }
    ChainBytes(WrittenAll(s, cfg, lines).files, cfg.maxFiles, bound);
  }

  /** Backup k was full when it was rotated: the first line of the file after it would not have fitted. */
  predicate FullWhenRotated(files: Files, cfg: Config, k: nat)
    requires k >= 1
  {
    k in files ==>
      && k - 1 in files && At(files, k - 1) != [] && Bytes(At(files, k)) > 0
      && Bytes(At(files, k)) + |At(files, k - 1)[0]| > cfg.maxSize
  }

  predicate NoEarlyRotation(files: Files, cfg: Config) {
    forall k: nat :: 1 <= k <= cfg.maxFiles ==> FullWhenRotated(files, cfg, k)
  }

  lemma CleanWriteNotEarly(s: State, cfg: Config, line: Line)
    requires InStep(s) && NoEarlyRotation(s.files, cfg)
    ensures NoEarlyRotation(Written(s, cfg, line, NO_FAULTS).files, cfg)
  {
    CleanReady(s, cfg, line);
    var r := Ready(s, cfg, line, NO_FAULTS);
    var t := Written(s, cfg, line, NO_FAULTS);
    forall k: nat | 1 <= k <= cfg.maxFiles
      ensures FullWhenRotated(t.files, cfg, k)
    {
      assert FullWhenRotated(s.files, cfg, k);
      assert At(t.files, k) == At(r.files, k) && (k in t.files <==> k in r.files);
      if k > 1 {
        assert FullWhenRotated(s.files, cfg, k - 1);
        assert At(t.files, k - 1) == At(r.files, k - 1) && (k - 1 in t.files <==> k - 1 in r.files);
      } else {
        assert At(t.files, 0) == At(r.files, 0) + [line];
      }
    }
  }

  lemma {:induction false} BytesHead(body: Body)
    requires body != []
    ensures |body[0]| <= Bytes(body)
  {
    if |body| > 1 {
      BytesHead(body[..|body| - 1]);
    }
  }

  /** From an empty chain nothing is ever rotated early: after every write each rotated file and
      the file that followed it exceed the limit together. */
  lemma {:induction false} NeverRotatesEarly(cfg: Config, lines: seq<Line>)
    ensures var t := WrittenAll(OpenedLive(map[]), cfg, lines);
      && NoEarlyRotation(t.files, cfg)
      && (forall k: nat :: 1 <= k <= cfg.maxFiles && k in t.files ==>
            Bytes(At(t.files, k)) + Bytes(At(t.files, k - 1)) > cfg.maxSize)
  {
    var s := OpenedLive(map[]);
    var t := WrittenAll(s, cfg, lines);
    if lines != [] {
      var front := lines[..|lines| - 1];
      NeverRotatesEarly(cfg, front);
      RetainsSuffix(s, cfg, front);
      CleanWriteNotEarly(WrittenAll(s, cfg, front), cfg, lines[|lines| - 1]);
    }
    forall k: nat | 1 <= k <= cfg.maxFiles && k in t.files
      ensures Bytes(At(t.files, k)) + Bytes(At(t.files, k - 1)) > cfg.maxSize
    {
      assert FullWhenRotated(t.files, cfg, k);
      BytesHead(At(t.files, k - 1));
    }
  }

  // ------------------------------------------------------------ failing calls

  /** a is b with some elements left out. */
  predicate Subsequence(a: seq<Line>, b: seq<Line>)
    decreases |b|
  {
    a == []
    || (b != [] && (Subsequence(a, b[..|b| - 1])
                    || (a[|a| - 1] == b[|b| - 1] && Subsequence(a[..|a| - 1], b[..|b| - 1]))))
  }

  lemma {:induction false} SubsequenceSelf(a: seq<Line>)
    ensures Subsequence(a, a)
  {
    if a != [] {
      SubsequenceSelf(a[..|a| - 1]);
    }
  }

  lemma {:induction false} SubsequenceConcat(a: seq<Line>, b: seq<Line>, c: seq<Line>, d: seq<Line>)
    requires Subsequence(a, b) && Subsequence(c, d)
    ensures Subsequence(a + c, b + d)
    decreases |d|
  {
    if d == [] {
      assert a + c == a && b + d == b;
    } else {
      var d' := d[..|d| - 1];
      assert (b + d)[..|b + d| - 1] == b + d';
      if Subsequence(c, d') {
        SubsequenceConcat(a, b, c, d');
      } else {
        SubsequenceConcat(a, b, c[..|c| - 1], d');
        assert (a + c)[..|a + c| - 1] == a + c[..|c| - 1];
      }
    }
  }

  lemma {:induction false} SubsequenceTransitive(a: seq<Line>, b: seq<Line>, c: seq<Line>)
    requires Subsequence(a, b) && Subsequence(b, c)
    ensures Subsequence(a, c)
    decreases |b| + |c|
  {
    if a != [] {
      var c' := c[..|c| - 1];
      if Subsequence(b, c') {
        SubsequenceTransitive(a, b, c');
      } else if Subsequence(a, b[..|b| - 1]) {
        SubsequenceTransitive(a, b[..|b| - 1], c');
      } else {
        SubsequenceTransitive(a[..|a| - 1], b[..|b| - 1], c');
      }
    }
  }

  lemma EmptySubsequence(a: seq<Line>)
    ensures Subsequence([], a)
  {
  }

  /** Removing a file only leaves its lines out. */
  lemma {:induction false} RemoveLeavesOut(files: Files, k: nat, n: nat)
    ensures Subsequence(Chain(files - {k}, n), Chain(files, n))
  {
    FileLeftOut(files, k, n);
    if n > 0 {
      RemoveLeavesOut(files, k, n - 1);
      hide Subsequence, At;
      SubsequenceConcat(At(files - {k}, n), At(files, n), Chain(files - {k}, n - 1), Chain(files, n - 1));
    }
  }

  lemma FileLeftOut(files: Files, k: nat, n: nat)
    ensures Subsequence(At(files - {k}, n), At(files, n))
  {
    SubsequenceSelf(At(files, n));
    EmptySubsequence(At(files, n));
    hide Subsequence;
  }

  /** Renaming the second oldest file onto the oldest reads like removing the oldest. */
  lemma RenameIsRemove(files: Files, k: nat)
    requires k in files
    ensures Chain(Renamed(files, k, k + 1, false), k + 1) == Chain(files - {k + 1}, k + 1)
  {
    var g, removed := Renamed(files, k, k + 1, false), files - {k + 1};
    assert At(g, k + 1) == At(files, k) == At(removed, k) && At(g, k) == [] == At(removed, k + 1);
    assert forall j: nat :: j < k ==> At(g, j) == At(removed, j);
    hide At, Renamed;
    ChainTop(g, k);
    ChainTop(removed, k);
    hide Chain;
    if k > 0 {
      ChainAgree(g, removed, k - 1);
    }
    SwapEmpty(At(files, k), if k > 0 then Chain(g, k - 1) else []);
  }

  lemma ChainTop(files: Files, k: nat)
    ensures Chain(files, k + 1) == At(files, k + 1) + (At(files, k) + if k > 0 then Chain(files, k - 1) else [])
  {
    hide At;
    if k == 0 {
      assert At(files, 0) + [] == At(files, 0);
    }
  }

  lemma SwapEmpty(a: Body, b: Body)
    ensures a + ([] + b) == [] + (a + b)
  {
  }

  /** Renaming a file one up only leaves out the lines of the file it replaces. */
  lemma {:induction false} RenameLeavesOut(files: Files, k: nat, n: nat, fails: bool)
    requires k < n
    ensures Subsequence(Chain(Renamed(files, k, k + 1, fails), n), Chain(files, n))
  {
    hide Subsequence;
    var g := Renamed(files, k, k + 1, fails);
    if fails || k !in files {
      SubsequenceSelf(Chain(files, n));
    } else if n == k + 1 {
      RemoveLeavesOut(files, n, n);
      RenameIsRemove(files, k);
    } else {
      SubsequenceSelf(At(files, n));
      RenameLeavesOut(files, k, n - 1, fails);
      SubsequenceConcat(At(g, n), At(files, n), Chain(g, n - 1), Chain(files, n - 1));
    }
  }

  lemma {:induction false} ShiftLeavesOut(files: Files, m: nat, renames: set<nat>, n: nat)
    requires m <= n
    ensures Subsequence(Chain(Shifted(files, m, renames), n), Chain(files, n))
    decreases m
  {
    if m == 0 {
      SubsequenceSelf(Chain(files, n));
    } else {
      var g := Renamed(files, m - 1, m, m - 1 in renames);
      RenameLeavesOut(files, m - 1, n, m - 1 in renames);
      ShiftLeavesOut(g, m - 1, renames, n);
      SubsequenceTransitive(Chain(Shifted(files, m, renames), n), Chain(g, n), Chain(files, n));
    }
  }

  lemma RotationLeavesOut(files: Files, n: nat, faults: Faults)
    ensures Subsequence(Chain(RotatedFiles(files, n, faults), n), Chain(files, n))
  {
    var removed := Removed(files, n, faults.remove);
    SubsequenceSelf(Chain(files, n));
    RemoveLeavesOut(files, n, n);
    ShiftLeavesOut(removed, n, faults.renames, n);
    SubsequenceTransitive(Chain(RotatedFiles(files, n, faults), n), Chain(removed, n), Chain(files, n));
  }

  lemma OpenKeepsChain(files: Files, n: nat)
    ensures Chain(OpenedLive(files).files, n) == Chain(files, n)
  {
    OpenKeepsFiles(files);
    ChainAgree(OpenedLive(files).files, files, n);
  }

  lemma RotatedLeavesOut(s: State, cfg: Config, faults: Faults)
    ensures Subsequence(Chain(Rotated(s, cfg, faults).files, cfg.maxFiles), Chain(s.files, cfg.maxFiles))
  {
    RotationLeavesOut(s.files, cfg.maxFiles, faults);
    OpenKeepsChain(RotatedFiles(s.files, cfg.maxFiles, faults), cfg.maxFiles);
  }

  /** Making the files ready for a write, under any failures, only leaves lines out. */
  lemma FaultyReady(s: State, cfg: Config, line: Line, faults: Faults)
    ensures Subsequence(Chain(Ready(s, cfg, line, faults).files, cfg.maxFiles), Chain(s.files, cfg.maxFiles))
  {
    SubsequenceSelf(Chain(s.files, cfg.maxFiles));
    RotatedLeavesOut(s, cfg, faults);
    var t := Rotated(s, cfg, faults);
    OpenKeepsChain(t.files, cfg.maxFiles);
    OpenKeepsChain(s.files, cfg.maxFiles);
  }

  /** Whatever fails during a write, the chain afterwards is the old chain and the new line with
      some lines left out: nothing is reordered, duplicated or made up. */
  lemma FaultyWrite(s: State, cfg: Config, line: Line, faults: Faults)
    ensures Subsequence(Chain(Written(s, cfg, line, faults).files, cfg.maxFiles), Chain(s.files, cfg.maxFiles) + [line])
  {
    var n := cfg.maxFiles;
    var r := Ready(s, cfg, line, faults);
    var before, after := Chain(s.files, n), Chain(r.files, n);
    FaultyReady(s, cfg, line, faults);
    if r.open && !faults.write {
      ChainAppend(r.files, line, n);
      SubsequenceSelf([line]);
      SubsequenceConcat(after, before, [line], [line]);
    } else {
      EmptySubsequence([line]);
      SubsequenceConcat(after, before, [], [line]);
      assert after + [] == after;
    }
  }

  /** A line reaches the live file exactly when the log is open for it, from before, from the rotation or from the
      attempt to reopen, and the write itself succeeds; and then it comes last in the chain. */
  lemma LineLandsExactly(s: State, cfg: Config, line: Line, faults: Faults)
    ensures var t, before := Written(s, cfg, line, faults), Ready(s, cfg, line, faults);
      var rotates := s.size > 0 && s.size + |line| > cfg.maxSize;
      var lands := !faults.write && (!faults.reopen || if rotates then !faults.open else s.open);
      && Chain(t.files, cfg.maxFiles) == Chain(before.files, cfg.maxFiles) + (if lands then [line] else [])
      && At(t.files, 0) == At(before.files, 0) + (if lands then [line] else [])
      && (!rotates ==> Chain(before.files, cfg.maxFiles) == Chain(s.files, cfg.maxFiles))
  {
    var before := Ready(s, cfg, line, faults);
    hide RotatedFiles;
    OpenKeepsFiles(s.files);
    ChainAgree(OpenedLive(s.files).files, s.files, cfg.maxFiles);
    if before.open && !faults.write {
      ChainAppend(before.files, line, cfg.maxFiles);
    } else {
      assert Chain(before.files, cfg.maxFiles) + [] == Chain(before.files, cfg.maxFiles);
    }
    hide Chain;
  }

  function WrittenUnder(s: State, cfg: Config, lines: seq<Line>, faults: seq<Faults>): State
    requires |lines| == |faults|
  {
    if lines == [] then s
    else
      var i := |lines| - 1;
      Written(WrittenUnder(s, cfg, lines[..i], faults[..i]), cfg, lines[i], faults[i])
  }

  /** Under any pattern of failing calls the retained lines are an in-order subsequence of what the
      chain held at the start followed by every line offered. */
  lemma {:induction false} RetainsSubsequence(s: State, cfg: Config, lines: seq<Line>, faults: seq<Faults>)
    requires |lines| == |faults|
    ensures Subsequence(Chain(WrittenUnder(s, cfg, lines, faults).files, cfg.maxFiles), Chain(s.files, cfg.maxFiles) + lines)
  {
    var n := cfg.maxFiles;
    if lines == [] {
      SubsequenceSelf(Chain(s.files, n));
      assert Chain(s.files, n) + [] == Chain(s.files, n);
    } else {
      var i := |lines| - 1;
      RetainsSubsequence(s, cfg, lines[..i], faults[..i]);
      var m := WrittenUnder(s, cfg, lines[..i], faults[..i]);
      FaultyWrite(m, cfg, lines[i], faults[i]);
      SubsequenceSelf([lines[i]]);
      SubsequenceConcat(Chain(m.files, n), Chain(s.files, n) + lines[..i], [lines[i]], [lines[i]]);
      assert (Chain(s.files, n) + lines[..i]) + [lines[i]] == Chain(s.files, n) + lines;
      SubsequenceTransitive(Chain(WrittenUnder(s, cfg, lines, faults).files, n),
                            Chain(m.files, n) + [lines[i]], Chain(s.files, n) + lines);
    }
  }

  // ------------------------------------------------- sizes when calls may fail

  /** An open log knows its live file's size; a closed one has nothing in the live file. */
  predicate Steady(s: State) { if s.open then InStep(s) else s.size == 0 && At(s.files, 0) == [] }

  /** A rotation under these faults gets the live file out of the way. */
  predicate LiveMoves(cfg: Config, faults: Faults) {
    if cfg.maxFiles == 0 then !faults.remove else 0 !in faults.renames
  }

  /** The line finds the live file moved away, or is not written. */
  predicate Contained(cfg: Config, faults: Faults) {
    LiveMoves(cfg, faults) || faults.write || (faults.open && faults.reopen)
  }

  /** A rotation under these faults leaves a closed log whose live file is still there but counts as empty. */
  predicate Hides(cfg: Config, faults: Faults) { !LiveMoves(cfg, faults) && faults.open && faults.reopen }

  /** A write to a closed log reaches the file. */
  predicate Lands(faults: Faults) { !faults.reopen && !faults.write }

  ghost predicate SomeHides(cfg: Config, patterns: iset<Faults>) { exists f :: f in patterns && Hides(cfg, f) }

  /** What is required of the calls that may fail for the disk bound to hold over all runs. */
  ghost predicate Contains(cfg: Config, patterns: iset<Faults>) {
    && (forall f :: f in patterns ==> Contained(cfg, f))
    && (SomeHides(cfg, patterns) ==> forall g :: g in patterns ==> !Lands(g))
  }

  /** An open log knows its live file's size; a closed one takes it for empty. */
  predicate Consistent(s: State) { if s.open then InStep(s) else s.size == 0 }

  /** And it is right about that unless faults that hide the live file may have happened. */
  ghost predicate Tracked(cfg: Config, patterns: iset<Faults>, s: State) {
    Consistent(s) && (s.open || At(s.files, 0) == [] || SomeHides(cfg, patterns))
  }

  lemma RemovedBounded(files: Files, n: nat, bound: nat)
    requires AllAtMost(files, n, bound)
    ensures AllAtMost(files - {n}, n, bound)
  {
    assert Bytes([]) == 0;
    hide Bytes;
    assert forall k: nat :: At(files - {n}, k) == At(files, k) || At(files - {n}, k) == [];
  }

  lemma RenamedBounded(files: Files, k: nat, n: nat, bound: nat, fails: bool)
    requires AllAtMost(files, n, bound) && k < n
    ensures AllAtMost(Renamed(files, k, k + 1, fails), n, bound)
  {
    assert Bytes([]) == 0;
    hide Bytes;
    var g := Renamed(files, k, k + 1, fails);
    assert At(g, k + 1) == At(files, k) || At(g, k + 1) == At(files, k + 1);
    assert forall j: nat :: j != k + 1 ==> At(g, j) == At(files, j) || At(g, j) == [];
  }

  /** A cascade makes no file longer, and empties the live file's place if its rename works. */
  lemma {:induction false} ShiftedBounded(files: Files, m: nat, renames: set<nat>, n: nat, bound: nat)
    requires AllAtMost(files, n, bound) && m <= n
    ensures AllAtMost(Shifted(files, m, renames), n, bound)
    ensures m > 0 && 0 !in renames ==> 0 !in Shifted(files, m, renames)
    decreases m
  {
    hide AllAtMost;
    if m > 0 {
      RenamedBounded(files, m - 1, n, bound, m - 1 in renames);
      ShiftedBounded(Renamed(files, m - 1, m, m - 1 in renames), m - 1, renames, n, bound);
    }
  }

  lemma {:induction false} ShiftedKeepsLive(files: Files, m: nat, renames: set<nat>)
    requires 0 in renames
    ensures At(Shifted(files, m, renames), 0) == At(files, 0) && (0 in Shifted(files, m, renames) <==> 0 in files)
    decreases m
  {
    if m > 0 {
      ShiftedKeepsLive(Renamed(files, m - 1, m, m - 1 in renames), m - 1, renames);
    }
  }

  /** Before it is opened again, the live file's place is empty if the file moved, and else as it was. */
  lemma RotatedFilesLive(s: State, cfg: Config, faults: Faults, bound: nat)
    requires AllAtMost(s.files, cfg.maxFiles, bound)
    ensures var g := RotatedFiles(s.files, cfg.maxFiles, faults);
      && AllAtMost(g, cfg.maxFiles, bound)
      && (LiveMoves(cfg, faults) ==> At(g, 0) == [])
      && (!LiveMoves(cfg, faults) ==> At(g, 0) == At(s.files, 0))
  {
    var n := cfg.maxFiles;
    var f := Removed(s.files, n, faults.remove);
    RemovedBounded(s.files, n, bound);
    ShiftedBounded(f, n, faults.renames, n, bound);
    if n > 0 && 0 in faults.renames {
      ShiftedKeepsLive(f, n, faults.renames);
    }
  }

  lemma ReadyBounded(s: State, cfg: Config, line: Line, faults: Faults, bound: nat)
    requires Consistent(s) && AllAtMost(s.files, cfg.maxFiles, bound)
    ensures var r := Ready(s, cfg, line, faults);
      && AllAtMost(r.files, cfg.maxFiles, bound)
      && Consistent(r)
      && (if NeedsRotation(s, cfg, line) then
            && At(r.files, 0) == (if LiveMoves(cfg, faults) then [] else At(s.files, 0))
            && (r.open <==> !faults.open || !faults.reopen)
          else At(r.files, 0) == At(s.files, 0) && (r.open <==> s.open || !faults.reopen) && (s.open ==> r == s))
  {
    hide RotatedFiles;
    RotatedFilesLive(s, cfg, faults, bound);
    var g := RotatedFiles(s.files, cfg.maxFiles, faults);
    OpenKeepsFiles(g);
    OpenKeepsFiles(s.files);
    assert Bytes([]) == 0;
    hide Bytes;
  }

  /** Appending a line that fits. */
  lemma AppendBounded(r: State, cfg: Config, line: Line, bound: nat)
    requires InStep(r) && AllAtMost(r.files, cfg.maxFiles, bound) && Bytes(At(r.files, 0)) + |line| <= bound
    ensures var t := State(r.files[0 := At(r.files, 0) + [line]], true, r.size + |line|);
      InStep(t) && AllAtMost(t.files, cfg.maxFiles, bound)
  {
    BytesSnoc(At(r.files, 0), line);
    hide Bytes;
    var files := r.files[0 := At(r.files, 0) + [line]];
    assert forall k: nat :: k > 0 ==> At(files, k) == At(r.files, k);
  }

  lemma WriteBounded(s: State, cfg: Config, line: Line, faults: Faults, bound: nat)
    requires Consistent(s) && AllAtMost(s.files, cfg.maxFiles, bound) && cfg.maxSize <= bound && |line| <= bound
    requires NeedsRotation(s, cfg, line) ==> Contained(cfg, faults)
    requires s.open || At(s.files, 0) == [] || !Lands(faults)
    ensures var t := Written(s, cfg, line, faults);
      && Consistent(t) && AllAtMost(t.files, cfg.maxFiles, bound)
      && (!t.open ==> At(t.files, 0) == [] || (s.open && Hides(cfg, faults)) || (!s.open && At(t.files, 0) == At(s.files, 0)))
  {
    ReadyBounded(s, cfg, line, faults, bound);
    var r := Ready(s, cfg, line, faults);
    assert Bytes([]) == 0;
    assert s.open ==> Bytes(At(s.files, 0)) == s.size;
    hide Ready, Bytes, At;
    if r.open && !faults.write {
      AppendBounded(r, cfg, line, bound);
    }
  }

  /** One write of a run. */
  lemma ContainedWrite(s: State, cfg: Config, line: Line, faults: Faults, patterns: iset<Faults>, bound: nat)
    requires faults in patterns && Contains(cfg, patterns) && Tracked(cfg, patterns, s)
    requires AllAtMost(s.files, cfg.maxFiles, bound) && cfg.maxSize <= bound && |line| <= bound
    ensures var t := Written(s, cfg, line, faults);
      Tracked(cfg, patterns, t) && AllAtMost(t.files, cfg.maxFiles, bound)
  {
    hide Written, Hides, Lands, AllAtMost, InStep;
    WriteBounded(s, cfg, line, faults, bound);
  }

  /** From every state of a log that has its live file's size right, a write with these faults keeps any bound
      on the files that allows for the size limit and the line. */
  ghost predicate KeepsBounds(cfg: Config, faults: Faults) {
    forall s: State, line: Line, bound: nat ::
      Steady(s) && AllAtMost(s.files, cfg.maxFiles, bound) && cfg.maxSize <= bound && |line| <= bound ==>
      AllAtMost(Written(s, cfg, line, faults).files, cfg.maxFiles, bound)
  }

  /** A live file that holds just what the limit allows. */
  function Full(cfg: Config): State { State(map[0 := [seq(cfg.maxSize, _ => 0)]], true, cfg.maxSize) }

  lemma FullIsBounded(cfg: Config)
    ensures InStep(Full(cfg)) && AllAtMost(Full(cfg).files, cfg.maxFiles, cfg.maxSize)
    ensures Bytes(At(Full(cfg).files, 0)) == cfg.maxSize
  {
    var full: Line := seq(cfg.maxSize, _ => 0);
    assert Bytes([]) == 0 && Bytes([full]) == |full| by {
      assert [full][..0] == [];
    }
    hide Bytes;
  }

  /** One more byte on top of it. */
  lemma OneByteExceeds(cfg: Config, r: State, t: State)
    requires Bytes(At(r.files, 0)) == cfg.maxSize && At(t.files, 0) == At(r.files, 0) + [[0]]
    ensures !AllAtMost(t.files, cfg.maxFiles, cfg.maxSize)
  {
    BytesSnoc(At(r.files, 0), [0]);
    hide Bytes;
  }

  lemma StuckWriteExceeds(cfg: Config, faults: Faults)
    requires !Contained(cfg, faults) && cfg.maxSize >= 1
    ensures !AllAtMost(Written(Full(cfg), cfg, [0], faults).files, cfg.maxFiles, cfg.maxSize)
  {
    FullIsBounded(cfg);
    hide Bytes, RotatedFiles;
    ReadyBounded(Full(cfg), cfg, [0], faults, cfg.maxSize);
    hide Ready;
    OneByteExceeds(cfg, Ready(Full(cfg), cfg, [0], faults), Written(Full(cfg), cfg, [0], faults));
  }

  /** A hidden live file takes a further line whatever its size. */
  lemma HiddenWriteExceeds(cfg: Config, first: Faults, second: Faults)
    requires Hides(cfg, first) && Lands(second) && cfg.maxSize >= 1
    ensures var s := Written(Full(cfg), cfg, [0], first);
      !AllAtMost(Written(s, cfg, [0], second).files, cfg.maxFiles, cfg.maxSize)
  {
    FullIsBounded(cfg);
    hide Bytes, RotatedFiles;
    ReadyBounded(Full(cfg), cfg, [0], first, cfg.maxSize);
    hide Ready;
    var s := Written(Full(cfg), cfg, [0], first);
    assert !s.open && s == Ready(Full(cfg), cfg, [0], first);
    ReadyBounded(s, cfg, [0], second, cfg.maxSize);
    OneByteExceeds(cfg, Ready(s, cfg, [0], second), Written(s, cfg, [0], second));
  }

  /** A single write is sure to keep the bound exactly when the live file can be moved out of the way or the
      line is not written: the write fails, or the file can be opened neither in the rotation nor after it. */
  lemma KeepsBoundsExactly(cfg: Config, faults: Faults)
    requires cfg.maxSize >= 1
    ensures KeepsBounds(cfg, faults) <==> Contained(cfg, faults)
  {
    hide AllAtMost, Written, Contained;
    if Contained(cfg, faults) {
      forall s: State, line: Line, bound: nat |
        Steady(s) && AllAtMost(s.files, cfg.maxFiles, bound) && cfg.maxSize <= bound && |line| <= bound
        ensures AllAtMost(Written(s, cfg, line, faults).files, cfg.maxFiles, bound)
      {
        WriteBounded(s, cfg, line, faults, bound);
      }
    } else {
      FullIsBounded(cfg);
      StuckWriteExceeds(cfg, faults);
    }
  }

  /** Over every run in which all writes fail in contained ways, and no two of them hide the live file and land
      on it, no file outgrows the bound. Removing, opening and the other renames may all fail. */
  lemma {:induction false} DiskUseBoundedUnderFaults(s: State, cfg: Config, lines: seq<Line>, faults: seq<Faults>,
                                                     patterns: iset<Faults>, bound: nat)
    requires |lines| == |faults| && Contains(cfg, patterns) && forall i :: 0 <= i < |faults| ==> faults[i] in patterns
    requires Tracked(cfg, patterns, s) && AllAtMost(s.files, cfg.maxFiles, bound)
    requires cfg.maxSize <= bound && forall i :: 0 <= i < |lines| ==> |lines[i]| <= bound
    ensures var t := WrittenUnder(s, cfg, lines, faults);
      && Tracked(cfg, patterns, t) && AllAtMost(t.files, cfg.maxFiles, bound)
      && Bytes(Chain(t.files, cfg.maxFiles)) <= (cfg.maxFiles + 1) * bound
  {
    hide Tracked, AllAtMost, Chain, Bytes, Written, Contains;
    if lines != [] {
      var i := |lines| - 1;
      DiskUseBoundedUnderFaults(s, cfg, lines[..i], faults[..i], patterns, bound);
      ContainedWrite(WrittenUnder(s, cfg, lines[..i], faults[..i]), cfg, lines[i], faults[i], patterns, bound);
    }
    ChainBytes(WrittenUnder(s, cfg, lines, faults).files, cfg.maxFiles, bound);
  }

  /** A run of a log as RotatingFile::new opens it, with these faults only, stays within the bound. */
  ghost predicate RunBounded(cfg: Config, patterns: iset<Faults>, s: State, lines: seq<Line>, faults: seq<Faults>, bound: nat)
    requires |lines| == |faults|
  {
    InStep(s) && AllAtMost(s.files, cfg.maxFiles, bound) && cfg.maxSize <= bound
    && (forall i :: 0 <= i < |lines| ==> |lines[i]| <= bound && faults[i] in patterns)
    ==> AllAtMost(WrittenUnder(s, cfg, lines, faults).files, cfg.maxFiles, bound)
  }

  ghost predicate RunsBounded(cfg: Config, patterns: iset<Faults>) {
    forall s: State, lines: seq<Line>, faults: seq<Faults>, bound: nat :: |lines| == |faults| ==>
      RunBounded(cfg, patterns, s, lines, faults, bound)
  }

  lemma OneWrite(s: State, cfg: Config, line: Line, faults: Faults)
    ensures WrittenUnder(s, cfg, [line], [faults]) == Written(s, cfg, line, faults)
  {
    assert [line][..0] == [] && [faults][..0] == [];
    hide Written;
  }

  lemma TwoWrites(s: State, cfg: Config, line: Line, first: Faults, second: Faults)
    ensures WrittenUnder(s, cfg, [line, line], [first, second]) == Written(Written(s, cfg, line, first), cfg, line, second)
  {
    OneWrite(s, cfg, line, first);
    assert [line, line][..1] == [line] && [first, second][..1] == [first];
    hide Written;
  }

  lemma NotContainedRuns(cfg: Config, patterns: iset<Faults>)
    requires cfg.maxSize >= 1 && !Contains(cfg, patterns)
    ensures exists lines: seq<Line>, faults: seq<Faults> ::
      |lines| == |faults| && !RunBounded(cfg, patterns, Full(cfg), lines, faults, cfg.maxSize)
  {
    hide AllAtMost, InStep, Written, WrittenUnder, Contained, Hides, Lands, Full;
    FullIsBounded(cfg);
    if f :| f in patterns && !Contained(cfg, f) {
      StuckWriteExceeds(cfg, f);
      OneWrite(Full(cfg), cfg, [0], f);
      assert !RunBounded(cfg, patterns, Full(cfg), [[0]], [f], cfg.maxSize);
    } else {
      var f :| f in patterns && Hides(cfg, f);
      var g :| g in patterns && Lands(g);
      HiddenWriteExceeds(cfg, f, g);
      TwoWrites(Full(cfg), cfg, [0], f, g);
      assert !RunBounded(cfg, patterns, Full(cfg), [[0], [0]], [f, g], cfg.maxSize);
    }
  }

  /** The disk bound holds over all runs with a given set of possible faults if and only if each of them is
      contained and it does not hold both some that hide the live file and some under which a write to a
      closed log lands. */
  lemma RunsBoundedExactly(cfg: Config, patterns: iset<Faults>)
    requires cfg.maxSize >= 1
    ensures RunsBounded(cfg, patterns) <==> Contains(cfg, patterns)
  {
    hide AllAtMost, Written, WrittenUnder, Contains, Bytes, Chain;
    if Contains(cfg, patterns) {
      forall s: State, lines: seq<Line>, faults: seq<Faults>, bound: nat | |lines| == |faults|
        ensures RunBounded(cfg, patterns, s, lines, faults, bound)
      {
        if InStep(s) && AllAtMost(s.files, cfg.maxFiles, bound) && cfg.maxSize <= bound
           && forall i :: 0 <= i < |lines| ==> |lines[i]| <= bound && faults[i] in patterns {
          DiskUseBoundedUnderFaults(s, cfg, lines, faults, patterns, bound);
        }
      }
    } else {
      NotContainedRuns(cfg, patterns);
    }
  }

  // ---------------------------------- why the size bound needs working renames

  /** The live file can be neither removed nor renamed; everything else works. */
  const STUCK := Faults(true, {0}, false, false, false)

  lemma {:induction false} StuckShift(files: Files, n: nat)
    ensures At(Shifted(files, n, {0}), 0) == At(files, 0)
    decreases n
  {
    if n > 0 {
      StuckShift(Renamed(files, n - 1, n, n - 1 in {0}), n - 1);
    }
  }

  lemma StuckWrite(s: State, cfg: Config, line: Line)
    requires InStep(s)
    ensures var t := Written(s, cfg, line, STUCK);
      InStep(t) && At(t.files, 0) == At(s.files, 0) + [line]
  {
    StuckShift(s.files, cfg.maxFiles);
    BytesSnoc(At(s.files, 0), line);
  }

  /** With the live file stuck, it keeps every line and grows without limit whatever max_size says. */
  lemma {:induction false} StuckLiveFileGrows(s: State, cfg: Config, lines: seq<Line>)
    requires InStep(s)
    ensures var t := WrittenUnder(s, cfg, lines, seq(|lines|, _ => STUCK));
      InStep(t) && At(t.files, 0) == At(s.files, 0) + lines
  {
    if lines != [] {
      var i := |lines| - 1;
      StuckLiveFileGrows(s, cfg, lines[..i]);
      assert seq(|lines|, _ => STUCK)[..i] == seq(i, _ => STUCK);
      StuckWrite(WrittenUnder(s, cfg, lines[..i], seq(i, _ => STUCK)), cfg, lines[i]);
      assert (At(s.files, 0) + lines[..i]) + [lines[i]] == At(s.files, 0) + lines;
    }
  }
}
