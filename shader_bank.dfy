/**
 * The shader bank of src/renderer/shader_bank.c: a fixed table of (path, name) rows, the recorded
 * modification time and the linked program handle of each row, the index of the active program,
 * and the hot-reload pass that recompiles the rows whose file changed.
 *
 * The file system and the GL compiler are an oracle: for each row and each pass a `SlotProbe` says
 * whether the file opened, its modification time and size, whether each stage compiled, whether the
 * link succeeded and which handle glCreateProgram returned.
 */
module RendererShaderBank {
  import opened Wrappers
  import opened Memory

  const MaxShaderPrograms: nat := 64
  /** SHADER_BUFFER_SIZE: the source read buffer. */
  const ShaderBufferSize: nat := 8 * 1024
  /** 10*KB(64): the region the bank carves its buffers from. */
  const RegionBytes: nat := 10 * 64 * 1024
  /** sizeof(time_t) and sizeof(unsigned int) on the 64-bit target. */
  const TimeBytes: nat := 8
  const HandleBytes: nat := 4

  /** One row of `paths`: the shader file and the program's name. */
  datatype ShaderRow = ShaderRow(path: string, name: string)

  /** What the file system and GL report for one row during one reload pass. `fileSize` is what
      ftell returns: the size, or -1 when it cannot be determined. */
  datatype SlotProbe = SlotProbe(
    openOk: bool,
    mtime: int,
    fileSize: int,
    vertexCompiled: bool,
    fragmentCompiled: bool,
    linked: bool,
    program: int)

  /** ftell reports a size or -1. */
  predicate WellFormed(p: SlotProbe) { p.fileSize >= -1 }

  predicate AllWellFormed(probes: seq<SlotProbe>)
  {
    forall i :: 0 <= i < |probes| ==> WellFormed(probes[i])
  }

  /** The branch a row takes in one reload pass. */
  datatype Outcome = OpenFailed | Unchanged | SizeUnknown | TooLarge | StageFailed | LinkFailed | Linked

  /** The size test as written: a file of exactly SHADER_BUFFER_SIZE bytes passes it, and its
      terminator is then written one byte past the buffer. */
  predicate TooLargeAsWritten(fileSize: int) { fileSize > ShaderBufferSize }

  /** The corrected size test: the buffer must hold the source and its terminator. */
  predicate TooLargeCorrected(fileSize: int) { fileSize >= ShaderBufferSize }

  /** The reload state machine for one row whose recorded modification time is `recorded`, with
      the size test as written. */
  function Classify(recorded: int, p: SlotProbe): Outcome
  {
    if !p.openOk then OpenFailed
    else if p.mtime <= recorded then Unchanged
    else if p.fileSize == -1 then SizeUnknown
    else if TooLargeAsWritten(p.fileSize) then TooLarge
    else if !p.vertexCompiled || !p.fragmentCompiled then StageFailed
    else if !p.linked then LinkFailed
    else Linked
  }

  /** The same state machine with the corrected size test. */
  function ClassifyCorrected(recorded: int, p: SlotProbe): Outcome
  {
    if !p.openOk then OpenFailed
    else if p.mtime <= recorded then Unchanged
    else if p.fileSize == -1 then SizeUnknown
    else if TooLargeCorrected(p.fileSize) then TooLarge
    else if !p.vertexCompiled || !p.fragmentCompiled then StageFailed
    else if !p.linked then LinkFailed
    else Linked
  }

  /** The row gets past the size test, so its file is read into `shader_src` and the terminator is
      written at `shader_src[file_size]`. */
  predicate ReadsSource(recorded: int, p: SlotProbe)
  {
    Classify(recorded, p) in {StageFailed, LinkFailed, Linked}
  }

  /** The row's terminator lands one byte past the source buffer. */
  predicate OverrunsBuffer(recorded: int, p: SlotProbe)
  {
    ReadsSource(recorded, p) && p.fileSize == ShaderBufferSize
  }

  /** Some row of the pass writes its terminator past the source buffer. */
  predicate PassOverruns(mods: seq<int>, probes: seq<SlotProbe>)
    requires |mods| == |probes|
  {
    exists i :: 0 <= i < |mods| && OverrunsBuffer(mods[i], probes[i])
  }

  /** The byte past the source buffer is the first byte of `mod[0]` (TerminatorOverrunAsWritten).
      On the little-endian target that is the low byte of the 64-bit time, so writing 0 there drops
      the time to the multiple of 256 at or below it (also for a negative two's-complement time). */
  function ClearLowByte(t: int): (r: int)
    ensures r % 256 == 0 && r <= t < r + 256
  {
    t - t % 256
  }

  /** The recorded modification time after the row's step: raised as soon as the file is seen to be
      newer, before its size is checked or anything is compiled. */
  function RecordedAfter(recorded: int, p: SlotProbe): int
  {
    if p.openOk && p.mtime > recorded then p.mtime else recorded
  }

  /** The row's program handle after its step. */
  function ProgramAfter(recorded: int, program: int, p: SlotProbe): int
  {
    if Classify(recorded, p) == Linked then p.program else program
  }

  /** Whether the row's step leaves the pass's status true. */
  predicate SlotOk(recorded: int, p: SlotProbe)
  {
    Classify(recorded, p) == Unchanged || Classify(recorded, p) == LinkFailed || Classify(recorded, p) == Linked
  }

  /** `mod` after a pass. Each row reads its own record before any later row writes, so only
      `mod[0]` can be hit afterwards, by a terminator written past the source buffer. */
  function PassMods(mods: seq<int>, probes: seq<SlotProbe>): (r: seq<int>)
    requires |mods| == |probes|
    ensures |r| == |mods|
  {
    seq(|mods|, i requires 0 <= i < |mods| =>
      if i == 0 && PassOverruns(mods, probes) then ClearLowByte(RecordedAfter(mods[0], probes[0]))
      else RecordedAfter(mods[i], probes[i]))
  }

  /** `programs` after a pass. */
  function PassPrograms(mods: seq<int>, programs: seq<int>, probes: seq<SlotProbe>): (r: seq<int>)
    requires |mods| == |programs| == |probes|
    ensures |r| == |programs|
  {
    seq(|programs|, i requires 0 <= i < |programs| => ProgramAfter(mods[i], programs[i], probes[i]))
  }

  /** `mod` after the step of row `idx`: its own record first, then the terminator, which lands on
      `mod[0]` when it falls past the buffer. */
  function RowMods(mods: seq<int>, idx: nat, p: SlotProbe): (r: seq<int>)
    requires idx < |mods|
    ensures |r| == |mods|
  {
    var recorded := mods[idx := RecordedAfter(mods[idx], p)];
    if OverrunsBuffer(mods[idx], p) then recorded[0 := ClearLowByte(recorded[0])] else recorded
  }

  /** Some row among the first `n` writes its terminator past the source buffer. */
  predicate OverrunsBefore(mods: seq<int>, probes: seq<SlotProbe>, n: nat)
    requires n <= |mods| == |probes|
  {
    exists k :: 0 <= k < n && OverrunsBuffer(mods[k], probes[k])
  }

  /** `mod` once the first `n` rows of a pass have run. */
  function ModsAfterRows(mods: seq<int>, probes: seq<SlotProbe>, n: nat): (r: seq<int>)
    requires n <= |mods| == |probes|
    ensures |r| == |mods|
  {
    seq(|mods|, i requires 0 <= i < |mods| =>
      if n <= i then mods[i]
      else if i == 0 && OverrunsBefore(mods, probes, n) then ClearLowByte(RecordedAfter(mods[0], probes[0]))
      else RecordedAfter(mods[i], probes[i]))
  }

  /** `programs` once the first `n` rows of a pass have run. */
  function ProgramsAfterRows(mods: seq<int>, programs: seq<int>, probes: seq<SlotProbe>, n: nat): (r: seq<int>)
    requires n <= |mods| == |programs| == |probes|
    ensures |r| == |programs|
  {
    seq(|programs|, i requires 0 <= i < |programs| =>
      if n <= i then programs[i] else ProgramAfter(mods[i], programs[i], probes[i]))
  }

  /** The step of row n carries the first n rows of a pass to the first n + 1, and once every row
      has run the result is the whole pass. */
  lemma {:induction false} RowStepExtendsPass(mods: seq<int>, programs: seq<int>, probes: seq<SlotProbe>, n: nat)
    requires n < |mods| == |programs| == |probes|
    ensures ModsAfterRows(mods, probes, n)[n] == mods[n]
    ensures RowMods(ModsAfterRows(mods, probes, n), n, probes[n]) == ModsAfterRows(mods, probes, n + 1)
    ensures ProgramsAfterRows(mods, programs, probes, n)[n := ProgramAfter(mods[n], programs[n], probes[n])] ==
            ProgramsAfterRows(mods, programs, probes, n + 1)
  {
    var before := ModsAfterRows(mods, probes, n);
    var after := ModsAfterRows(mods, probes, n + 1);
    var stepped := RowMods(before, n, probes[n]);
    forall i | 0 <= i < |mods|
      ensures stepped[i] == after[i]
    {
      if i == 0 && 0 < n && OverrunsBefore(mods, probes, n) {
        assert ClearLowByte(before[0]) == before[0];
      } else if i == 0 && OverrunsBuffer(mods[n], probes[n]) {
        assert OverrunsBefore(mods, probes, n + 1);
      }
    }
  }

  /** Once every row has run, the first-n-rows functions give the pass. */
  lemma AllRowsArePass(mods: seq<int>, programs: seq<int>, probes: seq<SlotProbe>)
    requires |mods| == |programs| == |probes|
    ensures ModsAfterRows(mods, probes, |mods|) == PassMods(mods, probes)
    ensures ProgramsAfterRows(mods, programs, probes, |mods|) == PassPrograms(mods, programs, probes)
  {
  }

  /** The status a pass returns. */
  predicate PassOk(mods: seq<int>, probes: seq<SlotProbe>)
    requires |mods| == |probes|
  {
    forall i :: 0 <= i < |mods| ==> SlotOk(mods[i], probes[i])
  }

  /** A sequence of `n` zeros: the freshly zeroed `mod` and `programs` slices. */
  function Zeros(n: nat): (r: seq<int>)
    ensures |r| == n && forall i :: 0 <= i < n ==> r[i] == 0
  {
    seq(n, _ => 0)
  }

  /** The `name` column of a table. */
  function NameColumn(rows: seq<ShaderRow>): (r: seq<string>)
    ensures |r| == |rows| && forall i :: 0 <= i < |rows| ==> r[i] == rows[i].name
  {
    seq(|rows|, i requires 0 <= i < |rows| => rows[i].name)
  }

  // ---------------------------------------------------------------------------------------------
  // Properties of one reload step and of a pass

  /** The status of a row turns false exactly when its file cannot be opened, or it is newer and its
      size is unknown, too large, or a stage fails to compile; a link failure alone keeps it true. */
  lemma SlotFailsExactly(recorded: int, p: SlotProbe)
    ensures !SlotOk(recorded, p) <==>
              (!p.openOk ||
               (p.mtime > recorded &&
                (p.fileSize == -1 || p.fileSize > ShaderBufferSize || !p.vertexCompiled || !p.fragmentCompiled)))
    ensures Classify(recorded, p) == LinkFailed ==> SlotOk(recorded, p)
  {
  }

  /** The handle changes only when the file is newer, both stages compile and the link succeeds,
      and then it becomes the new program. */
  lemma ProgramReplacedOnlyWhenLinked(recorded: int, program: int, p: SlotProbe)
    ensures ProgramAfter(recorded, program, p) != program ==>
              p.openOk && p.mtime > recorded && p.vertexCompiled && p.fragmentCompiled && p.linked &&
              ProgramAfter(recorded, program, p) == p.program
    ensures Classify(recorded, p) != Linked ==> ProgramAfter(recorded, program, p) == program
  {
  }

  /** The recorded time never decreases and only ever takes the file's time. */
  lemma RecordedTimeMonotone(recorded: int, p: SlotProbe)
    ensures RecordedAfter(recorded, p) >= recorded
    ensures RecordedAfter(recorded, p) != recorded ==> p.openOk && RecordedAfter(recorded, p) == p.mtime
  {
  }

  /** A row whose newer file failed (size or compile or link) has its time recorded anyway: the next
      pass with the same file sees it as unchanged and does not try again. */
  lemma FailedRowNotRetried(recorded: int, p: SlotProbe)
    requires Classify(recorded, p) in {SizeUnknown, TooLarge, StageFailed, LinkFailed}
    ensures Classify(RecordedAfter(recorded, p), p) == Unchanged
    ensures SlotOk(RecordedAfter(recorded, p), p)
  {
  }

  /** A pass over files none of which is newer than its record changes nothing and reports success. */
  lemma UnchangedPassIsNoOp(mods: seq<int>, programs: seq<int>, probes: seq<SlotProbe>)
    requires |mods| == |programs| == |probes|
    requires forall i :: 0 <= i < |probes| ==> probes[i].openOk && probes[i].mtime <= mods[i]
    ensures PassMods(mods, probes) == mods
    ensures PassPrograms(mods, programs, probes) == programs
    ensures PassOk(mods, probes)
  {
  }

  /** Over a pass, every record other than `mod[0]` never decreases; `mod[0]` does not either
      unless some row's terminator lands on it, and then it drops by less than 256 below the time
      its own row recorded. */
  lemma PassRecordsMonotone(mods: seq<int>, probes: seq<SlotProbe>)
    requires |mods| == |probes|
    ensures forall i :: 0 <= i < |mods| && (i != 0 || !PassOverruns(mods, probes)) ==>
              PassMods(mods, probes)[i] >= mods[i]
    ensures |mods| > 0 && PassOverruns(mods, probes) ==>
              RecordedAfter(mods[0], probes[0]) - 256 < PassMods(mods, probes)[0] <= RecordedAfter(mods[0], probes[0])
  {
  }

  /** Repeating a pass with the same files changes no row but row 0. When no terminator of the first
      pass was written past the buffer, row 0 is left alone too, and the second pass reports a
      failure only for files that cannot be opened. */
  lemma {:induction false} SecondPassIsNoOp(mods: seq<int>, programs: seq<int>, probes: seq<SlotProbe>)
    requires |mods| == |programs| == |probes|
    ensures var mods' := PassMods(mods, probes);
            var programs' := PassPrograms(mods, programs, probes);
            forall i :: 0 < i < |probes| ==>
              PassMods(mods', probes)[i] == mods'[i] && PassPrograms(mods', programs', probes)[i] == programs'[i]
    ensures var mods' := PassMods(mods, probes);
            var programs' := PassPrograms(mods, programs, probes);
            !PassOverruns(mods, probes) ==>
              PassMods(mods', probes) == mods' &&
              PassPrograms(mods', programs', probes) == programs' &&
              (PassOk(mods', probes) <==> forall i :: 0 <= i < |probes| ==> probes[i].openOk)
  {
    var mods' := PassMods(mods, probes);
    var programs' := PassPrograms(mods, programs, probes);
    forall i | 0 <= i < |probes| && (i != 0 || !PassOverruns(mods, probes))
      ensures !ReadsSource(mods'[i], probes[i])
      ensures RecordedAfter(mods'[i], probes[i]) == mods'[i]
      ensures ProgramAfter(mods'[i], programs'[i], probes[i]) == programs'[i]
      ensures SlotOk(mods'[i], probes[i]) <==> probes[i].openOk
    {
      assert mods'[i] == RecordedAfter(mods[i], probes[i]);
    }
    if !PassOverruns(mods, probes) {
      assert !PassOverruns(mods', probes);
      assert PassMods(mods', probes) == mods';
      assert PassPrograms(mods', programs', probes) == programs';
    }
  }

  /** Rows do not interfere in their handles and status: whatever happens to row j, every other row
      gets the same. Every other record ends the same as well, except that row 0's can differ when
      row j decides whether some terminator is written past the buffer. */
  lemma ReloadIsolation(mods: seq<int>, programs: seq<int>, probes: seq<SlotProbe>, probes': seq<SlotProbe>, j: nat)
    requires |mods| == |programs| == |probes| == |probes'|
    requires forall i :: 0 <= i < |probes| && i != j ==> probes[i] == probes'[i]
    ensures forall i :: 0 <= i < |probes| && i != j ==>
              PassPrograms(mods, programs, probes)[i] == PassPrograms(mods, programs, probes')[i] &&
              (SlotOk(mods[i], probes[i]) <==> SlotOk(mods[i], probes'[i]))
    ensures forall i :: 0 < i < |probes| && i != j ==> PassMods(mods, probes)[i] == PassMods(mods, probes')[i]
    ensures PassOverruns(mods, probes) == PassOverruns(mods, probes') ==>
              forall i :: 0 <= i < |probes| && i != j ==> PassMods(mods, probes)[i] == PassMods(mods, probes')[i]
  {
  }

  /** When every file leaves room for its terminator, no terminator is written past the buffer and
      every record is just its own row's. */
  lemma SmallFilesNeverOverrun(mods: seq<int>, probes: seq<SlotProbe>)
    requires |mods| == |probes|
    requires forall i :: 0 <= i < |probes| ==> probes[i].fileSize < ShaderBufferSize
    ensures !PassOverruns(mods, probes)
    ensures forall i :: 0 <= i < |mods| ==> PassMods(mods, probes)[i] == RecordedAfter(mods[i], probes[i])
  {
  }

  /** Row 0 is up to date at 300; only row 1's file differs between the two passes. With 8192 bytes
      its terminator lands on `mod[0]`, which drops to 256; with 100 bytes `mod[0]` stays 300. */
  lemma OverrunLowersRowZero(program: int)
    ensures var current := SlotProbe(true, 300, 500, true, true, true, program);
            var full := SlotProbe(true, 5, ShaderBufferSize, true, true, true, program);
            var small := SlotProbe(true, 5, 100, true, true, true, program);
            PassMods([300, 0], [current, full])[0] == 256 &&
            PassMods([300, 0], [current, small])[0] == 300
  {
    var current := SlotProbe(true, 300, 500, true, true, true, program);
    var full := SlotProbe(true, 5, ShaderBufferSize, true, true, true, program);
    var small := SlotProbe(true, 5, 100, true, true, true, program);
    assert OverrunsBuffer([300, 0][1], [current, full][1]);
    assert !OverrunsBuffer([300, 0][0], [current, small][0]) && !OverrunsBuffer([300, 0][1], [current, small][1]);
  }

  /** Row 0's own file is 8192 bytes, saved at time 300. Each pass records 300, the terminator drops
      the record back to 256, and the next pass sees the file as newer again: the row is recompiled
      and its handle replaced on every pass. */
  lemma RowZeroReloadsEveryPass(program: int)
    ensures var p := SlotProbe(true, 300, ShaderBufferSize, true, true, true, program);
            PassMods([256], [p]) == [256] && Classify(256, p) == Linked &&
            PassPrograms([256], [0], [p]) == [program]
  {
    var p := SlotProbe(true, 300, ShaderBufferSize, true, true, true, program);
    assert OverrunsBuffer([256][0], [p][0]);
  }

  /** Once a row holds a program (nonzero handle), a pass never clears it, provided GL only hands out
      nonzero program names. */
  lemma HandleNeverCleared(mods: seq<int>, programs: seq<int>, probes: seq<SlotProbe>)
    requires |mods| == |programs| == |probes|
    requires forall i :: 0 <= i < |probes| ==> probes[i].program != 0
    ensures forall i :: 0 <= i < |programs| && programs[i] != 0 ==> PassPrograms(mods, programs, probes)[i] != 0
  {
  }

  /** Every file that gets past the corrected test leaves room for its terminator in the buffer. */
  lemma AcceptedSizeHoldsTerminator(recorded: int, p: SlotProbe)
    requires WellFormed(p)
    requires ClassifyCorrected(recorded, p) in {StageFailed, LinkFailed, Linked}
    ensures 0 <= p.fileSize < ShaderBufferSize
  {
  }

  /** The corrected test changes the outcome of exactly the rows whose terminator the code as
      written puts past the buffer, and turns each of them into a size failure. */
  lemma CorrectedDiffersOnlyAtOverrun(recorded: int, p: SlotProbe)
    ensures ClassifyCorrected(recorded, p) != Classify(recorded, p) <==> OverrunsBuffer(recorded, p)
    ensures OverrunsBuffer(recorded, p) ==> ClassifyCorrected(recorded, p) == TooLarge
  {
  }

  /** As written, a file of exactly SHADER_BUFFER_SIZE bytes passes the size test, and its terminator
      at shader_src[SHADER_BUFFER_SIZE] is the byte where the `mod` slice begins: the three slices of
      init_shader_bank are carved back to back and 8192 is a multiple of 16. */
  lemma TerminatorOverrunAsWritten(base: nat, count: nat)
    ensures !TooLargeAsWritten(ShaderBufferSize)
    ensures TooLargeCorrected(ShaderBufferSize)
    ensures SliceRun(base, 0, [ShaderBufferSize, TimeBytes * count, HandleBytes * count])[0] + ShaderBufferSize ==
            SliceRun(base, 0, [ShaderBufferSize, TimeBytes * count, HandleBytes * count])[1]
  {
    var sizes := [ShaderBufferSize, TimeBytes * count, HandleBytes * count];
    var src := SliceStart(base, 0);
    assert src % Alignment == 0;
    assert (base + UsedAfter(base, 0, ShaderBufferSize)) == src + ShaderBufferSize;
    assert SliceRun(base, 0, sizes)[1] == SliceStart(base, UsedAfter(base, 0, ShaderBufferSize));
  }

  /** The three slices of init_shader_bank fit the 640 KiB region, one after another. */
  lemma InitLayout(base: nat, count: nat)
    requires count <= MaxShaderPrograms
    ensures var u1 := UsedAfter(base, 0, ShaderBufferSize);
            var u2 := UsedAfter(base, u1, TimeBytes * count);
            SliceFits(base, RegionBytes, 0, ShaderBufferSize) &&
            SliceFits(base, RegionBytes, u1, TimeBytes * count) &&
            SliceFits(base, RegionBytes, u2, HandleBytes * count) &&
            SliceRun(base, 0, [ShaderBufferSize, TimeBytes * count, HandleBytes * count]) ==
              [SliceStart(base, 0), SliceStart(base, u1), SliceStart(base, u2)]
  {
    var sizes := [ShaderBufferSize, TimeBytes * count, HandleBytes * count];
    var u1 := UsedAfter(base, 0, ShaderBufferSize);
    var u2 := UsedAfter(base, u1, TimeBytes * count);
    assert sizes[1..] == [TimeBytes * count, HandleBytes * count];
    assert sizes[1..][1..] == [HandleBytes * count];
    assert SliceRun(base, u2, [HandleBytes * count]) == [SliceStart(base, u2)];
  }

  // ---------------------------------------------------------------------------------------------
  // The bank

  /** The global `shaders` record, with the region and the read-buffer address the bank owns. */
  class ShaderBank {
    var paths: array<ShaderRow>
    var programsCount: nat
    var mod: array<int>
    var programs: array<int>
    var activeProgramIndex: nat

    /** `mem_reg`, and the addresses of the three slices init_shader_bank carves from it. */
    var memReg: MemoryRegion
    var shaderSrc: nat
    var modAddr: nat
    var programsAddr: nat

    ghost predicate Valid()
      reads this
    {
      paths.Length == MaxShaderPrograms && programsCount <= MaxShaderPrograms && mod != programs
    }

    /** After init_shader_bank: one `mod` and one `programs` entry per registered row, and the
        `mod` slice starting right after the source buffer (TerminatorOverrunAsWritten). */
    ghost predicate Initialized()
      reads this
    {
      Valid() && mod.Length == programsCount && programs.Length == programsCount &&
      modAddr == shaderSrc + ShaderBufferSize
    }

    /** The registered rows. */
    function Rows(): seq<ShaderRow>
      reads this, paths
      requires Valid()
    {
      paths[..programsCount]
    }

    /** `ShaderBank shaders = {0}`: no rows, no arrays yet, program 0 active. */
    constructor ()
      ensures Valid()
      ensures programsCount == 0 && activeProgramIndex == 0
      ensures mod.Length == 0 && programs.Length == 0
      ensures fresh(paths) && fresh(mod) && fresh(programs) && fresh(memReg)
    {
      paths := new ShaderRow[MaxShaderPrograms](_ => ShaderRow("", ""));
      programsCount := 0;
      mod := new int[0];
      programs := new int[0];
      activeProgramIndex := 0;
      memReg := new MemoryRegion();
      shaderSrc, modAddr, programsAddr := 0, 0, 0;
    }

    /** register_shader: store the row at index `programs_count` and count it. The source does not
        check the capacity, so callers must stay below MAX_SHADER_PROGRAMS. */
    method RegisterShader(path: string, name: string)
      requires Valid()
      requires programsCount < MaxShaderPrograms
      modifies this`programsCount, paths
      ensures Valid()
      ensures programsCount == old(programsCount) + 1
      ensures Rows() == old(Rows()) + [ShaderRow(path, name)]
      ensures forall i :: programsCount <= i < paths.Length ==> paths[i] == old(paths[i])
    {
      paths[programsCount] := ShaderRow(path, name);
      programsCount := programsCount + 1;
    }

    /** The region set-up of init_shader_bank: zero a fresh 640 KiB region at address `base`, then
        carve the source buffer and room for `programs_count` times and handles from it, in order. */
    method CarveRegion(base: nat)
      requires Valid()
      requires base + RegionBytes < AddressSpace
      modifies this`shaderSrc, this`modAddr, this`programsAddr, memReg
      ensures memReg.buffer == base && memReg.bufferSize == RegionBytes
      ensures [shaderSrc, modAddr, programsAddr] ==
              SliceRun(base, 0, [ShaderBufferSize, TimeBytes * programsCount, HandleBytes * programsCount])
    {
      var backing := new bv8[RegionBytes];
      memReg.InitRegion(backing, base, RegionBytes);
      InitLayout(base, programsCount);
      shaderSrc := memReg.SliceRegion16(ShaderBufferSize);
      modAddr := memReg.SliceRegion16(TimeBytes * programsCount);
      programsAddr := memReg.SliceRegion16(HandleBytes * programsCount);
    }

    /** init_shader_bank: zero a fresh 640 KiB region at address `base`, carve the source buffer and
        the `mod` and `programs` arrays from it, make program 0 active, and run a first reload pass
        against all-zero records. */
    method InitShaderBank(base: nat, probes: seq<SlotProbe>) returns (status: bool)
      requires Valid()
      requires base + RegionBytes < AddressSpace
      requires |probes| == programsCount && AllWellFormed(probes)
      modifies this, memReg
      ensures Initialized()
      ensures paths == old(paths) && programsCount == old(programsCount) && memReg == old(memReg)
      ensures fresh(mod) && fresh(programs)
      ensures activeProgramIndex == 0
      ensures mod[..] == PassMods(Zeros(programsCount), probes)
      ensures programs[..] == PassPrograms(Zeros(programsCount), Zeros(programsCount), probes)
      ensures status == PassOk(Zeros(programsCount), probes)
      ensures memReg.buffer == base && memReg.bufferSize == RegionBytes
      ensures [shaderSrc, modAddr, programsAddr] ==
              SliceRun(base, 0, [ShaderBufferSize, TimeBytes * programsCount, HandleBytes * programsCount])
    {
      CarveRegion(base);
      TerminatorOverrunAsWritten(base, programsCount);
      // Both arrays live in the zeroed region, so every entry starts at 0.
      mod := new int[programsCount](_ => 0);
      programs := new int[programsCount](_ => 0);
      activeProgramIndex := 0;
      assert mod[..] == Zeros(programsCount) && programs[..] == Zeros(programsCount);
      status := ReloadShaderBank(probes);
    }

    /** One pass of reload_shader_bank's loop body, for row `idx`; each early `return` is one of
        the body's `continue`s, and `ok` is false where the body clears the status. */
    method ReloadRow(idx: nat, p: SlotProbe) returns (ok: bool)
      requires Initialized() && idx < programsCount && WellFormed(p)
      modifies mod, programs
      ensures ok == SlotOk(old(mod[idx]), p)
      ensures mod[..] == RowMods(old(mod[..]), idx, p)
      ensures programs[..] == old(programs[..])[idx := ProgramAfter(old(mod[idx]), old(programs[idx]), p)]
    {
      if !p.openOk {
        return false;
      }
      var shaderChanged := false;
      if p.mtime > mod[idx] {
        mod[idx] := p.mtime;
        shaderChanged := true;
      }
      if !shaderChanged {
        return true;
      }
      if p.fileSize == -1 {
        return false;
      } else if TooLargeAsWritten(p.fileSize) {
        return false;
      }
      // The file is read into shader_src and a 0 is written at shader_src[file_size]. Inside the
      // buffer that byte is not modelled; one past it is the first byte of mod[0].
      if shaderSrc + p.fileSize == modAddr {
        mod[0] := ClearLowByte(mod[0]);
      }
      if !p.vertexCompiled || !p.fragmentCompiled {
        return false;
      }
      if p.linked {
        programs[idx] := p.program;
      }
      return true;
    }

    /** reload_shader_bank: one pass over the registered rows. */
    method ReloadShaderBank(probes: seq<SlotProbe>) returns (status: bool)
      requires Initialized()
      requires |probes| == programsCount && AllWellFormed(probes)
      modifies mod, programs
      ensures mod[..] == PassMods(old(mod[..]), probes)
      ensures programs[..] == PassPrograms(old(mod[..]), old(programs[..]), probes)
      ensures status == PassOk(old(mod[..]), probes)
    {
      ghost var m0 := mod[..];
      ghost var p0 := programs[..];
      status := true;
      // The source's counter is an unsigned char; programs_count <= 64 keeps it from wrapping.
      var idx := 0;
      while idx < programsCount
        invariant 0 <= idx <= programsCount
        invariant mod[..] == ModsAfterRows(m0, probes, idx)
        invariant programs[..] == ProgramsAfterRows(m0, p0, probes, idx)
        invariant status == (forall i :: 0 <= i < idx ==> SlotOk(m0[i], probes[i]))
      {
        RowStepExtendsPass(m0, p0, probes, idx);
        var ok := ReloadRow(idx, probes[idx]);
        if !ok {
          status := false;
        }
        idx := idx + 1;
      }
      AllRowsArePass(m0, p0, probes);
    }

    /** use_program_name: make the first row with this name active and bind its program; on a miss
        nothing changes and nothing is bound. */
    method UseProgramName(name: string) returns (bound: Option<int>)
      requires Initialized()
      modifies this`activeProgramIndex
      ensures match FirstIndex(NameColumn(Rows()), name)
                case Some(i) => activeProgramIndex == i && bound == Some(programs[i])
                case None => activeProgramIndex == old(activeProgramIndex) && bound == None
    {
      bound := None;
      var index := 0;
      while index < programsCount
        invariant 0 <= index <= programsCount
        invariant forall k :: 0 <= k < index ==> paths[k].name != name
        invariant activeProgramIndex == old(activeProgramIndex)
      {
        if paths[index].name == name {
          activeProgramIndex := index;
          bound := Some(programs[index]);
          break;
        }
        index := index + 1;
      }
      assert NameColumn(Rows())[..index] == NameColumn(paths[..index]);
    }

    /** use_program: make the first row holding this handle active and bind it; on a miss nothing
        changes and nothing is bound. */
    method UseProgram(program: int) returns (bound: Option<int>)
      requires Initialized()
      modifies this`activeProgramIndex
      ensures match FirstIndex(programs[..], program)
                case Some(i) => activeProgramIndex == i && bound == Some(program)
                case None => activeProgramIndex == old(activeProgramIndex) && bound == None
    {
      bound := None;
      var index := 0;
      while index < programsCount
        invariant 0 <= index <= programsCount
        invariant forall k :: 0 <= k < index ==> programs[k] != program
        invariant activeProgramIndex == old(activeProgramIndex)
      {
        if program == programs[index] {
          activeProgramIndex := index;
          bound := Some(program);
          break;
        }
        index := index + 1;
      }
    }

    /** query_program: the program of the first row with this name, or the caller's value
        (`*program` untouched) when no row has it. */
    method QueryProgram(current: int, name: string) returns (program: int)
      requires Initialized()
      ensures match FirstIndex(NameColumn(Rows()), name)
                case Some(i) => program == programs[i]
                case None => program == current
    {
      program := current;
      var index := 0;
      while index < programsCount
        invariant 0 <= index <= programsCount
        invariant forall k :: 0 <= k < index ==> paths[k].name != name
        invariant program == current
      {
        if paths[index].name == name {
          program := programs[index];
          break;
        }
        index := index + 1;
      }
      assert NameColumn(Rows())[..index] == NameColumn(paths[..index]);
    }

    /** get_active_program: the handle in the active row. */
    method GetActiveProgram() returns (program: int)
      requires Initialized()
      requires activeProgramIndex < programsCount
      ensures program == programs[activeProgramIndex]
    {
      program := programs[activeProgramIndex];
    }

    /** set_float, set_int, set_vec2f/3f/4f, set_mat3f/4f: each looks the uniform up, by name, in the
        active row's program and passes the value through. The GL call is the result. */
    method SetUniform<V>(name: string, value: V) returns (call: UniformCall<V>)
      requires Initialized()
      requires activeProgramIndex < programsCount
      ensures call.program == programs[activeProgramIndex] && call.name == name && call.value == value
    {
      call := UniformCall(programs[activeProgramIndex], name, value);
    }
  }

  /** A glUniform* call on the location of `name` in `program`. */
  datatype UniformCall<V> = UniformCall(program: int, name: string, value: V)

  /** The probes of the renderer's start-up: all three files new at time 100, all compile and link. */
  function StartupProbes(cubeProgram: int, lightProgram: int, uiProgram: int): seq<SlotProbe>
  {
    [SlotProbe(true, 100, 900, true, true, true, cubeProgram),
     SlotProbe(true, 100, 700, true, true, true, lightProgram),
     SlotProbe(true, 100, 300, true, true, true, uiProgram)]
  }

  /** The probes of the next reload: only cube's file was saved again. */
  function TouchCubeProbes(newCube: int, unused: int): seq<SlotProbe>
  {
    [SlotProbe(true, 101, 950, true, true, true, newCube),
     SlotProbe(true, 100, 700, true, true, true, unused),
     SlotProbe(true, 100, 300, true, true, true, unused)]
  }

  /** The two passes of the scenario below, on the specification: both succeed, the first records
      time 100 and the three programs, the second replaces only cube's program. */
  lemma CubeLightPasses(cubeProgram: int, lightProgram: int, uiProgram: int, newCube: int, unused: int)
    ensures var first := StartupProbes(cubeProgram, lightProgram, uiProgram);
            PassOk(Zeros(3), first) && PassMods(Zeros(3), first) == [100, 100, 100] &&
            PassPrograms(Zeros(3), Zeros(3), first) == [cubeProgram, lightProgram, uiProgram]
    ensures var second := TouchCubeProbes(newCube, unused);
            PassOk([100, 100, 100], second) &&
            PassPrograms([100, 100, 100], [cubeProgram, lightProgram, uiProgram], second) ==
              [newCube, lightProgram, uiProgram]
  {
    var first := StartupProbes(cubeProgram, lightProgram, uiProgram);
    var second := TouchCubeProbes(newCube, unused);
    SmallFilesNeverOverrun(Zeros(3), first);
    assert PassMods(Zeros(3), first) == [100, 100, 100];
    assert PassPrograms(Zeros(3), Zeros(3), first) == [cubeProgram, lightProgram, uiProgram];
    assert PassPrograms([100, 100, 100], [cubeProgram, lightProgram, uiProgram], second) ==
           [newCube, lightProgram, uiProgram];
  }

  /** The renderer's start-up and one reload: register "cube", "light" and "ui", compile all three,
      then touch only cube's file. Cube gets its new program; light and ui keep their handles and
      are not recompiled (the handles their probes offer are never taken). */
  method CubeLightScenario(base: nat, cubeProgram: int, lightProgram: int, uiProgram: int, newCube: int, unused: int)
    returns (initOk: bool, reloadOk: bool, before: seq<int>, after: seq<int>)
    requires base + RegionBytes < AddressSpace
    ensures initOk && reloadOk
    ensures before == [cubeProgram, lightProgram, uiProgram]
    ensures after == [newCube, lightProgram, uiProgram]
  {
    CubeLightPasses(cubeProgram, lightProgram, uiProgram, newCube, unused);
    var bank := new ShaderBank();
    bank.RegisterShader("..\\src\\shaders\\cube.glsl", "cube");
    bank.RegisterShader("..\\src\\shaders\\light.glsl", "light");
    bank.RegisterShader("..\\src\\shaders\\ui.glsl", "ui");
    initOk := bank.InitShaderBank(base, StartupProbes(cubeProgram, lightProgram, uiProgram));
    before := bank.programs[..];
    reloadOk := bank.ReloadShaderBank(TouchCubeProbes(newCube, unused));
    after := bank.programs[..];
  }
}
