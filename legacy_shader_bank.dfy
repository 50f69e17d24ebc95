/**
 * The earlier, per-stage shader bank of src/shader_bank.c. Each program has a vertex and a fragment
 * file, each with its own timestamp slot and shader-handle slot: stage slots 2r and 2r + 1 and
 * program slot r belong to program row r.
 *
 * Opening, stat, the file size and the GL calls are the per-row probe the caller supplies. The
 * bank's three calloc'd arrays are the class's fields.
 */
module LegacyShaderBank {

  /** sizeof(u8 *) on the 64-bit target. */
  const PointerBytes: nat := 8

  /** Rows of the static `paths` table, two paths each. */
  const PathRows: nat := 3

  /** Slots of `mod` and `gl_handles`: one per stage per row. */
  const StageSlots: nat := 6

  /** ArrayCount(A): the byte size of A over the byte size of its first element. */
  function ArrayCount(arrayBytes: nat, elementBytes: nat): nat
    requires elementBytes > 0
  {
    arrayBytes / elementBytes
  }

  /** ArrayCount of the static table counts its rows; ArrayCount of `shaders.paths`, a pointer to a
      row, divides a pointer's size by a row's size and is 0. The loops compare their counter
      against the latter. */
  lemma ArrayCountValues()
    ensures ArrayCount(PathRows * 2 * PointerBytes, 2 * PointerBytes) == PathRows
    ensures ArrayCount(PointerBytes, 2 * PointerBytes) == 0
  {
  }

  /** The loop bound the legacy loops use: ArrayCount(shaders.paths). */
  const LoopBound: nat := PointerBytes / (2 * PointerBytes)

  /** What the environment answers for one stage: whether fopen succeeded, the stat mtime,
      FILE_size (-1 on failure) and the name glCreateShader returns. */
  datatype StageProbe = StageProbe(openOk: bool, mtime: int, fileSize: int, shader: int)

  /** Both stages of one row, and the name glCreateProgram returns for it. */
  datatype RowProbe = RowProbe(vertex: StageProbe, fragment: StageProbe, program: int)

  /** The bank's arrays as values. */
  datatype BankState = BankState(mod: seq<int>, glHandles: seq<int>, programs: seq<int>)

  predicate Shaped(s: BankState)
  {
    |s.mod| == StageSlots && |s.glHandles| == StageSlots && |s.programs| == PathRows
  }

  /** The arrays as calloc leaves them. */
  const Zeroed: BankState := BankState([0, 0, 0, 0, 0, 0], [0, 0, 0, 0, 0, 0], [0, 0, 0])

  /** `shader_changed` after both timestamp comparisons: 1 vertex, 2 fragment, 3 both, 0 neither. */
  function ChangeFlag(vertexNewer: bool, fragmentNewer: bool): nat
  {
    var afterVertex := if vertexNewer then 1 else 0;
    if fragmentNewer then (if afterVertex != 0 then 3 else 2) else afterVertex
  }

  /** The flag encodes both comparisons: bit 0 the vertex, bit 1 the fragment. */
  lemma ChangeFlagMeaning(vertexNewer: bool, fragmentNewer: bool)
    ensures ChangeFlag(vertexNewer, fragmentNewer) != 0 <==> vertexNewer || fragmentNewer
    ensures ChangeFlag(vertexNewer, fragmentNewer) % 2 == 1 <==> vertexNewer
    ensures ChangeFlag(vertexNewer, fragmentNewer) / 2 == 1 <==> fragmentNewer
    ensures ChangeFlag(vertexNewer, fragmentNewer) <= 3
  {
  }

  /** The compile tail both loops share, from stage slot `idx` on: stop if the vertex size is
      unknown; otherwise store the vertex shader; stop if the fragment size is unknown; otherwise
      store the fragment shader and, unconditionally, the linked program in slot idx / 2. */
  function CompileRow(s: BankState, idx: nat, p: RowProbe): (t: BankState)
    requires Shaped(s) && idx + 1 < StageSlots
    ensures Shaped(t) && t.mod == s.mod
  {
    if p.vertex.fileSize == -1 then s
    else
      var handles := s.glHandles[idx := p.vertex.shader];
      if p.fragment.fileSize == -1 then s.(glHandles := handles)
      else s.(glHandles := handles[idx + 1 := p.fragment.shader], programs := s.programs[idx / 2 := p.program])
  }

  // ---------------------------------------------------------------------------------------------
  // As written

  /** One pass of init_shader_bank's loop body at stage slot `idx`: on two successful opens, record
      both mtimes, then compile. */
  function InitRowAsWritten(s: BankState, idx: nat, p: RowProbe): (t: BankState)
    requires Shaped(s) && idx + 1 < StageSlots
    ensures Shaped(t)
  {
    if !p.vertex.openOk || !p.fragment.openOk then s
    else CompileRow(s.(mod := s.mod[idx := p.vertex.mtime][idx + 1 := p.fragment.mtime]), idx, p)
  }

  /** The timestamp part of reload_shader_bank's loop body as written: a newer vertex mtime goes to
      slot idx; a fragment mtime newer than slot idx + 1 also goes to slot idx. */
  function RecordAsWritten(mod: seq<int>, idx: nat, p: RowProbe): (seq<int>, nat)
    requires idx + 1 < |mod|
  {
    var vertexNewer := p.vertex.mtime > mod[idx];
    var afterVertex := if vertexNewer then mod[idx := p.vertex.mtime] else mod;
    var fragmentNewer := p.fragment.mtime > afterVertex[idx + 1];
    var afterFragment := if fragmentNewer then afterVertex[idx := p.fragment.mtime] else afterVertex;
    (afterFragment, ChangeFlag(vertexNewer, fragmentNewer))
  }

  /** One pass of reload_shader_bank's loop body at stage slot `idx`, as written. */
  function ReloadRowAsWritten(s: BankState, idx: nat, p: RowProbe): (t: BankState)
    requires Shaped(s) && idx + 1 < StageSlots
    ensures Shaped(t)
  {
    if !p.vertex.openOk || !p.fragment.openOk then s
    else
      var (mod, flag) := RecordAsWritten(s.mod, idx, p);
      if flag == 0 then s.(mod := mod) else CompileRow(s.(mod := mod), idx, p)
  }

  /** The reload as written never touches the fragment slot idx + 1. A fragment newer than that
      slot is therefore seen again on the next reload with the same files: the row is recompiled
      on every reload. */
  lemma FragmentChangeRedetected(s: BankState, p: RowProbe)
    requires Shaped(s)
    requires p.vertex.openOk && p.fragment.openOk && p.fragment.mtime > s.mod[1]
    ensures ReloadRowAsWritten(s, 0, p).mod[1] == s.mod[1]
    ensures RecordAsWritten(s.mod, 0, p).1 != 0
    ensures RecordAsWritten(ReloadRowAsWritten(s, 0, p).mod, 0, p).1 != 0
  {
  }

  /** When both stages are newer and the fragment is older than the vertex, the vertex slot ends
      up holding the fragment's mtime, below the vertex's: the vertex is reloaded again next time. */
  lemma VertexRecordLowered(s: BankState, p: RowProbe)
    requires Shaped(s)
    requires p.vertex.openOk && p.fragment.openOk
    requires p.vertex.mtime > s.mod[0] && p.fragment.mtime > s.mod[1]
    requires p.fragment.mtime < p.vertex.mtime
    ensures ReloadRowAsWritten(s, 0, p).mod[0] == p.fragment.mtime < p.vertex.mtime
    ensures RecordAsWritten(ReloadRowAsWritten(s, 0, p).mod, 0, p).1 % 2 == 1
  {
  }

  /** After init recorded vertex 10 and fragment 20, a fragment saved at 25 makes every later
      reload see a change, however often it runs. */
  lemma ReloadNeverSettlesExample()
    ensures var p := RowProbe(StageProbe(true, 10, 100, 1), StageProbe(true, 25, 100, 2), 3);
            var s0 := BankState([10, 20, 0, 0, 0, 0], [0, 0, 0, 0, 0, 0], [0, 0, 0]);
            var s1 := ReloadRowAsWritten(s0, 0, p);
            var s2 := ReloadRowAsWritten(s1, 0, p);
            RecordAsWritten(s0.mod, 0, p).1 == 2 &&
            RecordAsWritten(s1.mod, 0, p).1 == 2 &&
            RecordAsWritten(s2.mod, 0, p).1 == 2
  {
  }

  /** One pass as written changes only the slots of row 0; the other rows keep their values. */
  lemma AsWrittenTouchesRowZeroOnly(s: BankState, p: RowProbe)
    requires Shaped(s)
    ensures Shaped(ReloadRowAsWritten(s, 0, p)) && Shaped(InitRowAsWritten(s, 0, p))
    ensures ReloadRowAsWritten(s, 0, p).mod[2..] == s.mod[2..]
    ensures ReloadRowAsWritten(s, 0, p).glHandles[2..] == s.glHandles[2..]
    ensures ReloadRowAsWritten(s, 0, p).programs[1..] == s.programs[1..]
    ensures InitRowAsWritten(s, 0, p).mod[2..] == s.mod[2..]
    ensures InitRowAsWritten(s, 0, p).glHandles[2..] == s.glHandles[2..]
    ensures InitRowAsWritten(s, 0, p).programs[1..] == s.programs[1..]
  {
  }

  // ---------------------------------------------------------------------------------------------
  // Corrected: every row, and the fragment mtime in its own slot

  /** The timestamp part with the fragment recorded in slot 2r + 1. */
  function RecordCorrected(mod: seq<int>, r: nat, p: RowProbe): (seq<int>, nat)
    requires 2 * r + 1 < |mod|
  {
    var vertexNewer := p.vertex.mtime > mod[2 * r];
    var afterVertex := if vertexNewer then mod[2 * r := p.vertex.mtime] else mod;
    var fragmentNewer := p.fragment.mtime > afterVertex[2 * r + 1];
    var afterFragment := if fragmentNewer then afterVertex[2 * r + 1 := p.fragment.mtime] else afterVertex;
    (afterFragment, ChangeFlag(vertexNewer, fragmentNewer))
  }

  function ReloadRowCorrected(s: BankState, r: nat, p: RowProbe): (t: BankState)
    requires Shaped(s) && r < PathRows
    ensures Shaped(t)
  {
    if !p.vertex.openOk || !p.fragment.openOk then s
    else
      var (mod, flag) := RecordCorrected(s.mod, r, p);
      if flag == 0 then s.(mod := mod) else CompileRow(s.(mod := mod), 2 * r, p)
  }

  /** The corrected reload of the first `k` rows. */
  function ReloadRowsCorrected(s: BankState, probes: seq<RowProbe>, k: nat): (t: BankState)
    requires Shaped(s) && k <= |probes| == PathRows
    ensures Shaped(t)
  {
    if k == 0 then s else ReloadRowCorrected(ReloadRowsCorrected(s, probes, k - 1), k - 1, probes[k - 1])
  }

  /** Row r's recorded times are at least its files' mtimes (or its files do not open). */
  predicate RowSettled(s: BankState, r: nat, p: RowProbe)
    requires Shaped(s) && r < PathRows
  {
    !p.vertex.openOk || !p.fragment.openOk ||
    (p.vertex.mtime <= s.mod[2 * r] && p.fragment.mtime <= s.mod[2 * r + 1])
  }

  /** A corrected pass over row r changes only that row's slots, keeps the shape, and leaves the
      row settled. */
  lemma RowStep(s: BankState, r: nat, p: RowProbe)
    requires Shaped(s) && r < PathRows
    ensures var t := ReloadRowCorrected(s, r, p);
            Shaped(t) && RowSettled(t, r, p) &&
            (forall i :: 0 <= i < StageSlots && i / 2 != r ==> t.mod[i] == s.mod[i] && t.glHandles[i] == s.glHandles[i]) &&
            (forall j :: 0 <= j < PathRows && j != r ==> t.programs[j] == s.programs[j])
  {
  }

  /** A pass over a settled row changes nothing. */
  lemma SettledRowUnchanged(s: BankState, r: nat, p: RowProbe)
    requires Shaped(s) && r < PathRows && RowSettled(s, r, p)
    ensures ReloadRowCorrected(s, r, p) == s
  {
  }

  /** After the corrected reload of the first k rows, every one of them is settled. */
  lemma {:induction false} ReloadSettlesRows(s: BankState, probes: seq<RowProbe>, k: nat)
    requires Shaped(s) && k <= |probes| == PathRows
    ensures Shaped(ReloadRowsCorrected(s, probes, k))
    ensures forall r :: 0 <= r < k ==> RowSettled(ReloadRowsCorrected(s, probes, k), r, probes[r])
  {
    if k > 0 {
      var prev := ReloadRowsCorrected(s, probes, k - 1);
      ReloadSettlesRows(s, probes, k - 1);
      RowStep(prev, k - 1, probes[k - 1]);
      var next := ReloadRowsCorrected(s, probes, k);
      forall r | 0 <= r < k
        ensures RowSettled(next, r, probes[r])
      {
        if r < k - 1 {
          assert next.mod[2 * r] == prev.mod[2 * r];
          assert next.mod[2 * r + 1] == prev.mod[2 * r + 1];
        }
      }
    }
  }

  /** Reloading a bank whose rows are all settled changes nothing. */
  lemma {:induction false} SettledReloadUnchanged(s: BankState, probes: seq<RowProbe>, k: nat)
    requires Shaped(s) && k <= |probes| == PathRows
    requires forall r :: 0 <= r < PathRows ==> RowSettled(s, r, probes[r])
    ensures ReloadRowsCorrected(s, probes, k) == s
  {
    if k > 0 {
      SettledReloadUnchanged(s, probes, k - 1);
      SettledRowUnchanged(s, k - 1, probes[k - 1]);
    }
  }

  /** With the same files, a second corrected reload changes nothing: nothing is recompiled. */
  lemma ReloadCorrectedIdempotent(s: BankState, probes: seq<RowProbe>)
    requires Shaped(s) && |probes| == PathRows
    ensures var once := ReloadRowsCorrected(s, probes, PathRows);
            ReloadRowsCorrected(once, probes, PathRows) == once
  {
    ReloadSettlesRows(s, probes, PathRows);
    SettledReloadUnchanged(ReloadRowsCorrected(s, probes, PathRows), probes, PathRows);
  }

  /** The corrected init pass over the first `k` rows. */
  function InitRowsCorrected(s: BankState, probes: seq<RowProbe>, k: nat): (t: BankState)
    requires Shaped(s) && k <= |probes| == PathRows
    ensures Shaped(t)
  {
    if k == 0 then s else InitRowAsWritten(InitRowsCorrected(s, probes, k - 1), 2 * (k - 1), probes[k - 1])
  }

  /** The corrected init leaves every row settled, so a corrected reload right after it with the
      same files changes nothing. */
  lemma {:induction false} InitSettlesRows(s: BankState, probes: seq<RowProbe>, k: nat)
    requires Shaped(s) && k <= |probes| == PathRows
    ensures Shaped(InitRowsCorrected(s, probes, k))
    ensures forall r :: 0 <= r < k ==> RowSettled(InitRowsCorrected(s, probes, k), r, probes[r])
  {
    if k > 0 {
      var prev := InitRowsCorrected(s, probes, k - 1);
      InitSettlesRows(s, probes, k - 1);
      var next := InitRowsCorrected(s, probes, k);
      forall r | 0 <= r < k
        ensures RowSettled(next, r, probes[r])
      {
        if r < k - 1 {
          assert next.mod[2 * r] == prev.mod[2 * r];
          assert next.mod[2 * r + 1] == prev.mod[2 * r + 1];
        }
      }
    }
  }

  lemma ReloadAfterInitUnchanged(probes: seq<RowProbe>)
    requires |probes| == PathRows
    ensures var init := InitRowsCorrected(Zeroed, probes, PathRows);
            ReloadRowsCorrected(init, probes, PathRows) == init
  {
    InitSettlesRows(Zeroed, probes, PathRows);
    SettledReloadUnchanged(InitRowsCorrected(Zeroed, probes, PathRows), probes, PathRows);
  }

  // ---------------------------------------------------------------------------------------------
  // The bank

  /** The static `shaders` record: timestamps, shader handles and programs. */
  class LegacyBank {
    var mod: array<int>
    var glHandles: array<int>
    var programs: array<int>

    ghost predicate Valid()
      reads this
    {
      mod.Length == StageSlots && glHandles.Length == StageSlots && programs.Length == PathRows &&
      mod != glHandles && mod != programs && glHandles != programs
    }

    function State(): BankState
      reads this, mod, glHandles, programs
    {
      BankState(mod[..], glHandles[..], programs[..])
    }

    /** `static shader_bank shaders = {0}`: no arrays yet. */
    constructor ()
      ensures mod.Length == 0 && glHandles.Length == 0 && programs.Length == 0
    {
      mod := new int[0];
      glHandles := new int[0];
      programs := new int[0];
    }

    /** The three callocs of init_shader_bank: two slots per row for the times and the stage
        handles, one per row for the programs, all zero. */
    method Allocate()
      modifies this
      ensures Valid() && fresh(mod) && fresh(glHandles) && fresh(programs)
      ensures State() == Zeroed
    {
      mod := new int[StageSlots](_ => 0);
      glHandles := new int[StageSlots](_ => 0);
      programs := new int[PathRows](_ => 0);
      assert mod[..] == Zeroed.mod;
      assert glHandles[..] == Zeroed.glHandles;
      assert programs[..] == Zeroed.programs;
    }

    /** One pass of init_shader_bank's loop body at stage slot `idx`; each early `return` is one of
        the body's `continue`s. */
    method InitRow(idx: nat, p: RowProbe)
      requires Valid() && idx + 1 < StageSlots
      modifies mod, glHandles, programs
      ensures State() == InitRowAsWritten(old(State()), idx, p)
    {
      if !p.vertex.openOk || !p.fragment.openOk {
        return;
      }
      mod[idx] := p.vertex.mtime;
      mod[idx + 1] := p.fragment.mtime;
      if p.vertex.fileSize == -1 {
        return;
      }
      glHandles[idx] := p.vertex.shader;
      if p.fragment.fileSize == -1 {
        return;
      }
      glHandles[idx + 1] := p.fragment.shader;
      programs[idx / 2] := p.program;
    }

    /** init_shader_bank as written: calloc the arrays, then loop while the counter equals
        ArrayCount(shaders.paths), which is 0, stepping the u8 counter by 2: the body runs once, for
        row 0. */
    method InitShaderBank(probes: seq<RowProbe>) returns (status: int)
      requires |probes| == PathRows
      modifies this
      ensures Valid() && fresh(mod) && fresh(glHandles) && fresh(programs)
      ensures State() == InitRowAsWritten(Zeroed, 0, probes[0])
      ensures status == 0
    {
      Allocate();
      ArrayCountValues();
      ghost var s1 := InitRowAsWritten(Zeroed, 0, probes[0]);

      var idx: nat := 0;
      while idx == LoopBound
        invariant idx == 0 || idx == 2
        invariant Valid() && fresh(mod) && fresh(glHandles) && fresh(programs)
        invariant State() == if idx == 0 then Zeroed else s1
        decreases 2 - idx
      {
        InitRow(idx, probes[idx]);
        idx := idx + 2;
      }
      status := 0;
    }

    /** One pass of reload_shader_bank's loop body at stage slot `idx`, as written: a newer vertex
        or fragment mtime is recorded in slot idx and raises the flag; with the flag up, compile as
        init does. */
    method ReloadRow(idx: nat, p: RowProbe)
      requires Valid() && idx + 1 < StageSlots
      modifies mod, glHandles, programs
      ensures State() == ReloadRowAsWritten(old(State()), idx, p)
    {
      if !p.vertex.openOk || !p.fragment.openOk {
        return;
      }
      var shaderChanged := 0;
      if p.vertex.mtime > mod[idx] {
        mod[idx] := p.vertex.mtime;
        shaderChanged := 1;
      }
      if p.fragment.mtime > mod[idx + 1] {
        mod[idx] := p.fragment.mtime;
        shaderChanged := if shaderChanged != 0 then 3 else 2;
      }
      if shaderChanged == 0 {
        return;
      }
      if p.vertex.fileSize == -1 {
        return;
      }
      glHandles[idx] := p.vertex.shader;
      if p.fragment.fileSize == -1 {
        return;
      }
      glHandles[idx + 1] := p.fragment.shader;
      programs[idx / 2] := p.program;
    }

    /** reload_shader_bank as written: the same once-only loop over ReloadRow. */
    method ReloadShaderBank(probes: seq<RowProbe>) returns (status: int)
      requires Valid() && |probes| == PathRows
      modifies mod, glHandles, programs
      ensures State() == ReloadRowAsWritten(old(State()), 0, probes[0])
      ensures status == 0
    {
      ghost var s0 := State();
      ArrayCountValues();
      ghost var s1 := ReloadRowAsWritten(s0, 0, probes[0]);
      var idx: nat := 0;
      while idx == LoopBound
        invariant idx == 0 || idx == 2
        invariant State() == if idx == 0 then s0 else s1
        decreases 2 - idx
      {
        ReloadRow(idx, probes[idx]);
        idx := idx + 2;
      }
      status := 0;
    }

    /** The corrected loop body for row r: stage slots 2r and 2r + 1, the fragment mtime in its own
        slot, the program in slot r. */
    method ReloadRowCorrectedStep(r: nat, p: RowProbe)
      requires Valid() && r < PathRows
      modifies mod, glHandles, programs
      ensures State() == ReloadRowCorrected(old(State()), r, p)
    {
      if !p.vertex.openOk || !p.fragment.openOk {
        return;
      }
      var idx := 2 * r;
      var shaderChanged := 0;
      if p.vertex.mtime > mod[idx] {
        mod[idx] := p.vertex.mtime;
        shaderChanged := 1;
      }
      if p.fragment.mtime > mod[idx + 1] {
        mod[idx + 1] := p.fragment.mtime;
        shaderChanged := if shaderChanged != 0 then 3 else 2;
      }
      if shaderChanged == 0 {
        return;
      }
      if p.vertex.fileSize == -1 {
        return;
      }
      glHandles[idx] := p.vertex.shader;
      if p.fragment.fileSize == -1 {
        return;
      }
      glHandles[idx + 1] := p.fragment.shader;
      programs[r] := p.program;
    }

    /** reload_shader_bank corrected: every row of the table, once. */
    method ReloadShaderBankCorrected(probes: seq<RowProbe>) returns (status: int)
      requires Valid() && |probes| == PathRows
      modifies mod, glHandles, programs
      ensures State() == ReloadRowsCorrected(old(State()), probes, PathRows)
      ensures status == 0
    {
      ghost var s0 := State();
      for row := 0 to PathRows
        invariant State() == ReloadRowsCorrected(s0, probes, row)
      {
        ReloadRowCorrectedStep(row, probes[row]);
      }
      status := 0;
    }
  }
}
