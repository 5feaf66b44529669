/**
 * Shader discovery of the renderer (src/engine/renderer/context/shader.rs):
 * the regular files of a directory walk, each classified by its file name
 * `stem.vert.ext` / `stem.frag.ext` and turned into a shader module.  The walk
 * itself and the SPIR-V reading are I/O; the walk is an input here.
 */
module Shader {
  import opened Vk
  import opened Gpu

  const ENTRY_NAME: string := "main"

  // ---------------------------------------------------------------------------
  // str::split('.')

  /**
   * `str::split` on one character: the pieces between separators, so an empty
   * string gives one empty piece and `k` separators give `k + 1` pieces.
   */
  function Split(s: string, sep: char): (parts: seq<string>)
    ensures |parts| >= 1
    ensures forall i :: 0 <= i < |parts| ==> sep !in parts[i]
  {
    if s == [] then [""]
    else
      var rest := Split(s[1..], sep);
      if s[0] == sep then [""] + rest
      else
        assert sep !in [s[0]] + rest[0];
        [[s[0]] + rest[0]] + rest[1..]
  }

  /** The inverse of `Split`: the pieces with the separator between them. */
  function Join(parts: seq<string>, sep: char): string
    requires |parts| >= 1
  {
    if |parts| == 1 then parts[0] else parts[0] + [sep] + Join(parts[1..], sep)
  }

  lemma {:induction false} JoinSplit(s: string, sep: char)
    ensures Join(Split(s, sep), sep) == s
  {
    if s != [] {
      var rest := Split(s[1..], sep);
      JoinSplit(s[1..], sep);
      if s[0] == sep {
        assert Split(s, sep)[1..] == rest;
      } else {
        var parts := Split(s, sep);
        if |rest| == 1 {
          assert parts == [[s[0]] + rest[0]];
        } else {
          assert parts[1..] == rest[1..];
          assert Join(rest, sep) == rest[0] + [sep] + Join(rest[1..], sep);
        }
      }
    }
  }

  lemma {:induction false} SplitJoin(parts: seq<string>, sep: char)
    requires |parts| >= 1
    requires forall i :: 0 <= i < |parts| ==> sep !in parts[i]
    ensures Split(Join(parts, sep), sep) == parts
  {
    if |parts| == 1 {
      SplitPiece(parts[0], sep);
    } else {
      SplitJoin(parts[1..], sep);
      SplitPrefix(parts[0], Join(parts[1..], sep), sep);
      assert [parts[0]] + parts[1..] == parts;
    }
  }

  /** A piece without separators splits to itself. */
  lemma {:induction false} SplitPiece(p: string, sep: char)
    requires sep !in p
    ensures Split(p, sep) == [p]
  {
    if p != [] {
      SplitPiece(p[1..], sep);
      assert [p[0]] + p[1..] == p;
    }
  }

  /** Splitting `p.rest` for a separator-free `p` yields `p` and then the pieces of `rest`. */
  lemma {:induction false} SplitPrefix(p: string, rest: string, sep: char)
    requires sep !in p
    ensures Split(p + [sep] + rest, sep) == [p] + Split(rest, sep)
  {
    var s := p + [sep] + rest;
    if p == [] {
      assert s[0] == sep && s[1..] == rest;
    } else {
      SplitPrefix(p[1..], rest, sep);
      assert s[0] == p[0] && s[1..] == p[1..] + [sep] + rest;
      assert [p[0]] + p[1..] == p;
    }
  }

  // ---------------------------------------------------------------------------
  // Classification

  /**
   * The slice pattern `[_, "vert", _]` / `[_, "frag", _]` on the dot-separated
   * pieces of a file name; `None` is the `panic!("Unknown shader type")`.
   */
  function Classify(fileName: string): (r: Option<ShaderStage>)
    ensures r == Some(VertexStage) <==> |Split(fileName, '.')| == 3 && Split(fileName, '.')[1] == "vert"
    ensures r == Some(FragmentStage) <==> |Split(fileName, '.')| == 3 && Split(fileName, '.')[1] == "frag"
  {
    var parts := Split(fileName, '.');
    if |parts| == 3 && parts[1] == "vert" then Some(VertexStage)
    else if |parts| == 3 && parts[1] == "frag" then Some(FragmentStage)
    else None
  }

  /** `stem.vert.ext` is a vertex shader and `stem.frag.ext` a fragment shader, for dot-free stem and extension. */
  lemma ClassifyNamed(stem: string, ext: string)
    requires '.' !in stem && '.' !in ext
    ensures Classify(stem + ".vert." + ext) == Some(VertexStage)
    ensures Classify(stem + ".frag." + ext) == Some(FragmentStage)
  {
    assert ".vert." == "." + "vert" + "." && ".frag." == "." + "frag" + ".";
    assert stem + ".vert." + ext == stem + "." + "vert" + "." + ext;
    assert stem + ".frag." + ext == stem + "." + "frag" + "." + ext;
    JoinThree(stem, "vert", ext);
    SplitJoin([stem, "vert", ext], '.');
    JoinThree(stem, "frag", ext);
    SplitJoin([stem, "frag", ext], '.');
  }

  lemma JoinThree(a: string, b: string, c: string)
    ensures Join([a, b, c], '.') == a + "." + b + "." + c
  {
    var ps := [a, b, c];
    assert ps[1..] == [b, c] && ps[1..][1..] == [c];
    assert Join([b, c], '.') == b + "." + c;
  }

  /** Four pieces do not match the three-piece pattern, whatever the middle ones say. */
  lemma FourPiecesPanic()
    ensures Classify("a.b.vert.spv") == None
    ensures Classify("triangle.vert") == None
  {
    SplitJoin(["a", "b", "vert", "spv"], '.');
    assert Join(["a", "b", "vert", "spv"], '.') == "a.b.vert.spv";
    SplitJoin(["triangle", "vert"], '.');
    assert Join(["triangle", "vert"], '.') == "triangle.vert";
  }

  // ---------------------------------------------------------------------------
  // The walk

  /** One item the directory walk yields. */
  datatype WalkEntry = WalkError | Directory(dirName: string) | RegularFile(fileName: string)

  /** `filter_map` keeping the regular files, in walk order. */
  function ShaderFiles(walk: seq<WalkEntry>): (files: seq<string>)
    ensures |files| <= |walk|
    ensures forall f :: f in files ==> RegularFile(f) in walk
  {
    if walk == [] then []
    else
      var rest := ShaderFiles(walk[1..]);
      assert forall f :: f in rest ==> RegularFile(f) in walk by {
        forall f | f in rest ensures RegularFile(f) in walk {
          assert RegularFile(f) in walk[1..];
        }
      }
      if walk[0].RegularFile? then [walk[0].fileName] + rest else rest
  }

  /** The filter distributes over concatenation: the order of the walk is kept. */
  lemma {:induction false} ShaderFilesAppend(a: seq<WalkEntry>, b: seq<WalkEntry>)
    ensures ShaderFiles(a + b) == ShaderFiles(a) + ShaderFiles(b)
  {
    if a == [] {
      assert a + b == b;
    } else {
      assert (a + b)[0] == a[0] && (a + b)[1..] == a[1..] + b;
      ShaderFilesAppend(a[1..], b);
    }
  }

  /** Every regular file of the walk is kept; errors and directories are not. */
  lemma ShaderFilesSingle(e: WalkEntry)
    ensures ShaderFiles([e]) == if e.RegularFile? then [e.fileName] else []
  {
    assert [e][1..] == [];
  }

  // ---------------------------------------------------------------------------
  // Module creation

  /** The stage of every file, or `None` when some file name does not classify. */
  function Stages(files: seq<string>): (r: Option<seq<ShaderStage>>)
    ensures r.Some? ==> |r.value| == |files|
  {
    if files == [] then Some([])
    else
      var n := |files| - 1;
      var prefix := Stages(files[..n]);
      var last := Classify(files[n]);
      if prefix.Some? && last.Some? then Some(prefix.value + [last.value]) else None
  }

  /** `Stages` succeeds exactly when every file classifies, and then lists their stages in file order. */
  lemma {:induction false} StagesSpec(files: seq<string>)
    ensures Stages(files).Some? <==> forall i :: 0 <= i < |files| ==> Classify(files[i]).Some?
    ensures Stages(files).Some? ==> forall i :: 0 <= i < |files| ==> Stages(files).value[i] == Classify(files[i]).value
  {
    if files != [] {
      var n := |files| - 1;
      StagesSpec(files[..n]);
      assert forall i :: 0 <= i < n ==> files[..n][i] == files[i];
    }
  }

  /** A file that does not classify makes every longer list fail too. */
  lemma {:induction false} StagesNonePrefix(files: seq<string>, k: nat)
    requires k <= |files| && Stages(files[..k]).None?
    ensures Stages(files).None?
  {
    if k < |files| {
      var n := |files| - 1;
      assert files[..n][..k] == files[..k];
      StagesNonePrefix(files[..n], k);
    } else {
      assert files[..k] == files;
    }
  }

  /** A file that does not classify makes the whole list fail. */
  lemma StagesFailAt(files: seq<string>, i: nat)
    requires i < |files| && Classify(files[i]).None?
    ensures Stages(files).None?
  {
    PrefixSnoc(files, i);
    StagesSnoc(files[..i], files[i]);
    StagesNonePrefix(files, i + 1);
  }

  lemma StagesSnoc(files: seq<string>, file: string)
    ensures Stages(files + [file]) ==
            if Stages(files).Some? && Classify(file).Some? then Some(Stages(files).value + [Classify(file).value]) else None
  {
    assert (files + [file])[..|files|] == files;
  }

  /** A module paired with its stage, as `(vk::ShaderModule, vk::ShaderStageFlags)`. */
  datatype StagedModule = StagedModule(shaderModule: Handle, stage: ShaderStage)

  /** The modules of a successful creation: handle `first + i`, with stage i. */
  function StagedModules(stages: seq<ShaderStage>, first: Handle): (ms: seq<StagedModule>)
    ensures |ms| == |stages|
  {
    if stages == [] then []
    else
      var n := |stages| - 1;
      StagedModules(stages[..n], first) + [StagedModule(first + n, stages[n])]
  }

  lemma {:induction false} StagedModulesAt(stages: seq<ShaderStage>, first: Handle, i: nat)
    requires i < |stages|
    ensures StagedModules(stages, first)[i] == StagedModule(first + i, stages[i])
  {
    var n := |stages| - 1;
    if i < n {
      StagedModulesAt(stages[..n], first, i);
    }
  }

  lemma StagedModulesSnoc(stages: seq<ShaderStage>, stage: ShaderStage, first: Handle)
    ensures StagedModules(stages + [stage], first) == StagedModules(stages, first) + [StagedModule(first + |stages|, stage)]
  {
    assert (stages + [stage])[..|stages|] == stages;
  }

  /** One `create_shader_module` per file, module `first + i` made from file i. */
  function ModuleEvents(files: seq<string>, first: Handle): (es: seq<Event>)
    ensures |es| == |files|
  {
    if files == [] then []
    else
      var n := |files| - 1;
      ModuleEvents(files[..n], first) + [Event.CreateShaderModule(first + n, files[n])]
  }

  lemma ModuleEventsSnoc(files: seq<string>, file: string, first: Handle)
    ensures ModuleEvents(files + [file], first) == ModuleEvents(files, first) + [Event.CreateShaderModule(first + |files|, file)]
  {
    assert (files + [file])[..|files|] == files;
  }

  lemma {:induction false} ModuleEventsAt(files: seq<string>, first: Handle, i: nat)
    requires i < |files|
    ensures ModuleEvents(files, first)[i] == Event.CreateShaderModule(first + i, files[i])
  {
    var n := |files| - 1;
    if i < n {
      ModuleEventsAt(files[..n], first, i);
    }
  }

  /** What one more created module adds to the three views of the map so far. */
  lemma CreateModulesStep(files: seq<string>, i: nat, stages: seq<ShaderStage>, first: Handle, m: StagedModule)
    requires i < |files| && Stages(files[..i]) == Some(stages)
    requires Classify(files[i]).Some? && m == StagedModule(first + i, Classify(files[i]).value)
    ensures Stages(files[..i + 1]) == Some(stages + [m.stage])
    ensures StagedModules(stages + [m.stage], first) == StagedModules(stages, first) + [m]
    ensures ModuleEvents(files[..i + 1], first) == ModuleEvents(files[..i], first) + [Event.CreateShaderModule(m.shaderModule, files[i])]
  {
    PrefixSnoc(files, i);
    StagesSnoc(files[..i], files[i]);
    StagedModulesSnoc(stages, m.stage, first);
    ModuleEventsSnoc(files[..i], files[i], first);
  }

  /** The fault is the failure of module `k` for some `k < n`. */
  predicate ModuleFailsBefore(fault: Option<Fault>, n: nat) {
    fault.Some? && fault.value.ShaderModuleFails? && fault.value.index < n
  }

  /**
   * One step of the lazy map: classify the file (an unknown name panics),
   * then create its module (`unwrap`, so a failure panics too).
   */
  method CreateModule(driver: Driver, file: string, index: nat, fault: Option<Fault>) returns (r: Outcome<StagedModule>)
    requires driver.Valid()
    modifies driver`log, driver`next
    ensures driver.Valid()
    ensures !r.Err?
    ensures r.Ok? <==> Classify(file).Some? && !(ModuleFailsBefore(fault, index + 1) && fault.value.index == index)
    ensures r.Panic? ==> driver.log == old(driver.log) && driver.next == old(driver.next)
    ensures r.Ok? ==>
              && r.value == StagedModule(old(driver.next), Classify(file).value)
              && driver.next == old(driver.next) + 1
              && driver.log == old(driver.log) + [Event.CreateShaderModule(old(driver.next), file)]
  {
    var stage := Classify(file);
    if stage.None? {
      return Panic;
    }
    if ModuleFailsBefore(fault, index + 1) && fault.value.index == index {
      return Panic;
    }
    var m := driver.Fresh();
    driver.Record(Event.CreateShaderModule(m, file));
    r := Ok(StagedModule(m, stage.value));
  }

  /**
   * The map stops at file k: every file before it classifies and has its
   * module created, and file k does not classify or its module fails.
   */
  predicate PanicsAt(files: seq<string>, fault: Option<Fault>, k: nat) {
    && k < |files|
    && Stages(files[..k]).Some? && !ModuleFailsBefore(fault, k)
    && (Classify(files[k]).None? || fault == Some(ShaderModuleFails(k)))
  }

  /** The panic point is unique. */
  lemma PanicPointUnique(files: seq<string>, fault: Option<Fault>, k: nat, l: nat)
    requires PanicsAt(files, fault, k) && PanicsAt(files, fault, l)
    ensures k == l
  {
    if k < l {
      StagesPrefixClassify(files, l, k);
    } else if l < k {
      StagesPrefixClassify(files, k, l);
    }
  }

  /** In a prefix whose stages exist, every file classifies. */
  lemma StagesPrefixClassify(files: seq<string>, n: nat, k: nat)
    requires k < n <= |files| && Stages(files[..n]).Some?
    ensures Classify(files[k]).Some?
  {
    StagesSpec(files[..n]);
    assert files[..n][k] == files[k];
  }

  /**
   * The lazy map/collect over the files: the first file that does not
   * classify, or whose module cannot be created, panics, after the modules
   * of the files before it were created.
   */
  method CreateModules(driver: Driver, files: seq<string>, fault: Option<Fault>)
    returns (r: Outcome<seq<StagedModule>>)
    requires driver.Valid()
    modifies driver`log, driver`next
    ensures driver.Valid()
    ensures !r.Err?
    ensures r.Ok? <==> Stages(files).Some? && !ModuleFailsBefore(fault, |files|)
    ensures r.Ok? ==>
              && r.value == StagedModules(Stages(files).value, old(driver.next))
              && driver.log == old(driver.log) + ModuleEvents(files, old(driver.next))
    ensures r.Panic? ==> exists k: nat :: PanicsAt(files, fault, k) &&
                                     driver.log == old(driver.log) + ModuleEvents(files[..k], old(driver.next))
  {
    var modules: seq<StagedModule> := [];
    ghost var stages: seq<ShaderStage> := [];
    var i := 0;
    while i < |files|
      invariant 0 <= i <= |files|
      invariant driver.Valid()
      invariant driver.next == old(driver.next) + i
      invariant Stages(files[..i]) == Some(stages)
      invariant modules == StagedModules(stages, old(driver.next))
      invariant !ModuleFailsBefore(fault, i)
      invariant driver.log == old(driver.log) + ModuleEvents(files[..i], old(driver.next))
    {
      var m := CreateModule(driver, files[i], i, fault);
      if m.Panic? {
        if Classify(files[i]).None? {
          StagesFailAt(files, i);
        }
        assert PanicsAt(files, fault, i);
        return Panic;
      }
      CreateModulesStep(files, i, stages, old(driver.next), m.value);
      AppendAssoc(old(driver.log), ModuleEvents(files[..i], old(driver.next)), [Event.CreateShaderModule(m.value.shaderModule, files[i])]);
      modules := modules + [m.value];
      stages := stages + [m.value.stage];
      i := i + 1;
    }
    assert files[..i] == files;
    r := Ok(modules);
  }

  /**
   * `ShaderHandle::new`: one module per regular file of the walk, in walk
   * order; the `assert!` panics when there is none.
   */
  method New(driver: Driver, walk: seq<WalkEntry>, fault: Option<Fault>) returns (r: Outcome<seq<StagedModule>>)
    requires driver.Valid()
    modifies driver`log, driver`next
    ensures driver.Valid()
    ensures !r.Err?
    ensures ShaderFiles(walk) == [] ==> r.Panic? && driver.log == old(driver.log)
    ensures r.Ok? <==> ShaderFiles(walk) != [] && Stages(ShaderFiles(walk)).Some? &&
                       !ModuleFailsBefore(fault, |ShaderFiles(walk)|)
    ensures r.Panic? && ShaderFiles(walk) != [] ==>
              exists k: nat :: PanicsAt(ShaderFiles(walk), fault, k) &&
                               driver.log == old(driver.log) + ModuleEvents(ShaderFiles(walk)[..k], old(driver.next))
    ensures r.Ok? ==>
              var files := ShaderFiles(walk);
              && files != []
              && r.value == StagedModules(Stages(files).value, old(driver.next))
              && driver.log == old(driver.log) + ModuleEvents(files, old(driver.next))
  {
    var files := ShaderFiles(walk);
    r := CreateModules(driver, files, fault);
    if r.Ok? && |r.value| == 0 {
      r := Panic;
    }
  }
}
