/**
 * The compiled-program cache of src/core/RenderSystem.cpp: built from the
 * renderer configuration's ordered `Program` entries, each a name and its
 * shader stages.  The program factory is a parameter; it yields a program
 * handle or nothing.
 */
module ShaderCache {
  import opened Wrappers

  /** One `Shader` entry of a program: its file path and stage type, as written. */
  datatype ShaderStage = ShaderStage(path: string, kind: string)

  /** One `Program` entry: its name and its shader entries in document order. */
  datatype ProgramDesc = ProgramDesc(name: string, shaders: seq<ShaderStage>)

  /** A linked GL program, identified by its id. */
  type ProgramHandle = nat

  /** `GLShaderProgramFactory::createShaderProgram`, whose code is not part of this model. */
  type Factory = (string, seq<ShaderStage>) -> Option<ProgramHandle>

  type Cache = map<string, ProgramHandle>

  predicate Compiles(program: ProgramDesc, factory: Factory)
  {
    factory(program.name, program.shaders).Some?
  }

  /**
   * The cache after `compileShaders`: it starts empty and every program the
   * factory builds is added with `try_emplace`, so a later program with a
   * name already present changes nothing.
   */
  function BuiltCache(programs: seq<ProgramDesc>, factory: Factory): Cache
    decreases |programs|
  {
    if programs == [] then map[]
    else
      var cache := BuiltCache(programs[..|programs| - 1], factory);
      var last := programs[|programs| - 1];
      match factory(last.name, last.shaders)
      case None => cache
      case Some(handle) => if last.name in cache then cache else cache[last.name := handle]
  }

  /** A name is in the cache exactly when some program of that name compiled. */
  lemma {:induction false} BuiltCacheKeys(programs: seq<ProgramDesc>, factory: Factory, name: string)
    ensures name in BuiltCache(programs, factory) <==>
      exists i :: 0 <= i < |programs| && programs[i].name == name && Compiles(programs[i], factory)
    decreases |programs|
  {
    if programs != [] {
      var init := programs[..|programs| - 1];
      BuiltCacheKeys(init, factory, name);
      if name in BuiltCache(init, factory) {
        var i :| 0 <= i < |init| && init[i].name == name && Compiles(init[i], factory);
        assert programs[i] == init[i];
      }
      if exists i :: 0 <= i < |programs| && programs[i].name == name && Compiles(programs[i], factory) {
        var i :| 0 <= i < |programs| && programs[i].name == name && Compiles(programs[i], factory);
        if i < |init| {
          assert init[i] == programs[i];
        }
      }
    }
  }

  /**
   * Among programs sharing a name, the first one that compiles provides the
   * cached handle.
   */
  lemma {:induction false} BuiltCacheFirstWins(programs: seq<ProgramDesc>, factory: Factory, i: nat)
    requires i < |programs| && Compiles(programs[i], factory)
    requires forall j :: 0 <= j < i && programs[j].name == programs[i].name ==> !Compiles(programs[j], factory)
    ensures programs[i].name in BuiltCache(programs, factory)
    ensures BuiltCache(programs, factory)[programs[i].name] == factory(programs[i].name, programs[i].shaders).value
    decreases |programs|
  {
    var init := programs[..|programs| - 1];
    if i < |init| {
      assert init[i] == programs[i];
      BuiltCacheFirstWins(init, factory, i);
    } else {
      BuiltCacheKeys(init, factory, programs[i].name);
    }
  }

  /**
   * Names looked up one after the other with `unordered_map::at`: the first
   * missing name is the error (the source throws `std::out_of_range`).
   */
  function LookupAll(cache: Cache, names: seq<string>): (r: Result<seq<ProgramHandle>, string>)
    ensures r.Success? <==> forall k :: 0 <= k < |names| ==> names[k] in cache
    ensures r.Success? ==> |r.value| == |names| && forall k :: 0 <= k < |names| ==> r.value[k] == cache[names[k]]
    ensures r.Failure? ==> exists k :: (0 <= k < |names| && names[k] == r.error && r.error !in cache
      && forall j :: 0 <= j < k ==> names[j] in cache)
    decreases |names|
  {
    if names == [] then Success([])
    else if names[0] !in cache then Failure(names[0])
    else
      match LookupAll(cache, names[1..])
      case Failure(missing) =>
        ghost var k :| 0 <= k < |names[1..]| && names[1..][k] == missing && missing !in cache
          && forall j :: 0 <= j < k ==> names[1..][j] in cache;
        assert names[k + 1] == missing;
        Failure(missing)
      case Success(rest) => Success([cache[names[0]]] + rest)
  }

  /**
   * Looking names up in a freshly built cache succeeds exactly when, for
   * every name, some program of that name compiled.
   */
  lemma LookupBuiltSucceeds(programs: seq<ProgramDesc>, factory: Factory, names: seq<string>)
    ensures LookupAll(BuiltCache(programs, factory), names).Success? <==>
      forall k :: 0 <= k < |names| ==>
        exists i :: 0 <= i < |programs| && programs[i].name == names[k] && Compiles(programs[i], factory)
  {
    forall k | 0 <= k < |names| {
      BuiltCacheKeys(programs, factory, names[k]);
    }
  }
}
