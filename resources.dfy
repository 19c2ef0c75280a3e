/**
 * The model cache of src/resourceManager.cpp: a string-keyed map from names
 * to shared models.  `GetModel` looks a model up by its path but, on a miss,
 * stores the freshly loaded model under its name; `CacheModel` stores a copy
 * under a name, replacing an existing entry only when asked to.
 */
module Resources {
  import opened Wrappers
  import opened ObjIndexing
  import opened Assets
  import opened Models

  type Cache = map<string, Model>

  /**
   * The cache and result after `GetModel(name, path)`; `loaded` is the
   * outcome of constructing `Model(path, name)`, which the source evaluates
   * before `try_emplace` whether or not the name is already a key.
   */
  function GetModelStep(cache: Cache, name: string, path: string, loaded: Result<Model, string>)
    : (Result<Model, string>, Cache)
  {
    if path in cache then (Success(cache[path]), cache)
    else if loaded.Failure? then (Failure(loaded.error), cache)
    else if name in cache then (Success(cache[name]), cache)
    else (Success(loaded.value), cache[name := loaded.value])
  }

  /** The cache and result after `CacheModel(name, model, overwrite)`; `copy` is the new shared copy. */
  function CacheModelStep(cache: Cache, name: string, copy: Model, overwrite: bool): (Model, Cache)
  {
    if overwrite || name !in cache then (copy, cache[name := copy])
    else (cache[name], cache)
  }

  /** A call to one of the two members, with the outcome of whatever it constructs. */
  datatype CacheCall =
    | Get(name: string, path: string, loaded: Result<Model, string>)
    | Put(name: string, copy: Model, overwrite: bool)

  function Apply(cache: Cache, call: CacheCall): Cache
  {
    match call
    case Get(name, path, loaded) => GetModelStep(cache, name, path, loaded).1
    case Put(name, copy, overwrite) => CacheModelStep(cache, name, copy, overwrite).1
  }

  /** The cache after a sequence of calls, in order. */
  function Run(cache: Cache, calls: seq<CacheCall>): Cache
    decreases |calls|
  {
    if calls == [] then cache else Run(Apply(cache, calls[0]), calls[1..])
  }

  predicate NoOverwrite(call: CacheCall)
  {
    call.Get? || !call.overwrite
  }

  class ResourceManager {
    var cache: Cache

    constructor ()
      ensures cache == map[]
    {
      cache := map[];
    }

    /**
     * `GetModel(name, path)`; `parse` is what the OBJ reader yields for
     * `path`.  The ghost `loaded` is the outcome of the model construction
     * (left as a failure when the path is a key and nothing is constructed).
     */
    method GetModel(name: string, path: string, parse: ObjParse) returns (r: Result<Model, string>, ghost loaded: Result<Model, string>)
      requires WellIndexed(parse)
      modifies this
      ensures (r, cache) == GetModelStep(old(cache), name, path, loaded)
      ensures path in old(cache) ==> r == Success(old(cache)[path]) && cache == old(cache)
      ensures path !in old(cache) ==> (loaded.Failure? <==> parse.ParseFailed?)
      ensures path !in old(cache) && parse.ParseFailed? ==> r == Failure(LoadError(parse)) && cache == old(cache)
      ensures path !in old(cache) && loaded.Success? ==>
        fresh(loaded.value) && loaded.value.name == name && loaded.value.path == path
        && loaded.value.meshes == CumulativeMeshes(parse.attributes, parse.shapes)
    {
      if path in cache {
        loaded := Failure("");
        return Success(cache[path]), loaded;
      }
      var made := Load(path, name, parse);
      loaded := made;
      if made.Failure? {
        return Failure(made.error), loaded;
      }
      if name !in cache {
        cache := cache[name := made.value];
      }
      r := Success(cache[name]);
    }

    /** `CacheModel(name, model, overwrite)`: the stored entry is a fresh copy of `model`. */
    method CacheModel(name: string, model: Model, overwrite: bool) returns (r: Model)
      modifies this
      ensures overwrite || name !in old(cache) ==>
        fresh(r) && cache == old(cache)[name := r]
        && r.name == model.name && r.path == model.path && r.meshes == model.meshes && r.selected == model.selected
      ensures !overwrite && name in old(cache) ==> r == old(cache)[name] && cache == old(cache)
    {
      var copy := new Model.Copy(model);
      if overwrite || name !in cache {
        cache := cache[name := copy];
      }
      r := cache[name];
    }
  }

  /** A hit returns the entry stored under the path and leaves the cache as it is. */
  lemma GetModelHit(cache: Cache, name: string, path: string, loaded: Result<Model, string>)
    requires path in cache
    ensures GetModelStep(cache, name, path, loaded) == (Success(cache[path]), cache)
  {
  }

  /**
   * On a miss with a successful load the new entry goes under the name; the
   * path becomes a key only when it equals the name, and an existing name
   * keeps its entry, which is what is returned.
   */
  lemma GetModelMissStoresUnderName(cache: Cache, name: string, path: string, m: Model)
    requires path !in cache
    ensures var (r, after) := GetModelStep(cache, name, path, Success(m));
      && name in after && r == Success(after[name])
      && (path in after <==> path == name)
      && (name in cache ==> after == cache && r == Success(cache[name]))
      && (name !in cache ==> after == cache[name := m])
  {
  }

  /**
   * With a name different from the path, the path never becomes a key, so
   * every later call loads the file again and hands back the entry stored
   * by the first successful call (or fails when that load fails).
   */
  lemma GetModelRepeats(cache: Cache, name: string, path: string, first: Model, later: Result<Model, string>)
    requires path !in cache && name != path
    ensures var (r1, c1) := GetModelStep(cache, name, path, Success(first));
      var (r2, c2) := GetModelStep(c1, name, path, later);
      && path !in c1
      && c2 == c1
      && (later.Success? ==> r2 == r1)
      && (later.Failure? ==> r2 == Failure(later.error))
  {
  }

  /** `CacheModel` with overwrite stores the copy and leaves every other key as it was. */
  lemma CacheModelOverwrite(cache: Cache, name: string, copy: Model)
    ensures var (r, after) := CacheModelStep(cache, name, copy, true);
      && r == copy && after.Keys == cache.Keys + {name} && after[name] == copy
      && (forall k :: k in cache && k != name ==> after[k] == cache[k])
  {
  }

  /** Without overwrite an existing name keeps its entry, which is returned. */
  lemma CacheModelKeep(cache: Cache, name: string, copy: Model)
    ensures var (r, after) := CacheModelStep(cache, name, copy, false);
      && (name in cache ==> r == cache[name] && after == cache)
      && (name !in cache ==> r == copy && after == cache[name := copy])
  {
  }

  /** One call never removes a key, and only an overwriting `CacheModel` replaces an entry. */
  lemma ApplyKeeps(cache: Cache, call: CacheCall)
    ensures cache.Keys <= Apply(cache, call).Keys
    ensures NoOverwrite(call) ==> forall k :: k in cache ==> Apply(cache, call)[k] == cache[k]
  {
  }

  /** Over any sequence of calls the cache only grows. */
  lemma {:induction false} RunOnlyGrows(cache: Cache, calls: seq<CacheCall>)
    ensures cache.Keys <= Run(cache, calls).Keys
    decreases |calls|
  {
    if calls != [] {
      ApplyKeeps(cache, calls[0]);
      RunOnlyGrows(Apply(cache, calls[0]), calls[1..]);
    }
  }

  /** Without overwriting calls, an entry once stored is the one every later lookup finds. */
  lemma {:induction false} RunKeepsEntries(cache: Cache, calls: seq<CacheCall>)
    requires forall i :: 0 <= i < |calls| ==> NoOverwrite(calls[i])
    ensures forall k :: k in cache ==> k in Run(cache, calls) && Run(cache, calls)[k] == cache[k]
    decreases |calls|
  {
    if calls != [] {
      ApplyKeeps(cache, calls[0]);
      RunKeepsEntries(Apply(cache, calls[0]), calls[1..]);
    }
  }
}
