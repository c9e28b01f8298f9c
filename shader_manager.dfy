/**
 * The ShaderManager of engine/src/renderer/material/shader.cpp: a map from
 * the hash of a shader's name to the shader, and the two caches of
 * compiled stages (vertex and fragment), each a map from the hash of the
 * file name to the GL shader id.
 *
 * Hash is a parameter of the manager, so two names with the same hash
 * name the same entry. Compiling a stage or linking a program is a GL
 * call: the ids Shader::Compile returns are a parameter of CompileShaders,
 * and a Shader is the description it was built from.
 */
module ShaderManagement {
  import opened Wrappers
  import opened ShaderText
  import Resources

  /** TryLoad's `std::variant<ShaderCode, path>`. */
  datatype SourceInput = SourceCode(code: string) | SourcePath(path: string)

  /** TryLoad's `std::variant<ShaderCode, std::string>` for one stage. */
  datatype StageInput = StageCode(code: string) | StageName(stage: string)

  /** What a Shader was constructed from. */
  datatype ShaderDef =
    | FromSource(source: SourceInput)
    | FromStages(vertex: StageInput, fragment: StageInput)
    | FromIds(vertexId: nat, fragmentId: nat)

  datatype Shader = Shader(def: ShaderDef, name: string)

  /** The cache of the given stage. */
  function CacheOf(vertexCache: map<nat, nat>, fragmentCache: map<nat, nat>, kind: ShaderKind): map<nat, nat>
  {
    match kind
    case Vertex => vertexCache
    case Fragment => fragmentCache
  }

  // ---------------------------------------------------------------------
  // CompileShaders
  // ---------------------------------------------------------------------

  /** The cache of one stage after the first n sources were compiled:
   *  each source of that stage is stored under the hash of its name. */
  function Registered(cache: map<nat, nat>, sources: seq<TypedSource>, ids: seq<nat>, kind: ShaderKind,
                      hash: string -> nat, n: nat): map<nat, nat>
    requires |ids| == |sources| && n <= |sources|
  {
    if n == 0 then cache
    else
      var c := Registered(cache, sources, ids, kind, hash, n - 1);
      if sources[n - 1].kind == kind then c[hash(sources[n - 1].name) := ids[n - 1]] else c
  }

  /** CompileShaders' assertion for every source: no stage is added to its
   *  cache twice, neither over an entry already there nor over an
   *  earlier source of the same stage. */
  ghost predicate CacheFree(vertexCache: map<nat, nat>, fragmentCache: map<nat, nat>, sources: seq<TypedSource>,
                            hash: string -> nat)
  {
    (forall i :: 0 <= i < |sources| ==> hash(sources[i].name) !in CacheOf(vertexCache, fragmentCache, sources[i].kind)) &&
    (forall i, j :: 0 <= i < j < |sources| && sources[i].kind == sources[j].kind ==>
       hash(sources[i].name) != hash(sources[j].name))
  }

  /** The hashes of the names of the first n sources of one stage. */
  function HashesOf(sources: seq<TypedSource>, kind: ShaderKind, hash: string -> nat, n: nat): set<nat>
    requires n <= |sources|
  {
    set i | 0 <= i < n && sources[i].kind == kind :: hash(sources[i].name)
  }

  /** The cache gains exactly the hashes of the sources of its stage, each
   *  with the id compiled from that source, and keeps its old entries. */
  lemma {:induction false} RegisteredHolds(vertexCache: map<nat, nat>, fragmentCache: map<nat, nat>,
                                           sources: seq<TypedSource>, ids: seq<nat>, kind: ShaderKind,
                                           hash: string -> nat, n: nat)
    requires |ids| == |sources| && n <= |sources| && CacheFree(vertexCache, fragmentCache, sources, hash)
    ensures var old_ := CacheOf(vertexCache, fragmentCache, kind);
            var c := Registered(old_, sources, ids, kind, hash, n);
            c.Keys == old_.Keys + HashesOf(sources, kind, hash, n) &&
            (forall k :: k in old_ ==> c[k] == old_[k]) &&
            (forall i :: 0 <= i < n && sources[i].kind == kind ==> c[hash(sources[i].name)] == ids[i])
  {
    var old_ := CacheOf(vertexCache, fragmentCache, kind);
    if n > 0 {
      RegisteredHolds(vertexCache, fragmentCache, sources, ids, kind, hash, n - 1);
      var c := Registered(old_, sources, ids, kind, hash, n - 1);
      if sources[n - 1].kind == kind {
        var h := hash(sources[n - 1].name);
        assert h !in old_;
        forall i | 0 <= i < n - 1 && sources[i].kind == kind
          ensures hash(sources[i].name) != h
        {
        }
      }
      assert HashesOf(sources, kind, hash, n) ==
             HashesOf(sources, kind, hash, n - 1) + (if sources[n - 1].kind == kind then {hash(sources[n - 1].name)} else {});
    }
  }

  /** A source of the other stage leaves a cache alone. */
  lemma {:induction false} RegisteredOtherKind(cache: map<nat, nat>, sources: seq<TypedSource>, ids: seq<nat>,
                                               kind: ShaderKind, hash: string -> nat, n: nat)
    requires |ids| == |sources| && n <= |sources|
    requires forall i :: 0 <= i < n ==> sources[i].kind != kind
    ensures Registered(cache, sources, ids, kind, hash, n) == cache
  {
    if n > 0 {
      RegisteredOtherKind(cache, sources, ids, kind, hash, n - 1);
    }
  }

  // ---------------------------------------------------------------------
  // PopulateShadersFromCache
  // ---------------------------------------------------------------------

  /** One entry of the shader manifest: the shader's name and the string
   *  properties it sets. */
  datatype ManifestItem = ManifestItem(name: string, vertex: Option<string>, fragment: Option<string>,
                                       source: Option<string>)

  /** PopulateShadersFromCache's PTGN_ERROR and assertions, as results. */
  datatype ManifestError =
    | NoStages(shader: string)
    | MissingVertex(shader: string, vertexName: string)
    | MissingFragment(shader: string, fragmentName: string)

  /** The vertex and fragment file names of an entry: its `vertex` and
   *  `fragment` properties when it has both, else its `source` for both. */
  function StageNames(item: ManifestItem): (r: Option<(string, string)>)
    ensures r.None? <==> (item.vertex.None? || item.fragment.None?) && item.source.None?
    ensures item.vertex.Some? && item.fragment.Some? ==> r == Some((item.vertex.value, item.fragment.value))
    ensures (item.vertex.None? || item.fragment.None?) && item.source.Some? ==>
              r == Some((item.source.value, item.source.value))
  {
    if item.vertex.Some? && item.fragment.Some? then Some((item.vertex.value, item.fragment.value))
    else if item.source.Some? then Some((item.source.value, item.source.value))
    else None
  }

  /** The shader an entry describes: the cached ids of its two stages. */
  function ItemShader(item: ManifestItem, vertexCache: map<nat, nat>, fragmentCache: map<nat, nat>,
                      hash: string -> nat): (r: Result<Shader, ManifestError>)
    ensures r.Ok? <==> StageNames(item).Some? && hash(StageNames(item).value.0) in vertexCache &&
                       hash(StageNames(item).value.1) in fragmentCache
    ensures r.Ok? ==> r.value == Shader(FromIds(vertexCache[hash(StageNames(item).value.0)],
                                                fragmentCache[hash(StageNames(item).value.1)]), item.name)
    ensures StageNames(item).None? ==> r == Err(NoStages(item.name))
  {
    match StageNames(item)
    case None => Err(NoStages(item.name))
    case Some((v, f)) =>
      if hash(v) !in vertexCache then Err(MissingVertex(item.name, v))
      else if hash(f) !in fragmentCache then Err(MissingFragment(item.name, f))
      else Ok(Shader(FromIds(vertexCache[hash(v)], fragmentCache[hash(f)]), item.name))
  }

  /** The loop from entry i on: each shader is emplaced under the hash of
   *  its name, until an entry fails. */
  function PopulateFrom(shaders: map<nat, Shader>, items: seq<ManifestItem>, vertexCache: map<nat, nat>,
                        fragmentCache: map<nat, nat>, hash: string -> nat, i: nat): (map<nat, Shader>, Option<ManifestError>)
    requires i <= |items|
    decreases |items| - i
  {
    if i == |items| then (shaders, None)
    else match ItemShader(items[i], vertexCache, fragmentCache, hash)
      case Err(e) => (shaders, Some(e))
      case Ok(s) =>
        PopulateFrom(Resources.Loaded(shaders, hash(items[i].name), s), items, vertexCache, fragmentCache, hash, i + 1)
  }

  /** The loop stops with an error exactly when some entry from i on
   *  fails, and then with the first failing entry's error. */
  lemma {:induction false} PopulateError(shaders: map<nat, Shader>, items: seq<ManifestItem>,
                                         vertexCache: map<nat, nat>, fragmentCache: map<nat, nat>,
                                         hash: string -> nat, i: nat)
    requires i <= |items|
    decreases |items| - i
    ensures var err := PopulateFrom(shaders, items, vertexCache, fragmentCache, hash, i).1;
            (err.None? <==> forall k :: i <= k < |items| ==> ItemShader(items[k], vertexCache, fragmentCache, hash).Ok?) &&
            (err.Some? ==> exists k :: i <= k < |items| &&
                             ItemShader(items[k], vertexCache, fragmentCache, hash) == Err(err.value) &&
                             forall j :: i <= j < k ==> ItemShader(items[j], vertexCache, fragmentCache, hash).Ok?)
  {
    if i < |items| {
      match ItemShader(items[i], vertexCache, fragmentCache, hash)
      case Err(e) =>
      case Ok(s) =>
        PopulateError(Resources.Loaded(shaders, hash(items[i].name), s), items, vertexCache, fragmentCache, hash, i + 1);
    }
  }

  /** Without an error every entry's name is loaded, the shaders already
   *  there are kept, and a name met for the first time gets its entry's
   *  shader. */
  lemma {:induction false} PopulateLoads(shaders: map<nat, Shader>, items: seq<ManifestItem>,
                                         vertexCache: map<nat, nat>, fragmentCache: map<nat, nat>,
                                         hash: string -> nat, i: nat)
    requires i <= |items|
    requires PopulateFrom(shaders, items, vertexCache, fragmentCache, hash, i).1.None?
    decreases |items| - i
    ensures forall k :: i <= k < |items| ==> ItemShader(items[k], vertexCache, fragmentCache, hash).Ok?
    ensures var r := PopulateFrom(shaders, items, vertexCache, fragmentCache, hash, i).0;
            (forall k :: i <= k < |items| ==> hash(items[k].name) in r) &&
            (forall h :: h in shaders ==> h in r && r[h] == shaders[h]) &&
            (forall k :: i <= k < |items| && hash(items[k].name) !in shaders &&
                         (forall j :: i <= j < k ==> hash(items[j].name) != hash(items[k].name)) ==>
                           r[hash(items[k].name)] == ItemShader(items[k], vertexCache, fragmentCache, hash).value)
  {
    if i < |items| {
      var s := ItemShader(items[i], vertexCache, fragmentCache, hash).value;
      var next := Resources.Loaded(shaders, hash(items[i].name), s);
      PopulateLoads(next, items, vertexCache, fragmentCache, hash, i + 1);
    }
  }

  // ---------------------------------------------------------------------
  // ShaderManager
  // ---------------------------------------------------------------------

  class ShaderManager {
    var shaders: map<nat, Shader>
    var vertexShaders: map<nat, nat>
    var fragmentShaders: map<nat, nat>
    /** Hash of a shader or file name. */
    const hash: string -> nat

    constructor (hash: string -> nat)
      ensures shaders == map[] && vertexShaders == map[] && fragmentShaders == map[] && this.hash == hash
    {
      shaders := map[];
      vertexShaders := map[];
      fragmentShaders := map[];
      this.hash := hash;
    }

    /** Has: whether a shader is stored under the name's hash. */
    function Has(name: string): (r: bool)
      reads this
      ensures r <==> hash(name) in shaders.Keys
      ensures r ==> shaders[hash(name)] in shaders.Values
    {
      hash(name) in shaders
    }

    /** The typed Has: whether the stage's cache holds the name's hash. */
    function HasStage(kind: ShaderKind, name: string): (r: bool)
      reads this
      ensures kind == Vertex ==> (r <==> hash(name) in vertexShaders)
      ensures kind == Fragment ==> (r <==> hash(name) in fragmentShaders)
    {
      hash(name) in CacheOf(vertexShaders, fragmentShaders, kind)
    }

    /** Get: the shader stored under the name's hash, which must exist. */
    function Get(name: string): (s: Shader)
      reads this
      requires Has(name)
      ensures s in shaders.Values
    {
      shaders[hash(name)]
    }

    /** The typed Get: the id in the stage's cache, which must hold the name. */
    function GetStage(kind: ShaderKind, name: string): (id: nat)
      reads this
      requires HasStage(kind, name)
      ensures kind == Vertex ==> id in vertexShaders.Values
      ensures kind == Fragment ==> id in fragmentShaders.Values
    {
      CacheOf(vertexShaders, fragmentShaders, kind)[hash(name)]
    }

    /** TryLoad from one source: a shader stored under the name's hash is
     *  kept; otherwise one built from the source is added. */
    method TryLoad(name: string, source: SourceInput) returns (s: Shader)
      modifies this`shaders
      ensures shaders == Resources.Loaded(old(shaders), hash(name), Shader(FromSource(source), name))
      ensures Has(name) && s == Get(name)
      ensures s == if old(Has(name)) then old(Get(name)) else Shader(FromSource(source), name)
    {
      shaders := Resources.Loaded(shaders, hash(name), Shader(FromSource(source), name));
      s := shaders[hash(name)];
    }

    /** TryLoad from a vertex and a fragment stage, in the same way. */
    method TryLoadStages(name: string, vertex: StageInput, fragment: StageInput) returns (s: Shader)
      modifies this`shaders
      ensures shaders == Resources.Loaded(old(shaders), hash(name), Shader(FromStages(vertex, fragment), name))
      ensures Has(name) && s == Get(name)
      ensures s == if old(Has(name)) then old(Get(name)) else Shader(FromStages(vertex, fragment), name)
    {
      shaders := Resources.Loaded(shaders, hash(name), Shader(FromStages(vertex, fragment), name));
      s := shaders[hash(name)];
    }

    /** CompileShaders: each source's compiled id goes to its stage's
     *  cache under the hash of its name. */
    method CompileShaders(sources: seq<TypedSource>, ids: seq<nat>)
      requires |ids| == |sources| && CacheFree(vertexShaders, fragmentShaders, sources, hash)
      modifies this`vertexShaders, this`fragmentShaders
      ensures vertexShaders == Registered(old(vertexShaders), sources, ids, Vertex, hash, |sources|)
      ensures fragmentShaders == Registered(old(fragmentShaders), sources, ids, Fragment, hash, |sources|)
      ensures forall i :: 0 <= i < |sources| ==>
                HasStage(sources[i].kind, sources[i].name) && GetStage(sources[i].kind, sources[i].name) == ids[i]
    {
      ghost var vc, fc := vertexShaders, fragmentShaders;
      for i := 0 to |sources|
        invariant vertexShaders == Registered(vc, sources, ids, Vertex, hash, i)
        invariant fragmentShaders == Registered(fc, sources, ids, Fragment, hash, i)
      {
        var h := hash(sources[i].name);
        if sources[i].kind == Fragment {
          fragmentShaders := fragmentShaders[h := ids[i]];
        } else {
          vertexShaders := vertexShaders[h := ids[i]];
        }
      }
      RegisteredHolds(vc, fc, sources, ids, Vertex, hash, |sources|);
      RegisteredHolds(vc, fc, sources, ids, Fragment, hash, |sources|);
    }

    /** PopulateShadersFromCache: one shader per manifest entry, built from
     *  the cached ids of its stages, until an entry fails. */
    method PopulateShadersFromCache(items: seq<ManifestItem>) returns (err: Option<ManifestError>)
      modifies this`shaders
      ensures (shaders, err) == PopulateFrom(old(shaders), items, vertexShaders, fragmentShaders, hash, 0)
    {
      var i := 0;
      while i < |items|
        invariant i <= |items|
        invariant PopulateFrom(shaders, items, vertexShaders, fragmentShaders, hash, i)
               == PopulateFrom(old(shaders), items, vertexShaders, fragmentShaders, hash, 0)
      {
        var item := items[i];
        var names := StageNames(item);
        if names.None? {
          return Some(NoStages(item.name));
        }
        var (v, f) := names.value;
        if hash(v) !in vertexShaders {
          return Some(MissingVertex(item.name, v));
        }
        if hash(f) !in fragmentShaders {
          return Some(MissingFragment(item.name, f));
        }
        var shader := Shader(FromIds(vertexShaders[hash(v)], fragmentShaders[hash(f)]), item.name);
        shaders := Resources.Loaded(shaders, hash(item.name), shader);
        i := i + 1;
      }
      return None;
    }
  }
}
