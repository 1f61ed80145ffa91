/** The model packaging registry (shared/services/model_packaging.py): package
    records with their defaults, a registry keyed by model id that validates and
    stores packages, filters them, preloads them onto a node and derives a loading
    configuration for a node.

    The registry file, the model cache on disk and the downloads are not modelled:
    which models are already cached and which downloads succeed are parameters, the
    checksum of a local file is a parameter, and the clock is a parameter. */
module ModelPackaging {
  import opened Common

  datatype ModelSource = HuggingFace | Local | RemoteUrl | S3 | Gcs | Azure

  /** A value of a loading configuration or of a package's `loading_params`. */
  datatype ParamValue = Text(text: string) | Flag(flag: bool) | Count(count: int)

  type Params = map<string, ParamValue>

  datatype ModelPackage = ModelPackage(
    modelId: string,
    name: string,
    version: string,
    source: ModelSource,
    sourcePath: string,
    sizeGb: real,
    ramRequiredGb: real,
    gpuMemoryRequiredGb: real,
    gpuCompatible: bool,
    cpuCompatible: bool,
    quantizationOptions: seq<string>,
    supportedPrecisions: seq<string>,
    contextLength: int,
    checksum: Option<string>,
    createdAt: int,
    updatedAt: int,
    tags: map<string, string>,
    preloadConfig: Params,
    loadingParams: Params)

  /** The arguments of the dataclass; the fields that default to None are options. */
  datatype PackageArgs = PackageArgs(
    modelId: string,
    name: string,
    version: string,
    source: ModelSource,
    sourcePath: string,
    sizeGb: real,
    ramRequiredGb: real,
    gpuMemoryRequiredGb: real,
    gpuCompatible: bool,
    cpuCompatible: bool,
    quantizationOptions: Option<seq<string>>,
    supportedPrecisions: Option<seq<string>>,
    contextLength: int,
    checksum: Option<string>,
    createdAt: Option<int>,
    updatedAt: Option<int>,
    tags: Option<map<string, string>>,
    preloadConfig: Option<Params>,
    loadingParams: Option<Params>)

  function OrElse<T>(o: Option<T>, default: T): T
  {
    if o.Some? then o.value else default
  }

  /** `__post_init__`: a missing list or dictionary becomes empty, the precisions
      default to float16 and float32, a missing creation time is `now`, and a
      missing update time is the creation time. */
  function PostInit(a: PackageArgs, now: int): (p: ModelPackage)
    ensures a.quantizationOptions.None? ==> p.quantizationOptions == []
    ensures a.supportedPrecisions.None? ==> p.supportedPrecisions == ["float16", "float32"]
    ensures a.tags.None? ==> p.tags == map[]
    ensures a.preloadConfig.None? ==> p.preloadConfig == map[]
    ensures a.loadingParams.None? ==> p.loadingParams == map[]
    ensures a.createdAt.None? ==> p.createdAt == now
    ensures a.updatedAt.None? ==> p.updatedAt == p.createdAt
    ensures p.modelId == a.modelId && p.sourcePath == a.sourcePath && p.source == a.source
  {
    var created := OrElse(a.createdAt, now);
    ModelPackage(a.modelId, a.name, a.version, a.source, a.sourcePath, a.sizeGb,
                 a.ramRequiredGb, a.gpuMemoryRequiredGb, a.gpuCompatible, a.cpuCompatible,
                 OrElse(a.quantizationOptions, []), OrElse(a.supportedPrecisions, ["float16", "float32"]),
                 a.contextLength, a.checksum, created, OrElse(a.updatedAt, created),
                 OrElse(a.tags, map[]), OrElse(a.preloadConfig, map[]), OrElse(a.loadingParams, map[]))
  }

  /** The arguments that spell out every field of a package. */
  function ArgsOf(p: ModelPackage): PackageArgs
  {
    PackageArgs(p.modelId, p.name, p.version, p.source, p.sourcePath, p.sizeGb,
                p.ramRequiredGb, p.gpuMemoryRequiredGb, p.gpuCompatible, p.cpuCompatible,
                Some(p.quantizationOptions), Some(p.supportedPrecisions), p.contextLength, p.checksum,
                Some(p.createdAt), Some(p.updatedAt), Some(p.tags), Some(p.preloadConfig), Some(p.loadingParams))
  }

  /** Defaults fill only what is missing: a package given in full comes back as it
      was, whatever the clock says. */
  lemma PostInitKeepsGiven(p: ModelPackage, now: int)
    ensures PostInit(ArgsOf(p), now) == p
  {
  }

  /** `_validate_package`: both the model id and the source path are non-empty. */
  predicate ValidPackage(p: ModelPackage)
  {
    p.modelId != "" && p.sourcePath != ""
  }

  /** What `register_package` stores: the checksum of the local file when a local
      package has none (or an empty one), and the registration time as update time. */
  function Registered(p: ModelPackage, fileChecksum: string, now: int): (r: ModelPackage)
    ensures r.updatedAt == now
    ensures (p.checksum.None? || p.checksum.value == "") && p.source == Local ==> r.checksum == Some(fileChecksum)
    ensures !((p.checksum.None? || p.checksum.value == "") && p.source == Local) ==> r.checksum == p.checksum
    ensures r.(updatedAt := p.updatedAt, checksum := p.checksum) == p
  {
    var stamped := p.(updatedAt := now);
    if (p.checksum.None? || p.checksum.value == "") && p.source == Local then stamped.(checksum := Some(fileChecksum))
    else stamped
  }

  /** The three optional filters of `list_packages`. An empty tag dictionary is
      falsy in the source and filters nothing, as does a tag filter with no pairs. */
  datatype PackageFilter = PackageFilter(
    source: Option<ModelSource>,
    tags: Option<map<string, string>>,
    gpuCompatible: Option<bool>)

  const NoFilter := PackageFilter(None, None, None)

  predicate Matches(p: ModelPackage, f: PackageFilter)
  {
    && (f.source.Some? ==> p.source == f.source.value)
    && (f.gpuCompatible.Some? ==> p.gpuCompatible == f.gpuCompatible.value)
    && (f.tags.Some? ==> forall k :: k in f.tags.value ==> k in p.tags && p.tags[k] == f.tags.value[k])
  }

  /** The packages of `ids` that pass the filter, in the order of `ids`. */
  function Selected(ids: seq<string>, packages: map<string, ModelPackage>, f: PackageFilter): (r: seq<ModelPackage>)
    requires forall x :: x in ids ==> x in packages && packages[x].modelId == x
    ensures forall p :: p in r <==> p.modelId in ids && packages[p.modelId] == p && Matches(p, f)
    ensures |r| <= |ids|
  {
    if |ids| == 0 then []
    else
      var rest := Selected(ids[1..], packages, f);
      assert forall x :: x in ids <==> x == ids[0] || x in ids[1..];
      if Matches(packages[ids[0]], f) then [packages[ids[0]]] + rest else rest
  }

  /** The model ids of a list of packages. */
  function IdsOf(ps: seq<ModelPackage>): (r: seq<string>)
    ensures |r| == |ps|
    ensures forall i :: 0 <= i < |ps| ==> r[i] == ps[i].modelId
  {
    if |ps| == 0 then [] else [ps[0].modelId] + IdsOf(ps[1..])
  }

  /** The ids of the selected packages are the ids that pass the filter. */
  lemma {:induction false} SelectedIds(ids: seq<string>, packages: map<string, ModelPackage>, f: PackageFilter)
    requires forall x :: x in ids ==> x in packages && packages[x].modelId == x
    ensures forall x :: x in IdsOf(Selected(ids, packages, f)) <==> x in ids && Matches(packages[x], f)
  {
    if |ids| > 0 {
      SelectedIds(ids[1..], packages, f);
      var rest := Selected(ids[1..], packages, f);
      assert forall x :: x in ids <==> x == ids[0] || x in ids[1..];
      if Matches(packages[ids[0]], f) {
        assert Selected(ids, packages, f) == [packages[ids[0]]] + rest;
        assert IdsOf([packages[ids[0]]] + rest) == [ids[0]] + IdsOf(rest) by {
          assert ([packages[ids[0]]] + rest)[1..] == rest;
        }
      }
    }
  }

  /** The capabilities `get_loading_config` reads off a node: `has_gpu` (absent or
      falsy means no GPU), `gpu_memory_gb` (default 0) and `available_ram_gb`
      (default 8). */
  datatype NodeCapabilities = NodeCapabilities(hasGpu: bool, gpuMemoryGb: Option<real>, availableRamGb: Option<real>)

  /** The keys `get_loading_config` may set over the package's own parameters. */
  const ConfigKeys: set<string> := {"device", "torch_dtype", "load_in_4bit", "bnb_4bit_compute_dtype", "max_length"}

  predicate OnGpu(p: ModelPackage, caps: NodeCapabilities)
  {
    caps.hasGpu && p.gpuCompatible
  }

  predicate NeedsQuantization(p: ModelPackage, caps: NodeCapabilities)
  {
    OrElse(caps.gpuMemoryGb, 0.0) < p.gpuMemoryRequiredGb && "4bit" in p.quantizationOptions
  }

  predicate ShortOfRam(p: ModelPackage, caps: NodeCapabilities)
  {
    OrElse(caps.availableRamGb, 8.0) < p.ramRequiredGb
  }

  /** `get_loading_config` for a known package: its own parameters copied, then the
      device and precision, the 4-bit quantization on a GPU short of memory, and a
      shorter context on a node short of RAM. */
  function PackageLoadingConfig(p: ModelPackage, caps: NodeCapabilities): (r: Params)
    ensures "device" in r && r["device"] == (if OnGpu(p, caps) then Text("cuda") else Text("cpu"))
    ensures "torch_dtype" in r && r["torch_dtype"] == (if OnGpu(p, caps) then Text("float16") else Text("float32"))
    ensures OnGpu(p, caps) && NeedsQuantization(p, caps) ==>
              && "load_in_4bit" in r && r["load_in_4bit"] == Flag(true)
              && "bnb_4bit_compute_dtype" in r && r["bnb_4bit_compute_dtype"] == Text("float16")
    ensures !(OnGpu(p, caps) && NeedsQuantization(p, caps)) ==>
              forall k :: k in {"load_in_4bit", "bnb_4bit_compute_dtype"} ==>
                (k in r <==> k in p.loadingParams) && (k in r ==> r[k] == p.loadingParams[k])
    ensures ShortOfRam(p, caps) ==> "max_length" in r && r["max_length"] == Count(MinInt(p.contextLength, 1024))
    ensures !ShortOfRam(p, caps) ==>
              ("max_length" in r <==> "max_length" in p.loadingParams)
              && ("max_length" in r ==> r["max_length"] == p.loadingParams["max_length"])
    ensures forall k :: k !in ConfigKeys ==> (k in r <==> k in p.loadingParams)
    ensures forall k :: k !in ConfigKeys && k in r ==> r[k] == p.loadingParams[k]
  {
    var device :=
      if OnGpu(p, caps) then
        var c := p.loadingParams["device" := Text("cuda")]["torch_dtype" := Text("float16")];
        if NeedsQuantization(p, caps) then c["load_in_4bit" := Flag(true)]["bnb_4bit_compute_dtype" := Text("float16")]
        else c
      else p.loadingParams["device" := Text("cpu")]["torch_dtype" := Text("float32")];
    if ShortOfRam(p, caps) then device["max_length" := Count(MinInt(p.contextLength, 1024))] else device
  }

  /** The source kinds `download_model` knows how to fetch. */
  predicate Fetchable(s: ModelSource)
  {
    s == HuggingFace || s == RemoteUrl || s == Local
  }

  /** What `preload_models` reads off a node configuration: `preload_models`
      (default none) and `preload_tags` (default none). */
  datatype NodeConfig = NodeConfig(preloadModels: Option<seq<string>>, preloadTags: Option<map<string, string>>)

  /** `TinyLlama/TinyLlama-1.1B-Chat-v1.0`, the first package of the default registry. */
  function TinyLlama(now: int): ModelPackage
  {
    PostInit(PackageArgs("TinyLlama/TinyLlama-1.1B-Chat-v1.0", "TinyLlama Chat", "latest", HuggingFace,
                         "TinyLlama/TinyLlama-1.1B-Chat-v1.0", 2.2, 4.0, 3.0, true, true,
                         Some(["4bit", "8bit"]), None, 2048, None, None, None,
                         Some(map["type" := "chat", "size" := "small"]), None, None), now)
  }

  /** `microsoft/phi-2`, the second package of the default registry. */
  function Phi2(now: int): ModelPackage
  {
    PostInit(PackageArgs("microsoft/phi-2", "Phi-2", "latest", HuggingFace, "microsoft/phi-2", 5.4, 8.0, 6.0,
                         true, true, Some(["4bit", "8bit"]), None, 2048, None, None, None,
                         Some(map["type" := "general", "size" := "medium"]), None, None), now)
  }

  /** On a GPU node with 2 GB of GPU memory and the default RAM, TinyLlama loads in
      4-bit on cuda with its full context; on a node without a GPU and 4 GB of RAM,
      Phi-2 loads on the CPU in float32 with its context cut to 1024. */
  lemma DefaultPackagesLoading(now: int)
    ensures var c := PackageLoadingConfig(TinyLlama(now), NodeCapabilities(true, Some(2.0), None));
            && c["device"] == Text("cuda") && c["load_in_4bit"] == Flag(true) && "max_length" !in c
    ensures var c := PackageLoadingConfig(Phi2(now), NodeCapabilities(false, None, Some(4.0)));
            && c["device"] == Text("cpu") && c["torch_dtype"] == Text("float32")
            && c["max_length"] == Count(1024) && "load_in_4bit" !in c
  {
    var t := TinyLlama(now);
    assert "4bit" == t.quantizationOptions[0];
    var p := Phi2(now);
    assert p.loadingParams == map[];
  }

  class PackageRegistry {
    /** The keys of `packages` in the dictionary's insertion order. */
    var ids: seq<string>
    var packages: map<string, ModelPackage>

    ghost predicate Valid()
      reads this
    {
      && Distinct(ids)
      && (forall x :: x in ids <==> x in packages)
      && (forall x :: x in packages ==> packages[x].modelId == x)
    }

    /** The registry before its file is read: no packages. */
    constructor ()
      ensures Valid() && ids == [] && packages == map[]
    {
      ids := [];
      packages := map[];
    }

    /** `self.packages[p.model_id] = p`: a new id goes last, a known one keeps its place. */
    method Store(p: ModelPackage)
      modifies this
      requires Valid()
      ensures Valid()
      ensures packages == old(packages)[p.modelId := p]
      ensures ids == if p.modelId in old(packages) then old(ids) else old(ids) + [p.modelId]
    {
      if p.modelId !in packages {
        ids := ids + [p.modelId];
      }
      packages := packages[p.modelId := p];
    }

    /** `_create_default_registry`: TinyLlama and Phi-2 stored over whatever is there. */
    method CreateDefaultRegistry(now: int)
      modifies this
      requires Valid()
      ensures Valid()
      ensures packages == old(packages)[TinyLlama(now).modelId := TinyLlama(now)][Phi2(now).modelId := Phi2(now)]
    {
      Store(TinyLlama(now));
      Store(Phi2(now));
    }

    /** `register_package`: an invalid package is refused and nothing changes;
        a valid one is stored under its id, stamped and checksummed. */
    method RegisterPackage(p: ModelPackage, fileChecksum: string, now: int) returns (ok: bool)
      modifies this
      requires Valid()
      ensures Valid()
      ensures ok <==> ValidPackage(p)
      ensures !ok ==> packages == old(packages) && ids == old(ids)
      ensures ok ==> packages == old(packages)[p.modelId := Registered(p, fileChecksum, now)]
      ensures ok ==> GetPackage(p.modelId) == Some(Registered(p, fileChecksum, now))
    {
      if !ValidPackage(p) {
        return false;
      }
      Store(Registered(p, fileChecksum, now));
      return true;
    }

    /** `get_package`. */
    function GetPackage(id: string): (r: Option<ModelPackage>)
      reads this
      ensures r.Some? <==> id in packages
      ensures r.Some? ==> r.value == packages[id]
    {
      if id in packages then Some(packages[id]) else None
    }

    /** `list_packages`: the packages passing every given filter, in registry order. */
    function ListPackages(f: PackageFilter): (r: seq<ModelPackage>)
      reads this
      requires Valid()
      ensures forall p :: p in r <==> p.modelId in packages && packages[p.modelId] == p && Matches(p, f)
    {
      Selected(ids, packages, f)
    }

    /** `download_model` with `force` as given: false for an unknown id; true for a
        cached model unless forced; otherwise whether a fetchable source was fetched. */
    function DownloadModel(id: string, force: bool, cached: set<string>, fetched: set<string>): (r: bool)
      reads this
      ensures r <==> id in packages && ((id in cached && !force) || (Fetchable(packages[id].source) && id in fetched))
      ensures r && id !in cached ==> Fetchable(packages[id].source)
    {
      match GetPackage(id)
      case None => false
      case Some(p) =>
        if id in cached && !force then true
        else if p.source == HuggingFace || p.source == RemoteUrl || p.source == Local then id in fetched
        else false
    }

    /** The ids `preload_models` asks for: the explicit ones and, for a non-empty
        tag dictionary, those of the packages carrying all its tags. */
    function Requested(config: NodeConfig): (r: set<string>)
      reads this
      requires Valid()
      ensures forall x :: x in r <==>
                (x in OrElse(config.preloadModels, []))
                || (OrElse(config.preloadTags, map[]) != map[] && x in packages
                    && Matches(packages[x], PackageFilter(None, config.preloadTags, None)))
    {
      var explicit := OrElse(config.preloadModels, []);
      var tags := OrElse(config.preloadTags, map[]);
      SelectedIds(ids, packages, PackageFilter(None, Some(tags), None));
      var matching := if tags != map[] then IdsOf(ListPackages(PackageFilter(None, Some(tags), None))) else [];
      (set x | x in explicit) + (set x | x in matching)
    }

    /** The ids of `order` whose download succeeds, in order. */
    function Downloaded(order: seq<string>, cached: set<string>, fetched: set<string>): (r: seq<string>)
      reads this
      ensures forall x :: x in r <==> x in order && DownloadModel(x, false, cached, fetched)
      ensures Distinct(order) ==> Distinct(r)
    {
      if |order| == 0 then []
      else
        var init := order[..|order| - 1];
        var last := order[|order| - 1];
        var rest := Downloaded(init, cached, fetched);
        assert forall x :: x in order <==> x in init || x == last;
        DistinctLast(order);
        if DownloadModel(last, false, cached, fetched) then rest + [last] else rest
    }

    /** `preload_models`: each requested model, taken once in the order the
        deduplicating set yields, is downloaded; the ones that succeeded are returned. */
    method PreloadModels(config: NodeConfig, order: seq<string>, cached: set<string>, fetched: set<string>)
      returns (loaded: seq<string>)
      requires Valid()
      requires Distinct(order) && forall x :: x in order <==> x in Requested(config)
      ensures loaded == Downloaded(order, cached, fetched)
      ensures Distinct(loaded)
      ensures forall x :: x in loaded <==> x in Requested(config) && DownloadModel(x, false, cached, fetched)
    {
      loaded := [];
      var i := 0;
      while i < |order|
        invariant 0 <= i <= |order|
        invariant loaded == Downloaded(order[..i], cached, fetched)
      {
        assert order[..i + 1][..i] == order[..i];
        if DownloadModel(order[i], false, cached, fetched) {
          loaded := loaded + [order[i]];
        }
        i := i + 1;
      }
      assert order[..i] == order;
    }

    /** `get_loading_config`: nothing for an unknown model, the package's
        configuration for the node otherwise. */
    function GetLoadingConfig(id: string, caps: NodeCapabilities): (r: Params)
      reads this
      ensures id !in packages ==> r == map[]
      ensures id in packages ==> r == PackageLoadingConfig(packages[id], caps)
    {
      match GetPackage(id)
      case None => map[]
      case Some(p) => PackageLoadingConfig(p, caps)
    }
  }

  /** A package registered and then configured gets exactly the configuration its
      own fields call for; registration leaves the loading parameters alone. */
  lemma RegisteredKeepsLoading(p: ModelPackage, fileChecksum: string, now: int, caps: NodeCapabilities)
    ensures PackageLoadingConfig(Registered(p, fileChecksum, now), caps) == PackageLoadingConfig(p, caps)
  {
    var r := Registered(p, fileChecksum, now);
    assert r.loadingParams == p.loadingParams && r.gpuCompatible == p.gpuCompatible;
  }

  /** The filters of `list_packages` are conjunctive: a package passes all three
      exactly when it passes each one alone; with none given, every package passes. */
  lemma FiltersConjoin(p: ModelPackage, f: PackageFilter)
    ensures Matches(p, f) <==>
              Matches(p, PackageFilter(f.source, None, None))
              && Matches(p, PackageFilter(None, f.tags, None))
              && Matches(p, PackageFilter(None, None, f.gpuCompatible))
    ensures Matches(p, NoFilter)
    ensures Matches(p, PackageFilter(f.source, Some(map[]), f.gpuCompatible)) <==>
              Matches(p, PackageFilter(f.source, None, f.gpuCompatible))
  {
  }
}
