// Compute and graphics pipelines. Both own a PipelineBase: the pipeline and its layout, the
// descriptor pool, the descriptor sets allocated from it, their set layouts and the immutable
// samplers those layouts point at. Reflecting the shaders fills the descriptor part; init then
// creates the pipeline layout over the set layouts, the shader stages and the pipeline.
// C++ inheritance is modelled by composition: Compute and Graphics hold their PipelineBase.

module Pipelines {
  import opened Common
  import opened Vk
  import opened Reflection
  import opened Descriptors
  import Images
  import Buffers

  const MAINTENANCE5: string := "VK_KHR_maintenance5"

  /** The function-static flag behind get_module_deprecation: true until set_module_deprecation
      finds that the device can take shader code inline (VK_KHR_maintenance5). */
  class ModuleDeprecation {
    var deprecated: bool

    constructor ()
      ensures deprecated
    {
      deprecated := true;
    }

    /** set_module_deprecation, given the names enumerateDeviceExtensionProperties reports. */
    method Set(available: seq<string>)
      modifies this
      ensures deprecated <==> MAINTENANCE5 !in available
    {
      for i := 0 to |available|
        invariant MAINTENANCE5 !in available[..i]
      {
        if available[i] == MAINTENANCE5 {
          deprecated := false;
          return;
        }
      }
      assert available[..|available|] == available;
      deprecated := true;
    }
  }

  // ---- shader stages ----

  /** A pipeline stage: a module handle when modules are deprecated, otherwise the code chained
      inline; a specialization info only when its data is not empty. */
  function StageFor(stage: ShaderStage, deprecated: bool, shaderModule: nat, specialized: bool): (d: StageDesc)
    ensures d.inlineCode <==> !deprecated
    ensures d.shaderModule != NULL <==> deprecated && shaderModule != NULL
    ensures d.stage == stage && d.specialized == specialized
  {
    StageDesc(stage, if deprecated then shaderModule else NULL, !deprecated, specialized)
  }

  /** The shader modules created, and destroyed, in a log. */
  function ModulesCreated(calls: seq<Call>): set<nat>
  {
    set i | 0 <= i < |calls| && calls[i].CreateShaderModule? :: calls[i].shaderModule
  }

  function ModulesDestroyed(calls: seq<Call>): set<nat>
  {
    set i | 0 <= i < |calls| && calls[i].DestroyShaderModule? :: calls[i].shaderModule
  }

  // ---- descriptor writes ----

  /** The image layout write_descriptor declares for an image descriptor; None where it asserts. */
  function ImageLayoutFor(t: DescriptorType): (l: Option<Layout>)
    ensures l == Some(General) <==> t == STORAGE_IMAGE
    ensures l == Some(ShaderReadOnlyOptimal) <==> t == SAMPLED_IMAGE || t == COMBINED_IMAGE_SAMPLER
    ensures l.None? <==> t != STORAGE_IMAGE && t != SAMPLED_IMAGE && t != COMBINED_IMAGE_SAMPLER
  {
    if t == STORAGE_IMAGE then Some(General)
    else if t == SAMPLED_IMAGE || t == COMBINED_IMAGE_SAMPLER then Some(ShaderReadOnlyOptimal)
    else None
  }

  // ---- what reflect records ----

  /** The log after the immutable samplers when the bindings agree: one set layout per set, the pool
      and one descriptor set per layout. */
  ghost predicate SetsRecorded(m: BindingMap, after: seq<Call>, calls: seq<Call>, layouts: seq<nat>, pool: nat, sets: seq<nat>)
  {
    var perSet := PerSet(m, SortedKeys(SetNumbers(m)));
    |layouts| == |SetNumbers(m)| && |perSet| == |layouts| && |sets| == |layouts| && NULL !in sets &&
    calls == after + LayoutCalls(perSet, layouts) +
             [CreateDescriptorPool(|SetNumbers(m)|, PoolSizes(TallyAsWritten(FlatBindings(m))), pool),
              AllocateDescriptorSets(pool, layouts, sets)]
  }

  /** What reflect records when the shaders declare bindings: one sampler per combined image sampler
      occurrence, then, unless two occurrences of a binding disagree (`ok` false: the assert fires),
      the set layouts, the pool and the sets. */
  ghost predicate DescriptorSetup(infos: seq<Key>, rs: seq<ShaderReflection>, calls0: seq<Call>, calls: seq<Call>,
                                  created: seq<nat>, layouts: seq<nat>, pool: nat, sets: seq<nat>, ok: bool)
  {
    var os := Occurrences(rs);
    var keys := CombinedKeys(os);
    |created| == |keys| &&
    var after := calls0 + SamplerCalls(infos, keys, created);
    SamplerMapCovers(os, created);
    var merged := Merge(os, FirstStored(keys, created));
    if merged.Failure? then !ok && calls == after
    else ok && SetsRecorded(merged.value, after, calls, layouts, pool, sets)
  }

  /** DescriptorSetup of a run where the bindings agree, from its parts. */
  lemma SetupSucceeded(infos: seq<Key>, rs: seq<ShaderReflection>, calls0: seq<Call>, after: seq<Call>, calls: seq<Call>,
                       created: seq<nat>, m: BindingMap, layouts: seq<nat>, pool: nat, sets: seq<nat>)
    requires |created| == |CombinedKeys(Occurrences(rs))|
    requires after == calls0 + SamplerCalls(infos, CombinedKeys(Occurrences(rs)), created)
    requires SamplersCover(Occurrences(rs), FirstStored(CombinedKeys(Occurrences(rs)), created))
    requires Merge(Occurrences(rs), FirstStored(CombinedKeys(Occurrences(rs)), created)) == Result.Success(m)
    requires SetsRecorded(m, after, calls, layouts, pool, sets)
    ensures DescriptorSetup(infos, rs, calls0, calls, created, layouts, pool, sets, true)
  {
  }

  /** DescriptorSetup of a run where two declarations of a binding disagree. */
  lemma SetupFailed(infos: seq<Key>, rs: seq<ShaderReflection>, calls0: seq<Call>, calls: seq<Call>,
                    created: seq<nat>, layouts: seq<nat>, pool: nat, sets: seq<nat>)
    requires |created| == |CombinedKeys(Occurrences(rs))|
    requires calls == calls0 + SamplerCalls(infos, CombinedKeys(Occurrences(rs)), created)
    requires SamplersCover(Occurrences(rs), FirstStored(CombinedKeys(Occurrences(rs)), created))
    requires Merge(Occurrences(rs), FirstStored(CombinedKeys(Occurrences(rs)), created)).Failure?
    ensures DescriptorSetup(infos, rs, calls0, calls, created, layouts, pool, sets, false)
  {
  }

  /** All reflect records: nothing when the 32-bit binding count is 0, the descriptor setup otherwise. */
  ghost predicate Reflected(infos: seq<Key>, rs: seq<ShaderReflection>, calls0: seq<Call>, calls: seq<Call>,
                            created: seq<nat>, layouts: seq<nat>, pool: nat, sets: seq<nat>, ok: bool)
  {
    if |Occurrences(rs)| % U32_LIMIT == 0 then ok && created == [] && calls == calls0
    else DescriptorSetup(infos, rs, calls0, calls, created, layouts, pool, sets, ok)
  }

  // ---- destroy ----

  function DestroyLayouts(layouts: seq<nat>): seq<Call>
  {
    if layouts == [] then [] else DestroyLayouts(layouts[..|layouts| - 1]) + [DestroySetLayout(layouts[|layouts| - 1])]
  }

  function DestroySamplers(samplers: seq<nat>): seq<Call>
  {
    if samplers == [] then [] else DestroySamplers(samplers[..|samplers| - 1]) + [DestroySampler(samplers[|samplers| - 1])]
  }

  lemma {:induction false} DestroyLayoutsEach(layouts: seq<nat>)
    ensures var r := DestroyLayouts(layouts);
            |r| == |layouts| && forall k :: 0 <= k < |layouts| ==> r[k] == DestroySetLayout(layouts[k])
  {
    if layouts != [] {
      var n := |layouts| - 1;
      DestroyLayoutsEach(layouts[..n]);
      assert forall k :: 0 <= k < n ==> layouts[..n][k] == layouts[k];
    }
  }

  lemma {:induction false} DestroySamplersEach(samplers: seq<nat>)
    ensures var r := DestroySamplers(samplers);
            |r| == |samplers| && forall k :: 0 <= k < |samplers| ==> r[k] == DestroySampler(samplers[k])
  {
    if samplers != [] {
      var n := |samplers| - 1;
      DestroySamplersEach(samplers[..n]);
      assert forall k :: 0 <= k < n ==> samplers[..n][k] == samplers[k];
    }
  }

  /** What destroy records: the pipeline, its layout, every set layout, every immutable sampler and
      the pool (which frees the descriptor sets with it). */
  function DestroyCalls(pipeline: nat, pipelineLayout: nat, layouts: seq<nat>, samplers: seq<nat>, pool: nat): seq<Call>
  {
    [DestroyPipeline(pipeline), DestroyPipelineLayout(pipelineLayout)] + DestroyLayouts(layouts) +
    DestroySamplers(samplers) + [DestroyDescriptorPool(pool)]
  }

  /** Every sampler created is destroyed along with the ones created before. */
  lemma SamplersReleased(infos: seq<Key>, keys: seq<Key>, created: seq<nat>, samplers0: seq<nat>)
    requires |created| == |keys|
    ensures forall c :: c in SamplerCalls(infos, keys, created) ==>
              c.CreateSampler? && DestroySampler(c.sampler) in DestroySamplers(samplers0 + created)
  {
    var sc := SamplerCalls(infos, keys, created);
    var all := samplers0 + created;
    SamplerCallsEach(infos, keys, created);
    DestroySamplersEach(all);
    forall c | c in sc
      ensures c.CreateSampler? && DestroySampler(c.sampler) in DestroySamplers(all)
    {
      var k :| 0 <= k < |sc| && sc[k] == c;
      assert all[|samplers0| + k] == created[k];
      assert DestroySamplers(all)[|samplers0| + k] == DestroySampler(created[k]);
    }
  }

  /** Every set layout created is destroyed. */
  lemma LayoutsReleased(perSet: seq<seq<LayoutBinding>>, layouts: seq<nat>)
    requires |layouts| == |perSet|
    ensures forall c :: c in LayoutCalls(perSet, layouts) ==>
              c.CreateSetLayout? && DestroySetLayout(c.layout) in DestroyLayouts(layouts)
  {
    var lc := LayoutCalls(perSet, layouts);
    LayoutCallsEach(perSet, layouts);
    DestroyLayoutsEach(layouts);
    forall c | c in lc
      ensures c.CreateSetLayout? && DestroySetLayout(c.layout) in DestroyLayouts(layouts)
    {
      var k :| 0 <= k < |lc| && lc[k] == c;
      assert DestroyLayouts(layouts)[k] == DestroySetLayout(layouts[k]);
    }
  }

  /** Released(c, d): what a creation call in reflect's log leaves for destroy to release is in `d`. */
  predicate Released(c: Call, d: seq<Call>)
  {
    (c.CreateSetLayout? ==> DestroySetLayout(c.layout) in d) &&
    (c.CreateSampler? ==> DestroySampler(c.sampler) in d) &&
    (c.CreateDescriptorPool? ==> DestroyDescriptorPool(c.pool) in d)
  }

  /** The sampler calls, the layout calls and the pool at the end of the log are all released. */
  lemma PartsReleased(sc: seq<Call>, lc: seq<Call>, tail: seq<Call>, pipeline: nat, pipelineLayout: nat,
                      layouts: seq<nat>, samplers: seq<nat>, pool: nat)
    requires forall c :: c in sc ==> c.CreateSampler? && DestroySampler(c.sampler) in DestroySamplers(samplers)
    requires forall c :: c in lc ==> c.CreateSetLayout? && DestroySetLayout(c.layout) in DestroyLayouts(layouts)
    requires forall c :: c in tail ==> c.CreateDescriptorPool? ==> c.pool == pool
    requires forall c :: c in tail ==> !c.CreateSampler? && !c.CreateSetLayout?
    ensures forall c :: c in sc + lc + tail ==> Released(c, DestroyCalls(pipeline, pipelineLayout, layouts, samplers, pool))
  {
    var d := DestroyCalls(pipeline, pipelineLayout, layouts, samplers, pool);
    var dl, ds := DestroyLayouts(layouts), DestroySamplers(samplers);
    assert d == [DestroyPipeline(pipeline), DestroyPipelineLayout(pipelineLayout)] + dl + ds + [DestroyDescriptorPool(pool)];
    assert DestroyDescriptorPool(pool) in d;
    forall c | c in sc + lc + tail ensures Released(c, d) {
      if c in sc {
        assert DestroySampler(c.sampler) in ds;
      } else if c in lc {
        assert DestroySetLayout(c.layout) in dl;
      }
    }
  }

  /** Every set layout, sampler and pool a successful reflect creates is released by destroy. */
  lemma ReflectReleased(infos: seq<Key>, rs: seq<ShaderReflection>, calls0: seq<Call>, calls: seq<Call>,
                        created: seq<nat>, layouts: seq<nat>, pool: nat, sets: seq<nat>,
                        pipeline: nat, pipelineLayout: nat, samplers0: seq<nat>)
    requires DescriptorSetup(infos, rs, calls0, calls, created, layouts, pool, sets, true)
    ensures |calls0| <= |calls|
    ensures forall c :: c in calls[|calls0|..] ==>
              Released(c, DestroyCalls(pipeline, pipelineLayout, layouts, samplers0 + created, pool))
  {
    var os := Occurrences(rs);
    var keys := CombinedKeys(os);
    SamplerMapCovers(os, created);
    var m := Merge(os, FirstStored(keys, created)).value;
    var perSet := PerSet(m, SortedKeys(SetNumbers(m)));
    var sc := SamplerCalls(infos, keys, created);
    var lc := LayoutCalls(perSet, layouts);
    var tail := [CreateDescriptorPool(|SetNumbers(m)|, PoolSizes(TallyAsWritten(FlatBindings(m))), pool),
                 AllocateDescriptorSets(pool, layouts, sets)];
    assert calls == calls0 + sc + lc + tail;
    assert calls[|calls0|..] == sc + lc + tail;
    SamplersReleased(infos, keys, created, samplers0);
    LayoutsReleased(perSet, layouts);
    PartsReleased(sc, lc, tail, pipeline, pipelineLayout, layouts, samplers0 + created, pool);
  }

  class PipelineBase {
    var pipeline: nat
    var pipelineLayout: nat
    var pool: nat
    var descSets: seq<nat>
    var descSetLayouts: seq<nat>
    var immutableSamplers: seq<nat>

    /** A default-constructed PipelineBase: null handles and empty vectors. */
    constructor ()
      ensures pipeline == NULL && pipelineLayout == NULL && pool == NULL
      ensures descSets == [] && descSetLayouts == [] && immutableSamplers == []
    {
      pipeline, pipelineLayout, pool := NULL, NULL, NULL;
      descSets, descSetLayouts, immutableSamplers := [], [], [];
    }

    /** PipelineBase::destroy. */
    method Destroy(gpu: Gpu)
      modifies this, gpu
      ensures gpu.calls == old(gpu.calls) +
                DestroyCalls(old(pipeline), old(pipelineLayout), old(descSetLayouts), old(immutableSamplers), old(pool))
      ensures descSets == [] && descSetLayouts == [] && immutableSamplers == []
      ensures pipeline == old(pipeline) && pipelineLayout == old(pipelineLayout) && pool == old(pool)
    {
      gpu.Emit(DestroyPipeline(pipeline));
      gpu.Emit(DestroyPipelineLayout(pipelineLayout));
      DestroyEachLayout(descSetLayouts, gpu);
      DestroyEachSampler(immutableSamplers, gpu);
      gpu.Emit(DestroyDescriptorPool(pool));
      descSets, descSetLayouts, immutableSamplers := [], [], [];
    }

    /** write_descriptor for an image: one descriptor at the image's view, in the layout its type
        calls for; a type with no such layout fails the assert (`ok` false) and writes nothing. */
    method WriteImageDescriptor(setIndex: nat, binding: nat, image: Images.Image, t: DescriptorType, sampler: nat, gpu: Gpu)
      returns (ok: bool)
      modifies gpu
      requires setIndex < |descSets|
      ensures ok <==> ImageLayoutFor(t).Some?
      ensures ok ==> gpu.calls == old(gpu.calls) + [UpdateDescriptorSet(
                       ImageWrite(descSets[setIndex], binding, 1, t, sampler, image.view, ImageLayoutFor(t).value))]
      ensures !ok ==> gpu.calls == old(gpu.calls)
    {
      var layout := ImageLayoutFor(t);
      if layout.None? {
        return false;
      }
      gpu.Emit(UpdateDescriptorSet(ImageWrite(descSets[setIndex], binding, 1, t, sampler, image.view, layout.value)));
      ok := true;
    }

    /** write_descriptor for a buffer: one descriptor at array element 0 covering the buffer from
        `offset` with the buffer's whole size as its range. */
    method WriteBufferDescriptor(setIndex: nat, binding: nat, buffer: Buffers.Buffer, t: DescriptorType, offset: nat, gpu: Gpu)
      modifies gpu
      requires setIndex < |descSets|
      ensures gpu.calls == old(gpu.calls) +
                [UpdateDescriptorSet(BufferWrite(descSets[setIndex], binding, 0, 1, t, buffer.data, offset, buffer.size))]
    {
      gpu.Emit(UpdateDescriptorSet(BufferWrite(descSets[setIndex], binding, 0, 1, t, buffer.data, offset, buffer.size)));
    }

    /** PipelineBase::reflect: the vertex input description of the shaders, then, when they declare
        any binding, their immutable samplers, set layouts, pool and descriptor sets. `ok` is false
        where two declarations of one binding disagree and get_unique_sets' assert fires. */
    method Reflect(rs: seq<ShaderReflection>, infos: seq<Key>, blockSize: nat -> nat, gpu: Gpu)
      returns (binding: VertexBinding, attrs: seq<Attribute>, ok: bool, ghost sorted: seq<Attribute>, created: seq<nat>)
      modifies this, gpu
      requires |infos| < UINT32_MAX
      ensures binding == VertexBinding(0, BytesOf(sorted, blockSize), false)
      ensures SortedByLocation(sorted) && multiset(sorted) == multiset(VertexAttributes(rs))
      ensures attrs == Placed(sorted, blockSize)
      ensures Reflected(infos, rs, old(gpu.calls), gpu.calls, created, descSetLayouts, pool, descSets, ok)
      ensures immutableSamplers == old(immutableSamplers) + created
      ensures pipeline == old(pipeline) && pipelineLayout == old(pipelineLayout)
      ensures !ok || |Occurrences(rs)| % U32_LIMIT == 0 ==>
                descSetLayouts == old(descSetLayouts) && pool == old(pool) && descSets == old(descSets)
    {
      binding, attrs, sorted := VertexDesc(rs, blockSize);
      var count := CountBindings(rs);
      if count == 0 {
        ok, created := true, [];
        assert immutableSamplers + created == immutableSamplers;
        return;
      }
      ok, created := DescribeBindings(rs, infos, gpu);
    }

    /** The descriptor part of reflect, with the handles it creates stored in the fields. */
    method DescribeBindings(rs: seq<ShaderReflection>, infos: seq<Key>, gpu: Gpu) returns (ok: bool, created: seq<nat>)
      modifies this`immutableSamplers, this`descSetLayouts, this`pool, this`descSets, gpu
      requires |infos| < UINT32_MAX
      ensures DescriptorSetup(infos, rs, old(gpu.calls), gpu.calls, created, descSetLayouts, pool, descSets, ok)
      ensures immutableSamplers == old(immutableSamplers) + created
      ensures !ok ==> descSetLayouts == old(descSetLayouts) && pool == old(pool) && descSets == old(descSets)
    {
      var layouts, p, sets;
      ok, created, layouts, p, sets := SetUpDescriptors(rs, infos, gpu);
      immutableSamplers := immutableSamplers + created;
      if ok {
        descSetLayouts, pool, descSets := layouts, p, sets;
      }
    }
  }

  method DestroyEachLayout(layouts: seq<nat>, gpu: Gpu)
    modifies gpu
    ensures gpu.calls == old(gpu.calls) + DestroyLayouts(layouts)
  {
    for i := 0 to |layouts|
      invariant gpu.calls == old(gpu.calls) + DestroyLayouts(layouts[..i])
    {
      assert layouts[..i + 1][..i] == layouts[..i];
      gpu.Emit(DestroySetLayout(layouts[i]));
    }
    assert layouts[..|layouts|] == layouts;
  }

  method DestroyEachSampler(samplers: seq<nat>, gpu: Gpu)
    modifies gpu
    ensures gpu.calls == old(gpu.calls) + DestroySamplers(samplers)
  {
    for i := 0 to |samplers|
      invariant gpu.calls == old(gpu.calls) + DestroySamplers(samplers[..i])
    {
      assert samplers[..i + 1][..i] == samplers[..i];
      gpu.Emit(DestroySampler(samplers[i]));
    }
    assert samplers[..|samplers|] == samplers;
  }

  /** The descriptor part of reflect, once the shaders are known to declare bindings: the sampler
      handles created, then the set layouts, the pool and the sets when the bindings agree. */
  method SetUpDescriptors(rs: seq<ShaderReflection>, infos: seq<Key>, gpu: Gpu)
    returns (ok: bool, created: seq<nat>, layouts: seq<nat>, pool: nat, sets: seq<nat>)
    modifies gpu
    requires |infos| < UINT32_MAX
    ensures DescriptorSetup(infos, rs, old(gpu.calls), gpu.calls, created, layouts, pool, sets, ok)
  {
    var sm;
    sm, created := CreateSamplerMap(infos, rs, gpu);
    SamplerMapCovers(Occurrences(rs), created);
    var merged := UniqueSets(rs, sm);
    if merged.Failure? {
      SetupFailed(infos, rs, old(gpu.calls), gpu.calls, created, [], NULL, []);
      return false, created, [], NULL, [];
    }
    ghost var after := gpu.calls;
    layouts, pool, sets := SetUpSets(merged.value, gpu);
    ok := true;
    SetupSucceeded(infos, rs, old(gpu.calls), after, gpu.calls, created, merged.value, layouts, pool, sets);
  }

  /** The set layouts, the pool and the sets of a merged binding map. */
  method SetUpSets(m: BindingMap, gpu: Gpu) returns (layouts: seq<nat>, pool: nat, sets: seq<nat>)
    modifies gpu
    ensures SetsRecorded(m, old(gpu.calls), gpu.calls, layouts, pool, sets)
  {
    layouts := CreateSetLayouts(m, gpu);
    pool := CreatePool(m, gpu);
    sets := AllocateSets(|layouts|, gpu);
    gpu.Emit(AllocateDescriptorSets(pool, layouts, sets));
  }

  /** The handles vkAllocateDescriptorSets returns, one per layout. */
  method AllocateSets(n: nat, gpu: Gpu) returns (sets: seq<nat>)
    modifies gpu
    ensures |sets| == n && NULL !in sets
    ensures gpu.calls == old(gpu.calls)
  {
    sets := [];
    while |sets| < n
      invariant |sets| <= n && NULL !in sets
      invariant gpu.calls == old(gpu.calls)
    {
      var h := gpu.Fresh();
      sets := sets + [h];
    }
  }

  // ---- compute ----

  /** What Compute::init records after reflect: the pipeline layout over the set layouts, the module
      (only when modules are deprecated), the pipeline, and the module's destruction. */
  function ComputeCalls(deprecated: bool, setLayouts: seq<nat>, layout: nat, shaderModule: nat, specialized: bool, pipeline: nat): seq<Call>
  {
    [CreatePipelineLayout(setLayouts, layout)] +
    (if deprecated then [CreateShaderModule(ComputeStage, shaderModule)] else []) +
    [CreateComputePipeline(layout, StageFor(ComputeStage, deprecated, shaderModule, specialized), pipeline)] +
    (if deprecated then [DestroyShaderModule(shaderModule)] else [])
  }

  /** A compute module exists only while the pipeline is created, and only when modules are deprecated. */
  lemma ComputeModuleLifetime(deprecated: bool, setLayouts: seq<nat>, layout: nat, shaderModule: nat, specialized: bool, pipeline: nat)
    ensures var calls := ComputeCalls(deprecated, setLayouts, layout, shaderModule, specialized, pipeline);
            ModulesCreated(calls) == ModulesDestroyed(calls) == (if deprecated then {shaderModule} else {})
  {
    var calls := ComputeCalls(deprecated, setLayouts, layout, shaderModule, specialized, pipeline);
    if deprecated {
      assert calls[1].CreateShaderModule? && calls[3].DestroyShaderModule?;
    }
  }

  /** The part of Compute::init after reflect. `built` is the result createComputePipeline reports; on
      a failure the program only prints a diagnostic and keeps the null handle the driver returns. */
  method BuildCompute(deprecated: bool, setLayouts: seq<nat>, specialized: bool, built: VkResult, gpu: Gpu)
    returns (layout: nat, shaderModule: nat, pipeline: nat)
    modifies gpu
    ensures layout != NULL && (pipeline != NULL <==> built.Success?)
    ensures gpu.calls == old(gpu.calls) + ComputeCalls(deprecated, setLayouts, layout, shaderModule, specialized, pipeline)
  {
    layout := gpu.Fresh();
    gpu.Emit(CreatePipelineLayout(setLayouts, layout));
    shaderModule := NULL;
    if deprecated {
      shaderModule := gpu.Fresh();
      gpu.Emit(CreateShaderModule(ComputeStage, shaderModule));
    }
    pipeline := NULL;
    if built.Success? {
      pipeline := gpu.Fresh();
    }
    gpu.Emit(CreateComputePipeline(layout, StageFor(ComputeStage, deprecated, shaderModule, specialized), pipeline));
    if deprecated {
      gpu.Emit(DestroyShaderModule(shaderModule));
    }
  }

  class Compute {
    const base: PipelineBase

    constructor ()
      ensures fresh(base)
      ensures base.pipeline == NULL && base.pipelineLayout == NULL && base.pool == NULL
      ensures base.descSets == [] && base.descSetLayouts == [] && base.immutableSamplers == []
    {
      base := new PipelineBase();
    }

    /** Compute::init for one compute shader, its reflection `r`; `specialized` says whether the
        specialization info has data. */
    method Init(deprecation: ModuleDeprecation, r: ShaderReflection, specialized: bool, infos: seq<Key>,
                blockSize: nat -> nat, built: VkResult, gpu: Gpu)
      returns (ok: bool, ghost mid: seq<Call>, ghost created: seq<nat>, ghost setLayouts: seq<nat>, ghost pool: nat,
               ghost sets: seq<nat>, ghost shaderModule: nat)
      modifies base, gpu
      requires |infos| < UINT32_MAX
      ensures Reflected(infos, [r], old(gpu.calls), mid, created, setLayouts, pool, sets, ok)
      ensures base.descSetLayouts == setLayouts && base.pool == pool && base.descSets == sets
      ensures base.immutableSamplers == old(base.immutableSamplers) + created
      ensures !ok ==> gpu.calls == mid
      ensures ok ==> base.pipelineLayout != NULL && (base.pipeline != NULL <==> built.Success?) &&
                     gpu.calls == mid + ComputeCalls(deprecation.deprecated, setLayouts, base.pipelineLayout,
                                                     shaderModule, specialized, base.pipeline)
    {
      var binding, attrs;
      ghost var sorted;
      binding, attrs, ok, sorted, created := base.Reflect([r], infos, blockSize, gpu);
      mid := gpu.calls;
      setLayouts, pool, sets := base.descSetLayouts, base.pool, base.descSets;
      shaderModule := NULL;
      if !ok {
        return;
      }
      shaderModule := Finish(deprecation.deprecated, specialized, built, gpu);
    }

    /** The part of Compute::init after reflect. */
    method Finish(deprecated: bool, specialized: bool, built: VkResult, gpu: Gpu) returns (shaderModule: nat)
      modifies base`pipeline, base`pipelineLayout, gpu
      ensures base.pipelineLayout != NULL && (base.pipeline != NULL <==> built.Success?)
      ensures gpu.calls == old(gpu.calls) +
                ComputeCalls(deprecated, base.descSetLayouts, base.pipelineLayout, shaderModule, specialized, base.pipeline)
    {
      var layout, p;
      layout, shaderModule, p := BuildCompute(deprecated, base.descSetLayouts, specialized, built, gpu);
      base.pipelineLayout, base.pipeline := layout, p;
    }

    /** Compute::execute: binds the pipeline and all descriptor sets (even none), then dispatches. */
    method Execute(cmd: CommandBuffer, nx: u32, ny: u32, nz: u32)
      modifies cmd
      ensures cmd.commands == old(cmd.commands) +
                [BindPipeline(ComputePoint, base.pipeline), BindDescriptorSets(ComputePoint, base.pipelineLayout, base.descSets),
                 Dispatch(nx, ny, nz)]
    {
      cmd.Record(BindPipeline(ComputePoint, base.pipeline));
      cmd.Record(BindDescriptorSets(ComputePoint, base.pipelineLayout, base.descSets));
      cmd.Record(Dispatch(nx, ny, nz));
    }
  }

  // ---- graphics ----

  /** Graphics::CreateInfo without its device, the stencil op states and the dynamic states;
      `vsSpecialized`/`fsSpecialized` say whether the specialization infos have data. */
  datatype GraphicsInfo = GraphicsInfo(
    extent: Extent2D, vsSpecialized: bool, fsSpecialized: bool,
    colorFormats: seq<Format>, blend: bool,
    depthFormat: Format, depthWrite: bool, depthTest: bool,
    stencilFormat: Format, stencilTest: bool)

  /** The vertex input state: the binding and attributes only when there is at least one attribute. */
  function VertexInput(binding: VertexBinding, attrs: seq<Attribute>): Option<(VertexBinding, seq<Attribute>)>
  {
    if |attrs| > 0 then Some((binding, attrs)) else None
  }

  /** The vertex input state is filled exactly when some vertex shader has a non-built-in input. */
  lemma VertexInputIff(rs: seq<ShaderReflection>, sorted: seq<Attribute>, blockSize: nat -> nat)
    requires multiset(sorted) == multiset(VertexAttributes(rs))
    ensures VertexInput(VertexBinding(0, BytesOf(sorted, blockSize), false), Placed(sorted, blockSize)).Some? <==>
            VertexInputCount(rs) > 0
  {
    assert |sorted| == |multiset(sorted)| == |multiset(VertexAttributes(rs))| == |VertexAttributes(rs)|;
  }

  function GraphicsDescOf(info: GraphicsInfo, layout: nat, deprecated: bool, vsModule: nat, fsModule: nat,
                          binding: VertexBinding, attrs: seq<Attribute>): GraphicsDesc
  {
    GraphicsDesc(layout,
                 [StageFor(VertexStage, deprecated, vsModule, info.vsSpecialized),
                  StageFor(FragmentStage, deprecated, fsModule, info.fsSpecialized)],
                 VertexInput(binding, attrs),
                 info.depthTest, info.depthWrite, info.stencilTest, info.blend,
                 info.colorFormats, info.depthFormat, info.stencilFormat)
  }

  /** What Graphics::init records after reflect. */
  function GraphicsCalls(deprecated: bool, setLayouts: seq<nat>, layout: nat, vsModule: nat, fsModule: nat,
                         desc: GraphicsDesc, pipeline: nat): seq<Call>
  {
    [CreatePipelineLayout(setLayouts, layout)] +
    (if deprecated then [CreateShaderModule(VertexStage, vsModule), CreateShaderModule(FragmentStage, fsModule)] else []) +
    [CreateGraphicsPipeline(desc, pipeline)] +
    (if deprecated then [DestroyShaderModule(vsModule), DestroyShaderModule(fsModule)] else [])
  }

  /** Both graphics modules are destroyed after the pipeline is created, and exist only when deprecated. */
  lemma GraphicsModuleLifetime(deprecated: bool, setLayouts: seq<nat>, layout: nat, vsModule: nat, fsModule: nat,
                               desc: GraphicsDesc, pipeline: nat)
    ensures var calls := GraphicsCalls(deprecated, setLayouts, layout, vsModule, fsModule, desc, pipeline);
            ModulesCreated(calls) == ModulesDestroyed(calls) == (if deprecated then {vsModule, fsModule} else {})
  {
    var calls := GraphicsCalls(deprecated, setLayouts, layout, vsModule, fsModule, desc, pipeline);
    if deprecated {
      assert calls[1].CreateShaderModule? && calls[2].CreateShaderModule?;
      assert calls[4].DestroyShaderModule? && calls[5].DestroyShaderModule?;
    }
  }

  /** The part of Graphics::init after reflect. */
  method BuildGraphics(deprecated: bool, setLayouts: seq<nat>, info: GraphicsInfo, binding: VertexBinding,
                       attrs: seq<Attribute>, built: VkResult, gpu: Gpu)
    returns (layout: nat, vsModule: nat, fsModule: nat, pipeline: nat)
    modifies gpu
    ensures layout != NULL && (pipeline != NULL <==> built.Success?)
    ensures gpu.calls == old(gpu.calls) +
              GraphicsCalls(deprecated, setLayouts, layout, vsModule, fsModule,
                            GraphicsDescOf(info, layout, deprecated, vsModule, fsModule, binding, attrs), pipeline)
  {
    layout := gpu.Fresh();
    gpu.Emit(CreatePipelineLayout(setLayouts, layout));
    vsModule, fsModule := NULL, NULL;
    if deprecated {
      vsModule := gpu.Fresh();
      gpu.Emit(CreateShaderModule(VertexStage, vsModule));
    }
    if deprecated {
      fsModule := gpu.Fresh();
      gpu.Emit(CreateShaderModule(FragmentStage, fsModule));
    }
    pipeline := NULL;
    if built.Success? {
      pipeline := gpu.Fresh();
    }
    gpu.Emit(CreateGraphicsPipeline(GraphicsDescOf(info, layout, deprecated, vsModule, fsModule, binding, attrs), pipeline));
    if deprecated {
      gpu.Emit(DestroyShaderModule(vsModule));
    }
    if deprecated {
      gpu.Emit(DestroyShaderModule(fsModule));
    }
  }

  /** A mesh as the draw reads it: its vertex buffer and count, its index buffer and index count. */
  datatype Mesh = Mesh(vertexBuffer: nat, vertexCount: u32, indexBuffer: nat, indexCount: u32)

  /** The draw of a mesh: indexed when it has indices, otherwise over its vertices. */
  function MeshDraw(mesh: Mesh): seq<Command>
  {
    if mesh.indexCount > 0 then [BindVertexBuffer(mesh.vertexBuffer), BindIndexBuffer(mesh.indexBuffer), DrawIndexed(mesh.indexCount)]
    else [BindVertexBuffer(mesh.vertexBuffer), Draw(mesh.vertexCount)]
  }

  predicate IsDraw(c: Command)
  {
    c.Draw? || c.DrawIndexed?
  }

  /** A mesh is drawn exactly once, indexed iff it has indices, after its vertex buffer is bound. */
  lemma MeshDrawIndexedIff(mesh: Mesh)
    ensures var cs := MeshDraw(mesh);
            cs[0] == BindVertexBuffer(mesh.vertexBuffer) && IsDraw(cs[|cs| - 1]) &&
            (forall i :: 0 <= i < |cs| - 1 ==> !IsDraw(cs[i])) &&
            (cs[|cs| - 1].DrawIndexed? <==> mesh.indexCount > 0) &&
            (BindIndexBuffer(mesh.indexBuffer) in cs <==> mesh.indexCount > 0) &&
            (cs[|cs| - 1].Draw? ==> cs[|cs| - 1].vertexCount == mesh.vertexCount)
  {
  }

  /** One rendering pass: begin, bind the pipeline, bind the descriptor sets when there are any,
      the draw commands, end. */
  function Pass(area: Extent2D, color: Attachment, depth: Option<Attachment>, stencil: Option<Attachment>,
                pipeline: nat, layout: nat, sets: seq<nat>, draw: seq<Command>): seq<Command>
  {
    [BeginRendering(area, color, depth, stencil), BindPipeline(GraphicsPoint, pipeline)] +
    (if |sets| > 0 then [BindDescriptorSets(GraphicsPoint, layout, sets)] else []) +
    draw + [EndRendering]
  }

  /** A pass opens and closes the rendering once, binds the pipeline before its draws, and binds
      descriptor sets exactly when the pipeline has some. */
  lemma PassShape(area: Extent2D, color: Attachment, depth: Option<Attachment>, stencil: Option<Attachment>,
                  pipeline: nat, layout: nat, sets: seq<nat>, draw: seq<Command>)
    requires forall c :: c in draw ==> !c.BindDescriptorSets? && !c.BeginRendering? && !c.EndRendering?
    ensures var cs := Pass(area, color, depth, stencil, pipeline, layout, sets, draw);
            cs[0] == BeginRendering(area, color, depth, stencil) && cs[1] == BindPipeline(GraphicsPoint, pipeline) &&
            cs[|cs| - 1] == EndRendering &&
            (forall i :: 0 < i < |cs| ==> !cs[i].BeginRendering?) &&
            (forall i :: 0 <= i < |cs| - 1 ==> !cs[i].EndRendering?) &&
            (forall i :: 0 <= i < |cs| && IsDraw(cs[i]) ==> 2 <= i) &&
            ((exists i :: 0 <= i < |cs| && cs[i].BindDescriptorSets?) <==> |sets| > 0)
  {
    var cs := Pass(area, color, depth, stencil, pipeline, layout, sets, draw);
    var b := if |sets| > 0 then 1 else 0;
    assert |cs| == 3 + b + |draw|;
    forall i | 2 + b <= i < |cs| - 1
      ensures cs[i] == draw[i - 2 - b]
    {
    }
    if |sets| > 0 {
      assert cs[2].BindDescriptorSets?;
    } else {
      forall i | 0 <= i < |cs| ensures !cs[i].BindDescriptorSets? {
        if 2 <= i < |cs| - 1 {
          assert cs[i] in draw;
        }
      }
    }
  }

  class Graphics {
    const base: PipelineBase
    var renderArea: Extent2D
    var depthEnabled: bool
    var stencilEnabled: bool

    constructor ()
      ensures fresh(base)
      ensures base.pipeline == NULL && base.pipelineLayout == NULL && base.pool == NULL
      ensures base.descSets == [] && base.descSetLayouts == [] && base.immutableSamplers == []
    {
      base := new PipelineBase();
    }

    /** Graphics::init for a vertex shader `vs` and a fragment shader `fs`. */
    method Init(deprecation: ModuleDeprecation, vs: ShaderReflection, fs: ShaderReflection, info: GraphicsInfo,
                infos: seq<Key>, blockSize: nat -> nat, built: VkResult, gpu: Gpu)
      returns (ok: bool, ghost mid: seq<Call>, ghost created: seq<nat>, ghost setLayouts: seq<nat>, ghost pool: nat,
               ghost sets: seq<nat>, ghost sorted: seq<Attribute>, ghost vsModule: nat, ghost fsModule: nat)
      modifies this, base, gpu
      requires |infos| < UINT32_MAX
      ensures Reflected(infos, [vs, fs], old(gpu.calls), mid, created, setLayouts, pool, sets, ok)
      ensures base.descSetLayouts == setLayouts && base.pool == pool && base.descSets == sets
      ensures base.immutableSamplers == old(base.immutableSamplers) + created
      ensures SortedByLocation(sorted) && multiset(sorted) == multiset(VertexAttributes([vs, fs]))
      ensures !ok ==> gpu.calls == mid
      ensures ok ==> base.pipelineLayout != NULL && (base.pipeline != NULL <==> built.Success?) &&
                     gpu.calls == mid + GraphicsCalls(deprecation.deprecated, setLayouts, base.pipelineLayout,
                                                      vsModule, fsModule,
                                                      GraphicsDescOf(info, base.pipelineLayout, deprecation.deprecated,
                                                                     vsModule, fsModule,
                                                                     VertexBinding(0, BytesOf(sorted, blockSize), false),
                                                                     Placed(sorted, blockSize)),
                                                      base.pipeline)
      ensures ok ==> renderArea == info.extent && (depthEnabled <==> info.depthTest || info.depthWrite) &&
                     stencilEnabled == info.stencilTest
    {
      var binding, attrs;
      binding, attrs, ok, sorted, created := base.Reflect([vs, fs], infos, blockSize, gpu);
      mid := gpu.calls;
      setLayouts, pool, sets := base.descSetLayouts, base.pool, base.descSets;
      vsModule, fsModule := NULL, NULL;
      if !ok {
        return;
      }
      vsModule, fsModule := Finish(deprecation.deprecated, info, binding, attrs, built, gpu);
    }

    /** The part of Graphics::init after reflect: the pipeline and the persistent options. */
    method Finish(deprecated: bool, info: GraphicsInfo, binding: VertexBinding, attrs: seq<Attribute>, built: VkResult,
                  gpu: Gpu)
      returns (vsModule: nat, fsModule: nat)
      modifies this, base`pipeline, base`pipelineLayout, gpu
      ensures base.pipelineLayout != NULL && (base.pipeline != NULL <==> built.Success?)
      ensures gpu.calls == old(gpu.calls) +
                GraphicsCalls(deprecated, base.descSetLayouts, base.pipelineLayout, vsModule, fsModule,
                              GraphicsDescOf(info, base.pipelineLayout, deprecated, vsModule, fsModule, binding, attrs),
                              base.pipeline)
      ensures renderArea == info.extent && (depthEnabled <==> info.depthTest || info.depthWrite) &&
              stencilEnabled == info.stencilTest
    {
      var layout, p;
      layout, vsModule, fsModule, p := BuildGraphics(deprecated, base.descSetLayouts, info, binding, attrs, built, gpu);
      base.pipelineLayout, base.pipeline := layout, p;
      renderArea := info.extent;
      depthEnabled := info.depthTest || info.depthWrite;
      stencilEnabled := info.stencilTest;
    }

    /** The pass of an execute that has a depth-stencil image: the image is attached as depth
        attachment when depth is enabled and as stencil attachment when stencil is. */
    function DepthPass(color: Attachment, depthStencil: Attachment, draw: seq<Command>): seq<Command>
      reads this, base
    {
      Pass(renderArea, color, if depthEnabled then Some(depthStencil) else None,
           if stencilEnabled then Some(depthStencil) else None,
           base.pipeline, base.pipelineLayout, base.descSets, draw)
    }

    /** The pass of an execute with only a color attachment. */
    function ColorPass(color: Attachment, draw: seq<Command>): seq<Command>
      reads this, base
    {
      Pass(renderArea, color, None, None, base.pipeline, base.pipelineLayout, base.descSets, draw)
    }

    /** execute with color and depth-stencil attachments: a fullscreen triangle. */
    method ExecuteWithDepth(cmd: CommandBuffer, color: Images.Image, colorLoad: LoadOp,
                            depthStencil: Images.Image, depthStencilLoad: LoadOp)
      modifies cmd
      ensures cmd.commands == old(cmd.commands) +
                DepthPass(Attachment(color.view, color.lastLayout, colorLoad),
                          Attachment(depthStencil.view, depthStencil.lastLayout, depthStencilLoad), [Draw(3)])
    {
      RecordPass(cmd, DepthPass(Attachment(color.view, color.lastLayout, colorLoad),
                                Attachment(depthStencil.view, depthStencil.lastLayout, depthStencilLoad), [Draw(3)]));
    }

    /** execute with only a color attachment: a fullscreen triangle. */
    method Execute(cmd: CommandBuffer, color: Images.Image, colorLoad: LoadOp)
      modifies cmd
      ensures cmd.commands == old(cmd.commands) + ColorPass(Attachment(color.view, color.lastLayout, colorLoad), [Draw(3)])
    {
      RecordPass(cmd, ColorPass(Attachment(color.view, color.lastLayout, colorLoad), [Draw(3)]));
    }

    /** execute of a mesh with color and depth-stencil attachments. */
    method ExecuteMeshWithDepth(cmd: CommandBuffer, color: Images.Image, colorLoad: LoadOp,
                                depthStencil: Images.Image, depthStencilLoad: LoadOp, mesh: Mesh)
      modifies cmd
      ensures cmd.commands == old(cmd.commands) +
                DepthPass(Attachment(color.view, color.lastLayout, colorLoad),
                          Attachment(depthStencil.view, depthStencil.lastLayout, depthStencilLoad), MeshDraw(mesh))
    {
      RecordPass(cmd, DepthPass(Attachment(color.view, color.lastLayout, colorLoad),
                                Attachment(depthStencil.view, depthStencil.lastLayout, depthStencilLoad), MeshDraw(mesh)));
    }

    /** execute of a mesh with only a color attachment. */
    method ExecuteMesh(cmd: CommandBuffer, color: Images.Image, colorLoad: LoadOp, mesh: Mesh)
      modifies cmd
      ensures cmd.commands == old(cmd.commands) + ColorPass(Attachment(color.view, color.lastLayout, colorLoad), MeshDraw(mesh))
    {
      RecordPass(cmd, ColorPass(Attachment(color.view, color.lastLayout, colorLoad), MeshDraw(mesh)));
    }
  }

  /** Records a pass command by command. */
  method RecordPass(cmd: CommandBuffer, cs: seq<Command>)
    modifies cmd
    ensures cmd.commands == old(cmd.commands) + cs
  {
    for i := 0 to |cs|
      invariant cmd.commands == old(cmd.commands) + cs[..i]
    {
      assert cs[..i + 1] == cs[..i] + [cs[i]];
      cmd.Record(cs[i]);
    }
    assert cs[..|cs|] == cs;
  }
}
