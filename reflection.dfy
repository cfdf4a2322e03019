// Reflection-driven pipeline layout: the vertex input description, the descriptor bindings merged
// across shader stages, the immutable samplers, the set layouts and the descriptor pool
// (src/chad_vis/device/pipeline.cpp). SPIRV-Reflect's results are input data.

module Reflection {
  import opened Common
  import opened Vk

  /** An entry-point input variable as SPIRV-Reflect reports it. */
  datatype InputVar = InputVar(location: nat, format: nat, builtin: bool)

  /** A descriptor binding as SPIRV-Reflect reports it. */
  datatype ReflectedBinding = ReflectedBinding(setNumber: nat, binding: nat, descriptorType: DescriptorType, count: nat)

  /** One shader module: its stage and what reflection finds in its `main` entry point. */
  datatype ShaderReflection = ShaderReflection(stage: ShaderStage, inputs: seq<InputVar>, bindings: seq<ReflectedBinding>)

  /** The (set, binding) pair that keys descriptor bindings and immutable samplers. */
  type Key = (nat, nat)

  // ---- vertex input ----

  /** The attribute description built for one input: binding 0, offset not yet computed. */
  function AttributeOf(v: InputVar): Attribute
  {
    Attribute(v.location, 0, v.format, 0)
  }

  /** How many of the inputs are not built-ins. */
  function NonBuiltinCount(vs: seq<InputVar>): nat
  {
    |set k | 0 <= k < |vs| && !vs[k].builtin|
  }

  /** The attribute descriptions gathered from one vertex shader's inputs: built-ins are skipped. */
  function Gathered(vs: seq<InputVar>): (r: seq<Attribute>)
    ensures |r| == NonBuiltinCount(vs)
    ensures forall a :: a in r <==> exists v :: v in vs && !v.builtin && a == AttributeOf(v)
  {
    if vs == [] then []
    else
      var n := |vs| - 1;
      var init := Gathered(vs[..n]);
      assert forall v :: v in vs <==> v in vs[..n] || v == vs[n];
      assert (set k | 0 <= k < |vs| && !vs[k].builtin) ==
             (set k | 0 <= k < n && !vs[..n][k].builtin) + (if vs[n].builtin then {} else {n});
      init + (if vs[n].builtin then [] else [AttributeOf(vs[n])])
  }

  /** Every attribute description gathered from the vertex-stage reflections, in reflection order;
      shaders of other stages contribute nothing. */
  function VertexAttributes(rs: seq<ShaderReflection>): (r: seq<Attribute>)
    ensures |r| == VertexInputCount(rs)
    ensures forall a :: a in r ==> a.binding == 0 && a.offset == 0
    ensures forall a :: a in r <==>
              exists i, v :: 0 <= i < |rs| && rs[i].stage == VertexStage && v in rs[i].inputs && !v.builtin && a == AttributeOf(v)
  {
    if rs == [] then []
    else
      var init := VertexAttributes(rs[..|rs| - 1]);
      var last := rs[|rs| - 1];
      assert forall i :: 0 <= i < |rs| - 1 ==> rs[..|rs| - 1][i] == rs[i];
      init + (if last.stage == VertexStage then Gathered(last.inputs) else [])
  }

  /** The number of non-built-in inputs over the vertex shaders. */
  function VertexInputCount(rs: seq<ShaderReflection>): nat
  {
    if rs == [] then 0
    else VertexInputCount(rs[..|rs| - 1]) + (if rs[|rs| - 1].stage == VertexStage then NonBuiltinCount(rs[|rs| - 1].inputs) else 0)
  }

  predicate SortedByLocation(s: seq<Attribute>)
  {
    forall i, j :: 0 <= i < j < |s| ==> s[i].location <= s[j].location
  }

  /** Inserts an attribute after every attribute of a lower or equal location. */
  function InsertByLocation(s: seq<Attribute>, a: Attribute): (r: seq<Attribute>)
    requires SortedByLocation(s)
    ensures SortedByLocation(r)
    ensures multiset(r) == multiset(s) + multiset{a}
  {
    if s == [] then [a]
    else if a.location < s[0].location then
      PrependSorted(a, s);
      [a] + s
    else
      var rest := InsertByLocation(s[1..], a);
      InsertAfterHead(s, a, rest);
      [s[0]] + rest
  }

  lemma PrependSorted(a: Attribute, s: seq<Attribute>)
    requires SortedByLocation(s) && s != [] && a.location < s[0].location
    ensures SortedByLocation([a] + s)
  {
    var r := [a] + s;
    forall i, j | 0 <= i < j < |r| ensures r[i].location <= r[j].location {
      if i > 0 {
        assert r[i] == s[i - 1] && r[j] == s[j - 1];
      } else {
        assert r[j] == s[j - 1];
      }
    }
  }

  lemma InsertAfterHead(s: seq<Attribute>, a: Attribute, rest: seq<Attribute>)
    requires SortedByLocation(s) && s != [] && s[0].location <= a.location
    requires SortedByLocation(rest) && multiset(rest) == multiset(s[1..]) + multiset{a}
    ensures SortedByLocation([s[0]] + rest)
    ensures multiset([s[0]] + rest) == multiset(s) + multiset{a}
  {
    assert s == [s[0]] + s[1..];
    BoundedAfterInsert(s[1..], a, rest, s[0].location);
    var r := [s[0]] + rest;
    forall i, j | 0 <= i < j < |r| ensures r[i].location <= r[j].location {
      if i > 0 {
        assert r[i] == rest[i - 1] && r[j] == rest[j - 1];
      } else {
        assert r[j] == rest[j - 1];
      }
    }
  }

  lemma BoundedAfterInsert(s: seq<Attribute>, a: Attribute, r: seq<Attribute>, low: nat)
    requires multiset(r) == multiset(s) + multiset{a}
    requires low <= a.location && forall k :: 0 <= k < |s| ==> low <= s[k].location
    ensures forall k :: 0 <= k < |r| ==> low <= r[k].location
  {
    forall k | 0 <= k < |r| ensures low <= r[k].location {
      assert r[k] in multiset(r);
      if r[k] != a {
        assert r[k] in multiset(s);
        var j :| 0 <= j < |s| && s[j] == r[k];
      }
    }
  }

  /** The std::sort of the attribute descriptions by location (ties in any order). */
  method SortByLocation(attrs: seq<Attribute>) returns (r: seq<Attribute>)
    ensures SortedByLocation(r)
    ensures multiset(r) == multiset(attrs)
  {
    r := [];
    for i := 0 to |attrs|
      invariant SortedByLocation(r)
      invariant multiset(r) == multiset(attrs[..i])
    {
      assert attrs[..i + 1] == attrs[..i] + [attrs[i]];
      r := InsertByLocation(r, attrs[i]);
    }
    assert attrs[..|attrs|] == attrs;
  }

  /** The bytes taken by a run of attributes, `blockSize` giving each format's size. */
  function BytesOf(s: seq<Attribute>, blockSize: nat -> nat): nat
  {
    if s == [] then 0 else BytesOf(s[..|s| - 1], blockSize) + blockSize(s[|s| - 1].format)
  }

  /** The attributes with their offsets filled in: each starts where the ones before it end. */
  function Placed(s: seq<Attribute>, blockSize: nat -> nat): (r: seq<Attribute>)
    ensures |r| == |s|
  {
    if s == [] then []
    else
      var init := s[..|s| - 1];
      Placed(init, blockSize) + [s[|s| - 1].(offset := BytesOf(init, blockSize))]
  }

  /** Each placed attribute keeps its location, binding and format and is offset by the size of those before it. */
  lemma {:induction false} PlacedOffsets(s: seq<Attribute>, blockSize: nat -> nat)
    ensures forall k :: 0 <= k < |s| ==> Placed(s, blockSize)[k] == s[k].(offset := BytesOf(s[..k], blockSize))
  {
    if s != [] {
      var init := s[..|s| - 1];
      PlacedOffsets(init, blockSize);
      forall k | 0 <= k < |init| ensures init[..k] == s[..k] { }
    }
  }

  /** The offset loop: every attribute gets the running stride, which then grows by its size. */
  method AssignOffsets(sorted: seq<Attribute>, blockSize: nat -> nat) returns (attrs: seq<Attribute>, stride: nat)
    ensures attrs == Placed(sorted, blockSize)
    ensures stride == BytesOf(sorted, blockSize)
  {
    attrs := [];
    stride := 0;
    for k := 0 to |sorted|
      invariant attrs == Placed(sorted[..k], blockSize)
      invariant stride == BytesOf(sorted[..k], blockSize)
    {
      assert sorted[..k + 1][..k] == sorted[..k];
      attrs := attrs + [sorted[k].(offset := stride)];
      stride := stride + blockSize(sorted[k].format);
    }
    assert sorted[..|sorted|] == sorted;
  }

  lemma {:induction false} BytesOfPrefix(s: seq<Attribute>, blockSize: nat -> nat, i: nat, j: nat)
    requires i <= j <= |s|
    ensures BytesOf(s[..i], blockSize) + (if i < j then blockSize(s[i].format) else 0) <= BytesOf(s[..j], blockSize)
    decreases j
  {
    if i < j {
      assert s[..j][..j - 1] == s[..j - 1];
      if i < j - 1 {
        BytesOfPrefix(s, blockSize, i, j - 1);
      } else {
        assert s[..j][j - 1] == s[i];
      }
    }
  }

  /** The attributes are packed: in location order each starts exactly where the previous one ends,
      no two overlap, and all of them fit in the stride. */
  lemma AttributesPacked(sorted: seq<Attribute>, blockSize: nat -> nat)
    ensures var r := Placed(sorted, blockSize);
            (|r| > 0 ==> r[0].offset == 0) &&
            (forall k :: 0 <= k < |r| - 1 ==> r[k + 1].offset == r[k].offset + blockSize(r[k].format)) &&
            (forall i, j :: 0 <= i < j < |r| ==> r[i].offset + blockSize(r[i].format) <= r[j].offset) &&
            (forall k :: 0 <= k < |r| ==> r[k].offset + blockSize(r[k].format) <= BytesOf(sorted, blockSize))
  {
    PlacedOffsets(sorted, blockSize);
    PlacedAdjacent(sorted, blockSize);
    PlacedDisjoint(sorted, blockSize);
    PlacedWithin(sorted, blockSize);
  }

  lemma PlacedAdjacent(sorted: seq<Attribute>, blockSize: nat -> nat)
    ensures var r := Placed(sorted, blockSize);
            forall k :: 0 <= k < |r| - 1 ==> r[k + 1].offset == r[k].offset + blockSize(r[k].format)
  {
    var r := Placed(sorted, blockSize);
    PlacedOffsets(sorted, blockSize);
    forall k | 0 <= k < |r| - 1 ensures r[k + 1].offset == r[k].offset + blockSize(r[k].format) {
      assert sorted[..k + 1][..k] == sorted[..k];
    }
  }

  lemma PlacedDisjoint(sorted: seq<Attribute>, blockSize: nat -> nat)
    ensures var r := Placed(sorted, blockSize);
            forall i, j :: 0 <= i < j < |r| ==> r[i].offset + blockSize(r[i].format) <= r[j].offset
  {
    var r := Placed(sorted, blockSize);
    PlacedOffsets(sorted, blockSize);
    forall i, j | 0 <= i < j < |r| ensures r[i].offset + blockSize(r[i].format) <= r[j].offset {
      BytesOfPrefix(sorted, blockSize, i, j);
    }
  }

  lemma PlacedWithin(sorted: seq<Attribute>, blockSize: nat -> nat)
    ensures var r := Placed(sorted, blockSize);
            forall k :: 0 <= k < |r| ==> r[k].offset + blockSize(r[k].format) <= BytesOf(sorted, blockSize)
  {
    var r := Placed(sorted, blockSize);
    PlacedOffsets(sorted, blockSize);
    assert sorted[..|sorted|] == sorted;
    forall k | 0 <= k < |r| ensures r[k].offset + blockSize(r[k].format) <= BytesOf(sorted, blockSize) {
      BytesOfPrefix(sorted, blockSize, k, |sorted|);
    }
  }

  /** get_vertex_desc: binding 0 at per-vertex rate; the attributes of every vertex shader, sorted by
      location and packed, with the stride their total size. Without a vertex shader the stride is 0
      and there are no attributes. */
  method VertexDesc(rs: seq<ShaderReflection>, blockSize: nat -> nat)
    returns (binding: VertexBinding, attrs: seq<Attribute>, sorted: seq<Attribute>)
    ensures binding == VertexBinding(0, BytesOf(sorted, blockSize), false)
    ensures SortedByLocation(sorted) && multiset(sorted) == multiset(VertexAttributes(rs))
    ensures attrs == Placed(sorted, blockSize)
  {
    binding := VertexBinding(0, 0, false);
    var gathered: seq<Attribute> := [];
    attrs, sorted := [], [];
    for i := 0 to |rs|
      invariant gathered == VertexAttributes(rs[..i])
      invariant binding == VertexBinding(0, BytesOf(sorted, blockSize), false)
      invariant SortedByLocation(sorted) && multiset(sorted) == multiset(gathered)
      invariant attrs == Placed(sorted, blockSize)
    {
      assert rs[..i + 1][..i] == rs[..i];
      if rs[i].stage != VertexStage {
        continue;
      }
      var more := GatherInputs(rs[i].inputs);
      gathered := gathered + more;
      var stride;
      sorted := SortByLocation(gathered);
      attrs, stride := AssignOffsets(sorted, blockSize);
      binding := VertexBinding(0, stride, false);
    }
    assert rs[..|rs|] == rs;
  }

  /** The inner loop of get_vertex_desc over one vertex shader's inputs. */
  method GatherInputs(vs: seq<InputVar>) returns (r: seq<Attribute>)
    ensures r == Gathered(vs)
  {
    r := [];
    for k := 0 to |vs|
      invariant r == Gathered(vs[..k])
    {
      assert vs[..k + 1][..k] == vs[..k];
      if vs[k].builtin {
        continue;
      }
      r := r + [AttributeOf(vs[k])];
    }
    assert vs[..|vs|] == vs;
  }

  /** Format codes and byte sizes for the worked example: R32G32_SFLOAT (8 bytes),
      R32G32B32_SFLOAT (12 bytes) and R32G32B32A32_SFLOAT (16 bytes). */
  const RG32F: nat := 103
  const RGB32F: nat := 106
  const RGBA32F: nat := 109

  function ExampleBlockSize(format: nat): nat
  {
    if format == RG32F then 8 else if format == RGB32F then 12 else if format == RGBA32F then 16 else 4
  }

  /** A vertex shader with inputs at locations 2, 0 and 1 of 12, 8 and 16 bytes, plus a built-in. */
  function ExampleShaders(): seq<ShaderReflection>
  {
    [ShaderReflection(VertexStage, [InputVar(2, RGB32F, false), InputVar(0, RG32F, false),
                                    InputVar(1, RGBA32F, false), InputVar(0, 0, true)], [])]
  }

  lemma GatheredSnoc(vs: seq<InputVar>, v: InputVar)
    ensures Gathered(vs + [v]) == Gathered(vs) + (if v.builtin then [] else [AttributeOf(v)])
  {
    assert (vs + [v])[..|vs|] == vs;
  }

  /** The example shader's attribute descriptions before sorting, in declaration order. */
  lemma ExampleGathered()
    ensures VertexAttributes(ExampleShaders()) ==
              [Attribute(2, 0, RGB32F, 0), Attribute(0, 0, RG32F, 0), Attribute(1, 0, RGBA32F, 0)]
  {
    var vs := ExampleShaders()[0].inputs;
    GatheredSnoc([], vs[0]);
    assert [] + [vs[0]] == vs[..1];
    GatheredSnoc(vs[..1], vs[1]);
    assert vs[..1] + [vs[1]] == vs[..2];
    GatheredSnoc(vs[..2], vs[2]);
    assert vs[..2] + [vs[2]] == vs[..3];
    GatheredSnoc(vs[..3], vs[3]);
    assert vs[..3] + [vs[3]] == vs;
    assert ExampleShaders()[..0] == [];
  }

  /** Distinct locations leave the sort no choice. */
  lemma {:induction false} ExampleSorted(sorted: seq<Attribute>)
    requires SortedByLocation(sorted)
    requires multiset(sorted) == multiset([Attribute(2, 0, RGB32F, 0), Attribute(0, 0, RG32F, 0), Attribute(1, 0, RGBA32F, 0)])
    ensures sorted == [Attribute(0, 0, RG32F, 0), Attribute(1, 0, RGBA32F, 0), Attribute(2, 0, RGB32F, 0)]
  {
    var a2, a0, a1 := Attribute(2, 0, RGB32F, 0), Attribute(0, 0, RG32F, 0), Attribute(1, 0, RGBA32F, 0);
    assert |sorted| == |multiset(sorted)| == 3;
    forall k | 0 <= k < 3 ensures sorted[k] == a0 || sorted[k] == a1 || sorted[k] == a2 {
      assert sorted[k] in multiset(sorted);
    }
    assert a0 in multiset(sorted) && a1 in multiset(sorted) && a2 in multiset(sorted);
    assert sorted[0] == a0;
    assert sorted[2] == a2;
    assert sorted[1] == a1;
  }

  /** The example's layout: sorted to locations 0, 1, 2, the attributes sit at offsets 0, 8 and 24
      and the stride is 36. */
  lemma {:induction false} VertexExample(sorted: seq<Attribute>)
    requires SortedByLocation(sorted) && multiset(sorted) == multiset(VertexAttributes(ExampleShaders()))
    ensures |sorted| == 3
    ensures var r := Placed(sorted, ExampleBlockSize);
            r[0].location == 0 && r[1].location == 1 && r[2].location == 2 &&
            r[0].offset == 0 && r[1].offset == 8 && r[2].offset == 24
    ensures BytesOf(sorted, ExampleBlockSize) == 36
  {
    ExampleGathered();
    ExampleSorted(sorted);
    assert sorted[..2][..1][..0] == [];
    assert BytesOf(sorted[..1], ExampleBlockSize) == 8;
    assert BytesOf(sorted[..2], ExampleBlockSize) == 24;
    assert sorted[..3] == sorted;
    PlacedOffsets(sorted, ExampleBlockSize);
  }

  /** How many descriptor bindings the shaders declare, in a uint32 that wraps. */
  method CountBindings(rs: seq<ShaderReflection>) returns (total: u32)
    ensures total == |Occurrences(rs)| % U32_LIMIT
  {
    total := 0;
    for i := 0 to |rs|
      invariant total == |Occurrences(rs[..i])| % U32_LIMIT
    {
      OccurrencesSnoc(rs, i);
      WrapAddLeft(|Occurrences(rs[..i])|, |rs[i].bindings|);
      total := (total + |rs[i].bindings|) % U32_LIMIT;
    }
    assert rs[..|rs|] == rs;
  }

  /** Adding to a wrapped uint32 wraps the sum. */
  lemma WrapAddLeft(a: nat, b: nat)
    ensures ((a % U32_LIMIT) + b) % U32_LIMIT == (a + b) % U32_LIMIT
  {
    var q, r := a / U32_LIMIT, a % U32_LIMIT;
    assert a == q * U32_LIMIT + r;
    var t, s := (r + b) / U32_LIMIT, (r + b) % U32_LIMIT;
    assert r + b == t * U32_LIMIT + s;
    assert a + b == (q + t) * U32_LIMIT + s;
  }

  /** No declared binding at all is exactly every shader declaring none. */
  lemma {:induction false} NoOccurrences(rs: seq<ShaderReflection>)
    ensures |Occurrences(rs)| == 0 <==> forall i :: 0 <= i < |rs| ==> rs[i].bindings == []
  {
    if rs != [] {
      var n := |rs| - 1;
      NoOccurrences(rs[..n]);
      assert forall i :: 0 <= i < n ==> rs[..n][i] == rs[i];
    }
  }

  // ---- descriptor bindings ----

  /** A reflected binding together with the stage of the shader that declares it. */
  datatype Occurrence = Occurrence(stage: ShaderStage, reflected: ReflectedBinding)
  {
    function KeyOf(): Key
    {
      (reflected.setNumber, reflected.binding)
    }
  }

  function OccurrencesOf(r: ShaderReflection): (os: seq<Occurrence>)
    ensures |os| == |r.bindings| && forall k :: 0 <= k < |os| ==> os[k] == Occurrence(r.stage, r.bindings[k])
  {
    seq(|r.bindings|, k requires 0 <= k < |r.bindings| => Occurrence(r.stage, r.bindings[k]))
  }

  /** Every binding of every shader, shader by shader: the order the reflection loops visit them in. */
  function Occurrences(rs: seq<ShaderReflection>): seq<Occurrence>
  {
    if rs == [] then [] else Occurrences(rs[..|rs| - 1]) + OccurrencesOf(rs[|rs| - 1])
  }

  lemma OccurrencesSnoc(rs: seq<ShaderReflection>, i: nat)
    requires i < |rs|
    ensures Occurrences(rs[..i + 1]) == Occurrences(rs[..i]) + OccurrencesOf(rs[i])
  {
    assert rs[..i + 1][..i] == rs[..i];
  }

  /** The merged layout bindings, keyed by (set, binding). The source keeps a map from set number to a
      map from binding number; a flat map over the pair holds the same entries (a set is present
      exactly when one of its bindings is). */
  type BindingMap = map<Key, LayoutBinding>

  /** Every combined image sampler that is declared has an immutable sampler to point at. */
  predicate SamplersCover(os: seq<Occurrence>, samplers: map<Key, nat>)
  {
    forall o :: o in os && o.reflected.descriptorType == COMBINED_IMAGE_SAMPLER ==> o.KeyOf() in samplers
  }

  /** The layout binding a declaration calls for, visible to `stages`. */
  function Entry(o: Occurrence, stages: ShaderStages, samplers: map<Key, nat>): LayoutBinding
    requires o.reflected.descriptorType == COMBINED_IMAGE_SAMPLER ==> o.KeyOf() in samplers
  {
    var rb := o.reflected;
    LayoutBinding(rb.binding, rb.descriptorType, rb.count, stages,
                  if rb.descriptorType == COMBINED_IMAGE_SAMPLER then Some(samplers[o.KeyOf()]) else None)
  }

  /** One visit of the get_unique_sets loop: the first declaration of a (set, binding) fixes its type,
      count and immutable sampler; a later one must agree on type and count and adds its stage. */
  function MergeStep(m: BindingMap, o: Occurrence, samplers: map<Key, nat>): Result<BindingMap, string>
    requires o.reflected.descriptorType == COMBINED_IMAGE_SAMPLER ==> o.KeyOf() in samplers
  {
    var key := o.KeyOf();
    if key in m then
      var existing := m[key];
      if existing.descriptorType != o.reflected.descriptorType then Failure("descriptor type mismatch")
      else if existing.count != o.reflected.count then Failure("descriptor count mismatch")
      else Result.Success(m[key := existing.(stages := existing.stages + {o.stage})])
    else
      Result.Success(m[key := Entry(o, {o.stage}, samplers)])
  }

  /** get_unique_sets over a sequence of declarations; the first failed assertion ends it. */
  function Merge(os: seq<Occurrence>, samplers: map<Key, nat>): Result<BindingMap, string>
    requires SamplersCover(os, samplers)
  {
    if os == [] then Result.Success(map[])
    else
      var init := os[..|os| - 1];
      assert forall o :: o in init ==> o in os;
      var prev := Merge(init, samplers);
      if prev.Failure? then prev else MergeStep(prev.value, os[|os| - 1], samplers)
  }

  /** Every two declarations of one (set, binding) agree on descriptor type and count. */
  predicate Consistent(os: seq<Occurrence>)
  {
    forall a, b :: a in os && b in os && a.KeyOf() == b.KeyOf() ==>
      a.reflected.descriptorType == b.reflected.descriptorType && a.reflected.count == b.reflected.count
  }

  /** The stages of the shaders that declare a (set, binding). */
  function StagesOf(os: seq<Occurrence>, key: Key): ShaderStages
  {
    set o | o in os && o.KeyOf() == key :: o.stage
  }

  /** The merged layout the declarations call for: one entry per declared (set, binding), of that
      binding's type and count, visible to every stage that declares it, and pointing at the
      immutable sampler of its key when it is a combined image sampler. */
  ghost predicate Describes(m: BindingMap, os: seq<Occurrence>, samplers: map<Key, nat>)
    requires SamplersCover(os, samplers)
  {
    (forall k :: k in m ==> exists o :: o in os && o.KeyOf() == k) &&
    (forall o :: o in os ==> o.KeyOf() in m && m[o.KeyOf()] == Entry(o, StagesOf(os, o.KeyOf()), samplers))
  }

  lemma StagesSnoc(init: seq<Occurrence>, o: Occurrence, key: Key)
    ensures StagesOf(init + [o], key) == StagesOf(init, key) + (if o.KeyOf() == key then {o.stage} else {})
  {
    var os := init + [o];
    assert forall x :: x in os <==> x in init || x == o;
  }

  /** The step of MergeMeaning: one more declaration keeps the merged layout describing all of them,
      and fails exactly when it disagrees with an earlier declaration of the same (set, binding). */
  lemma MergeStepMeaning(m: BindingMap, init: seq<Occurrence>, o: Occurrence, samplers: map<Key, nat>)
    requires SamplersCover(init + [o], samplers)
    requires SamplersCover(init, samplers)
    requires Consistent(init) && Describes(m, init, samplers)
    ensures MergeStep(m, o, samplers).Success? <==> Consistent(init + [o])
    ensures MergeStep(m, o, samplers).Success? ==> Describes(MergeStep(m, o, samplers).value, init + [o], samplers)
  {
    if o.KeyOf() in m {
      MergeExisting(m, init, o, samplers);
    } else {
      MergeFresh(m, init, o, samplers);
    }
  }

  /** A (set, binding) seen before: merged when the declarations agree, a failed assertion otherwise. */
  lemma MergeExisting(m: BindingMap, init: seq<Occurrence>, o: Occurrence, samplers: map<Key, nat>)
    requires SamplersCover(init + [o], samplers) && SamplersCover(init, samplers)
    requires Consistent(init) && Describes(m, init, samplers)
    requires o.KeyOf() in m
    ensures MergeStep(m, o, samplers).Success? <==> Consistent(init + [o])
    ensures MergeStep(m, o, samplers).Success? ==> Describes(MergeStep(m, o, samplers).value, init + [o], samplers)
  {
    var key := o.KeyOf();
    var o' :| o' in init && o'.KeyOf() == key;
    AgreesWithEntry(m, init, o, o', samplers);
    if MergeStep(m, o, samplers).Success? {
      ExtendEntry(m, init, o, samplers);
    }
  }

  /** A repeated declaration agrees with all earlier ones exactly when it agrees with the stored entry. */
  lemma AgreesWithEntry(m: BindingMap, init: seq<Occurrence>, o: Occurrence, o': Occurrence, samplers: map<Key, nat>)
    requires SamplersCover(init + [o], samplers) && SamplersCover(init, samplers)
    requires Consistent(init) && Describes(m, init, samplers)
    requires o' in init && o'.KeyOf() == o.KeyOf()
    ensures MergeStep(m, o, samplers).Success? <==> Consistent(init + [o])
  {
    var os := init + [o];
    assert o in os && o' in os;
    assert forall x :: x in os <==> x in init || x == o;
    assert m[o.KeyOf()] == Entry(o', StagesOf(init, o.KeyOf()), samplers);
  }

  /** The stored entry of a repeated, agreeing declaration gains its stage. */
  lemma ExtendEntry(m: BindingMap, init: seq<Occurrence>, o: Occurrence, samplers: map<Key, nat>)
    requires SamplersCover(init + [o], samplers) && SamplersCover(init, samplers)
    requires Consistent(init + [o]) && Describes(m, init, samplers)
    requires o.KeyOf() in m && MergeStep(m, o, samplers).Success?
    ensures Describes(MergeStep(m, o, samplers).value, init + [o], samplers)
  {
    var os := init + [o];
    assert o in os;
    assert forall x :: x in os <==> x in init || x == o;
    var n := MergeStep(m, o, samplers).value;
    forall x | x in os ensures x.KeyOf() in n && n[x.KeyOf()] == Entry(x, StagesOf(os, x.KeyOf()), samplers) {
      StagesSnoc(init, o, x.KeyOf());
    }
    assert forall k :: k in n ==> k in m;
  }

  /** A (set, binding) seen for the first time: a new entry for it. */
  lemma MergeFresh(m: BindingMap, init: seq<Occurrence>, o: Occurrence, samplers: map<Key, nat>)
    requires SamplersCover(init + [o], samplers) && SamplersCover(init, samplers)
    requires Consistent(init) && Describes(m, init, samplers)
    requires o.KeyOf() !in m
    ensures MergeStep(m, o, samplers).Success? && Consistent(init + [o])
    ensures Describes(MergeStep(m, o, samplers).value, init + [o], samplers)
  {
    var os := init + [o];
    assert o in os;
    assert forall x :: x in os <==> x in init || x == o;
    var key := o.KeyOf();
    var n := MergeStep(m, o, samplers).value;
    assert forall x :: x in init ==> x.KeyOf() != key;
    forall x | x in os ensures x.KeyOf() in n && n[x.KeyOf()] == Entry(x, StagesOf(os, x.KeyOf()), samplers) {
      StagesSnoc(init, o, x.KeyOf());
      if x == o {
        assert StagesOf(init, key) == {};
      }
    }
    assert forall k :: k in n ==> k in m || k == key;
  }

  /** get_unique_sets succeeds exactly when every two declarations of a (set, binding) agree on type
      and count, and its result is then the layout the declarations call for. */
  lemma {:induction false} MergeMeaning(os: seq<Occurrence>, samplers: map<Key, nat>)
    requires SamplersCover(os, samplers)
    ensures Merge(os, samplers).Success? <==> Consistent(os)
    ensures Merge(os, samplers).Success? ==> Describes(Merge(os, samplers).value, os, samplers)
  {
    if os != [] {
      var init := os[..|os| - 1];
      var o := os[|os| - 1];
      assert os == init + [o];
      assert forall x :: x in init ==> x in os;
      MergeMeaning(init, samplers);
      if Merge(init, samplers).Success? {
        MergeStepMeaning(Merge(init, samplers).value, init, o, samplers);
      }
    }
  }

  lemma {:induction false} OccurrencesAppend(a: seq<ShaderReflection>, b: seq<ShaderReflection>)
    ensures Occurrences(a + b) == Occurrences(a) + Occurrences(b)
    decreases |b|
  {
    if b == [] {
      assert a + b == a;
    } else {
      var b' := b[..|b| - 1];
      var last := b[|b| - 1];
      assert (a + b)[..|a + b| - 1] == a + b';
      assert (a + b)[|a + b| - 1] == last;
      assert Occurrences(a + b) == Occurrences(a + b') + OccurrencesOf(last);
      OccurrencesAppend(a, b');
      assert Occurrences(b) == Occurrences(b') + OccurrencesOf(last);
    }
  }

  lemma OccurrencesPrefix(rs: seq<ShaderReflection>, k: nat)
    requires k <= |rs|
    ensures Occurrences(rs) == Occurrences(rs[..k]) + Occurrences(rs[k..])
  {
    assert rs == rs[..k] + rs[k..];
    OccurrencesAppend(rs[..k], rs[k..]);
  }

  lemma CoverPrefix(p: seq<Occurrence>, q: seq<Occurrence>, samplers: map<Key, nat>)
    requires SamplersCover(p + q, samplers)
    ensures SamplersCover(p, samplers)
  {
    assert forall x :: x in p ==> x in p + q;
  }

  /** A failed assertion ends get_unique_sets: later declarations change nothing. */
  lemma {:induction false} MergeFailureSticks(p: seq<Occurrence>, q: seq<Occurrence>, samplers: map<Key, nat>)
    requires SamplersCover(p + q, samplers)
    requires SamplersCover(p, samplers) && Merge(p, samplers).Failure?
    ensures Merge(p + q, samplers) == Merge(p, samplers)
    decreases |q|
  {
    if q == [] {
      assert p + q == p;
    } else {
      var q' := q[..|q| - 1];
      assert (p + q)[..|p + q| - 1] == p + q';
      CoverPrefix(p + q', [q[|q| - 1]], samplers);
      assert p + q == (p + q') + [q[|q| - 1]];
      MergeFailureSticks(p, q', samplers);
    }
  }

  lemma MergeSnoc(p: seq<Occurrence>, o: Occurrence, samplers: map<Key, nat>)
    requires SamplersCover(p + [o], samplers)
    ensures SamplersCover(p, samplers)
    ensures Merge(p + [o], samplers) == if Merge(p, samplers).Failure? then Merge(p, samplers)
                                          else MergeStep(Merge(p, samplers).value, o, samplers)
  {
    CoverPrefix(p, [o], samplers);
    assert (p + [o])[..|p|] == p;
    assert o in p + [o];
  }

  /** Merging one more of a shader's declarations: the result is the step taken from the map so far,
      and a failure there is the failure of the whole shader. */
  lemma MergeOneMore(done: seq<Occurrence>, os: seq<Occurrence>, j: nat, samplers: map<Key, nat>)
    requires j < |os| && SamplersCover(done + os, samplers)
    requires SamplersCover(done + os[..j], samplers) && Merge(done + os[..j], samplers).Success?
    ensures SamplersCover(done + os[..j + 1], samplers)
    ensures Merge(done + os[..j + 1], samplers) == MergeStep(Merge(done + os[..j], samplers).value, os[j], samplers)
    ensures Merge(done + os[..j + 1], samplers).Failure? ==> Merge(done + os, samplers) == Merge(done + os[..j + 1], samplers)
  {
    assert done + os == (done + os[..j + 1]) + os[j + 1..];
    CoverPrefix(done + os[..j + 1], os[j + 1..], samplers);
    assert done + os[..j + 1] == (done + os[..j]) + [os[j]];
    MergeSnoc(done + os[..j], os[j], samplers);
    if Merge(done + os[..j + 1], samplers).Failure? {
      MergeFailureSticks(done + os[..j + 1], os[j + 1..], samplers);
    }
  }

  /** The inner loop of get_unique_sets: one shader's reflected bindings merged into the map so far. */
  method MergeShader(m: BindingMap, ghost done: seq<Occurrence>, r: ShaderReflection, samplers: map<Key, nat>)
    returns (res: Result<BindingMap, string>)
    requires SamplersCover(done + OccurrencesOf(r), samplers)
    requires SamplersCover(done, samplers) && Merge(done, samplers) == Result.Success(m)
    ensures res == Merge(done + OccurrencesOf(r), samplers)
  {
    ghost var os := OccurrencesOf(r);
    var acc := m;
    var j := 0;
    assert done + os[..0] == done;
    while j < |r.bindings|
      invariant j <= |os|
      invariant SamplersCover(done + os[..j], samplers)
      invariant Merge(done + os[..j], samplers) == Result.Success(acc)
    {
      var o := Occurrence(r.stage, r.bindings[j]);
      assert o == os[j];
      MergeOneMore(done, os, j, samplers);
      var step := MergeStep(acc, o, samplers);
      if step.Failure? {
        return step;
      }
      acc := step.value;
      j := j + 1;
    }
    assert os[..j] == os;
    res := Result.Success(acc);
  }

  /** get_unique_sets: every shader's reflected bindings, in order, merged into one map. */
  method UniqueSets(rs: seq<ShaderReflection>, samplers: map<Key, nat>) returns (r: Result<BindingMap, string>)
    requires SamplersCover(Occurrences(rs), samplers)
    ensures r == Merge(Occurrences(rs), samplers)
  {
    var m: BindingMap := map[];
    var i := 0;
    while i < |rs|
      invariant i <= |rs|
      invariant SamplersCover(Occurrences(rs[..i]), samplers)
      invariant Merge(Occurrences(rs[..i]), samplers) == Result.Success(m)
    {
      OccurrencesSnoc(rs, i);
      OccurrencesPrefix(rs, i + 1);
      CoverPrefix(Occurrences(rs[..i + 1]), Occurrences(rs[i + 1..]), samplers);
      var next := MergeShader(m, Occurrences(rs[..i]), rs[i], samplers);
      if next.Failure? {
        MergeFailureSticks(Occurrences(rs[..i + 1]), Occurrences(rs[i + 1..]), samplers);
        return next;
      }
      m := next.value;
      i := i + 1;
    }
    assert rs[..i] == rs;
    r := Result.Success(m);
  }

  // ---- immutable samplers (create_sampler_map) ----

  /** The sampler for a combined image sampler at `key`: the first caller-given sampler whose
      (set, binding) matches, or the engine's default one when none does. */
  function SamplerFor(infos: seq<Key>, key: Key): (d: SamplerDesc)
    ensures d.DefaultSampler? <==> key !in infos
    ensures d.CallerSampler? ==> d.index < |infos| && infos[d.index] == key &&
                                 forall i :: 0 <= i < d.index ==> infos[i] != key
  {
    if infos == [] then DefaultSampler
    else if infos[0] == key then CallerSampler(0)
    else
      var rest := SamplerFor(infos[1..], key);
      assert forall i :: 1 <= i < |infos| ==> infos[i] == infos[1..][i - 1];
      assert key in infos ==> key in infos[1..];
      if rest.CallerSampler? then CallerSampler(rest.index + 1) else DefaultSampler
  }

  /** The search loop over the caller's sampler infos, stopping at the first match. */
  method FindSamplerInfo(infos: seq<Key>, key: Key) returns (d: SamplerDesc)
    requires |infos| < UINT32_MAX
    ensures d == SamplerFor(infos, key)
  {
    var found := UINT32_MAX;
    var i := 0;
    while i < |infos|
      invariant 0 <= i <= |infos|
      invariant found == UINT32_MAX
      invariant forall k :: 0 <= k < i ==> infos[k] != key
    {
      if infos[i] == key {
        found := i;
        break;
      }
      i := i + 1;
    }
    if found != UINT32_MAX {
      d := CallerSampler(found);
    } else {
      d := DefaultSampler;
    }
    SamplerForFirst(infos, key, d);
  }

  /** SamplerFor is determined by its contract. */
  lemma SamplerForFirst(infos: seq<Key>, key: Key, d: SamplerDesc)
    requires d.DefaultSampler? <==> key !in infos
    requires d.CallerSampler? ==> d.index < |infos| && infos[d.index] == key &&
                                  forall i :: 0 <= i < d.index ==> infos[i] != key
    ensures d == SamplerFor(infos, key)
  {
  }

  /** The (set, binding) of every combined image sampler declared, in visiting order. */
  function CombinedKeys(os: seq<Occurrence>): seq<Key>
  {
    if os == [] then []
    else
      var o := os[|os| - 1];
      CombinedKeys(os[..|os| - 1]) + (if o.reflected.descriptorType == COMBINED_IMAGE_SAMPLER then [o.KeyOf()] else [])
  }

  lemma {:induction false} CombinedKeysMembers(os: seq<Occurrence>)
    ensures forall k :: k in CombinedKeys(os) <==>
              exists o :: o in os && o.reflected.descriptorType == COMBINED_IMAGE_SAMPLER && o.KeyOf() == k
  {
    if os != [] {
      var init := os[..|os| - 1];
      assert forall x :: x in os <==> x in init || x == os[|os| - 1];
      CombinedKeysMembers(init);
    }
  }

  lemma CombinedKeysSnoc(p: seq<Occurrence>, o: Occurrence)
    ensures CombinedKeys(p + [o]) == CombinedKeys(p) + (if o.reflected.descriptorType == COMBINED_IMAGE_SAMPLER then [o.KeyOf()] else [])
  {
    assert (p + [o])[..|p|] == p;
  }

  /** One sampler created per combined image sampler declared, in order, with the handles returned. */
  function SamplerCalls(infos: seq<Key>, keys: seq<Key>, handles: seq<nat>): seq<Call>
    requires |handles| == |keys|
  {
    if keys == [] then []
    else SamplerCalls(infos, keys[..|keys| - 1], handles[..|keys| - 1]) + [CreateSampler(SamplerFor(infos, keys[|keys| - 1]), handles[|keys| - 1])]
  }

  lemma {:induction false} SamplerCallsEach(infos: seq<Key>, keys: seq<Key>, handles: seq<nat>)
    requires |handles| == |keys|
    ensures var r := SamplerCalls(infos, keys, handles);
            |r| == |keys| && forall k :: 0 <= k < |keys| ==> r[k] == CreateSampler(SamplerFor(infos, keys[k]), handles[k])
  {
    if keys != [] {
      var n := |keys| - 1;
      SamplerCallsEach(infos, keys[..n], handles[..n]);
    }
  }

  /** The sampler map after a sequence of `emplace`s: a key keeps the handle of its first appearance. */
  function FirstStored(keys: seq<Key>, handles: seq<nat>): map<Key, nat>
    requires |handles| == |keys|
  {
    if keys == [] then map[]
    else
      var n := |keys| - 1;
      var m := FirstStored(keys[..n], handles[..n]);
      if keys[n] in m then m else m[keys[n] := handles[n]]
  }

  lemma {:induction false} FirstStoredMeaning(keys: seq<Key>, handles: seq<nat>)
    requires |handles| == |keys|
    ensures var m := FirstStored(keys, handles);
            (forall k :: k in m <==> k in keys) &&
            forall i :: 0 <= i < |keys| && (forall j :: 0 <= j < i ==> keys[j] != keys[i]) ==> m[keys[i]] == handles[i]
  {
    if keys != [] {
      var n := |keys| - 1;
      var m0 := FirstStored(keys[..n], handles[..n]);
      var m := FirstStored(keys, handles);
      FirstStoredMeaning(keys[..n], handles[..n]);
      assert forall k :: k in keys <==> k in keys[..n] || k == keys[n];
      forall i | 0 <= i < |keys| && (forall j :: 0 <= j < i ==> keys[j] != keys[i])
        ensures m[keys[i]] == handles[i]
      {
        if i < n {
          assert keys[..n][i] == keys[i] && handles[..n][i] == handles[i];
          assert forall j :: 0 <= j < i ==> keys[..n][j] == keys[j];
          assert m0[keys[i]] == handles[i];
        } else {
          assert keys[n] !in keys[..n];
        }
      }
    }
  }

  /** Every combined image sampler declared finds its sampler in the map: the get_unique_sets lookup never misses. */
  lemma SamplerMapCovers(os: seq<Occurrence>, handles: seq<nat>)
    requires |handles| == |CombinedKeys(os)|
    ensures SamplersCover(os, FirstStored(CombinedKeys(os), handles))
  {
    CombinedKeysMembers(os);
    FirstStoredMeaning(CombinedKeys(os), handles);
  }

  /** One more sampler created and emplaced. */
  lemma SamplerStep(infos: seq<Key>, keys: seq<Key>, created: seq<nat>, key: Key, h: nat)
    requires |created| == |keys|
    ensures SamplerCalls(infos, keys + [key], created + [h]) == SamplerCalls(infos, keys, created) + [CreateSampler(SamplerFor(infos, key), h)]
    ensures FirstStored(keys + [key], created + [h]) ==
              (var m := FirstStored(keys, created); if key in m then m else m[key := h])
  {
    assert (keys + [key])[..|keys|] == keys && (created + [h])[..|keys|] == created;
    assert (keys + [key])[|keys|] == key && (created + [h])[|keys|] == h;
  }

  /** One combined image sampler: its sampler created and emplaced in the map under its key. */
  method EmplaceSampler(infos: seq<Key>, ghost keys: seq<Key>, key: Key, ghost calls0: seq<Call>,
                        sm0: map<Key, nat>, created0: seq<nat>, gpu: Gpu)
    returns (sm: map<Key, nat>, created: seq<nat>)
    modifies gpu
    requires |infos| < UINT32_MAX
    requires |created0| == |keys| && sm0 == FirstStored(keys, created0)
    requires gpu.calls == calls0 + SamplerCalls(infos, keys, created0)
    ensures |created| == |keys + [key]| && sm == FirstStored(keys + [key], created)
    ensures gpu.calls == calls0 + SamplerCalls(infos, keys + [key], created)
  {
    var d := FindSamplerInfo(infos, key);
    var h := gpu.Fresh();
    gpu.Emit(CreateSampler(d, h));
    SamplerStep(infos, keys, created0, key, h);
    created := created0 + [h];
    sm := sm0;
    if key !in sm {
      sm := sm[key := h];
    }
  }

  /** The inner loop of create_sampler_map: the samplers of one shader's combined image samplers. */
  method SamplersOfShader(infos: seq<Key>, r: ShaderReflection, ghost done: seq<Occurrence>, ghost calls0: seq<Call>,
                          sm0: map<Key, nat>, created0: seq<nat>, gpu: Gpu)
    returns (sm: map<Key, nat>, created: seq<nat>)
    modifies gpu
    requires |infos| < UINT32_MAX
    requires |created0| == |CombinedKeys(done)| && sm0 == FirstStored(CombinedKeys(done), created0)
    requires gpu.calls == calls0 + SamplerCalls(infos, CombinedKeys(done), created0)
    ensures |created| == |CombinedKeys(done + OccurrencesOf(r))|
    ensures sm == FirstStored(CombinedKeys(done + OccurrencesOf(r)), created)
    ensures gpu.calls == calls0 + SamplerCalls(infos, CombinedKeys(done + OccurrencesOf(r)), created)
  {
    ghost var os := OccurrencesOf(r);
    sm, created := sm0, created0;
    var j := 0;
    assert done + os[..0] == done;
    while j < |r.bindings|
      invariant j <= |os|
      invariant |created| == |CombinedKeys(done + os[..j])| && sm == FirstStored(CombinedKeys(done + os[..j]), created)
      invariant gpu.calls == calls0 + SamplerCalls(infos, CombinedKeys(done + os[..j]), created)
    {
      var o := Occurrence(r.stage, r.bindings[j]);
      ghost var keys := CombinedKeys(done + os[..j]);
      KeysOfNextBinding(done, r, j);
      if r.bindings[j].descriptorType == COMBINED_IMAGE_SAMPLER {
        assert CombinedKeys(done + os[..j + 1]) == keys + [o.KeyOf()];
        sm, created := EmplaceSampler(infos, keys, o.KeyOf(), calls0, sm, created, gpu);
      } else {
        assert CombinedKeys(done + os[..j + 1]) == keys;
      }
      j := j + 1;
    }
    assert os[..j] == os;
  }

  /** The combined-sampler keys grow by the key of the next binding exactly when it is a combined image sampler. */
  lemma KeysOfNextBinding(done: seq<Occurrence>, r: ShaderReflection, j: nat)
    requires j < |r.bindings|
    ensures var os := OccurrencesOf(r);
            var o := Occurrence(r.stage, r.bindings[j]);
            CombinedKeys(done + os[..j + 1]) ==
              CombinedKeys(done + os[..j]) + (if r.bindings[j].descriptorType == COMBINED_IMAGE_SAMPLER then [o.KeyOf()] else [])
  {
    var os := OccurrencesOf(r);
    var o := Occurrence(r.stage, r.bindings[j]);
    assert done + os[..j + 1] == (done + os[..j]) + [o];
    CombinedKeysSnoc(done + os[..j], o);
  }

  /** create_sampler_map: one sampler per combined image sampler declared (caller-given or default),
      appended to the pipeline's immutable samplers, and a map from (set, binding) to its first sampler. */
  method CreateSamplerMap(infos: seq<Key>, rs: seq<ShaderReflection>, gpu: Gpu) returns (sm: map<Key, nat>, created: seq<nat>)
    modifies gpu
    requires |infos| < UINT32_MAX
    ensures |created| == |CombinedKeys(Occurrences(rs))|
    ensures sm == FirstStored(CombinedKeys(Occurrences(rs)), created)
    ensures gpu.calls == old(gpu.calls) + SamplerCalls(infos, CombinedKeys(Occurrences(rs)), created)
  {
    sm, created := map[], [];
    var i := 0;
    while i < |rs|
      invariant i <= |rs|
      invariant |created| == |CombinedKeys(Occurrences(rs[..i]))| && sm == FirstStored(CombinedKeys(Occurrences(rs[..i])), created)
      invariant gpu.calls == old(gpu.calls) + SamplerCalls(infos, CombinedKeys(Occurrences(rs[..i])), created)
    {
      OccurrencesSnoc(rs, i);
      sm, created := SamplersOfShader(infos, rs[i], Occurrences(rs[..i]), old(gpu.calls), sm, created, gpu);
      i := i + 1;
    }
    assert rs[..i] == rs;
  }
}
