// Descriptor set layouts and the descriptor pool built from the merged bindings of a pipeline's shaders
// (create_set_layouts and create_descriptor_pool).

module Descriptors {
  import opened Common
  import opened Vk
  import opened Reflection

  /** The set numbers with at least one binding: the keys of the source's outer map. */
  function SetNumbers(m: BindingMap): set<nat>
  {
    set k | k in m :: k.0
  }

  /** The binding numbers of set `s`: the keys of that set's inner map. */
  function BindingNumbers(m: BindingMap, s: nat): set<nat>
  {
    set k | k in m && k.0 == s :: k.1
  }

  /** The entries of set `s` listed in the order `order` gives their binding numbers. */
  function BindingsInOrder(m: BindingMap, s: nat, order: seq<nat>): seq<LayoutBinding>
    requires forall b :: b in order ==> (s, b) in m
  {
    if order == [] then []
    else
      var n := |order| - 1;
      assert forall b :: b in order[..n] ==> b in order;
      BindingsInOrder(m, s, order[..n]) + [m[(s, order[n])]]
  }

  lemma {:induction false} BindingsInOrderEach(m: BindingMap, s: nat, order: seq<nat>)
    requires forall b :: b in order ==> (s, b) in m
    ensures var r := BindingsInOrder(m, s, order);
            |r| == |order| && forall k :: 0 <= k < |order| ==> r[k] == m[(s, order[k])]
  {
    if order != [] {
      var n := |order| - 1;
      assert forall b :: b in order[..n] ==> b in order;
      BindingsInOrderEach(m, s, order[..n]);
    }
  }

  lemma BindingsInOrderSnoc(m: BindingMap, s: nat, order: seq<nat>, i: nat)
    requires forall b :: b in order ==> (s, b) in m
    requires i < |order|
    ensures forall b :: b in order[..i] ==> (s, b) in m
    ensures BindingsInOrder(m, s, order[..i + 1]) == BindingsInOrder(m, s, order[..i]) + [m[(s, order[i])]]
  {
    assert order[..i + 1][..i] == order[..i];
    assert forall b :: b in order[..i + 1] ==> b in order;
  }

  /** The bindings of one descriptor set layout: the set's entries by ascending binding number. */
  ghost function SetBindings(m: BindingMap, s: nat): seq<LayoutBinding>
  {
    var order := SortedKeys(BindingNumbers(m, s));
    SortedKeysMeaning(BindingNumbers(m, s));
    assert forall b :: b in order ==> (s, b) in m by {
      forall b | b in order ensures (s, b) in m {
        var k :| k in m && k.0 == s && k.1 == b;
      }
    }
    BindingsInOrder(m, s, order)
  }

  /** A layout's bindings are exactly the entries of its set, in strictly ascending binding number
      when every entry carries its own binding number (as a merged map's entries do). */
  lemma SetBindingsMeaning(m: BindingMap, s: nat)
    requires forall k :: k in m ==> m[k].binding == k.1
    ensures forall x :: x in SetBindings(m, s) <==> exists b :: (s, b) in m && m[(s, b)] == x
    ensures var bs := SetBindings(m, s); forall i, j :: 0 <= i < j < |bs| ==> bs[i].binding < bs[j].binding
    ensures |SetBindings(m, s)| == |BindingNumbers(m, s)|
  {
    var order := SortedKeys(BindingNumbers(m, s));
    SortedKeysMeaning(BindingNumbers(m, s));
    var bs := SetBindings(m, s);
    assert forall b :: b in order ==> (s, b) in m by {
      forall b | b in order ensures (s, b) in m {
        var k :| k in m && k.0 == s && k.1 == b;
      }
    }
    BindingsInOrderEach(m, s, order);
    assert forall k :: 0 <= k < |bs| ==> bs[k] == m[(s, order[k])];
    forall x ensures x in bs <==> exists b :: (s, b) in m && m[(s, b)] == x {
      if exists b :: (s, b) in m && m[(s, b)] == x {
        var b :| (s, b) in m && m[(s, b)] == x;
        assert b in BindingNumbers(m, s);
        var k :| 0 <= k < |order| && order[k] == b;
        assert bs[k] == x;
      }
    }
  }

  /** The bindings of each set named in `order`, one list per set. */
  ghost function PerSet(m: BindingMap, order: seq<nat>): seq<seq<LayoutBinding>>
  {
    if order == [] then [] else PerSet(m, order[..|order| - 1]) + [SetBindings(m, order[|order| - 1])]
  }

  lemma {:induction false} PerSetEach(m: BindingMap, order: seq<nat>)
    ensures |PerSet(m, order)| == |order| && forall k :: 0 <= k < |order| ==> PerSet(m, order)[k] == SetBindings(m, order[k])
  {
    if order != [] {
      var n := |order| - 1;
      PerSetEach(m, order[..n]);
      assert forall k :: 0 <= k < n ==> order[..n][k] == order[k];
    }
  }

  /** One vkCreateDescriptorSetLayout per list of bindings, with the handles returned. */
  function LayoutCalls(perSet: seq<seq<LayoutBinding>>, layouts: seq<nat>): seq<Call>
    requires |layouts| == |perSet|
  {
    if perSet == [] then []
    else
      var n := |perSet| - 1;
      LayoutCalls(perSet[..n], layouts[..n]) + [CreateSetLayout(perSet[n], layouts[n])]
  }

  lemma {:induction false} LayoutCallsEach(perSet: seq<seq<LayoutBinding>>, layouts: seq<nat>)
    requires |layouts| == |perSet|
    ensures var r := LayoutCalls(perSet, layouts);
            |r| == |perSet| && forall k :: 0 <= k < |perSet| ==> r[k] == CreateSetLayout(perSet[k], layouts[k])
  {
    if perSet != [] {
      var n := |perSet| - 1;
      LayoutCallsEach(perSet[..n], layouts[..n]);
    }
  }

  /** The `k`-th layout created holds the bindings of the `k`-th smallest set number used. */
  lemma LayoutOfRank(m: BindingMap, layouts: seq<nat>, k: nat)
    requires |layouts| == |SetNumbers(m)| && k < |layouts|
    ensures |PerSet(m, SortedKeys(SetNumbers(m)))| == |layouts|
    ensures |LayoutCalls(PerSet(m, SortedKeys(SetNumbers(m))), layouts)| == |layouts|
    ensures LayoutCalls(PerSet(m, SortedKeys(SetNumbers(m))), layouts)[k] ==
              CreateSetLayout(SetBindings(m, SortedKeys(SetNumbers(m))[k]), layouts[k])
  {
    SortedKeysMeaning(SetNumbers(m));
    PerSetEach(m, SortedKeys(SetNumbers(m)));
    LayoutCallsEach(PerSet(m, SortedKeys(SetNumbers(m))), layouts);
  }

  /** A set's binding numbers, ascending, each naming an entry of the set. */
  method BindingOrder(m: BindingMap, s: nat) returns (order: seq<nat>)
    ensures order == SortedKeys(BindingNumbers(m, s))
    ensures forall b :: b in order ==> (s, b) in m
  {
    order := AscendingOrder(BindingNumbers(m, s));
    AscendingIsSorted(BindingNumbers(m, s), order);
    SortedKeysMeaning(BindingNumbers(m, s));
    forall b | b in order ensures (s, b) in m {
      var k :| k in m && k.0 == s && k.1 == b;
    }
  }

  /** The copy loop of create_set_layouts: a set's bindings in ascending binding order. */
  method CopyBindings(m: BindingMap, s: nat) returns (bindings: seq<LayoutBinding>)
    ensures bindings == SetBindings(m, s)
  {
    var order := BindingOrder(m, s);
    bindings := [];
    var i := 0;
    assert order[..0] == [];
    while i < |order|
      invariant i <= |order|
      invariant bindings == BindingsInOrder(m, s, order[..i])
    {
      BindingsInOrderSnoc(m, s, order, i);
      bindings := bindings + [m[(s, order[i])]];
      i := i + 1;
    }
    assert order[..i] == order;
  }

  /** create_set_layouts: one layout per set, by ascending set number, each holding that set's
      bindings by ascending binding number. */
  method CreateSetLayouts(m: BindingMap, gpu: Gpu) returns (layouts: seq<nat>)
    modifies gpu
    ensures |layouts| == |SetNumbers(m)|
    ensures |PerSet(m, SortedKeys(SetNumbers(m)))| == |layouts|
    ensures gpu.calls == old(gpu.calls) + LayoutCalls(PerSet(m, SortedKeys(SetNumbers(m))), layouts)
  {
    var order := AscendingOrder(SetNumbers(m));
    AscendingIsSorted(SetNumbers(m), order);
    layouts := [];
    var i := 0;
    while i < |order|
      invariant i <= |order| && |layouts| == i && |PerSet(m, order[..i])| == i
      invariant gpu.calls == old(gpu.calls) + LayoutCalls(PerSet(m, order[..i]), layouts)
    {
      var bindings := CopyBindings(m, order[i]);
      var h := gpu.Fresh();
      gpu.Emit(CreateSetLayout(bindings, h));
      assert (order[..i + 1])[..i] == order[..i] && (layouts + [h])[..i] == layouts;
      assert PerSet(m, order[..i + 1]) == PerSet(m, order[..i]) + [bindings];
      layouts := layouts + [h];
      i := i + 1;
    }
    assert order[..i] == order;
  }

  /** Shaders that number their sets 0, 1, ..., n - 1 find the layout of set `k` at position `k`:
      descriptor sets are bound from index 0 in layout order, so only then does a shader's set
      number match the position of its layout. */
  lemma LayoutIndexIsSetNumber(m: BindingMap, n: nat)
    requires forall k :: k in SetNumbers(m) <==> k < n
    ensures |SortedKeys(SetNumbers(m))| == n
    ensures forall k :: 0 <= k < n ==> SortedKeys(SetNumbers(m))[k] == k
  {
    var r := seq(n, k => k);
    SortedKeysMeaning(SetNumbers(m));
    assert forall x :: x in r <==> x in SetNumbers(m) by {
      forall x ensures x in r <==> x in SetNumbers(m) {
        if x in SetNumbers(m) { assert r[x] == x; }
      }
    }
    AscendingIsSorted(SetNumbers(m), r);
  }

  /** A shader that uses set 1 alone gets its layout at position 0. */
  lemma LayoutIndexSkipsUnusedSets(m: BindingMap)
    requires SetNumbers(m) == {1}
    ensures SortedKeys(SetNumbers(m)) == [1]
  {
    AscendingIsSorted({1}, [1]);
  }

  // ---- descriptor pool ----

  /** Every entry of the merged map, set by set and binding by binding, both ascending: the order
      create_descriptor_pool visits them in. */
  ghost function FlatOf(m: BindingMap, order: seq<nat>): seq<LayoutBinding>
  {
    if order == [] then [] else FlatOf(m, order[..|order| - 1]) + SetBindings(m, order[|order| - 1])
  }

  ghost function FlatBindings(m: BindingMap): seq<LayoutBinding>
  {
    FlatOf(m, SortedKeys(SetNumbers(m)))
  }

  /** The number of descriptors of type `t` that the bindings ask for. */
  function CountOf(bs: seq<LayoutBinding>, t: DescriptorType): nat
  {
    if bs == [] then 0
    else
      var b := bs[|bs| - 1];
      CountOf(bs[..|bs| - 1], t) + (if b.descriptorType == t then b.count else 0)
  }

  /** The count of the first binding of type `t`, or 0 when there is none. */
  function FirstCountOf(bs: seq<LayoutBinding>, t: DescriptorType): nat
  {
    if bs == [] then 0
    else
      var init := bs[..|bs| - 1];
      var b := bs[|bs| - 1];
      if b.descriptorType == t && forall x :: x in init ==> x.descriptorType != t then b.count
      else FirstCountOf(init, t)
  }

  /** The descriptor-type tally, where the first binding of a type starts that type's count. */
  function Tally(bs: seq<LayoutBinding>): map<DescriptorType, nat>
  {
    if bs == [] then map[]
    else
      var m := Tally(bs[..|bs| - 1]);
      var b := bs[|bs| - 1];
      if b.descriptorType in m then m[b.descriptorType := m[b.descriptorType] + b.count]
      else m[b.descriptorType := b.count]
  }

  /** The tally as create_descriptor_pool writes it: `emplace(type, count)` seeds a new entry with the
      count and the `+= count` that follows adds it a second time. */
  function TallyAsWritten(bs: seq<LayoutBinding>): map<DescriptorType, nat>
  {
    if bs == [] then map[]
    else
      var m := TallyAsWritten(bs[..|bs| - 1]);
      var b := bs[|bs| - 1];
      if b.descriptorType in m then m[b.descriptorType := m[b.descriptorType] + b.count]
      else m[b.descriptorType := b.count + b.count]
  }

  /** The pool holds an entry for each descriptor type in use, sized to the descriptors asked for. */
  lemma {:induction false} TallyCounts(bs: seq<LayoutBinding>)
    ensures forall t :: t in Tally(bs) <==> exists b :: b in bs && b.descriptorType == t
    ensures forall t :: t in Tally(bs) ==> Tally(bs)[t] == CountOf(bs, t)
  {
    if bs != [] {
      var init := bs[..|bs| - 1];
      var b := bs[|bs| - 1];
      assert forall x :: x in bs <==> x in init || x == b;
      TallyCounts(init);
      forall t | t in Tally(bs) ensures Tally(bs)[t] == CountOf(bs, t) {
        assert CountOf(bs, t) == CountOf(init, t) + (if b.descriptorType == t then b.count else 0);
        if t == b.descriptorType && t !in Tally(init) {
          assert forall x :: x in init ==> x.descriptorType != t;
          CountOfNone(init, t);
        } else if t != b.descriptorType {
          assert Tally(bs)[t] == Tally(init)[t];
        }
      }
    }
  }

  /** As written, every type's pool size is one binding's count too large: the first. */
  lemma {:induction false} TallyAsWrittenCounts(bs: seq<LayoutBinding>)
    ensures forall t :: t in TallyAsWritten(bs) <==> exists b :: b in bs && b.descriptorType == t
    ensures forall t :: t in TallyAsWritten(bs) ==> TallyAsWritten(bs)[t] == CountOf(bs, t) + FirstCountOf(bs, t)
  {
    if bs != [] {
      var init := bs[..|bs| - 1];
      var b := bs[|bs| - 1];
      assert forall x :: x in bs <==> x in init || x == b;
      TallyAsWrittenCounts(init);
      forall t ensures t in TallyAsWritten(bs) ==> TallyAsWritten(bs)[t] == CountOf(bs, t) + FirstCountOf(bs, t) {
        assert CountOf(bs, t) == CountOf(init, t) + (if b.descriptorType == t then b.count else 0);
        if t == b.descriptorType && t !in TallyAsWritten(init) {
          assert forall x :: x in init ==> x.descriptorType != t;
          assert FirstCountOf(bs, t) == b.count;
          CountOfNone(init, t);
        } else if t == b.descriptorType {
          assert exists x :: x in init && x.descriptorType == t;
          assert FirstCountOf(bs, t) == FirstCountOf(init, t);
        } else if t in TallyAsWritten(init) {
          assert TallyAsWritten(bs)[t] == TallyAsWritten(init)[t];
          assert FirstCountOf(bs, t) == FirstCountOf(init, t);
        }
      }
    }
  }

  lemma {:induction false} CountOfNone(bs: seq<LayoutBinding>, t: DescriptorType)
    requires forall x :: x in bs ==> x.descriptorType != t
    ensures CountOf(bs, t) == 0
  {
    if bs != [] {
      assert forall x :: x in bs[..|bs| - 1] ==> x in bs;
      assert bs[|bs| - 1] in bs;
      CountOfNone(bs[..|bs| - 1], t);
    }
  }

  /** One uniform buffer of one descriptor: the pool as written reserves two. */
  lemma TallyOvercount()
    ensures var bs := [LayoutBinding(0, UNIFORM_BUFFER, 1, {VertexStage}, None)];
            TallyAsWritten(bs)[UNIFORM_BUFFER] == 2 && CountOf(bs, UNIFORM_BUFFER) == 1 && Tally(bs)[UNIFORM_BUFFER] == 1
  {
    var bs := [LayoutBinding(0, UNIFORM_BUFFER, 1, {VertexStage}, None)];
    assert bs[..0] == [];
  }

  /** A binding of a type already in the tally adds its count to that type's entry. */
  lemma TallyAsWrittenAdds(bs: seq<LayoutBinding>, b: LayoutBinding)
    requires b.descriptorType in TallyAsWritten(bs)
    ensures TallyAsWritten(bs + [b]) ==
            TallyAsWritten(bs)[b.descriptorType := TallyAsWritten(bs)[b.descriptorType] + b.count]
  {
    assert (bs + [b])[..|bs|] == bs;
  }

  /** The first binding of a type seeds that type's entry with its count, and the count is added again. */
  lemma TallyAsWrittenStarts(bs: seq<LayoutBinding>, b: LayoutBinding)
    requires b.descriptorType !in TallyAsWritten(bs)
    ensures TallyAsWritten(bs + [b]) == TallyAsWritten(bs)[b.descriptorType := b.count + b.count]
  {
    assert (bs + [b])[..|bs|] == bs;
  }

  /** The two tallies list the same types, and the one as written exceeds the intended one, type by
      type, by that type's first count. */
  lemma TallyAsWrittenExceeds(bs: seq<LayoutBinding>)
    ensures TallyAsWritten(bs).Keys == Tally(bs).Keys
    ensures forall t :: t in Tally(bs) ==> TallyAsWritten(bs)[t] == Tally(bs)[t] + FirstCountOf(bs, t)
  {
    TallyCounts(bs);
    TallyAsWrittenCounts(bs);
  }

  /** The pool sizes in ascending descriptor-type order, the order a std::map iterates in. */
  function SizesInOrder(tally: map<DescriptorType, nat>, order: seq<DescriptorType>): seq<PoolSize>
    requires forall t :: t in order ==> t in tally
  {
    if order == [] then []
    else
      var n := |order| - 1;
      assert forall t :: t in order[..n] ==> t in order;
      SizesInOrder(tally, order[..n]) + [PoolSize(order[n], tally[order[n]])]
  }

  lemma {:induction false} SizesInOrderEach(tally: map<DescriptorType, nat>, order: seq<DescriptorType>)
    requires forall t :: t in order ==> t in tally
    ensures var r := SizesInOrder(tally, order);
            |r| == |order| && forall k :: 0 <= k < |order| ==> r[k] == PoolSize(order[k], tally[order[k]])
  {
    if order != [] {
      var n := |order| - 1;
      assert forall t :: t in order[..n] ==> t in order;
      SizesInOrderEach(tally, order[..n]);
    }
  }

  ghost function PoolSizes(tally: map<DescriptorType, nat>): seq<PoolSize>
  {
    SizesInOrder(tally, SortedKeys(tally.Keys))
  }

  /** The pool sizes list each tallied descriptor type once, by ascending type, with its tally. */
  lemma PoolSizesMeaning(tally: map<DescriptorType, nat>)
    ensures var ps := PoolSizes(tally);
            (forall i, j :: 0 <= i < j < |ps| ==> ps[i].descriptorType < ps[j].descriptorType) &&
            (forall p :: p in ps ==> p.descriptorType in tally && p.count == tally[p.descriptorType]) &&
            (forall t :: t in tally ==> PoolSize(t, tally[t]) in ps)
  {
    var order := SortedKeys(tally.Keys);
    SortedKeysMeaning(tally.Keys);
    var ps := PoolSizes(tally);
    SizesInOrderEach(tally, order);
    forall t | t in tally ensures PoolSize(t, tally[t]) in ps {
      var k :| 0 <= k < |order| && order[k] == t;
      assert ps[k] == PoolSize(t, tally[t]);
    }
  }

  /** The descriptor pool has room, per descriptor type in use, for every descriptor of that type
      the bindings declare, and lists no type that is not in use. */
  lemma PoolCoversBindings(bs: seq<LayoutBinding>)
    ensures forall p :: p in PoolSizes(Tally(bs)) ==> p.count == CountOf(bs, p.descriptorType) &&
                                                      exists b :: b in bs && b.descriptorType == p.descriptorType
    ensures forall b :: b in bs ==> PoolSize(b.descriptorType, CountOf(bs, b.descriptorType)) in PoolSizes(Tally(bs))
  {
    TallyCounts(bs);
    PoolSizesMeaning(Tally(bs));
  }

  /** The descriptor pool as written lists only descriptor types in use, each with room for every
      descriptor of that type the bindings declare plus, again, those of its first binding. */
  lemma PoolAsWritten(bs: seq<LayoutBinding>)
    ensures forall p :: p in PoolSizes(TallyAsWritten(bs)) ==>
              p.count == CountOf(bs, p.descriptorType) + FirstCountOf(bs, p.descriptorType) &&
              exists b :: b in bs && b.descriptorType == p.descriptorType
    ensures forall b :: b in bs ==> PoolAsWrittenSize(bs, b.descriptorType) in PoolSizes(TallyAsWritten(bs))
  {
    var tally := TallyAsWritten(bs);
    TallyAsWrittenCounts(bs);
    PoolSizesMeaning(tally);
    forall b | b in bs ensures PoolAsWrittenSize(bs, b.descriptorType) in PoolSizes(tally) {
      assert b.descriptorType in tally;
    }
  }

  /** The pool size the code as written asks for a descriptor type in use. */
  function PoolAsWrittenSize(bs: seq<LayoutBinding>, t: DescriptorType): PoolSize
  {
    PoolSize(t, CountOf(bs, t) + FirstCountOf(bs, t))
  }

  lemma TallySetStep(m: BindingMap, s: nat, order: seq<nat>, before: seq<LayoutBinding>, j: nat)
    requires forall b :: b in order ==> (s, b) in m
    requires j < |order|
    ensures forall b :: b in order[..j] ==> (s, b) in m
    ensures forall b :: b in order[..j + 1] ==> (s, b) in m
    ensures before + BindingsInOrder(m, s, order[..j + 1]) == (before + BindingsInOrder(m, s, order[..j])) + [m[(s, order[j])]]
  {
    var b := m[(s, order[j])];
    assert forall x :: x in order[..j + 1] ==> x in order;
    BindingsInOrderSnoc(m, s, order, j);
  }

  /** The inner loop of the tally: one set's entries added by ascending binding number. */
  method TallySet(m: BindingMap, s: nat, ghost before: seq<LayoutBinding>, tally0: map<DescriptorType, nat>)
    returns (tally: map<DescriptorType, nat>)
    requires tally0 == TallyAsWritten(before)
    ensures tally == TallyAsWritten(before + SetBindings(m, s))
  {
    var order := BindingOrder(m, s);
    tally := tally0;
    var j := 0;
    ghost var seen := before;
    assert order[..0] == [];
    assert before + BindingsInOrder(m, s, order[..0]) == before;
    while j < |order|
      invariant j <= |order|
      invariant seen == before + BindingsInOrder(m, s, order[..j])
      invariant tally == TallyAsWritten(seen)
    {
      var b := m[(s, order[j])];
      TallySetStep(m, s, order, before, j);
      // emplace seeds a new entry with the count; the += that follows applies to new and old alike
      if b.descriptorType in tally {
        TallyAsWrittenAdds(seen, b);
      } else {
        TallyAsWrittenStarts(seen, b);
        tally := tally[b.descriptorType := b.count];
      }
      tally := tally[b.descriptorType := tally[b.descriptorType] + b.count];
      seen := seen + [b];
      j := j + 1;
    }
    assert order[..j] == order;
  }

  /** The tally loops of create_descriptor_pool: every entry, set by set, added to its type's count. */
  method TallyAll(m: BindingMap) returns (tally: map<DescriptorType, nat>)
    ensures tally == TallyAsWritten(FlatBindings(m))
  {
    var order := AscendingOrder(SetNumbers(m));
    AscendingIsSorted(SetNumbers(m), order);
    tally := map[];
    var i := 0;
    while i < |order|
      invariant i <= |order|
      invariant tally == TallyAsWritten(FlatOf(m, order[..i]))
    {
      assert order[..i + 1][..i] == order[..i];
      tally := TallySet(m, order[i], FlatOf(m, order[..i]), tally);
      i := i + 1;
    }
    assert order[..i] == order;
  }

  /** The pool-size list built from the tally, by ascending descriptor type. */
  method SizesOf(tally: map<DescriptorType, nat>) returns (sizes: seq<PoolSize>)
    ensures sizes == PoolSizes(tally)
  {
    var types := AscendingOrder(tally.Keys);
    AscendingIsSorted(tally.Keys, types);
    sizes := [];
    var k := 0;
    assert types[..0] == [];
    while k < |types|
      invariant k <= |types|
      invariant sizes == SizesInOrder(tally, types[..k])
    {
      assert types[..k + 1][..k] == types[..k];
      assert forall t :: t in types[..k + 1] ==> t in types;
      sizes := sizes + [PoolSize(types[k], tally[types[k]])];
      k := k + 1;
    }
    assert types[..k] == types;
  }

  /** create_descriptor_pool: room for one set per layout and, per descriptor type, the tally as
      written (see PoolAsWritten for what that holds, and PoolCoversBindings for the intended sizes). */
  method CreatePool(m: BindingMap, gpu: Gpu) returns (pool: nat)
    modifies gpu
    ensures gpu.calls == old(gpu.calls) + [CreateDescriptorPool(|SetNumbers(m)|, PoolSizes(TallyAsWritten(FlatBindings(m))), pool)]
  {
    var tally := TallyAll(m);
    var sizes := SizesOf(tally);
    pool := gpu.Fresh();
    gpu.Emit(CreateDescriptorPool(|SetNumbers(m)|, sizes, pool));
  }
}
