/** UWorldWidgetCanvas: the canvas that hosts one widget per registered provider and, every
    frame, positions, orders and hides them. */
module Canvas {
  import opened WidgetTypes
  import opened AutoDestroyWidget
  import opened CanvasEntries

  /** A handle held by exactly one entry, with its detach callback bound. */
  ghost predicate SoleOwner(h: AutoDestroyWidgetPtrBase)
    reads h
  {
    h.Valid() && h.refCount == 1 && h.hasDestructor
  }

  /** Every entry's container was minted before `next`, and its handle is one of `repr`,
      held by that entry alone. */
  ghost predicate Owned(es: seq<Entry>, next: ContainerId, repr: set<AutoDestroyWidgetPtrBase>)
    reads repr
  {
    forall i :: 0 <= i < |es| ==> es[i].container < next && es[i].widget in repr && SoleOwner(es[i].widget)
  }

  /** Every handle of `repr` is still held by exactly one entry: a released handle has left
      the set, so a frame naming `repr` cannot reach it. */
  ghost predicate Live(repr: set<AutoDestroyWidgetPtrBase>)
    reads repr
  {
    forall h :: h in repr ==> SoleOwner(h)
  }

  lemma OwnedBySameKeys(a: seq<Entry>, b: seq<Entry>, next: ContainerId, repr: set<AutoDestroyWidgetPtrBase>)
    requires SameKeys(a, b) && Owned(a, next, repr)
    ensures Owned(b, next, repr)
  {
    forall i | 0 <= i < |b|
      ensures b[i].container < next && b[i].widget in repr && SoleOwner(b[i].widget)
    {
      assert a[i].widget == b[i].widget;
    }
  }

  lemma OwnedByPermutation(a: seq<Entry>, b: seq<Entry>, next: ContainerId, repr: set<AutoDestroyWidgetPtrBase>)
    requires multiset(a) == multiset(b) && Owned(a, next, repr)
    ensures Owned(b, next, repr)
  {
    forall i | 0 <= i < |b|
      ensures b[i].container < next && b[i].widget in repr && SoleOwner(b[i].widget)
    {
      assert b[i] in multiset(a);
      var k :| 0 <= k < |a| && a[k] == b[i];
    }
  }

  lemma OwnedByRemoval(es: seq<Entry>, i: nat, next: ContainerId, repr: set<AutoDestroyWidgetPtrBase>)
    requires DistinctKeys(es) && i < |es| && Owned(es, next, repr)
    ensures Owned(RemoveAt(es, i), next, repr)
  {
    RemoveAtKeepsKeys(es, i);
  }

  /** Replacing one entry by one with the same provider, container and handle keeps the
      keys distinct, the container set and the ownership. */
  lemma ReplaceKeepsOwnership(es: seq<Entry>, i: nat, x: Entry, next: ContainerId, repr: set<AutoDestroyWidgetPtrBase>)
    requires i < |es| && DistinctKeys(es) && Owned(es, next, repr)
    requires x.provider == es[i].provider && x.container == es[i].container && x.widget == es[i].widget
    ensures DistinctKeys(es[i := x]) && Owned(es[i := x], next, repr)
    ensures ContainerNodes(es[i := x]) == ContainerNodes(es)
  {
    assert SameKeys(es, es[i := x]);
    SameKeysPreserve(es, es[i := x]);
    OwnedBySameKeys(es, es[i := x], next, repr);
  }

  /** The `_count` loop of OrderWidgetsByProximityToCamera: walking the sorted entries, each
      one whose slot is valid gets the loop counter as its z-order; the counter advances for
      every entry. */
  method AssignZOrders(ordered: seq<Entry>) returns (ranked: seq<Entry>)
    ensures ranked == WithZOrders(ordered)
  {
    ranked := ordered;
    var count := 0;
    while count < |ranked|
      invariant 0 <= count <= |ranked| == |ordered|
      invariant forall k :: 0 <= k < count ==> ranked[k] == SetZOrder(ordered[k], k)
      invariant forall k :: count <= k < |ranked| ==> ranked[k] == ordered[k]
    {
      if ranked[count].slot.valid {
        ranked := ranked[count := SetZOrder(ranked[count], count)];
      }
      count := count + 1;
    }
  }

  class WorldWidgetCanvas {
    /** Entries, in array order. */
    var entries: seq<Entry>
    /** The children of the canvas panel (the widget bound as Canvas) that this canvas adds
        and removes; children placed on the panel in the designer are not tracked. */
    var panelChildren: set<Node>
    /** The identity the next container widget will get. */
    var nextContainer: ContainerId
    const parameters: CanvasSlotParameters
    const zOrderWidgetsByProximityToCamera: bool
    const updateSlotSettingsOnTick: bool
    /** The widget handles the entries hold; a handle leaves the set when it is released. */
    ghost var Repr: set<AutoDestroyWidgetPtrBase>

    function Config(): Settings {
      Settings(parameters, zOrderWidgetsByProximityToCamera, updateSlotSettingsOnTick)
    }

    /** No provider is registered twice; the panel holds exactly the entries' containers;
        every entry's handle is referenced by that entry alone, and no released handle is
        left among them. */
    ghost predicate Valid()
      reads this, Repr
    {
      && DistinctKeys(entries)
      && panelChildren == ContainerNodes(entries)
      && Owned(entries, nextContainer, Repr)
      && Live(Repr)
    }

    /** A canvas with the header's defaults: no proximity ordering, slot settings updated on tick. */
    constructor (parameters: CanvasSlotParameters)
      ensures Valid() && entries == [] && panelChildren == {}
      ensures this.parameters == parameters
      ensures !zOrderWidgetsByProximityToCamera && updateSlotSettingsOnTick
    {
      this.parameters := parameters;
      zOrderWidgetsByProximityToCamera := false;
      updateSlotSettingsOnTick := true;
      entries := [];
      panelChildren := {};
      nextContainer := 0;
      Repr := {};
    }

    /** A canvas whose author set both flags. */
    constructor Configured(parameters: CanvasSlotParameters, zOrderByProximity: bool, updateOnTick: bool)
      ensures Valid() && entries == [] && panelChildren == {}
      ensures Config() == Settings(parameters, zOrderByProximity, updateOnTick)
    {
      this.parameters := parameters;
      zOrderWidgetsByProximityToCamera := zOrderByProximity;
      updateSlotSettingsOnTick := updateOnTick;
      entries := [];
      panelChildren := {};
      nextContainer := 0;
      Repr := {};
    }

    /** Contains: false for an invalid provider, otherwise whether some entry has it. */
    function Contains(world: World, p: ProviderId): (r: bool)
      reads this
      ensures r <==> world.IsValid(p) && p in Providers(entries)
    {
      world.IsValid(p) && IndexOfProvider(entries, p).Some?
    }

    /** ToRefCountPtr: a fresh handle for `widget` whose destructor detaches it from this
        canvas (DetachHostedWidget, applied by ReleaseEntry). */
    method ToRefCountPtr(widget: WidgetId) returns (h: AutoDestroyWidgetPtrBase)
      ensures fresh(h) && h.widget == widget && SoleOwner(h)
    {
      h := new AutoDestroyWidgetPtrBase(widget, true);
    }

    /** MakeNewEntry: a new container on the panel holding the provider's widget. */
    method MakeNewEntry(world: World, p: ProviderId) returns (e: Entry)
      requires world.IsValid(p)
      modifies this`nextContainer, this`panelChildren
      ensures IsNewEntry(e, world, p, Config())
      ensures fresh(e.widget) && SoleOwner(e.widget)
      ensures e.container == old(nextContainer) && nextContainer == old(nextContainer) + 1
      ensures panelChildren == old(panelChildren) + {ContainerNode(e.container)}
    {
      var state := world.state(p);
      var handle := ToRefCountPtr(state.widget);
      var container := nextContainer;
      nextContainer := nextContainer + 1;
      panelChildren := panelChildren + {ContainerNode(container)};
      var slot := ApplyCanvasParametersTo(NEW_SLOT, Config());
      e := Entry(false, p, state.pivot, container, Visible, handle, slot, 0.0);
    }

    /** Discarding an entry drops the last reference to its handle, whose destructor then
        detaches the hosted widget from this (live) canvas. */
    method ReleaseEntry(e: Entry)
      requires SoleOwner(e.widget)
      modifies this`panelChildren, e.widget
      ensures e.widget.Valid() && e.widget.refCount == 0 && e.widget.destructorCalls == 1
      ensures panelChildren == DetachHostedWidget(old(panelChildren), true, e)
    {
      var remaining, invoked := e.widget.Release();
      if invoked {
        panelChildren := DetachHostedWidget(panelChildren, true, e);
      }
    }

    /** AddUnique: an invalid or already registered provider changes nothing; otherwise one
        new entry for it is appended and nothing else changes. */
    method AddUnique(world: World, p: ProviderId)
      requires Valid()
      modifies this
      ensures Valid() && fresh(Repr - old(Repr))
      ensures old(Contains(world, p)) || !world.IsValid(p) ==>
        entries == old(entries) && panelChildren == old(panelChildren) && nextContainer == old(nextContainer)
      ensures world.IsValid(p) && !old(Contains(world, p)) ==>
        && |entries| == |old(entries)| + 1
        && entries[|old(entries)|].container == old(nextContainer)
        && nextContainer == old(nextContainer) + 1
        && entries == old(entries) + [entries[|old(entries)|]]
        && IsNewEntry(entries[|old(entries)|], world, p, Config())
        && fresh(entries[|old(entries)|].widget)
        && panelChildren == old(panelChildren) + {ContainerNode(entries[|old(entries)|].container)}
      ensures Contains(world, p) <==> world.IsValid(p)
    {
      if !world.IsValid(p) {
        return;
      }
      if Contains(world, p) {
        return;
      }
      ghost var before := entries;
      var e := MakeNewEntry(world, p);
      assert p !in Providers(before);
      AppendKeepsKeys(before, e);
      entries := entries + [e];
      Repr := Repr + {e.widget};
      assert entries[|entries| - 1] == e;
      assert Providers(entries)[|entries| - 1] == p;
      assert Owned(entries, nextContainer, Repr) && Live(Repr) by {
        forall a | 0 <= a < |entries|
          ensures entries[a].container < nextContainer && entries[a].widget in Repr && SoleOwner(entries[a].widget)
        {
          if a < |before| {
            assert entries[a] == before[a];
          }
        }
      }
    }

    /** Remove: an invalid or unregistered provider changes nothing; otherwise its entry is
        dropped, the others keep their order, and its widget is detached exactly once. */
    method Remove(world: World, p: ProviderId)
      requires Valid()
      modifies this, Repr
      ensures Valid() && Repr <= old(Repr)
      ensures !old(Contains(world, p)) ==>
        entries == old(entries) && panelChildren == old(panelChildren) && unchanged(old(Repr))
      ensures old(Contains(world, p)) ==>
        && entries == Without(old(entries), p)
        && var k := IndexOfProvider(old(entries), p).value;
           && entries == RemoveAt(old(entries), k)
           && old(entries)[k].widget.refCount == 0 && old(entries)[k].widget.destructorCalls == 1
           && Repr == old(Repr) - {old(entries)[k].widget}
           && panelChildren == old(panelChildren) - {ContainerNode(old(entries)[k].container)}
      ensures !Contains(world, p)
    {
      if !world.IsValid(p) {
        return;
      }
      if !Contains(world, p) {
        return;
      }
      var k := IndexOfProvider(entries, p).value;
      WithoutDropsOnlyThatEntry(entries, p, k);
      DropEntryAt(k);
    }

    /** Takes the entry at `i` out of the array, keeping the others in order (TArray removal);
        that drops the last reference to its handle, so its widget is detached. The panel may
        already have lost the entry's container. */
    method DropEntryAt(i: nat)
      requires DistinctKeys(entries) && Owned(entries, nextContainer, Repr) && Live(Repr) && i < |entries|
      requires panelChildren == ContainerNodes(entries)
            || panelChildren == ContainerNodes(entries) - {ContainerNode(entries[i].container)}
      modifies this`entries, this`panelChildren, this`Repr, entries[i].widget
      ensures Valid() && Repr == old(Repr) - {old(entries)[i].widget}
      ensures entries == RemoveAt(old(entries), i)
      ensures panelChildren == old(panelChildren) - {ContainerNode(old(entries)[i].container)}
      ensures old(entries)[i].widget.refCount == 0 && old(entries)[i].widget.destructorCalls == 1
      ensures forall a :: 0 <= a < |entries| ==> entries[a].provider != old(entries)[i].provider
    {
      var dropped := entries[i];
      RemoveAtKeepsKeys(entries, i);
      OwnedByRemoval(entries, i, nextContainer, Repr);
      var rest := RemoveAt(entries, i);
      entries := rest;
      ReleaseEntry(dropped);
      Repr := Repr - {dropped.widget};
      forall a | 0 <= a < |rest|
        ensures rest[a].container < nextContainer && rest[a].widget in Repr && SoleOwner(rest[a].widget)
      {
        assert rest[a].widget != dropped.widget;
      }
    }

    /** Clear (TArray::Empty): every entry is discarded, each handle released once, so every
        container leaves the panel. */
    method Clear()
      requires Valid()
      modifies this, Repr
      ensures Valid() && Repr <= old(Repr) && nextContainer == old(nextContainer)
      ensures entries == [] && panelChildren == {}
      ensures forall k :: 0 <= k < |old(entries)| ==>
        old(entries)[k].widget.refCount == 0 && old(entries)[k].widget.destructorCalls == 1
    {
      var n := 0;
      while entries != []
        invariant Valid() && Repr <= old(Repr) && nextContainer == old(nextContainer)
        invariant n + |entries| == |old(entries)| && entries == old(entries)[n..]
        invariant forall k :: 0 <= k < n ==>
          old(entries)[k].widget.refCount == 0 && old(entries)[k].widget.destructorCalls == 1
        decreases |entries|
      {
        assert SoleOwner(entries[0].widget);
        DropEntryAt(0);
        n := n + 1;
      }
      assert ContainerNodes([]) == {};
    }

    /** RedrawWith: an empty list changes nothing; otherwise the old entries are discarded and
        new ones made for the distinct valid providers of the list, in the order they first
        occur. */
    method RedrawWith(world: World, providers: seq<ProviderId>)
      requires Valid()
      modifies this, Repr
      ensures Valid() && fresh(Repr - old(Repr))
      ensures providers == [] ==>
        entries == old(entries) && panelChildren == old(panelChildren) && unchanged(old(Repr))
      ensures providers != [] ==> Providers(entries) == FirstOccurrences(providers, world)
      ensures providers != [] ==> forall k :: 0 <= k < |entries| ==>
        IsNewEntry(entries[k], world, entries[k].provider, Config()) && fresh(entries[k].widget)
      ensures providers != [] ==> forall k :: 0 <= k < |old(entries)| ==>
        ContainerNode(old(entries)[k].container) !in panelChildren
      ensures providers != [] ==> forall k :: 0 <= k < |old(entries)| ==>
        old(entries)[k].widget.refCount == 0 && old(entries)[k].widget.destructorCalls == 1
    {
      if |providers| == 0 {
        return;
      }
      ghost var e0 := entries;
      ghost var floor := nextContainer;
      assert forall k :: 0 <= k < |e0| ==> e0[k].container < floor;
      Clear();
      AddAll(world, providers);
      forall k | 0 <= k < |e0|
        ensures ContainerNode(e0[k].container) !in panelChildren
      {
        OlderContainerAbsent(entries, floor, e0[k].container);
      }
    }

    /** The AddUnique loop of RedrawWith, run on an emptied canvas. */
    method AddAll(world: World, providers: seq<ProviderId>)
      requires Valid() && entries == []
      modifies this
      ensures Valid() && fresh(Repr - old(Repr))
      ensures Providers(entries) == FirstOccurrences(providers, world)
      ensures forall k :: 0 <= k < |entries| ==>
        IsNewEntry(entries[k], world, entries[k].provider, Config()) && fresh(entries[k].widget)
      ensures nextContainer >= old(nextContainer)
      ensures forall k :: 0 <= k < |entries| ==> entries[k].container >= old(nextContainer)
    {
      for i := 0 to |providers|
        invariant Valid() && fresh(Repr - old(Repr)) && nextContainer >= old(nextContainer)
        invariant forall k :: 0 <= k < |entries| ==> entries[k].container >= old(nextContainer)
        invariant Providers(entries) == FirstOccurrences(providers[..i], world)
        invariant forall k :: 0 <= k < |entries| ==>
          IsNewEntry(entries[k], world, entries[k].provider, Config()) && fresh(entries[k].widget)
      {
        ghost var before := entries;
        AddUnique(world, providers[i]);
        FirstOccurrencesStep(providers, i, world);
        if world.IsValid(providers[i]) && providers[i] !in Providers(before) {
          ProvidersAppend(before, entries[|before|]);
        }
        forall k | 0 <= k < |entries|
          ensures IsNewEntry(entries[k], world, entries[k].provider, Config()) && fresh(entries[k].widget)
          ensures entries[k].container >= old(nextContainer)
        {
          if k < |before| {
            assert entries[k] == before[k];
          } else {
            assert k == |before|;
          }
        }
      }
      assert providers[..|providers|] == providers;
    }

    /** PositionEntries: entries whose provider is no longer visible are removed (container
        off the panel, widget detached); every other entry is positioned in place. */
    method PositionEntries(world: World)
      requires Valid()
      modifies this, Repr
      ensures Valid() && Repr <= old(Repr)
      ensures entries == Positioned(old(entries), world, Config())
      ensures forall k :: 0 <= k < |old(entries)| && !StaysVisible(world, old(entries)[k]) ==>
        old(entries)[k].widget.refCount == 0 && old(entries)[k].widget.destructorCalls == 1
        && ContainerNode(old(entries)[k].container) !in panelChildren
    {
      ghost var e0 := entries;
      ghost var j := 0;
      ghost var released: set<AutoDestroyWidgetPtrBase> := {};
      var i := 0;
      while i < |entries|
        invariant 0 <= j <= |e0| && Valid() && Repr <= old(Repr)
        invariant entries == Positioned(e0[..j], world, Config()) + e0[j..]
        invariant i == |Positioned(e0[..j], world, Config())|
        invariant forall h :: h in released ==> h.refCount == 0 && h.destructorCalls == 1
        invariant forall k :: 0 <= k < j && !StaysVisible(world, e0[k]) ==> e0[k].widget in released
        decreases |e0| - j
      {
        i, released := PositionStep(world, i, e0, j, released);
        j := j + 1;
      }
      assert j == |e0| && e0[..j] == e0;
      forall k | 0 <= k < |e0| && !StaysVisible(world, e0[k])
        ensures e0[k].widget.refCount == 0 && e0[k].widget.destructorCalls == 1
        ensures ContainerNode(e0[k].container) !in panelChildren
      {
        assert e0[k].widget in released;
        PositionedDropsHidden(e0, world, Config(), k);
      }
    }

    /** One iteration of the PositionEntries loop, with its bookkeeping: the first `j`
        entries of `e0` have been visited, `released` holds the handles dropped so far. */
    method PositionStep(world: World, i: nat, ghost e0: seq<Entry>, ghost j: nat,
                        ghost released: set<AutoDestroyWidgetPtrBase>)
      returns (next: nat, ghost nowReleased: set<AutoDestroyWidgetPtrBase>)
      requires Valid() && j < |e0|
      requires entries == Positioned(e0[..j], world, Config()) + e0[j..]
      requires i == |Positioned(e0[..j], world, Config())|
      requires forall h :: h in released ==> h.refCount == 0 && h.destructorCalls == 1
      requires forall k :: 0 <= k < j && !StaysVisible(world, e0[k]) ==> e0[k].widget in released
      modifies this, entries[i].widget
      ensures Valid() && Repr <= old(Repr)
      ensures entries == Positioned(e0[..j + 1], world, Config()) + e0[j + 1..]
      ensures next == |Positioned(e0[..j + 1], world, Config())|
      ensures forall h :: h in nowReleased ==> h.refCount == 0 && h.destructorCalls == 1
      ensures forall k :: 0 <= k < j + 1 && !StaysVisible(world, e0[k]) ==> e0[k].widget in nowReleased
    {
      ghost var done := Positioned(e0[..j], world, Config());
      PositionedLoopStep(e0, j, done, world, Config());
      ghost var w := entries[i].widget;
      assert w !in released by {
        assert SoleOwner(w);
      }
      var kept := PositionOrDropAt(world, i);
      if kept {
        next := i + 1;
        nowReleased := released;
      } else {
        next := i;
        nowReleased := released + {w};
      }
      PositionedStep(e0, j, world, Config());
    }

    /** One pass of the PositionEntries loop over the entry at `i`: if its provider is
        hidden, the container leaves the panel and the entry leaves the array (releasing its
        handle); otherwise the entry is positioned in place. */
    method PositionOrDropAt(world: World, i: nat) returns (kept: bool)
      requires Valid() && i < |entries|
      modifies this, entries[i].widget
      ensures Valid() && Repr <= old(Repr)
      ensures kept == StaysVisible(world, old(entries)[i])
      ensures kept ==>
        entries == old(entries)[i := PositionEntry(old(entries)[i], world.state(old(entries)[i].provider), Config())]
      ensures !kept ==> entries == RemoveAt(old(entries), i)
      ensures !kept ==> old(entries)[i].widget.refCount == 0 && old(entries)[i].widget.destructorCalls == 1
      ensures !kept ==> ContainerNode(old(entries)[i].container) !in panelChildren
    {
      var e := entries[i];
      if !world.state(e.provider).visible {
        panelChildren := panelChildren - {ContainerNode(e.container)};
        DropEntryAt(i);
        return false;
      }
      var positioned := PositionEntry(e, world.state(e.provider), Config());
      ReplaceKeepsOwnership(entries, i, positioned, nextContainer, Repr);
      entries := entries[i := positioned];
      return true;
    }

    /** OrderWidgetsByProximityToCamera: off, nothing changes; on, the entries become a
        farthest-first permutation and each valid slot's z-order is its index. */
    method OrderWidgetsByProximityToCamera() returns (ghost sorted: seq<Entry>)
      requires Valid()
      modifies this`entries
      ensures Valid()
      ensures !zOrderWidgetsByProximityToCamera ==> entries == old(entries) && sorted == old(entries)
      ensures zOrderWidgetsByProximityToCamera ==>
        IsDistanceOrdering(old(entries), sorted) && entries == WithZOrders(sorted)
    {
      sorted := entries;
      if zOrderWidgetsByProximityToCamera {
        var ordered := SortByDistance(entries);
        var ranked := AssignZOrders(ordered);
        assert DistinctKeys(ranked) && ContainerNodes(ranked) == panelChildren
          && Owned(ranked, nextContainer, Repr) by {
          PermutationKeepsKeys(entries, ordered);
          OwnedByPermutation(entries, ordered, nextContainer, Repr);
          assert SameKeys(ordered, ranked);
          SameKeysPreserve(ordered, ranked);
          OwnedBySameKeys(ordered, ranked, nextContainer, Repr);
        }
        sorted := ordered;
        entries := ranked;
      }
    }

    /** ProcessSlateIsOnFastUpdatePath: every container is collapsed. */
    method ProcessSlateIsOnFastUpdatePath()
      requires Valid()
      modifies this`entries
      ensures Valid()
      ensures entries == CollapseAll(old(entries))
    {
      for i := 0 to |entries|
        invariant |entries| == |old(entries)|
        invariant forall k :: 0 <= k < i ==> entries[k] == old(entries)[k].(visibility := Collapsed)
        invariant forall k :: i <= k < |entries| ==> entries[k] == old(entries)[k]
      {
        entries := entries[i := entries[i].(visibility := Collapsed)];
      }
      assert SameKeys(old(entries), entries);
      SameKeysPreserve(old(entries), entries);
      OwnedBySameKeys(old(entries), entries, nextContainer, Repr);
    }

    /** NativeTick: position, then order, then (on the fast update path) collapse. */
    method NativeTick(world: World, fastUpdatePath: bool) returns (ghost ordered: seq<Entry>)
      requires Valid()
      modifies this, Repr
      ensures Valid() && Repr <= old(Repr)
      ensures !zOrderWidgetsByProximityToCamera ==> ordered == Positioned(old(entries), world, Config())
      ensures zOrderWidgetsByProximityToCamera ==>
        IsDistanceOrdering(Positioned(old(entries), world, Config()), ordered)
      ensures var ranked := if zOrderWidgetsByProximityToCamera then WithZOrders(ordered) else ordered;
        entries == if fastUpdatePath then CollapseAll(ranked) else ranked
      ensures fastUpdatePath ==> forall i :: 0 <= i < |entries| ==> entries[i].visibility == Collapsed
      ensures forall k :: 0 <= k < |old(entries)| && !StaysVisible(world, old(entries)[k]) ==>
        old(entries)[k].widget.refCount == 0 && old(entries)[k].widget.destructorCalls == 1
    {
      PositionEntries(world);
      ordered := OrderWidgetsByProximityToCamera();
      if fastUpdatePath {
        ProcessSlateIsOnFastUpdatePath();
      }
    }
  }
}
