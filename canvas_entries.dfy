/** The entries of UWorldWidgetCanvas as values: the FEntry record, the slot settings the
    canvas applies, and the specification functions that the canvas methods are proved
    against, with the lemmas that say what they mean. */
module CanvasEntries {
  import opened WidgetTypes
  import opened AutoDestroyWidget

  /** FEntry. The container widget (a UBorder the canvas creates) and the canvas slot are
      owned by this entry alone, so their state is kept inline: `container` names the
      container and `visibility` is its visibility; `widget` is the handle that holds the
      provider's widget. */
  datatype Entry = Entry(
    removing: bool,
    provider: ProviderId,
    pivot: Vec2,
    container: ContainerId,
    visibility: Visibility,
    widget: AutoDestroyWidgetPtrBase,
    slot: CanvasSlot,
    distance: real)

  /** The canvas's author-time settings: Parameters, bZOrderWidgetsByProximityToCamera and
      bUpdateSlotSettingsOnTick. */
  datatype Settings = Settings(
    parameters: CanvasSlotParameters,
    zOrderByProximity: bool,
    updateSlotSettingsOnTick: bool)

  // ---------------------------------------------------------------------------
  // Slot settings

  /** UCanvasPanelSlot::SetSize keeps the size in the right and bottom offsets. */
  function WithSize(slot: CanvasSlot, size: Vec2): CanvasSlot {
    slot.(offsets := slot.offsets.(right := size.x, bottom := size.y))
  }

  /** ApplyCanvasParametersTo: the slot takes the canvas's alignment, anchors and size, and
      sizes itself to its content when no size is configured or per-tick updates are on. */
  function ApplyCanvasParametersTo(slot: CanvasSlot, s: Settings): (r: CanvasSlot)
    ensures r.autoSize <==> s.parameters.slotSize.IsZero() || s.updateSlotSettingsOnTick
    ensures r.alignment == s.parameters.slotAlignment && r.anchors == s.parameters.slotAnchors
    ensures Vec2(r.offsets.right, r.offsets.bottom) == s.parameters.slotSize
    ensures r.offsets.left == slot.offsets.left && r.offsets.top == slot.offsets.top
    ensures r.valid == slot.valid && r.zOrder == slot.zOrder
  {
    var p := s.parameters;
    WithSize(slot.(autoSize := p.slotSize.IsZero() || s.updateSlotSettingsOnTick,
                   alignment := p.slotAlignment,
                   anchors := p.slotAnchors),
             p.slotSize)
  }

  /** SetCanvasSlotPositionAndParameters: an invalid slot is left alone; otherwise the slot
      is placed at the projected local position with zero anchors, keeps the configured
      size, and is aligned on the entry's pivot while the provider is set (on the configured
      alignment otherwise). */
  function SetCanvasSlotPositionAndParameters(
    slot: CanvasSlot, providerSet: bool, pivot: Vec2, local: Vec2, s: Settings): (r: CanvasSlot)
    ensures !slot.valid ==> r == slot
    ensures slot.valid ==>
      && r.valid && r.zOrder == slot.zOrder
      && r.offsets == Margin(local.x, local.y, s.parameters.slotSize.x, s.parameters.slotSize.y)
      && r.anchors == ZERO_ANCHORS
      && r.alignment == (if providerSet then pivot else s.parameters.slotAlignment)
      && (r.autoSize <==> s.parameters.slotSize.IsZero() || (providerSet && s.updateSlotSettingsOnTick))
  {
    if !slot.valid then slot
    else
      var size := s.parameters.slotSize;
      var placed := slot.(offsets := Margin(local.x, local.y, size.x, size.y), anchors := ZERO_ANCHORS);
      if providerSet then
        placed.(autoSize := size.IsZero() || s.updateSlotSettingsOnTick, alignment := pivot)
      else
        placed.(autoSize := size.IsZero(), alignment := s.parameters.slotAlignment)
  }

  /** Every field that ApplyCanvasParametersTo sets at creation is set again by the first
      successful positioning, so creation-time settings do not survive a positioned frame. */
  lemma PositioningOverridesCreationSettings(
    slot: CanvasSlot, providerSet: bool, pivot: Vec2, local: Vec2, s: Settings)
    requires slot.valid
    ensures SetCanvasSlotPositionAndParameters(ApplyCanvasParametersTo(slot, s), providerSet, pivot, local, s)
         == SetCanvasSlotPositionAndParameters(slot, providerSet, pivot, local, s)
  {
  }

  // ---------------------------------------------------------------------------
  // MakeNewEntry

  /** The slot that UCanvasPanel::AddChildToCanvas hands back: valid, at the origin, with
      z-order 0. ApplyCanvasParametersTo overwrites all of its other fields. */
  const NEW_SLOT := CanvasSlot(true, false, Vec2(0.0, 0.0), ZERO_ANCHORS, Margin(0.0, 0.0, 0.0, 0.0), 0)

  /** What MakeNewEntry builds for provider `p`: a live entry (bRemoving is false) with the
      provider's pivot and widget, a container that is still visible, a fresh slot with the
      canvas's settings applied, and no distance measured yet. */
  predicate IsNewEntry(e: Entry, world: World, p: ProviderId, s: Settings) {
    && e.provider == p
    && !e.removing
    && e.pivot == world.state(p).pivot
    && e.widget.widget == world.state(p).widget
    && e.visibility == Visible
    && e.slot == ApplyCanvasParametersTo(NEW_SLOT, s)
    && e.distance == 0.0
  }

  // ---------------------------------------------------------------------------
  // Membership

  /** The providers of the entries, in entry order. */
  function Providers(es: seq<Entry>): (ps: seq<ProviderId>)
    ensures |ps| == |es| && forall i :: 0 <= i < |es| ==> ps[i] == es[i].provider
  {
    seq(|es|, i requires 0 <= i < |es| => es[i].provider)
  }

  /** The search behind ContainsByPredicate: the first entry whose provider is `p`. */
  function IndexOfProvider(es: seq<Entry>, p: ProviderId): (r: Option<nat>)
    ensures r.Some? ==> r.value < |es| && es[r.value].provider == p
                        && forall k :: 0 <= k < r.value ==> es[k].provider != p
    ensures r.None? ==> forall k :: 0 <= k < |es| ==> es[k].provider != p
  {
    if es == [] then None
    else if es[0].provider == p then Some(0)
    else match IndexOfProvider(es[1..], p)
      case None => None
      case Some(k) => Some(k + 1)
  }

  /** No two entries share a provider (the property the canvas promises), a container or a
      widget handle (each entry owns its own). */
  predicate DistinctKeys(es: seq<Entry>) {
    forall i, j :: 0 <= i < j < |es| ==>
      es[i].provider != es[j].provider && es[i].container != es[j].container && es[i].widget != es[j].widget
  }

  /** `a` and `b` hold, position by position, entries with the same provider, container and handle. */
  predicate SameKeys(a: seq<Entry>, b: seq<Entry>) {
    |a| == |b| &&
    forall i :: 0 <= i < |a| ==>
      a[i].provider == b[i].provider && a[i].container == b[i].container && a[i].widget == b[i].widget
  }

  /** The canvas-panel children that the entries' containers are. */
  function ContainerNodes(es: seq<Entry>): set<Node> {
    set e | e in es :: ContainerNode(e.container)
  }

  /** A container numbered below every entry's container is not among their nodes. */
  lemma OlderContainerAbsent(es: seq<Entry>, floor: ContainerId, c: ContainerId)
    requires forall k :: 0 <= k < |es| ==> es[k].container >= floor
    requires c < floor
    ensures ContainerNode(c) !in ContainerNodes(es)
  {
    forall e | e in es
      ensures e.container != c
    {
      var k :| 0 <= k < |es| && es[k] == e;
    }
  }

  lemma SameKeysPreserve(a: seq<Entry>, b: seq<Entry>)
    requires SameKeys(a, b)
    ensures DistinctKeys(a) == DistinctKeys(b)
    ensures ContainerNodes(a) == ContainerNodes(b)
  {
    forall n | n in ContainerNodes(a) ensures n in ContainerNodes(b) {
      var e :| e in a && n == ContainerNode(e.container);
      var i :| 0 <= i < |a| && a[i] == e;
      assert b[i] in b;
    }
    forall n | n in ContainerNodes(b) ensures n in ContainerNodes(a) {
      var e :| e in b && n == ContainerNode(e.container);
      var i :| 0 <= i < |b| && b[i] == e;
      assert a[i] in a;
    }
  }

  /** TArray removal at `i`: that entry leaves, the others keep their order. */
  function RemoveAt(es: seq<Entry>, i: nat): (r: seq<Entry>)
    requires i < |es|
    ensures |r| == |es| - 1
    ensures forall a :: 0 <= a < i ==> r[a] == es[a]
    ensures forall a :: i <= a < |r| ==> r[a] == es[a + 1]
  {
    es[..i] + es[i + 1..]
  }

  /** Removing the entry at `i` keeps the others distinct from each other and from it, and
      takes exactly its container out of the container set. */
  lemma RemoveAtKeepsKeys(es: seq<Entry>, i: nat)
    requires DistinctKeys(es) && i < |es|
    ensures DistinctKeys(RemoveAt(es, i))
    ensures ContainerNodes(RemoveAt(es, i)) == ContainerNodes(es) - {ContainerNode(es[i].container)}
    ensures forall a :: 0 <= a < |RemoveAt(es, i)| ==>
      RemoveAt(es, i)[a].provider != es[i].provider && RemoveAt(es, i)[a].widget != es[i].widget
  {
    var r := RemoveAt(es, i);
    forall n | n in ContainerNodes(es) - {ContainerNode(es[i].container)}
      ensures n in ContainerNodes(r)
    {
      var e :| e in es && n == ContainerNode(e.container);
      var k :| 0 <= k < |es| && es[k] == e;
      assert k != i;
      assert r[if k < i then k else k - 1] == e;
    }
    forall n | n in ContainerNodes(r) ensures n in ContainerNodes(es) - {ContainerNode(es[i].container)} {
      var e :| e in r && n == ContainerNode(e.container);
      var k :| 0 <= k < |r| && r[k] == e;
      assert e == es[if k < i then k else k + 1];
    }
  }

  lemma DistinctKeysTail(es: seq<Entry>)
    requires DistinctKeys(es) && es != []
    ensures DistinctKeys(es[1..])
    ensures forall k :: 0 <= k < |es[1..]| ==> es[1..][k].provider != es[0].provider
  {
    assert forall k :: 0 <= k < |es[1..]| ==> es[1..][k] == es[k + 1];
  }

  /** An entry that occurs twice in `s` sits at two different indices. */
  lemma MultiplicityGivesTwoIndices(s: seq<Entry>, x: Entry)
    requires multiset(s)[x] >= 2
    ensures exists i, j :: 0 <= i < j < |s| && s[i] == x && s[j] == x
  {
    assert s == [s[0]] + s[1..];
    if s[0] == x {
      assert multiset(s[1..])[x] >= 1;
      assert x in s[1..];
      var j :| 0 <= j < |s[1..]| && s[1..][j] == x;
      assert s[j + 1] == x;
    } else {
      MultiplicityGivesTwoIndices(s[1..], x);
      var i, j :| 0 <= i < j < |s[1..]| && s[1..][i] == x && s[1..][j] == x;
      assert s[i + 1] == x && s[j + 1] == x;
    }
  }

  /** A permutation of entries with distinct keys has distinct keys and the same containers. */
  lemma PermutationKeepsKeys(a: seq<Entry>, b: seq<Entry>)
    requires DistinctKeys(a) && multiset(a) == multiset(b)
    ensures DistinctKeys(b)
    ensures ContainerNodes(a) == ContainerNodes(b)
  {
    forall i, j | 0 <= i < j < |b|
      ensures b[i].provider != b[j].provider && b[i].container != b[j].container && b[i].widget != b[j].widget
    {
      assert b[i] in multiset(a) && b[j] in multiset(a);
      var i' :| 0 <= i' < |a| && a[i'] == b[i];
      var j' :| 0 <= j' < |a| && a[j'] == b[j];
      if b[i] == b[j] {
        assert b == b[..j] + [b[j]] + b[j + 1..];
        assert b[..j] == b[..i] + [b[i]] + b[i + 1..j];
        assert multiset(b)[b[i]] >= 2;
        MultiplicityGivesTwoIndices(a, b[i]);
        assert false;
      } else {
        assert i' != j';
        if i' < j' {
          assert a[i'].provider != a[j'].provider;
        } else {
          assert a[j'].provider != a[i'].provider;
        }
      }
    }
    forall n | n in ContainerNodes(b) ensures n in ContainerNodes(a) {
      var e :| e in b && n == ContainerNode(e.container);
      assert e in multiset(a);
    }
    forall n | n in ContainerNodes(a) ensures n in ContainerNodes(b) {
      var e :| e in a && n == ContainerNode(e.container);
      assert e in multiset(b);
    }
  }

  // ---------------------------------------------------------------------------
  // Remove: TArray::RemoveAll with the provider predicate

  /** The entries left after removing every entry whose provider is `p`. */
  function Without(es: seq<Entry>, p: ProviderId): (r: seq<Entry>)
    ensures forall i :: 0 <= i < |r| ==> r[i] in es && r[i].provider != p
    ensures forall i :: 0 <= i < |es| && es[i].provider != p ==> es[i] in r
    ensures |r| <= |es|
  {
    if es == [] then []
    else if es[0].provider == p then Without(es[1..], p)
    else [es[0]] + Without(es[1..], p)
  }

  /** With no entry for `p`, RemoveAll changes nothing. */
  lemma {:induction false} WithoutAbsent(es: seq<Entry>, p: ProviderId)
    requires forall k :: 0 <= k < |es| ==> es[k].provider != p
    ensures Without(es, p) == es
  {
    if es != [] {
      WithoutAbsent(es[1..], p);
      assert [es[0]] + es[1..] == es;
    }
  }

  lemma RemoveAtPastHead(es: seq<Entry>, k: nat)
    requires 0 < k < |es|
    ensures RemoveAt(es, k) == [es[0]] + RemoveAt(es[1..], k - 1)
  {
    var l := RemoveAt(es, k);
    var r := [es[0]] + RemoveAt(es[1..], k - 1);
    assert |l| == |r|;
    forall a | 0 <= a < |l| ensures l[a] == r[a] {
      if a > 0 {
        assert r[a] == RemoveAt(es[1..], k - 1)[a - 1];
      }
    }
  }

  /** With distinct providers, RemoveAll drops exactly the entry at the provider's index and
      keeps every other entry in its original order. */
  lemma {:induction false} WithoutDropsOnlyThatEntry(es: seq<Entry>, p: ProviderId, k: nat)
    requires DistinctKeys(es) && k < |es| && es[k].provider == p
    ensures Without(es, p) == RemoveAt(es, k)
  {
    DistinctKeysTail(es);
    var tail := es[1..];
    if k == 0 {
      WithoutAbsent(tail, p);
      assert RemoveAt(es, 0) == tail;
    } else {
      assert es[0].provider != es[k].provider;
      assert tail[k - 1] == es[k];
      WithoutDropsOnlyThatEntry(tail, p, k - 1);
      RemoveAtPastHead(es, k);
    }
  }

  // ---------------------------------------------------------------------------
  // RedrawWith: AddUnique for every provider of the list, in order

  /** The valid providers of `ps`, each once, in the order of their first occurrence. */
  function FirstOccurrences(ps: seq<ProviderId>, world: World): (r: seq<ProviderId>)
    ensures forall q :: q in r <==> q in ps && world.IsValid(q)
    ensures forall i, j :: 0 <= i < j < |r| ==> r[i] != r[j]
    ensures forall i, j, k :: 0 <= i < j < |r| && 0 <= k < |ps| && ps[k] == r[j] ==> r[i] in ps[..k]
    decreases |ps|
  {
    if ps == [] then []
    else
      var init := ps[..|ps| - 1];
      var found := FirstOccurrences(init, world);
      var p := ps[|ps| - 1];
      assert ps == init + [p];
      if world.IsValid(p) && p !in found then found + [p] else found
  }

  /** One more provider of the list: it is kept if valid and not already found. */
  lemma FirstOccurrencesStep(ps: seq<ProviderId>, i: nat, world: World)
    requires i < |ps|
    ensures FirstOccurrences(ps[..i + 1], world)
         == if world.IsValid(ps[i]) && ps[i] !in FirstOccurrences(ps[..i], world)
            then FirstOccurrences(ps[..i], world) + [ps[i]]
            else FirstOccurrences(ps[..i], world)
  {
    assert ps[..i + 1][..i] == ps[..i];
  }

  /** Appending an entry whose provider, container and handle are all new keeps the keys
      distinct and adds exactly its container. */
  lemma AppendKeepsKeys(es: seq<Entry>, e: Entry)
    requires DistinctKeys(es) && e.provider !in Providers(es)
    requires forall k :: 0 <= k < |es| ==> es[k].container != e.container && es[k].widget != e.widget
    ensures DistinctKeys(es + [e])
    ensures ContainerNodes(es + [e]) == ContainerNodes(es) + {ContainerNode(e.container)}
  {
    var r := es + [e];
    forall i, j | 0 <= i < j < |r|
      ensures r[i].provider != r[j].provider && r[i].container != r[j].container && r[i].widget != r[j].widget
    {
      assert r[i] == es[i];
      if j < |es| {
        assert r[j] == es[j];
      } else {
        assert Providers(es)[i] == es[i].provider;
      }
    }
  }

  lemma ProvidersAppend(es: seq<Entry>, e: Entry)
    ensures Providers(es + [e]) == Providers(es) + [e.provider]
  {
  }

  // ---------------------------------------------------------------------------
  // PositionEntries

  /** IsVisible, as the provider reports it this frame. */
  predicate StaysVisible(world: World, e: Entry) {
    world.state(e.provider).visible
  }

  /** One surviving entry after its pass through the PositionEntries loop. */
  function PositionEntry(e: Entry, st: ProviderState, s: Settings): (r: Entry)
    ensures r.provider == e.provider && r.container == e.container && r.widget == e.widget
    ensures r.pivot == e.pivot && r.removing == e.removing
    ensures r.distance == (if s.zOrderByProximity then st.distance else e.distance)
    ensures st.projection.None? ==> r.visibility == Collapsed && r.slot == e.slot
    ensures st.projection.Some? ==>
      && r.visibility == SelfHitTestInvisible
      && r.slot == SetCanvasSlotPositionAndParameters(e.slot, st.nativeInterface, e.pivot, st.projection.value, s)
  {
    var measured := if s.zOrderByProximity then e.(distance := st.distance) else e;
    match st.projection
    case None => measured.(visibility := Collapsed)
    case Some(local) =>
      measured.(visibility := SelfHitTestInvisible,
                slot := SetCanvasSlotPositionAndParameters(measured.slot, st.nativeInterface, measured.pivot, local, s))
  }

  /** The entries after the PositionEntries loop has visited all of `es`. */
  function Positioned(es: seq<Entry>, world: World, s: Settings): seq<Entry>
    decreases |es|
  {
    if es == [] then []
    else
      var last := es[|es| - 1];
      Positioned(es[..|es| - 1], world, s)
        + (if StaysVisible(world, last) then [PositionEntry(last, world.state(last.provider), s)] else [])
  }

  /** The indices of the entries that survive PositionEntries, in increasing order. */
  function SurvivorIndices(es: seq<Entry>, world: World): (idx: seq<nat>)
    ensures forall k :: 0 <= k < |idx| ==> idx[k] < |es|
    ensures forall k, l :: 0 <= k < l < |idx| ==> idx[k] < idx[l]
    ensures forall j :: 0 <= j < |es| ==> (j in idx <==> StaysVisible(world, es[j]))
    decreases |es|
  {
    if es == [] then []
    else
      var n := |es| - 1;
      assert forall j :: 0 <= j < n ==> es[..n][j] == es[j];
      SurvivorIndices(es[..n], world) + (if StaysVisible(world, es[n]) then [n] else [])
  }

  /** The survivors of PositionEntries are exactly the entries whose provider is visible,
      in their original order, each updated by PositionEntry. */
  lemma {:induction false} PositionedKeepsVisibleInOrder(es: seq<Entry>, world: World, s: Settings)
    ensures |Positioned(es, world, s)| == |SurvivorIndices(es, world)|
    ensures forall k :: 0 <= k < |SurvivorIndices(es, world)| ==>
      Positioned(es, world, s)[k]
        == PositionEntry(es[SurvivorIndices(es, world)[k]], world.state(es[SurvivorIndices(es, world)[k]].provider), s)
    decreases |es|
  {
    if es != [] {
      var n := |es| - 1;
      var init := es[..n];
      PositionedKeepsVisibleInOrder(init, world, s);
      var done := Positioned(init, world, s);
      var kept := SurvivorIndices(init, world);
      assert SurvivorIndices(es, world) == kept + (if StaysVisible(world, es[n]) then [n] else []);
      assert Positioned(es, world, s)
        == done + (if StaysVisible(world, es[n]) then [PositionEntry(es[n], world.state(es[n].provider), s)] else []);
      forall k | 0 <= k < |kept|
        ensures Positioned(es, world, s)[k]
          == PositionEntry(es[kept[k]], world.state(es[kept[k]].provider), s)
      {
        assert init[kept[k]] == es[kept[k]];
      }
    }
  }

  /** One more loop step: the spec over a longer prefix. */
  lemma PositionedStep(es: seq<Entry>, j: nat, world: World, s: Settings)
    requires j < |es|
    ensures Positioned(es[..j + 1], world, s)
         == Positioned(es[..j], world, s)
            + (if StaysVisible(world, es[j]) then [PositionEntry(es[j], world.state(es[j].provider), s)] else [])
  {
    assert es[..j + 1][..j] == es[..j];
  }

  /** The PositionEntries loop, one iteration: with the entries before `j` already handled
      (`done`), the current entry is removed if its provider is hidden and replaced by its
      positioned self otherwise. */
  lemma PositionedLoopStep(es: seq<Entry>, j: nat, done: seq<Entry>, world: World, s: Settings)
    requires j < |es| && done == Positioned(es[..j], world, s)
    ensures (done + es[j..])[|done|] == es[j]
    ensures !StaysVisible(world, es[j]) ==>
      RemoveAt(done + es[j..], |done|) == Positioned(es[..j + 1], world, s) + es[j + 1..]
    ensures StaysVisible(world, es[j]) ==>
      (done + es[j..])[|done| := PositionEntry(es[j], world.state(es[j].provider), s)]
        == Positioned(es[..j + 1], world, s) + es[j + 1..]
  {
    PositionedStep(es, j, world, s);
    var cur := done + es[j..];
    if StaysVisible(world, es[j]) {
      var x := PositionEntry(es[j], world.state(es[j].provider), s);
      assert cur[|done| := x] == (done + [x]) + es[j + 1..];
    } else {
      assert RemoveAt(cur, |done|) == done + es[j + 1..];
    }
  }

  /** An entry whose provider is hidden leaves no container behind: none of the positioned
      entries has its container. */
  lemma PositionedDropsHidden(es: seq<Entry>, world: World, s: Settings, k: nat)
    requires DistinctKeys(es) && k < |es| && !StaysVisible(world, es[k])
    ensures ContainerNode(es[k].container) !in ContainerNodes(Positioned(es, world, s))
  {
    PositionedKeepsVisibleInOrder(es, world, s);
    var out := Positioned(es, world, s);
    var idx := SurvivorIndices(es, world);
    forall e | e in out ensures e.container != es[k].container {
      var a :| 0 <= a < |out| && out[a] == e;
      assert idx[a] != k;
    }
  }

  // ---------------------------------------------------------------------------
  // OrderWidgetsByProximityToCamera

  /** Farthest first: distances never increase along the entries. */
  predicate NonIncreasing(es: seq<Entry>) {
    forall i, j :: 0 <= i < j < |es| ==> es[i].distance >= es[j].distance
  }

  /** What Entries.Sort with `A.Distance > B.Distance` may produce from `before`: a
      permutation ordered farthest first. Ties may come out in any order. */
  predicate IsDistanceOrdering(before: seq<Entry>, after: seq<Entry>) {
    multiset(after) == multiset(before) && NonIncreasing(after)
  }

  lemma HeadBoundsTail(s: seq<Entry>, y: Entry)
    requires NonIncreasing(s) && s != [] && y in s[1..]
    ensures y.distance <= s[0].distance
  {
    var k :| 0 <= k < |s[1..]| && s[1..][k] == y;
    assert s[k + 1] == y;
  }

  /** Whatever is made of the tail of a farthest-first list and an entry nearer than its
      head stays no farther than that head. */
  lemma HeadBoundsInsertion(x: Entry, s: seq<Entry>, rest: seq<Entry>)
    requires NonIncreasing(s) && s != [] && x.distance < s[0].distance
    requires multiset(rest) == multiset(s[1..]) + multiset{x}
    ensures forall k :: 0 <= k < |rest| ==> rest[k].distance <= s[0].distance
  {
    forall k | 0 <= k < |rest| ensures rest[k].distance <= s[0].distance {
      assert rest[k] in multiset(rest);
      if rest[k] != x {
        assert rest[k] in multiset(s[1..]);
        HeadBoundsTail(s, rest[k]);
      }
    }
  }

  lemma ConsKeepsOrder(h: Entry, rest: seq<Entry>)
    requires NonIncreasing(rest)
    requires forall k :: 0 <= k < |rest| ==> rest[k].distance <= h.distance
    ensures NonIncreasing([h] + rest)
  {
    forall i, j | 0 <= i < j < |[h] + rest|
      ensures ([h] + rest)[i].distance >= ([h] + rest)[j].distance
    {
      assert ([h] + rest)[j] == rest[j - 1];
      if i > 0 {
        assert ([h] + rest)[i] == rest[i - 1];
      }
    }
  }

  function InsertByDistance(x: Entry, s: seq<Entry>): (r: seq<Entry>)
    requires NonIncreasing(s)
    ensures multiset(r) == multiset(s) + multiset{x}
    ensures NonIncreasing(r)
    decreases |s|
  {
    if s == [] || x.distance >= s[0].distance then [x] + s
    else
      var rest := InsertByDistance(x, s[1..]);
      assert s == [s[0]] + s[1..];
      HeadBoundsInsertion(x, s, rest);
      ConsKeepsOrder(s[0], rest);
      [s[0]] + rest
  }

  /** One sort satisfying IsDistanceOrdering. */
  function SortByDistance(es: seq<Entry>): (r: seq<Entry>)
    ensures IsDistanceOrdering(es, r)
    decreases |es|
  {
    if es == [] then []
    else
      assert es == [es[0]] + es[1..];
      InsertByDistance(es[0], SortByDistance(es[1..]))
  }

  /** SetZOrder on a valid slot; an invalid slot is skipped. */
  function SetZOrder(e: Entry, z: int): Entry {
    if e.slot.valid then e.(slot := e.slot.(zOrder := z)) else e
  }

  /** The `_count` loop: every entry with a valid slot gets its index as z-order; nothing
      else about any entry changes. */
  function WithZOrders(s: seq<Entry>): (r: seq<Entry>)
    ensures |r| == |s|
    ensures forall i :: 0 <= i < |s| ==>
      && r[i] == s[i].(slot := s[i].slot.(zOrder := r[i].slot.zOrder))
      && (r[i].slot.valid ==> r[i].slot.zOrder == i)
      && (!s[i].slot.valid ==> r[i] == s[i])
  {
    seq(|s|, i requires 0 <= i < |s| => SetZOrder(s[i], i))
  }

  /** Three entries at distances 10, 5 and 20 are ordered 20, 10, 5 whichever way the sort
      breaks ties, so their z-orders rise from the farthest to the nearest. */
  lemma ZOrderFollowsProximity(a: Entry, b: Entry, c: Entry, sorted: seq<Entry>)
    requires a.distance == 10.0 && b.distance == 5.0 && c.distance == 20.0
    requires a.slot.valid && b.slot.valid && c.slot.valid
    requires IsDistanceOrdering([a, b, c], sorted)
    ensures sorted == [c, a, b]
    ensures WithZOrders(sorted)[0].slot.zOrder == 0 && WithZOrders(sorted)[0].provider == c.provider
    ensures WithZOrders(sorted)[1].slot.zOrder == 1 && WithZOrders(sorted)[1].provider == a.provider
    ensures WithZOrders(sorted)[2].slot.zOrder == 2 && WithZOrders(sorted)[2].provider == b.provider
  {
    assert |sorted| == |multiset(sorted)| == 3;
    assert forall e :: e in sorted ==> e in multiset([a, b, c]);
    assert sorted[0] in sorted && sorted[1] in sorted && sorted[2] in sorted;
    assert c in multiset(sorted) && a in multiset(sorted) && b in multiset(sorted);
    assert sorted[0] == c;
    assert sorted[1] == a;
    assert sorted[2] == b;
  }

  // ---------------------------------------------------------------------------
  // ProcessSlateIsOnFastUpdatePath

  /** Every entry's container collapsed, nothing else changed. */
  function CollapseAll(es: seq<Entry>): (r: seq<Entry>)
    ensures |r| == |es|
    ensures forall i :: 0 <= i < |es| ==> r[i].visibility == Collapsed && r[i] == es[i].(visibility := r[i].visibility)
  {
    seq(|es|, i requires 0 <= i < |es| => es[i].(visibility := Collapsed))
  }

  // ---------------------------------------------------------------------------
  // The detach callback of ToRefCountPtr

  /** The callback as the source writes it: while the weakly referenced canvas is alive, it
      asks the canvas panel to remove the hosted widget itself. */
  function DetachAsWritten(children: set<Node>, canvasAlive: bool, hosted: WidgetId): (r: set<Node>)
    ensures r <= children && children - r <= {HostedNode(hosted)}
    ensures canvasAlive ==> HostedNode(hosted) !in r
    ensures !canvasAlive ==> r == children
  {
    if canvasAlive then children - {HostedNode(hosted)} else children
  }

  /** The hosted widget's parent is its entry's container, never the canvas panel, so the
      callback as written removes nothing: once an entry is removed, its container stays on
      the panel with no entry left to own it. */
  lemma AsWrittenDetachOrphansContainer(es: seq<Entry>, k: nat)
    requires DistinctKeys(es) && k < |es|
    ensures ContainerNode(es[k].container) in DetachAsWritten(ContainerNodes(es), true, es[k].widget.widget)
    ensures ContainerNode(es[k].container) !in ContainerNodes(Without(es, es[k].provider))
  {
    assert es[k] in es;
    WithoutDropsOnlyThatEntry(es, es[k].provider, k);
    RemoveAtKeepsKeys(es, k);
  }

  /** The callback with the evident intent: while the canvas is alive, the panel child that
      holds the hosted widget (its container) is removed. */
  function DetachHostedWidget(children: set<Node>, canvasAlive: bool, e: Entry): (r: set<Node>)
    ensures r <= children && children - r <= {ContainerNode(e.container)}
    ensures canvasAlive ==> ContainerNode(e.container) !in r
    ensures !canvasAlive ==> r == children
  {
    if canvasAlive then children - {ContainerNode(e.container)} else children
  }

  /** With the corrected callback, removing an entry leaves the panel holding exactly the
      containers of the remaining entries. */
  lemma DetachKeepsPanelInSync(es: seq<Entry>, k: nat)
    requires DistinctKeys(es) && k < |es|
    ensures DetachHostedWidget(ContainerNodes(es), true, es[k]) == ContainerNodes(Without(es, es[k].provider))
  {
    WithoutDropsOnlyThatEntry(es, es[k].provider, k);
    RemoveAtKeepsKeys(es, k);
  }
}
