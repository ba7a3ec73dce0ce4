/** Engine value types the world-widget canvas works with, and the per-frame view of the
    providers it tracks. Engine objects are identified by number; the engine math that
    produces projections and distances is not modelled, its results are inputs. */
module WidgetTypes {

  type ProviderId = nat
  type WidgetId = nat
  type ContainerId = nat

  datatype Option<T> = None | Some(value: T)

  /** FVector2D. */
  datatype Vec2 = Vec2(x: real, y: real) {
    /** FVector2D::IsZero is an exact comparison with zero. */
    predicate IsZero() {
      x == 0.0 && y == 0.0
    }
  }

  /** FAnchors. */
  datatype Anchors = Anchors(minX: real, minY: real, maxX: real, maxY: real)

  const ZERO_ANCHORS := Anchors(0.0, 0.0, 0.0, 0.0)

  /** FMargin: a canvas slot's offsets; left/top is the position, right/bottom the size. */
  datatype Margin = Margin(left: real, top: real, right: real, bottom: real)

  /** ESlateVisibility. */
  datatype Visibility = Visible | Collapsed | Hidden | HitTestInvisible | SelfHitTestInvisible

  /** FCanvasSlotParameters: the author-time slot settings of the canvas. */
  datatype CanvasSlotParameters = CanvasSlotParameters(slotAnchors: Anchors, slotAlignment: Vec2, slotSize: Vec2)

  /** The layout state of a UCanvasPanelSlot; `valid` is what IsValid(Slot) reports. */
  datatype CanvasSlot = CanvasSlot(
    valid: bool,
    autoSize: bool,
    alignment: Vec2,
    anchors: Anchors,
    offsets: Margin,
    zOrder: int)

  /** A widget that can be a direct child of the canvas panel: the container (UBorder) the
      canvas makes for an entry, or a hosted widget that a provider supplies. */
  datatype Node = ContainerNode(id: ContainerId) | HostedNode(widget: WidgetId)

  /** What the canvas learns from one provider during one frame:
      GetWidget, GetPivot and IsVisible, and the projector's result for GetWorldLocation
      (`projection` is None when Project() fails, otherwise the canvas-local position),
      and the distance used for proximity ordering. `nativeInterface` is whether the
      provider reference converts to true, that is whether its native interface pointer is
      set: it is not for an object that implements the provider interface only in a Blueprint. */
  datatype ProviderState = ProviderState(
    nativeInterface: bool,
    widget: WidgetId,
    pivot: Vec2,
    visible: bool,
    projection: Option<Vec2>,
    distance: real)

  /** The providers as the canvas sees them: `live` holds those for which IsValid holds. */
  datatype World = World(live: set<ProviderId>, state: ProviderId -> ProviderState) {
    predicate IsValid(p: ProviderId) {
      p in live
    }
  }
}
