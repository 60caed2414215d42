/** The thirteen feature classes and the descriptors their `__init__`
    methods set. */
module Catalog {
  import opened Descriptors
  import RectangularPocket
  import RectangularThroughSlot
  import RectangularBlindStep
  import RectangularThroughStep
  import TriangularBlindStep
  import TriangularThroughSlot
  import TwoSidesThroughStep
  import SlantedThroughStep
  import SixSidesPassage
  import TriangularPassage
  import BlindHole
  import CircularThroughSlot
  import HCircularEndBlindSlot

  datatype FeatureKind =
    | RectangularPocketKind
    | RectangularThroughSlotKind
    | RectangularBlindStepKind
    | RectangularThroughStepKind
    | TriangularBlindStepKind
    | TriangularThroughSlotKind
    | TwoSidesThroughStepKind
    | SlantedThroughStepKind
    | SixSidesPassageKind
    | TriangularPassageKind
    | BlindHoleKind
    | CircularThroughSlotKind
    | HCircularEndBlindSlotKind

  /** The features whose cut leaves the stock on the far side. */
  predicate CutsThrough(f: FeatureKind) {
    f in {RectangularThroughSlotKind, TriangularThroughSlotKind, SixSidesPassageKind,
          TriangularPassageKind, CircularThroughSlotKind}
  }

  /** The descriptor of each class. Every feature asks the shifter for the
      region type it builds its profile in, so `shifter_type` and
      `bound_type` agree, and both are one of the four region types. Exactly
      the three through slots and the two passages are `"through"`; every
      step, including those named `through_step`, is `"blind"`. */
  function DescriptorOf(f: FeatureKind): (d: FeatureDescriptor)
    ensures d.shifterType == d.boundType && 1 <= d.shifterType <= 4
    ensures d.depthType == Through <==> CutsThrough(f)
  {
    match f
    case RectangularPocketKind => RectangularPocket.Descriptor
    case RectangularThroughSlotKind => RectangularThroughSlot.Descriptor
    case RectangularBlindStepKind => RectangularBlindStep.Descriptor
    case RectangularThroughStepKind => RectangularThroughStep.Descriptor
    case TriangularBlindStepKind => TriangularBlindStep.Descriptor
    case TriangularThroughSlotKind => TriangularThroughSlot.Descriptor
    case TwoSidesThroughStepKind => TwoSidesThroughStep.Descriptor
    case SlantedThroughStepKind => SlantedThroughStep.Descriptor
    case SixSidesPassageKind => SixSidesPassage.Descriptor
    case TriangularPassageKind => TriangularPassage.Descriptor
    case BlindHoleKind => BlindHole.Descriptor
    case CircularThroughSlotKind => CircularThroughSlot.Descriptor
    case HCircularEndBlindSlotKind => HCircularEndBlindSlot.Descriptor
  }

  /** `feat_type` names each class uniquely, so it can serve as the label
      key. */
  lemma FeatureTypesDistinct(f: FeatureKind, g: FeatureKind)
    requires f != g
    ensures DescriptorOf(f).featType != DescriptorOf(g).featType
  {
  }

  /** The region type each class draws in: type 1 (a region with one side on
      the stock's edge) for the four slots, type 2 (a corner) for the two
      blind steps, type 3 (a region spanning the stock between two opposite
      edges) for the three through steps, type 4 (a fully enclosed region)
      for the pocket, the hole and the two passages. */
  lemma RegionTypes(f: FeatureKind)
    ensures DescriptorOf(f).boundType == 1 <==>
              f in {RectangularThroughSlotKind, TriangularThroughSlotKind, CircularThroughSlotKind,
                    HCircularEndBlindSlotKind}
    ensures DescriptorOf(f).boundType == 2 <==> f in {RectangularBlindStepKind, TriangularBlindStepKind}
    ensures DescriptorOf(f).boundType == 3 <==>
              f in {RectangularThroughStepKind, TwoSidesThroughStepKind, SlantedThroughStepKind}
    ensures DescriptorOf(f).boundType == 4 <==>
              f in {RectangularPocketKind, SixSidesPassageKind, TriangularPassageKind, BlindHoleKind}
  {
  }
}
