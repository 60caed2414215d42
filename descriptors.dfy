/** The constant fields every feature class sets in `__init__`. */
module Descriptors {

  /** `depth_type`: `"through"` cuts leave the stock, `"blind"` cuts leave a floor. */
  datatype DepthType = Through | Blind

  /** `shifter_type`, `bound_type`, `depth_type` and `feat_type`. */
  datatype FeatureDescriptor = FeatureDescriptor(
    shifterType: int,
    boundType: int,
    depthType: DepthType,
    featType: string)
}
