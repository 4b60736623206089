/**
 * Value types shared by the stage API model: the engine's vector and
 * colour-grading records, and value snapshots of the host objects whose
 * fields the API writes in place.
 *
 * Floating-point engine values are modelled as `real`; the API only stores
 * them, reads them back and compares vector components with zero.
 */
module StageTypes {

  datatype Option<T> = None | Some(value: T)

  /** FVector4. */
  datatype Vector4 = Vector4(x: real, y: real, z: real, w: real)

  /** A default-constructed FVector4: X, Y and Z zero and W one. */
  const DefaultVector4 := Vector4(0.0, 0.0, 0.0, 1.0)

  /** The test every grade setter applies: X, Y and Z are zero; W is ignored. */
  predicate IsZeroRgb(v: Vector4) {
    v.x == 0.0 && v.y == 0.0 && v.z == 0.0
  }

  /** The eight grading fields the API exposes, by their place in FColorGradingSettings. */
  datatype GradeKey =
    | GlobalSaturation | GlobalContrast | GlobalGamma | GlobalGain | GlobalOffset
    | ShadowsGain | MidtonesGain | HighlightsGain

  /** One grading field: its value and its bOverride_ flag. */
  datatype Grade = Grade(value: Vector4, overridden: bool)

  /** FColorGradingSettings, reduced to the fields the API reads or writes. */
  datatype GradingSettings = GradingSettings(
    saturation: Grade, contrast: Grade, gamma: Grade, gain: Grade, offset: Grade,
    shadowsGain: Grade, midtonesGain: Grade, highlightsGain: Grade,
    exposureBias: real, exposureOverridden: bool)
  {
    function At(k: GradeKey): Grade {
      match k
      case GlobalSaturation => saturation
      case GlobalContrast => contrast
      case GlobalGamma => gamma
      case GlobalGain => gain
      case GlobalOffset => offset
      case ShadowsGain => shadowsGain
      case MidtonesGain => midtonesGain
      case HighlightsGain => highlightsGain
    }

    /** The settings with field `k` replaced by `g` and nothing else changed. */
    function With(k: GradeKey, g: Grade): (s: GradingSettings)
      ensures s.At(k) == g
      ensures forall j :: j != k ==> s.At(j) == At(j)
      ensures s.exposureBias == exposureBias && s.exposureOverridden == exposureOverridden
    {
      match k
      case GlobalSaturation => this.(saturation := g)
      case GlobalContrast => this.(contrast := g)
      case GlobalGamma => this.(gamma := g)
      case GlobalGain => this.(gain := g)
      case GlobalOffset => this.(offset := g)
      case ShadowsGain => this.(shadowsGain := g)
      case MidtonesGain => this.(midtonesGain := g)
      case HighlightsGain => this.(highlightsGain := g)
    }
  }

  /**
   * Snapshot of an ICVFX camera component's settings (CameraSettings):
   * bEnable, RenderSettings.RenderOrder, BufferRatio (the FOV multiplier),
   * RenderSettings.AdvancedRenderSettings.RenderTargetRatio, Chromakey.bEnable,
   * and AllNodesColorGrading with its two enable flags.
   */
  datatype CameraState = CameraState(
    enabled: bool,
    renderOrder: int,
    bufferRatio: real,
    renderTargetRatio: real,
    chromakey: bool,
    clusterGradingEnabled: bool,
    innerFrustumGradingEnabled: bool,
    grading: GradingSettings)

  /**
   * Snapshot of the cluster root actor's mutable state: whether the weak
   * pointer to it is still valid, StageSettings.bEnableInnerFrustums,
   * StageSettings.EntireClusterColorGrading (enable flag and settings) and
   * RenderFrameSettings.ClusterICVFXOuterViewportBufferRatioMult.
   */
  datatype StageState = StageState(
    alive: bool,
    innerFrustums: bool,
    gradingEnabled: bool,
    grading: GradingSettings,
    outerBufferRatioMult: real)
}
