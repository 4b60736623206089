/**
 * The colour-grade and exposure setter rules, on value snapshots.
 *
 * Every grade setter stores the new vector; if its X, Y and Z are all zero it
 * clears the field's override flag and leaves the grading-enable flag alone,
 * otherwise it sets both. The cluster setters (ClusterPP_*) write the root's
 * EntireClusterColorGrading; the frustum setters (FrustumPP_*) write camera
 * A's AllNodesColorGrading, and there the Gamma setter's flag is the Gain one.
 */
module Grading {
  import opened StageTypes

  /**
   * The rule: store `v` under `valueKey`, and set or clear the override flag
   * of `flagKey` (and possibly the enable flag) by the zero test on `v`.
   */
  function GradeRule(enabled: bool, s: GradingSettings, valueKey: GradeKey, flagKey: GradeKey, v: Vector4)
    : (r: (bool, GradingSettings))
    ensures r.1.At(valueKey).value == v
    ensures r.1.At(flagKey).overridden == !IsZeroRgb(v)
    ensures r.0 == if IsZeroRgb(v) then enabled else true
    ensures forall k :: k != valueKey ==> r.1.At(k).value == s.At(k).value
    ensures forall k :: k != flagKey ==> r.1.At(k).overridden == s.At(k).overridden
    ensures r.1.exposureBias == s.exposureBias && r.1.exposureOverridden == s.exposureOverridden
  {
    var flagged := s.With(flagKey, s.At(flagKey).(overridden := !IsZeroRgb(v)));
    var stored := flagged.With(valueKey, flagged.At(valueKey).(value := v));
    (enabled || !IsZeroRgb(v), stored)
  }

  /** The override flag a FrustumPP_ setter toggles for field `k`, as written. */
  function FrustumFlagKey(k: GradeKey): GradeKey {
    if k == GlobalGamma then GlobalGain else k
  }

  /** SetClusterPP_<k> on the root's stage state. */
  function ApplyClusterGrade(st: StageState, k: GradeKey, v: Vector4): (r: StageState)
    ensures r.alive == st.alive && r.innerFrustums == st.innerFrustums
    ensures r.outerBufferRatioMult == st.outerBufferRatioMult
  {
    var g := GradeRule(st.gradingEnabled, st.grading, k, k, v);
    st.(gradingEnabled := g.0, grading := g.1)
  }

  /** SetFrustumPP_<k> on camera A, as written (the Gamma setter's flag is the Gain one). */
  function ApplyFrustumGradeAsWritten(c: CameraState, k: GradeKey, v: Vector4): (r: CameraState)
    ensures r.enabled == c.enabled && r.renderOrder == c.renderOrder
    ensures r.chromakey == c.chromakey && r.bufferRatio == c.bufferRatio
    ensures r.renderTargetRatio == c.renderTargetRatio
    ensures r.innerFrustumGradingEnabled == c.innerFrustumGradingEnabled
  {
    var g := GradeRule(c.clusterGradingEnabled, c.grading, k, FrustumFlagKey(k), v);
    c.(clusterGradingEnabled := g.0, grading := g.1)
  }

  /** SetFrustumPP_<k> as evidently intended: every field toggles its own flag. */
  function ApplyFrustumGrade(c: CameraState, k: GradeKey, v: Vector4): (r: CameraState)
    ensures r.enabled == c.enabled && r.renderOrder == c.renderOrder
    ensures r.chromakey == c.chromakey && r.bufferRatio == c.bufferRatio
    ensures r.renderTargetRatio == c.renderTargetRatio
    ensures r.innerFrustumGradingEnabled == c.innerFrustumGradingEnabled
  {
    var g := GradeRule(c.clusterGradingEnabled, c.grading, k, k, v);
    c.(clusterGradingEnabled := g.0, grading := g.1)
  }

  /** A field's override flag agrees with its stored value. */
  predicate OverrideTracksValue(s: GradingSettings, k: GradeKey) {
    s.At(k).overridden == !IsZeroRgb(s.At(k).value)
  }

  /** Cluster setters keep every field's override flag in step with the stored value. */
  lemma ClusterGradeTracksValue(st: StageState, k: GradeKey, v: Vector4, j: GradeKey)
    requires OverrideTracksValue(st.grading, j)
    ensures OverrideTracksValue(ApplyClusterGrade(st, k, v).grading, j)
    ensures OverrideTracksValue(ApplyClusterGrade(st, k, v).grading, k)
  {
  }

  /** Frustum setters other than Gamma behave exactly like the cluster rule. */
  lemma FrustumGradeMatchesRule(c: CameraState, k: GradeKey, v: Vector4)
    requires k != GlobalGamma
    ensures ApplyFrustumGradeAsWritten(c, k, v) == ApplyFrustumGrade(c, k, v)
  {
  }

  /**
   * As written, SetFrustumPP_GlobalGamma stores the Gamma vector but turns on
   * the Gain override: from an all-clear state with a non-zero gamma, the
   * Gamma override stays off and the Gain override comes on.
   */
  lemma FrustumGammaTogglesGain(c: CameraState, v: Vector4)
    requires !IsZeroRgb(v)
    ensures var r := ApplyFrustumGradeAsWritten(c, GlobalGamma, v);
      && r.grading.gamma.value == v
      && r.grading.gamma.overridden == c.grading.gamma.overridden
      && r.grading.gain.overridden
      && r.grading.gain.value == c.grading.gain.value
    ensures !c.grading.gamma.overridden ==> !OverrideTracksValue(ApplyFrustumGradeAsWritten(c, GlobalGamma, v).grading, GlobalGamma)
  {
    var r := ApplyFrustumGradeAsWritten(c, GlobalGamma, v);
    assert r.grading.At(GlobalGamma).overridden == c.grading.At(GlobalGamma).overridden;
  }

  /** Corrected, every frustum setter keeps its own field's override flag in step with its value. */
  lemma FrustumGradeTracksValue(c: CameraState, k: GradeKey, v: Vector4, j: GradeKey)
    requires OverrideTracksValue(c.grading, j)
    ensures OverrideTracksValue(ApplyFrustumGrade(c, k, v).grading, k)
    ensures OverrideTracksValue(ApplyFrustumGrade(c, k, v).grading, j)
  {
  }

  // ---------------------------------------------------------------------------
  // Stage exposure.

  /** SetStageExposure: enable cluster grading, turn the exposure override on, store the bias. */
  function ApplyStageExposure(st: StageState, v: real): (r: StageState)
    ensures r.gradingEnabled && r.grading.exposureOverridden && r.grading.exposureBias == v
    ensures forall k :: r.grading.At(k) == st.grading.At(k)
    ensures r.alive == st.alive && r.innerFrustums == st.innerFrustums
    ensures r.outerBufferRatioMult == st.outerBufferRatioMult
  {
    st.(gradingEnabled := true, grading := st.grading.(exposureOverridden := true, exposureBias := v))
  }

  /** DisableStageExposure: only the exposure override is cleared; the bias is kept. */
  function DisableExposure(st: StageState): (r: StageState)
    ensures !r.grading.exposureOverridden && r.grading.exposureBias == st.grading.exposureBias
    ensures r.gradingEnabled == st.gradingEnabled
    ensures forall k :: r.grading.At(k) == st.grading.At(k)
    ensures r.alive == st.alive && r.innerFrustums == st.innerFrustums
    ensures r.outerBufferRatioMult == st.outerBufferRatioMult
  {
    st.(grading := st.grading.(exposureOverridden := false))
  }

  /** Disabling after setting restores the override flag but keeps the new bias. */
  lemma DisableAfterSetKeepsBias(st: StageState, v: real)
    ensures DisableExposure(ApplyStageExposure(st, v)).grading.exposureBias == v
    ensures !DisableExposure(ApplyStageExposure(st, v)).grading.exposureOverridden
    ensures DisableExposure(ApplyStageExposure(st, v)).gradingEnabled
  {
  }
}
