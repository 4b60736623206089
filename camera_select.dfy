/**
 * Choosing camera A and camera B among the root actor's ICVFX camera
 * components (GetIcvfxCameraComponentA/B), over value snapshots of the
 * components in the order GetComponents yields them.
 *
 * Both scans keep the first enabled component and replace it only on a
 * strictly larger (A) or strictly smaller (B) render order, so ties go to the
 * earliest component.
 */
module CameraSelect {
  import opened StageTypes

  /** What the scans read of a component: bEnable and RenderOrder. */
  datatype Candidate = Candidate(enabled: bool, renderOrder: int)

  function Candidates(cs: seq<CameraState>): (ks: seq<Candidate>)
    ensures |ks| == |cs|
    ensures forall i :: 0 <= i < |cs| ==> ks[i] == Candidate(cs[i].enabled, cs[i].renderOrder)
  {
    if cs == [] then [] else Candidates(cs[..|cs| - 1]) + [Candidate(cs[|cs| - 1].enabled, cs[|cs| - 1].renderOrder)]
  }

  /** The scan for camera A, as the source's loop computes it. */
  function HighestPick(cs: seq<Candidate>): (r: Option<nat>)
    ensures r.Some? ==> r.value < |cs|
  {
    if cs == [] then None
    else
      var p := HighestPick(cs[..|cs| - 1]);
      var c := cs[|cs| - 1];
      if !c.enabled then p
      else if p.None? then Some(|cs| - 1)
      else if c.renderOrder > cs[p.value].renderOrder then Some(|cs| - 1)
      else p
  }

  /** The scan for camera B. */
  function LowestPick(cs: seq<Candidate>): (r: Option<nat>)
    ensures r.Some? ==> r.value < |cs|
  {
    if cs == [] then None
    else
      var p := LowestPick(cs[..|cs| - 1]);
      var c := cs[|cs| - 1];
      if !c.enabled then p
      else if p.None? then Some(|cs| - 1)
      else if c.renderOrder < cs[p.value].renderOrder then Some(|cs| - 1)
      else p
  }

  predicate NoneEnabled(cs: seq<Candidate>) {
    forall i :: 0 <= i < |cs| ==> !cs[i].enabled
  }

  /** Index `k` is enabled, has the largest render order, and is the earliest such. */
  predicate IsHighest(cs: seq<Candidate>, k: nat) {
    && k < |cs| && cs[k].enabled
    && (forall i :: 0 <= i < |cs| && cs[i].enabled ==> cs[i].renderOrder <= cs[k].renderOrder)
    && (forall i :: 0 <= i < k && cs[i].enabled ==> cs[i].renderOrder < cs[k].renderOrder)
  }

  /** Index `k` is enabled, has the smallest render order, and is the earliest such. */
  predicate IsLowest(cs: seq<Candidate>, k: nat) {
    && k < |cs| && cs[k].enabled
    && (forall i :: 0 <= i < |cs| && cs[i].enabled ==> cs[k].renderOrder <= cs[i].renderOrder)
    && (forall i :: 0 <= i < k && cs[i].enabled ==> cs[k].renderOrder < cs[i].renderOrder)
  }

  /** Camera A is null exactly when no component is enabled, and otherwise the earliest maximum. */
  lemma {:induction false} HighestPickSpec(cs: seq<Candidate>)
    ensures HighestPick(cs).None? <==> NoneEnabled(cs)
    ensures HighestPick(cs).Some? ==> IsHighest(cs, HighestPick(cs).value)
  {
    if cs != [] {
      var front := cs[..|cs| - 1];
      HighestPickSpec(front);
      assert forall i :: 0 <= i < |front| ==> front[i] == cs[i];
    }
  }

  /** Camera B is null exactly when no component is enabled, and otherwise the earliest minimum. */
  lemma {:induction false} LowestPickSpec(cs: seq<Candidate>)
    ensures LowestPick(cs).None? <==> NoneEnabled(cs)
    ensures LowestPick(cs).Some? ==> IsLowest(cs, LowestPick(cs).value)
  {
    if cs != [] {
      var front := cs[..|cs| - 1];
      LowestPickSpec(front);
      assert forall i :: 0 <= i < |front| ==> front[i] == cs[i];
    }
  }

  /** The characterisation is exact: the earliest maximum is the only index the scan can return. */
  lemma HighestPickIff(cs: seq<Candidate>, k: nat)
    ensures HighestPick(cs) == Some(k) <==> IsHighest(cs, k)
  {
    HighestPickSpec(cs);
    if IsHighest(cs, k) {
      var p := HighestPick(cs).value;
      assert !(p < k) && !(k < p);
    }
  }

  lemma LowestPickIff(cs: seq<Candidate>, k: nat)
    ensures LowestPick(cs) == Some(k) <==> IsLowest(cs, k)
  {
    LowestPickSpec(cs);
    if IsLowest(cs, k) {
      var p := LowestPick(cs).value;
      assert !(p < k) && !(k < p);
    }
  }

  /** All enabled components share one render order. */
  predicate OneRenderOrder(cs: seq<Candidate>) {
    forall i, j :: 0 <= i < |cs| && 0 <= j < |cs| && cs[i].enabled && cs[j].enabled ==>
      cs[i].renderOrder == cs[j].renderOrder
  }

  /**
   * Cameras A and B coincide exactly when at most one render order is in use
   * among the enabled components (this covers none or one enabled component).
   */
  lemma PicksCoincide(cs: seq<Candidate>)
    ensures HighestPick(cs) == LowestPick(cs) <==> OneRenderOrder(cs)
  {
    HighestPickSpec(cs);
    LowestPickSpec(cs);
    if OneRenderOrder(cs) && !NoneEnabled(cs) {
      var a := HighestPick(cs).value;
      var b := LowestPick(cs).value;
      assert !(a < b) && !(b < a);
    }
  }

  // ---------------------------------------------------------------------------
  // Frustum exposure on camera B.

  /** The exposure bias of the picked component, 0 when none is picked. */
  function ExposureAt(cs: seq<CameraState>, p: Option<nat>): real
    requires p.Some? ==> p.value < |cs|
  {
    if p.None? then 0.0 else cs[p.value].grading.exposureBias
  }

  /** The writes of SetFrustumExposure_ByComponent to one component. */
  function ApplyFrustumExposure(c: CameraState, v: real): (d: CameraState)
    ensures d.clusterGradingEnabled && d.innerFrustumGradingEnabled
    ensures d.grading.exposureOverridden && d.grading.exposureBias == v
    ensures d.enabled == c.enabled && d.renderOrder == c.renderOrder
    ensures d == c.(clusterGradingEnabled := d.clusterGradingEnabled,
                    innerFrustumGradingEnabled := d.innerFrustumGradingEnabled,
                    grading := d.grading)
    ensures forall k :: d.grading.At(k) == c.grading.At(k)
  {
    c.(clusterGradingEnabled := true,
       innerFrustumGradingEnabled := true,
       grading := c.grading.(exposureOverridden := true, exposureBias := v))
  }

  /** SetFrustumExposureB on the snapshot: write camera B, if there is one. */
  function SetExposureB(cs: seq<CameraState>, v: real): (ds: seq<CameraState>)
    ensures Candidates(ds) == Candidates(cs)
  {
    match LowestPick(Candidates(cs))
    case None => cs
    case Some(b) => cs[b := ApplyFrustumExposure(cs[b], v)]
  }

  /** GetFrustumExposureB as written: it reads camera A. */
  function ExposureBAsWritten(cs: seq<CameraState>): real {
    ExposureAt(cs, HighestPick(Candidates(cs)))
  }

  /** GetFrustumExposureB as evidently intended: it reads camera B. */
  function ExposureBIntended(cs: seq<CameraState>): real {
    ExposureAt(cs, LowestPick(Candidates(cs)))
  }

  /**
   * As written, the B getter does not read back what the B setter stored:
   * with two enabled components of different render orders, setting B's
   * exposure to 1 leaves the B getter reporting A's 0.
   */
  lemma ExposureBAsWrittenMissesB()
    ensures var g := GradingSettings(
              Grade(DefaultVector4, false), Grade(DefaultVector4, false), Grade(DefaultVector4, false),
              Grade(DefaultVector4, false), Grade(DefaultVector4, false), Grade(DefaultVector4, false),
              Grade(DefaultVector4, false), Grade(DefaultVector4, false), 0.0, false);
            var cs := [CameraState(true, 1, 1.0, 1.0, false, false, false, g),
                       CameraState(true, 0, 1.0, 1.0, false, false, false, g)];
            ExposureBAsWritten(SetExposureB(cs, 1.0)) == 0.0
  {
    var g := GradingSettings(
              Grade(DefaultVector4, false), Grade(DefaultVector4, false), Grade(DefaultVector4, false),
              Grade(DefaultVector4, false), Grade(DefaultVector4, false), Grade(DefaultVector4, false),
              Grade(DefaultVector4, false), Grade(DefaultVector4, false), 0.0, false);
    var cs := [CameraState(true, 1, 1.0, 1.0, false, false, false, g),
               CameraState(true, 0, 1.0, 1.0, false, false, false, g)];
    var ks := Candidates(cs);
    assert ks == [Candidate(true, 1), Candidate(true, 0)];
    assert ks[..1][..0] == [];
    assert HighestPick(ks[..1]) == Some(0);
    assert LowestPick(ks[..1]) == Some(0);
    assert LowestPick(ks) == Some(1);
    assert HighestPick(ks) == Some(0);
  }

  /** Corrected, the B getter reads back what the B setter stored whenever camera B exists. */
  lemma ExposureBRoundTrip(cs: seq<CameraState>, v: real)
    requires !NoneEnabled(Candidates(cs))
    ensures ExposureBIntended(SetExposureB(cs, v)) == v
  {
    LowestPickSpec(Candidates(cs));
  }
}
