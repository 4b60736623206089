/**
 * The editor-side stage API (UStageAPIImpl) over the host's object graph.
 *
 * Host objects are classes: their structure (the world contexts, the root
 * actors in each world, the ICVFX camera components of a root actor, the
 * cluster configuration) is `const`, and the fields the API writes are `var`.
 * The API's static state (s_GameWorldContext, s_DisplayClusterRoot,
 * s_ClusterNodes, s_ViewPorts, s_ViewportToNode) is the state of one
 * StageApi object.
 */
module Stage {
  import opened StageTypes
  import opened WorldSelect
  import opened ClusterTables
  import opened CameraSelect
  import opened Grading

  /**
   * An ICVFX camera component (UDisplayClusterICVFXCameraComponent). The API
   * reads bEnable and RenderOrder but never writes them, so they are fixed here.
   */
  class IcvfxCamera {
    const enabled: bool
    const renderOrder: int
    var bufferRatio: real
    var renderTargetRatio: real
    var chromakey: bool
    var clusterGradingEnabled: bool
    var innerFrustumGradingEnabled: bool
    var grading: GradingSettings

    constructor (st: CameraState)
      ensures State() == st
    {
      enabled := st.enabled;
      renderOrder := st.renderOrder;
      bufferRatio := st.bufferRatio;
      renderTargetRatio := st.renderTargetRatio;
      chromakey := st.chromakey;
      clusterGradingEnabled := st.clusterGradingEnabled;
      innerFrustumGradingEnabled := st.innerFrustumGradingEnabled;
      grading := st.grading;
    }

    function State(): CameraState
      reads this
    {
      CameraState(enabled, renderOrder, bufferRatio, renderTargetRatio, chromakey,
                  clusterGradingEnabled, innerFrustumGradingEnabled, grading)
    }
  }

  /** A cluster root actor (ADisplayClusterRootActor) and its configuration data. */
  class ClusterRoot {
    /** The ICVFX camera components, in the order GetComponents yields them. */
    const components: seq<IcvfxCamera>
    /** The cluster configuration: nodes and their viewports, in iteration order. */
    const nodes: seq<ClusterNode>
    /** Whether a weak pointer to this actor is still valid. */
    var alive: bool
    var innerFrustums: bool
    var gradingEnabled: bool
    var grading: GradingSettings
    var outerBufferRatioMult: real

    constructor (components: seq<IcvfxCamera>, nodes: seq<ClusterNode>, st: StageState)
      ensures this.components == components && this.nodes == nodes && Stage() == st
    {
      this.components := components;
      this.nodes := nodes;
      alive := st.alive;
      innerFrustums := st.innerFrustums;
      gradingEnabled := st.gradingEnabled;
      grading := st.grading;
      outerBufferRatioMult := st.outerBufferRatioMult;
    }

    function Stage(): StageState
      reads this
    {
      StageState(alive, innerFrustums, gradingEnabled, grading, outerBufferRatioMult)
    }
  }

  /** A world, seen through the root actors an actor iterator yields in it. */
  class World {
    const roots: seq<ClusterRoot>

    constructor (roots: seq<ClusterRoot>)
      ensures this.roots == roots
    {
      this.roots := roots;
    }
  }

  /** The API's static state, as a value. */
  datatype Surface = Surface(
    gameWorld: Option<World>,
    root: ClusterRoot?,
    clusterNodes: seq<string>,
    viewPorts: seq<string>,
    viewportToNode: map<string, string>)

  /** TWeakObjectPtr::IsValid. */
  predicate Live(r: ClusterRoot?)
    reads r
  {
    r != null && r.alive
  }

  /** Every root actor in a world of the given contexts. */
  function RootsOf(cs: seq<WorldContext<World>>): set<ClusterRoot> {
    set c, r | c in cs && c.world.Some? && r in c.world.value.roots :: r
  }


  /** GetComponents yields each component once. */
  predicate Distinct(cams: seq<IcvfxCamera>) {
    forall i, j :: 0 <= i < j < |cams| ==> cams[i] != cams[j]
  }

  /**
   * The last root actor of `rs` that is not destroyed, or null: the actor
   * iterator passes over actors that are pending kill.
   */
  function LastAlive(rs: seq<ClusterRoot>): (r: ClusterRoot?)
    reads set q | q in rs
    ensures r != null ==> r in rs && r.alive
  {
    if rs == [] then null
    else if rs[|rs| - 1].alive then rs[|rs| - 1]
    else LastAlive(rs[..|rs| - 1])
  }

  /** The scan finds nothing exactly when every root is destroyed. */
  lemma {:induction false} LastAliveNone(rs: seq<ClusterRoot>)
    ensures LastAlive(rs) == null <==> forall i :: 0 <= i < |rs| ==> !rs[i].alive
  {
    if rs != [] && !rs[|rs| - 1].alive {
      var front := rs[..|rs| - 1];
      LastAliveNone(front);
      forall i | 0 <= i < |front|
        ensures front[i] == rs[i]
      {
      }
    }
  }

  /** The root the scan finds sits at index `i`, and every later root is destroyed. */
  lemma {:induction false} LastAliveIndex(rs: seq<ClusterRoot>) returns (i: nat)
    requires LastAlive(rs) != null
    ensures i < |rs| && rs[i] == LastAlive(rs)
    ensures forall j :: i < j < |rs| ==> !rs[j].alive
  {
    if rs[|rs| - 1].alive {
      i := |rs| - 1;
    } else {
      var front := rs[..|rs| - 1];
      i := LastAliveIndex(front);
      assert rs[i] == front[i];
      forall j | i < j < |rs|
        ensures !rs[j].alive
      {
        if j < |front| {
          assert rs[j] == front[j];
        }
      }
    }
  }

  /** The scan finds nothing exactly when every root is destroyed, and otherwise no later root is alive. */
  lemma LastAliveSpec(rs: seq<ClusterRoot>)
    ensures LastAlive(rs) == null <==> forall i :: 0 <= i < |rs| ==> !rs[i].alive
    ensures LastAlive(rs) != null ==>
      exists i :: 0 <= i < |rs| && rs[i] == LastAlive(rs) && forall j :: i < j < |rs| ==> !rs[j].alive
  {
    LastAliveNone(rs);
    if LastAlive(rs) != null {
      var i := LastAliveIndex(rs);
    }
  }

  /**
   * The root the actor iteration leaves behind: each live root actor it visits
   * replaces the root, so it is the last live one, or the old root when the
   * world has none.
   */
  function RootAfterScan(old_root: ClusterRoot?, w: World): (r: ClusterRoot?)
    reads set q | q in w.roots
    ensures r == old_root || (r in w.roots && r.alive)
  {
    var last := LastAlive(w.roots);
    if last != null then last else old_root
  }

  /** The actor iteration of s_InitAPISurface: each live root actor visited replaces the root. */
  method ScanRoots(start: ClusterRoot?, w: World) returns (r: ClusterRoot?)
    ensures r == RootAfterScan(start, w)
  {
    r := start;
    for i := 0 to |w.roots|
      invariant r == if LastAlive(w.roots[..i]) != null then LastAlive(w.roots[..i]) else start
    {
      assert w.roots[..i + 1][..i] == w.roots[..i];
      if w.roots[i].alive {
        r := w.roots[i];
      }
    }
    assert w.roots[..|w.roots|] == w.roots;
  }

  /** A destroyed root after a live one is passed over, so initialisation still finds the live one. */
  lemma DeadRootSkipped(live: ClusterRoot, dead: ClusterRoot, w: World)
    requires w.roots == [live, dead] && live.alive && !dead.alive
    ensures RootAfterScan(null, w) == live
  {
    assert w.roots[..1] == [live];
    assert LastAlive(w.roots[..1]) == live;
    assert LastAlive(w.roots) == live;
  }

  /**
   * What s_InitAPISurface leaves behind. The node list and the map are emptied
   * first; with no world it stops there. Otherwise the root is replaced by the
   * last live root actor of the world, if any; if the root is then valid the tables
   * are rebuilt from its configuration, the viewport list being appended to
   * without ever being emptied.
   */
  function InitOutcome(s: Surface, cs: seq<WorldContext<World>>): Surface
    reads s.root, RootsOf(cs)
  {
    match PreferredWorld(cs)
    case None => s.(gameWorld := None, clusterNodes := [], viewportToNode := map[])
    case Some(w) =>
      PreferredWorldSound(cs);
      var r := RootAfterScan(s.root, w);
      assert r != null && r != s.root ==> r in RootsOf(cs);
      if Live(r) then
        Surface(Some(w), r, NodeKeys(r.nodes), s.viewPorts + AllViewports(r.nodes), OwnerMap(r.nodes))
      else
        Surface(Some(w), r, [], s.viewPorts, map[])
  }

  /** What a guard macro (API_CHECK_*) leaves behind: nothing changes when the root is valid. */
  function GuardOutcome(s: Surface, cs: seq<WorldContext<World>>): Surface
    reads s.root, RootsOf(cs)
  {
    if Live(s.root) then s else InitOutcome(s, cs)
  }

  /** The camera a scan picked, or null. */
  function PickOf(cams: seq<IcvfxCamera>, p: Option<nat>): (c: IcvfxCamera?)
    requires p.Some? ==> p.value < |cams|
    ensures c == null <==> p.None?
  {
    if p.None? then null else cams[p.value]
  }

  /** The fields the camera scans read: bEnable and RenderOrder, component by component. */
  function Keys(cams: seq<IcvfxCamera>): seq<Candidate> {
    seq(|cams|, i requires 0 <= i < |cams| => Candidate(cams[i].enabled, cams[i].renderOrder))
  }

  /** The keys the scans read from the components are the candidates of the components' states. */
  lemma KeysAreCandidates(cams: seq<IcvfxCamera>, cs: seq<CameraState>)
    requires |cs| == |cams| && forall i :: 0 <= i < |cams| ==> cs[i] == cams[i].State()
    ensures Keys(cams) == Candidates(cs)
  {
  }

  /**
   * On the components, the exposure of the camera each scan picks is the
   * value model's: camera A's is what GetFrustumExposureB returns as written,
   * camera B's what it was meant to return.
   */
  lemma ScannedExposure(cams: seq<IcvfxCamera>, cs: seq<CameraState>)
    requires |cs| == |cams| && forall i :: 0 <= i < |cams| ==> cs[i] == cams[i].State()
    ensures GetFrustumExposureByComponent(PickOf(cams, HighestPick(Keys(cams)))) == ExposureBAsWritten(cs)
    ensures GetFrustumExposureByComponent(PickOf(cams, LowestPick(Keys(cams)))) == ExposureBIntended(cs)
  {
    KeysAreCandidates(cams, cs);
  }

  /** The loop of GetIcvfxCameraComponentA: keep the first enabled, replace on a strictly larger order. */
  method SelectHighest(cams: seq<IcvfxCamera>) returns (r: IcvfxCamera?)
    ensures r == PickOf(cams, HighestPick(Keys(cams)))
  {
    r := null;
    ghost var p: Option<nat> := None;
    ghost var ks := Keys(cams);
    for i := 0 to |cams|
      invariant p == HighestPick(ks[..i])
      invariant p.Some? ==> p.value < i
      invariant r == PickOf(cams, p)
    {
      assert ks[..i + 1][..i] == ks[..i];
      var c := cams[i];
      if c.enabled {
        if r == null {
          r, p := c, Some(i);
        } else if c.renderOrder > r.renderOrder {
          r, p := c, Some(i);
        }
      }
    }
    assert ks[..|cams|] == ks;
  }

  /** The loop of GetIcvfxCameraComponentB: keep the first enabled, replace on a strictly smaller order. */
  method SelectLowest(cams: seq<IcvfxCamera>) returns (r: IcvfxCamera?)
    ensures r == PickOf(cams, LowestPick(Keys(cams)))
  {
    r := null;
    ghost var p: Option<nat> := None;
    ghost var ks := Keys(cams);
    for i := 0 to |cams|
      invariant p == LowestPick(ks[..i])
      invariant p.Some? ==> p.value < i
      invariant r == PickOf(cams, p)
    {
      assert ks[..i + 1][..i] == ks[..i];
      var c := cams[i];
      if c.enabled {
        if r == null {
          r, p := c, Some(i);
        } else if c.renderOrder < r.renderOrder {
          r, p := c, Some(i);
        }
      }
    }
    assert ks[..|cams|] == ks;
  }

  // ---------------------------------------------------------------------------
  // The _ByComponent helpers: a null component makes setters do nothing and getters return 0.

  function GetFrustumFOVMultByComponent(c: IcvfxCamera?): (r: real)
    reads c
    ensures c == null ==> r == 0.0
    ensures c != null ==> r == c.State().bufferRatio
  {
    if c == null then 0.0 else c.bufferRatio
  }

  method SetFrustumFOVMultByComponent(c: IcvfxCamera?, fovMult: real)
    modifies c
    ensures c != null ==> c.State() == old(c.State()).(bufferRatio := fovMult)
    ensures GetFrustumFOVMultByComponent(c) == if c == null then 0.0 else fovMult
  {
    if c == null {
      return;
    }
    c.bufferRatio := fovMult;
  }

  function GetFrustumExposureByComponent(c: IcvfxCamera?): (r: real)
    reads c
    ensures c == null ==> r == 0.0
    ensures c != null ==> r == c.State().grading.exposureBias
  {
    if c == null then 0.0 else c.grading.exposureBias
  }

  method SetFrustumExposureByComponent(c: IcvfxCamera?, exposure: real)
    modifies c
    ensures c != null ==> c.State() == ApplyFrustumExposure(old(c.State()), exposure)
    ensures GetFrustumExposureByComponent(c) == if c == null then 0.0 else exposure
  {
    if c == null {
      return;
    }
    c.clusterGradingEnabled := true;
    c.innerFrustumGradingEnabled := true;
    c.grading := c.grading.(exposureOverridden := true, exposureBias := exposure);
  }

  // ---------------------------------------------------------------------------
  // Lemmas about initialisation and the guard.

  /**
   * Initialisation: the viewport list is only appended to; with no world the
   * root is kept; otherwise the root is the last live root actor of the chosen
   * world (or the previous root if it has none); on failure the node list and
   * the map are empty.
   */
  lemma InitTables(s: Surface, cs: seq<WorldContext<World>>)
    ensures var r := InitOutcome(s, cs);
      && |s.viewPorts| <= |r.viewPorts| && r.viewPorts[..|s.viewPorts|] == s.viewPorts
      && (PreferredWorld(cs).None? ==> r.root == s.root && r.gameWorld.None?)
      && (PreferredWorld(cs).Some? ==>
            r.gameWorld == PreferredWorld(cs) && r.root == RootAfterScan(s.root, PreferredWorld(cs).value))
      && (!(r.gameWorld.Some? && Live(r.root)) ==>
            r.clusterNodes == [] && r.viewportToNode == map[] && r.viewPorts == s.viewPorts)
  {
  }

  /**
   * A successful initialisation builds the tables from the root's
   * configuration: the node keys in order, the viewports appended, and every
   * key of the map mapped to the last node that has a viewport of that name up
   * to case.
   */
  lemma InitBuildsTables(s: Surface, cs: seq<WorldContext<World>>)
    ensures var r := InitOutcome(s, cs);
      r.gameWorld.Some? && Live(r.root) ==>
        && |r.clusterNodes| == |r.root.nodes|
        && (forall i :: 0 <= i < |r.clusterNodes| ==> r.clusterNodes[i] == r.root.nodes[i].name)
        && r.viewPorts == s.viewPorts + AllViewports(r.root.nodes)
        && LastOwnerMap(r.root.nodes, r.viewportToNode)
  {
    var r := InitOutcome(s, cs);
    if r.gameWorld.Some? && Live(r.root) {
      var nodes := r.root.nodes;
      assert r.clusterNodes == NodeKeys(nodes) && r.viewportToNode == OwnerMap(nodes);
      OwnerMapAll(nodes);
    }
  }

  /** Initialisation succeeds whenever the chosen world has a live root actor, whatever the old root. */
  lemma InitFindsLiveRoot(s: Surface, cs: seq<WorldContext<World>>)
    requires PreferredWorld(cs).Some? && LastAlive(PreferredWorld(cs).value.roots) != null
    ensures var r := InitOutcome(s, cs);
            r.gameWorld == PreferredWorld(cs) && Live(r.root) && r.root in PreferredWorld(cs).value.roots
  {
  }

  /**
   * Repeated initialisation accumulates: two successful inits on the same
   * configuration leave every viewport of that configuration twice in the
   * list, so a non-empty configuration yields duplicates.
   */
  lemma InitTwiceDuplicatesViewports(s: Surface, cs: seq<WorldContext<World>>)
    requires var r := InitOutcome(s, cs); r.gameWorld.Some? && Live(r.root)
    ensures var r1 := InitOutcome(s, cs);
            var r2 := InitOutcome(r1, cs);
            && r2.root == r1.root && r2.clusterNodes == r1.clusterNodes && r2.viewportToNode == r1.viewportToNode
            && r2.viewPorts == s.viewPorts + AllViewports(r1.root.nodes) + AllViewports(r1.root.nodes)
    ensures var r1 := InitOutcome(s, cs);
            var r2 := InitOutcome(r1, cs);
            var n := |s.viewPorts| + |AllViewports(r1.root.nodes)|;
            AllViewports(r1.root.nodes) != [] ==> n < |r2.viewPorts| && r2.viewPorts[n] == r2.viewPorts[|s.viewPorts|]
  {
    var r1 := InitOutcome(s, cs);
    var w := PreferredWorld(cs).value;
    assert RootAfterScan(r1.root, w) == r1.root;
  }

  /** After the guard, the guard has nothing left to do: it fails the same way or it is a no-op. */
  lemma GuardSettles(s: Surface, cs: seq<WorldContext<World>>)
    ensures GuardOutcome(GuardOutcome(s, cs), cs) == GuardOutcome(s, cs)
  {
    if !Live(s.root) {
      var r1 := InitOutcome(s, cs);
      if PreferredWorld(cs).Some? {
        var w := PreferredWorld(cs).value;
        assert RootAfterScan(r1.root, w) == r1.root;
      }
    }
  }

  // ---------------------------------------------------------------------------

  /** UStageAPIImpl together with its static state. */
  class StageApi {
    /** The host engine's world contexts, in the order GetWorldContexts yields them. */
    const contexts: seq<WorldContext<World>>
    var gameWorld: Option<World>
    var root: ClusterRoot?
    var clusterNodes: seq<string>
    var viewPorts: seq<string>
    var viewportToNode: map<string, string>

    constructor (contexts: seq<WorldContext<World>>)
      requires forall r :: r in RootsOf(contexts) ==> Distinct(r.components)
      ensures this.contexts == contexts && Valid()
      ensures Snapshot() == Surface(None, null, [], [], map[])
    {
      this.contexts := contexts;
      gameWorld := None;
      root := null;
      clusterNodes := [];
      viewPorts := [];
      viewportToNode := map[];
    }

    function Snapshot(): Surface
      reads this
    {
      Surface(gameWorld, root, clusterNodes, viewPorts, viewportToNode)
    }

    /** The root actors the API can reach: the current root and those of every world. */
    ghost function Roots(): set<ClusterRoot>
      reads this
    {
      RootsOf(contexts) + (if root != null then {root} else {})
    }

    ghost function Cameras(): set<IcvfxCamera>
      reads this
    {
      set r, c | r in Roots() && c in r.components :: c
    }

    ghost predicate Valid()
      reads this
    {
      forall r :: r in Roots() ==> Distinct(r.components)
    }

    /** IsAPIReady. */
    predicate IsApiReady()
      reads this, root
    {
      Live(root)
    }

    /** A guard now would change nothing. */
    predicate Settled()
      reads this, Roots()
    {
      GuardOutcome(Snapshot(), contexts) == Snapshot()
    }

    /**
     * The state after a guarded call: the static state is what the guard
     * macro left behind, a further guard would change nothing, and every root
     * and component is still one the API could reach before.
     */
    twostate predicate Guarded()
      reads this, Roots()
    {
      && Valid()
      && Snapshot() == old(GuardOutcome(Snapshot(), contexts))
      && Settled()
      && Roots() <= old(Roots())
      && Cameras() <= old(Cameras())
    }

    /** Camera A, when there is one, is a component of a reachable root. */
    lemma CameraAReachable()
      ensures CameraA() != null ==> CameraA() in Cameras()
    {
      if CameraA() != null {
        var p := HighestPick(Keys(root.components)).value;
        assert root in Roots() && root.components[p] in root.components;
      }
    }

    /** Camera B, when there is one, is a component of a reachable root. */
    lemma CameraBReachable()
      ensures CameraB() != null ==> CameraB() in Cameras()
    {
      if CameraB() != null {
        var p := LowestPick(Keys(root.components)).value;
        assert root in Roots() && root.components[p] in root.components;
      }
    }

    /** Camera A of the current root (null when the root is not valid or no component is enabled). */
    function CameraA(): IcvfxCamera?
      reads this, root
    {
      if Live(root) then PickOf(root.components, HighestPick(Keys(root.components))) else null
    }

    /** Camera B of the current root. */
    function CameraB(): IcvfxCamera?
      reads this, root
    {
      if Live(root) then PickOf(root.components, LowestPick(Keys(root.components))) else null
    }

    /** The destructor: every static is reset. */
    method Reset()
      requires Valid()
      modifies this
      ensures Snapshot() == Surface(None, null, [], [], map[])
      ensures Valid()
    {
      root := null;
      clusterNodes := [];
      viewPorts := [];
      viewportToNode := map[];
      gameWorld := None;
    }

    /** s_InitAPISurface, also exposed as InitAPISurface. */
    method InitApiSurface() returns (ok: bool)
      requires Valid()
      modifies this
      ensures Valid()
      ensures Snapshot() == old(InitOutcome(Snapshot(), contexts))
      ensures Roots() <= old(Roots())
      ensures ok <==> gameWorld.Some? && Live(root)
    {
      clusterNodes := [];
      viewportToNode := map[];
      gameWorld := FindWorldContext(contexts);
      if gameWorld.None? {
        return false;
      }
      var world := gameWorld.value;
      PreferredWorldSound(contexts);
      ghost var scanned := RootAfterScan(root, world);
      assert scanned == old(RootAfterScan(root, world));
      root := ScanRoots(root, world);
      assert root != null && root != old(root) ==> root in RootsOf(contexts);
      if root != null && root.alive {
        AddNodes(root.nodes);
        return true;
      }
      return false;
    }

    /** The outer loop over the configuration's nodes, from empty tables. */
    method AddNodes(nodes: seq<ClusterNode>)
      requires clusterNodes == [] && viewportToNode == map[]
      modifies this
      ensures clusterNodes == NodeKeys(nodes)
      ensures viewPorts == old(viewPorts) + AllViewports(nodes)
      ensures viewportToNode == OwnerMap(nodes)
      ensures gameWorld == old(gameWorld) && root == old(root)
    {
      for i := 0 to |nodes|
        invariant gameWorld == old(gameWorld) && root == old(root)
        invariant clusterNodes == NodeKeys(nodes[..i])
        invariant viewPorts == old(viewPorts) + AllViewports(nodes[..i])
        invariant viewportToNode == OwnerMap(nodes[..i])
      {
        ghost var upTo := nodes[..i + 1];
        assert upTo[..i] == nodes[..i] && upTo[i] == nodes[i];
        assert AllViewports(upTo) == AllViewports(nodes[..i]) + nodes[i].viewports;
        assert OwnerMap(upTo) == OwnerMap(nodes[..i]) + NodeEntries(nodes[i]);
        AddNode(nodes[i]);
        assert viewPorts == old(viewPorts) + (AllViewports(nodes[..i]) + nodes[i].viewports);
      }
      assert nodes[..|nodes|] == nodes;
    }

    /** One node: its key, then the inner loop over its viewports. */
    method AddNode(node: ClusterNode)
      modifies this
      ensures clusterNodes == old(clusterNodes) + [node.name]
      ensures viewPorts == old(viewPorts) + node.viewports
      ensures viewportToNode == old(viewportToNode) + NodeEntries(node)
      ensures gameWorld == old(gameWorld) && root == old(root)
    {
      clusterNodes := clusterNodes + [node.name];
      for j := 0 to |node.viewports|
        invariant clusterNodes == old(clusterNodes) + [node.name]
        invariant gameWorld == old(gameWorld) && root == old(root)
        invariant viewPorts == old(viewPorts) + node.viewports[..j]
        invariant viewportToNode == old(viewportToNode) + NodeEntries(ClusterNode(node.name, node.viewports[..j]))
      {
        assert node.viewports[..j + 1] == node.viewports[..j] + [node.viewports[j]];
        EntriesGrow(old(viewportToNode), node.name, node.viewports[..j], node.viewports[j]);
        viewPorts := viewPorts + [node.viewports[j]];
        viewportToNode := viewportToNode[Fold(node.viewports[j]) := node.name];
      }
      assert node.viewports[..|node.viewports|] == node.viewports;
    }

    /** The guard macros: re-initialise when the root is not valid; `ready` says whether to go on. */
    method Guard() returns (ready: bool)
      requires Valid()
      modifies this
      ensures Guarded()
      ensures ready == Live(root)
    {
      ready := IsApiReady();
      if !ready {
        ready := InitApiSurface();
        GuardSettles(old(Snapshot()), contexts);
      }
    }

    // -------------------------------------------------------------------------
    // Cameras A and B.

    method GetIcvfxCameraComponentA() returns (a: IcvfxCamera?)
      requires Valid()
      modifies this
      ensures Guarded()
      ensures a == CameraA()
    {
      var ready := Guard();
      if !ready {
        return null;
      }
      a := SelectHighest(root.components);
    }

    method GetIcvfxCameraComponentB() returns (b: IcvfxCamera?)
      requires Valid()
      modifies this
      ensures Guarded()
      ensures b == CameraB()
    {
      var ready := Guard();
      if !ready {
        return null;
      }
      b := SelectLowest(root.components);
    }

    /** GetIcvfxCameraComponent is camera A. */
    method GetIcvfxCameraComponent() returns (a: IcvfxCamera?)
      requires Valid()
      modifies this
      ensures Guarded()
      ensures a == CameraA()
    {
      a := GetIcvfxCameraComponentA();
    }

    /** Camera B is active exactly when the enabled components use more than one render order. */
    method CameraBActive() returns (active: bool)
      requires Valid()
      modifies this
      ensures Guarded()
      ensures active <==> Live(root) && !OneRenderOrder(Keys(root.components))
    {
      var a := GetIcvfxCameraComponentA();
      var b := GetIcvfxCameraComponentB();
      GuardSettles(old(Snapshot()), contexts);
      active := a != b;
      if Live(root) {
        var ks := Keys(root.components);
        PicksCoincide(ks);
        HighestPickSpec(ks);
        LowestPickSpec(ks);
        assert Distinct(root.components);
      }
    }

    // -------------------------------------------------------------------------
    // Frustum settings on cameras A and B.

    method GetFrustumFOVMult() returns (r: real)
      requires Valid()
      modifies this
      ensures Guarded()
      ensures r == GetFrustumFOVMultByComponent(CameraA())
    {
      var ready := Guard();
      if !ready {
        return 0.0;
      }
      var a := GetIcvfxCameraComponentA();
      r := GetFrustumFOVMultByComponent(a);
    }

    method GetFrustumFOVMultB() returns (r: real)
      requires Valid()
      modifies this
      ensures Guarded()
      ensures r == GetFrustumFOVMultByComponent(CameraB())
    {
      var ready := Guard();
      if !ready {
        return 0.0;
      }
      var b := GetIcvfxCameraComponentB();
      r := GetFrustumFOVMultByComponent(b);
    }

    method SetFrustumFOVMult(fovMult: real)
      requires Valid()
      modifies this, Cameras()
      ensures Guarded()
      ensures var a := CameraA(); a != null ==> a.State() == old(a.State()).(bufferRatio := fovMult)
      ensures forall c :: c in old(Cameras()) && c != CameraA() ==> unchanged(c)
    {
      var ready := Guard();
      if !ready {
        return;
      }
      var a := GetIcvfxCameraComponentA();
      CameraAReachable();
      SetFrustumFOVMultByComponent(a, fovMult);
    }

    method SetFrustumFOVMultB(fovMult: real)
      requires Valid()
      modifies this, Cameras()
      ensures Guarded()
      ensures var b := CameraB(); b != null ==> b.State() == old(b.State()).(bufferRatio := fovMult)
      ensures forall c :: c in old(Cameras()) && c != CameraB() ==> unchanged(c)
    {
      var ready := Guard();
      if !ready {
        return;
      }
      var b := GetIcvfxCameraComponentB();
      CameraBReachable();
      SetFrustumFOVMultByComponent(b, fovMult);
    }

    method GetFrustumExposure() returns (r: real)
      requires Valid()
      modifies this
      ensures Guarded()
      ensures r == GetFrustumExposureByComponent(CameraA())
    {
      var ready := Guard();
      if !ready {
        return 0.0;
      }
      var a := GetIcvfxCameraComponentA();
      r := GetFrustumExposureByComponent(a);
    }

    /**
     * The B getter as evidently intended: it reads camera B. As written it
     * reads camera A; CameraSelect.ExposureBAsWritten models that.
     */
    method GetFrustumExposureB() returns (r: real)
      requires Valid()
      modifies this
      ensures Guarded()
      ensures r == GetFrustumExposureByComponent(CameraB())
    {
      var ready := Guard();
      if !ready {
        return 0.0;
      }
      var b := GetIcvfxCameraComponentB();
      r := GetFrustumExposureByComponent(b);
    }

    method SetFrustumExposure(exposure: real)
      requires Valid()
      modifies this, Cameras()
      ensures Guarded()
      ensures var a := CameraA(); a != null ==> a.State() == ApplyFrustumExposure(old(a.State()), exposure)
      ensures forall c :: c in old(Cameras()) && c != CameraA() ==> unchanged(c)
    {
      var ready := Guard();
      if !ready {
        return;
      }
      var a := GetIcvfxCameraComponentA();
      CameraAReachable();
      SetFrustumExposureByComponent(a, exposure);
    }

    method SetFrustumExposureB(exposure: real)
      requires Valid()
      modifies this, Cameras()
      ensures Guarded()
      ensures var b := CameraB(); b != null ==> b.State() == ApplyFrustumExposure(old(b.State()), exposure)
      ensures forall c :: c in old(Cameras()) && c != CameraB() ==> unchanged(c)
    {
      var ready := Guard();
      if !ready {
        return;
      }
      var b := GetIcvfxCameraComponentB();
      CameraBReachable();
      SetFrustumExposureByComponent(b, exposure);
    }

    method GetFrustumRenderRatio() returns (r: real)
      requires Valid()
      modifies this
      ensures Guarded()
      ensures r == if CameraA() == null then 0.0 else CameraA().State().renderTargetRatio
    {
      var ready := Guard();
      if !ready {
        return 0.0;
      }
      var a := GetIcvfxCameraComponent();
      if a == null {
        return 0.0;
      }
      r := a.renderTargetRatio;
    }

    method SetFrustumRenderRatio(ratio: real)
      requires Valid()
      modifies this, Cameras()
      ensures Guarded()
      ensures var a := CameraA(); a != null ==> a.State() == old(a.State()).(renderTargetRatio := ratio)
      ensures forall c :: c in old(Cameras()) && c != CameraA() ==> unchanged(c)
    {
      var ready := Guard();
      if !ready {
        return;
      }
      var a := GetIcvfxCameraComponent();
      CameraAReachable();
      if a == null {
        return;
      }
      a.renderTargetRatio := ratio;
    }

    // -------------------------------------------------------------------------
    // Chromakey on camera A.

    method DisableChromakey()
      requires Valid()
      modifies this, Cameras()
      ensures Guarded()
      ensures var a := CameraA(); a != null ==> a.State() == old(a.State()).(chromakey := false)
      ensures forall c :: c in old(Cameras()) && c != CameraA() ==> unchanged(c)
    {
      var ready := Guard();
      if !ready {
        return;
      }
      var a := GetIcvfxCameraComponent();
      CameraAReachable();
      if a == null {
        return;
      }
      a.chromakey := false;
    }

    method EnableChromakey()
      requires Valid()
      modifies this, Cameras()
      ensures Guarded()
      ensures var a := CameraA(); a != null ==> a.State() == old(a.State()).(chromakey := true)
      ensures forall c :: c in old(Cameras()) && c != CameraA() ==> unchanged(c)
    {
      var ready := Guard();
      if !ready {
        return;
      }
      var a := GetIcvfxCameraComponent();
      CameraAReachable();
      if a == null {
        return;
      }
      a.chromakey := true;
    }

    method SetChromakeyStatus(enabled: bool)
      requires Valid()
      modifies this, Cameras()
      ensures Guarded()
      ensures var a := CameraA(); a != null ==> a.State() == old(a.State()).(chromakey := enabled)
      ensures forall c :: c in old(Cameras()) && c != CameraA() ==> unchanged(c)
    {
      if enabled {
        EnableChromakey();
      } else {
        DisableChromakey();
      }
    }

    method GetChromakeyStatus() returns (r: bool)
      requires Valid()
      modifies this
      ensures Guarded()
      ensures r == (CameraA() != null && CameraA().State().chromakey)
    {
      var ready := Guard();
      if !ready {
        return false;
      }
      var a := GetIcvfxCameraComponent();
      if a == null {
        return false;
      }
      r := a.chromakey;
    }

    // -------------------------------------------------------------------------
    // Frustum grading on camera A.

    /** GetFrustumPP_<k>: camera A's AllNodesColorGrading field, a default vector without camera A. */
    method GetFrustumGrade(k: GradeKey) returns (r: Vector4)
      requires Valid()
      modifies this
      ensures Guarded()
      ensures r == if CameraA() == null then DefaultVector4 else CameraA().State().grading.At(k).value
    {
      var ready := Guard();
      if !ready {
        return DefaultVector4;
      }
      var a := GetIcvfxCameraComponentA();
      if a == null {
        return DefaultVector4;
      }
      r := a.grading.At(k).value;
    }

    /**
     * SetFrustumPP_<k>, with every field toggling its own override flag. As
     * written the Gamma setter toggles the Gain override instead;
     * Grading.ApplyFrustumGradeAsWritten models that.
     */
    method SetFrustumGrade(k: GradeKey, v: Vector4)
      requires Valid()
      modifies this, Cameras()
      ensures Guarded()
      ensures var a := CameraA(); a != null ==> a.State() == ApplyFrustumGrade(old(a.State()), k, v)
      ensures forall c :: c in old(Cameras()) && c != CameraA() ==> unchanged(c)
    {
      var ready := Guard();
      if !ready {
        return;
      }
      var a := GetIcvfxCameraComponentA();
      CameraAReachable();
      if a == null {
        return;
      }
      var g := GradeRule(a.clusterGradingEnabled, a.grading, k, k, v);
      a.clusterGradingEnabled := g.0;
      a.grading := g.1;
    }

    // -------------------------------------------------------------------------
    // Stage settings on the root's configuration.

    /** GetDisplayClusterRoot. */
    method GetDisplayClusterRoot() returns (r: ClusterRoot?)
      requires Valid()
      modifies this
      ensures Guarded()
      ensures r == if Live(root) then root else null
    {
      var ready := Guard();
      if !ready {
        return null;
      }
      r := root;
    }

    method GetInnerFrustumStatus() returns (r: bool)
      requires Valid()
      modifies this
      ensures Guarded()
      ensures r == (Live(root) && root.Stage().innerFrustums)
    {
      var ready := Guard();
      if !ready {
        return false;
      }
      r := root.innerFrustums;
    }

    method SetInnerFrustumState(state: bool)
      requires Valid()
      modifies this, Roots()
      ensures Guarded()
      ensures var r := root; Live(r) ==> r.Stage() == old(r.Stage()).(innerFrustums := state)
      ensures forall q :: q in old(Roots()) && !(q == root && Live(root)) ==> unchanged(q)
    {
      var ready := Guard();
      if !ready {
        return;
      }
      root.innerFrustums := state;
    }

    method EnableInnerFrustum()
      requires Valid()
      modifies this, Roots()
      ensures Guarded()
      ensures var r := root; Live(r) ==> r.Stage() == old(r.Stage()).(innerFrustums := true)
      ensures forall q :: q in old(Roots()) && !(q == root && Live(root)) ==> unchanged(q)
    {
      SetInnerFrustumState(true);
    }

    method DisableInnerFrustum()
      requires Valid()
      modifies this, Roots()
      ensures Guarded()
      ensures var r := root; Live(r) ==> r.Stage() == old(r.Stage()).(innerFrustums := false)
      ensures forall q :: q in old(Roots()) && !(q == root && Live(root)) ==> unchanged(q)
    {
      SetInnerFrustumState(false);
    }

    method GetGlobalScreenPercentage() returns (r: real)
      requires Valid()
      modifies this
      ensures Guarded()
      ensures r == if Live(root) then root.Stage().outerBufferRatioMult else 0.0
    {
      var ready := Guard();
      if !ready {
        return 0.0;
      }
      var config := GetDisplayClusterRoot();
      r := config.outerBufferRatioMult;
    }

    method SetGlobalScreenPercentage(percentage: real)
      requires Valid()
      modifies this, Roots()
      ensures Guarded()
      ensures var r := root; Live(r) ==> r.Stage() == old(r.Stage()).(outerBufferRatioMult := percentage)
      ensures forall q :: q in old(Roots()) && !(q == root && Live(root)) ==> unchanged(q)
    {
      var ready := Guard();
      if !ready {
        return;
      }
      var config := GetDisplayClusterRoot();
      config.outerBufferRatioMult := percentage;
    }

    method GetStageExposure() returns (r: real)
      requires Valid()
      modifies this
      ensures Guarded()
      ensures r == if Live(root) then root.Stage().grading.exposureBias else 0.0
    {
      var ready := Guard();
      if !ready {
        return 0.0;
      }
      r := root.grading.exposureBias;
    }

    method SetStageExposure(exposure: real)
      requires Valid()
      modifies this, Roots()
      ensures Guarded()
      ensures var r := root; Live(r) ==> r.Stage() == ApplyStageExposure(old(r.Stage()), exposure)
      ensures forall q :: q in old(Roots()) && !(q == root && Live(root)) ==> unchanged(q)
    {
      var ready := Guard();
      if !ready {
        return;
      }
      root.gradingEnabled := true;
      root.grading := root.grading.(exposureOverridden := true, exposureBias := exposure);
    }

    method DisableStageExposure()
      requires Valid()
      modifies this, Roots()
      ensures Guarded()
      ensures var r := root; Live(r) ==> r.Stage() == DisableExposure(old(r.Stage()))
      ensures forall q :: q in old(Roots()) && !(q == root && Live(root)) ==> unchanged(q)
    {
      var ready := Guard();
      if !ready {
        return;
      }
      root.grading := root.grading.(exposureOverridden := false);
    }

    /** GetClusterPP_<k>: the root's EntireClusterColorGrading field, a default vector without a root. */
    method GetClusterGrade(k: GradeKey) returns (r: Vector4)
      requires Valid()
      modifies this
      ensures Guarded()
      ensures r == if Live(root) then root.Stage().grading.At(k).value else DefaultVector4
    {
      var ready := Guard();
      if !ready {
        return DefaultVector4;
      }
      r := root.grading.At(k).value;
    }

    /** SetClusterPP_<k>. */
    method SetClusterGrade(k: GradeKey, v: Vector4)
      requires Valid()
      modifies this, Roots()
      ensures Guarded()
      ensures var r := root; Live(r) ==> r.Stage() == ApplyClusterGrade(old(r.Stage()), k, v)
      ensures forall q :: q in old(Roots()) && !(q == root && Live(root)) ==> unchanged(q)
    {
      var ready := Guard();
      if !ready {
        return;
      }
      var g := GradeRule(root.gradingEnabled, root.grading, k, k, v);
      root.gradingEnabled := g.0;
      root.grading := g.1;
    }

    // -------------------------------------------------------------------------
    // Round trips a caller can rely on.

    /** Setting the inner-frustum state and reading it back yields the state set, whenever the root is valid. */
    method InnerFrustumRoundTrip(state: bool) returns (r: bool)
      requires Valid()
      modifies this, Roots()
      ensures Valid()
      ensures r == (Live(root) && state)
    {
      SetInnerFrustumState(state);
      r := GetInnerFrustumStatus();
    }

    /** Setting the chromakey status and reading it back yields the status set, whenever camera A exists. */
    method ChromakeyRoundTrip(enabled: bool) returns (r: bool)
      requires Valid()
      modifies this, Cameras()
      ensures Valid()
      ensures r == (CameraA() != null && enabled)
    {
      SetChromakeyStatus(enabled);
      r := GetChromakeyStatus();
    }

    /** Setting camera A's FOV multiplier and reading it back yields the value set, whenever camera A exists. */
    method FovMultRoundTrip(fovMult: real) returns (r: real)
      requires Valid()
      modifies this, Cameras()
      ensures Valid()
      ensures r == if CameraA() == null then 0.0 else fovMult
    {
      SetFrustumFOVMult(fovMult);
      r := GetFrustumFOVMult();
    }
  }
}
