/**
 * The lookup tables the API builds from the cluster configuration
 * (s_InitAPISurface): the node list, the viewport list and the
 * viewport-to-node map.
 *
 * The configuration is an ordered map from node name to an ordered map of
 * viewports; only the keys matter here, so a node is its name and the list
 * of its viewport names, in iteration order.
 */
module ClusterTables {

  datatype ClusterNode = ClusterNode(name: string, viewports: seq<string>)

  /** The node names in iteration order. */
  function NodeKeys(ns: seq<ClusterNode>): (r: seq<string>)
    ensures |r| == |ns|
    ensures forall i :: 0 <= i < |ns| ==> r[i] == ns[i].name
  {
    if ns == [] then [] else NodeKeys(ns[..|ns| - 1]) + [ns[|ns| - 1].name]
  }

  /** Every viewport name, node by node, in iteration order. */
  function AllViewports(ns: seq<ClusterNode>): seq<string> {
    if ns == [] then [] else AllViewports(ns[..|ns| - 1]) + ns[|ns| - 1].viewports
  }

  /**
   * An FString map key compares without regard to case: the engine lowers
   * the ASCII letters A to Z of both sides before comparing, so a key is
   * identified by its folded spelling.
   */
  function FoldChar(c: char): char {
    if 'A' <= c <= 'Z' then (c as int + 32) as char else c
  }

  function Fold(s: string): string {
    seq(|s|, i requires 0 <= i < |s| => FoldChar(s[i]))
  }

  /** The keys a list of viewports occupies in the map, in order. */
  function FoldAll(vs: seq<string>): seq<string> {
    seq(|vs|, i requires 0 <= i < |vs| => Fold(vs[i]))
  }

  /** Each viewport occupies the key of its folded name. */
  lemma FoldAllMember(vs: seq<string>, v: string)
    requires v in vs
    ensures Fold(v) in FoldAll(vs)
  {
    var i :| 0 <= i < |vs| && vs[i] == v;
    assert FoldAll(vs)[i] == Fold(v);
  }

  /**
   * The map the nested loop leaves behind: each insertion overwrites the
   * entry whose key equals the viewport name up to case.
   */
  function OwnerMap(ns: seq<ClusterNode>): map<string, string> {
    if ns == [] then map[]
    else OwnerMap(ns[..|ns| - 1]) + NodeEntries(ns[|ns| - 1])
  }

  /** The entries one node contributes: each of its viewports' keys mapped to it. */
  function NodeEntries(n: ClusterNode): map<string, string> {
    map k | k in FoldAll(n.viewports) :: n.name
  }

  /** Adding one viewport to a node adds or replaces the one entry under its folded name. */
  lemma EntriesGrow(m: map<string, string>, name: string, vs: seq<string>, v: string)
    ensures m + NodeEntries(ClusterNode(name, vs + [v])) == (m + NodeEntries(ClusterNode(name, vs)))[Fold(v) := name]
  {
    assert FoldAll(vs + [v]) == FoldAll(vs) + [Fold(v)];
  }

  /** The node has a viewport whose name equals `k` up to case. */
  predicate Owns(n: ClusterNode, k: string) {
    k in FoldAll(n.viewports)
  }

  /** One node's entries: its keys, each mapped to the node. */
  lemma EntryAt(n: ClusterNode, k: string)
    ensures k in NodeEntries(n) <==> Owns(n, k)
    ensures k in NodeEntries(n) ==> NodeEntries(n)[k] == n.name
  {
  }

  /** The viewport list holds exactly the viewports of the nodes. */
  lemma {:induction false} AllViewportsMembers(ns: seq<ClusterNode>, v: string)
    ensures v in AllViewports(ns) <==> exists i :: 0 <= i < |ns| && v in ns[i].viewports
  {
    if ns != [] {
      var front := ns[..|ns| - 1];
      AllViewportsMembers(front, v);
      if v in AllViewports(ns) && v !in ns[|ns| - 1].viewports {
        var i :| 0 <= i < |front| && v in front[i].viewports;
        assert ns[i] == front[i];
      }
      if exists i :: 0 <= i < |ns| && v in ns[i].viewports {
        var i :| 0 <= i < |ns| && v in ns[i].viewports;
        if i < |front| {
          assert front[i] == ns[i];
        }
      }
    }
  }

  /** Initialisation appends nothing exactly when no node has a viewport. */
  lemma {:induction false} AllViewportsEmpty(ns: seq<ClusterNode>)
    ensures (forall i :: 0 <= i < |ns| ==> ns[i].viewports == []) <==> AllViewports(ns) == []
  {
    if ns != [] {
      var front := ns[..|ns| - 1];
      var last := ns[|ns| - 1];
      AllViewportsEmpty(front);
      assert AllViewports(ns) == AllViewports(front) + last.viewports;
      assert forall i :: 0 <= i < |front| ==> front[i] == ns[i];
      assert AllViewports(ns) == [] <==> AllViewports(front) == [] && last.viewports == [];
    }
  }

  /** One step of the outer loop: the last node's entries override the earlier ones. */
  lemma OwnerMapStep(ns: seq<ClusterNode>, k: string)
    requires ns != []
    ensures var front, last := ns[..|ns| - 1], ns[|ns| - 1];
      && (k in OwnerMap(ns) <==> k in OwnerMap(front) || Owns(last, k))
      && (Owns(last, k) ==> OwnerMap(ns)[k] == last.name)
      && (!Owns(last, k) && k in OwnerMap(front) ==> OwnerMap(ns)[k] == OwnerMap(front)[k])
  {
    EntryAt(ns[|ns| - 1], k);
  }

  /** The map's keys are the keys of all nodes. */
  lemma {:induction false} OwnerMapKeys(ns: seq<ClusterNode>, k: string)
    ensures k in OwnerMap(ns) <==> exists i :: 0 <= i < |ns| && Owns(ns[i], k)
  {
    if ns != [] {
      var front := ns[..|ns| - 1];
      OwnerMapStep(ns, k);
      OwnerMapKeys(front, k);
      if exists i :: 0 <= i < |ns| && Owns(ns[i], k) {
        var i :| 0 <= i < |ns| && Owns(ns[i], k);
        if i < |front| {
          assert front[i] == ns[i];
        }
      }
      if exists i :: 0 <= i < |front| && Owns(front[i], k) {
        var i :| 0 <= i < |front| && Owns(front[i], k);
        assert ns[i] == front[i];
      }
    }
  }

  /** A key of the map belongs to the last node that owns it, at index `i`. */
  lemma {:induction false} OwnerMapLast(ns: seq<ClusterNode>, k: string) returns (i: nat)
    requires k in OwnerMap(ns)
    ensures i < |ns| && Owns(ns[i], k) && OwnerMap(ns)[k] == ns[i].name
    ensures forall j :: i < j < |ns| ==> !Owns(ns[j], k)
  {
    var front := ns[..|ns| - 1];
    OwnerMapStep(ns, k);
    if Owns(ns[|ns| - 1], k) {
      i := |ns| - 1;
    } else {
      i := OwnerMapLast(front, k);
      assert ns[i] == front[i];
      forall j | i < j < |ns|
        ensures !Owns(ns[j], k)
      {
        if j < |front| {
          assert ns[j] == front[j];
        }
      }
    }
  }

  /**
   * A key is in the map exactly when some node has a viewport of that name up
   * to case, and it maps to the LAST such node (a later node's entry replaces
   * an earlier one).
   */
  lemma OwnerMapOwner(ns: seq<ClusterNode>, k: string)
    ensures k in OwnerMap(ns) <==> exists i :: 0 <= i < |ns| && Owns(ns[i], k)
    ensures k in OwnerMap(ns) ==>
      exists i :: 0 <= i < |ns| && Owns(ns[i], k) && OwnerMap(ns)[k] == ns[i].name
                && forall j :: i < j < |ns| ==> !Owns(ns[j], k)
  {
    OwnerMapKeys(ns, k);
    if k in OwnerMap(ns) {
      var i := OwnerMapLast(ns, k);
    }
  }

  /**
   * `m` is a viewport-to-node map of `ns`: its keys are the nodes' keys, each
   * mapped to the last node that owns it.
   */
  ghost predicate LastOwnerMap(ns: seq<ClusterNode>, m: map<string, string>) {
    && (forall k :: k in m <==> exists i :: 0 <= i < |ns| && Owns(ns[i], k))
    && (forall k :: k in m ==>
          exists i :: 0 <= i < |ns| && Owns(ns[i], k) && m[k] == ns[i].name
                    && forall j :: i < j < |ns| ==> !Owns(ns[j], k))
  }

  /** OwnerMapOwner for every key at once. */
  lemma OwnerMapAll(ns: seq<ClusterNode>)
    ensures LastOwnerMap(ns, OwnerMap(ns))
  {
    forall k {
      OwnerMapOwner(ns, k);
    }
  }

  /**
   * With viewport names unique across nodes, even up to case, every viewport
   * is found under its folded name and maps to its own node.
   */
  lemma OwnerMapUnique(ns: seq<ClusterNode>, i: nat, v: string)
    requires i < |ns| && v in ns[i].viewports
    requires forall j :: 0 <= j < |ns| && j != i ==> !Owns(ns[j], Fold(v))
    ensures Fold(v) in OwnerMap(ns) && OwnerMap(ns)[Fold(v)] == ns[i].name
  {
    FoldAllMember(ns[i].viewports, v);
    OwnerMapOwner(ns, Fold(v));
    var k :| 0 <= k < |ns| && Owns(ns[k], Fold(v)) && OwnerMap(ns)[Fold(v)] == ns[k].name
             && forall j :: k < j < |ns| ==> !Owns(ns[j], Fold(v));
    assert k == i;
  }

  /**
   * Two nodes naming viewports that differ only in case share one entry, and
   * the later node owns it.
   */
  lemma CaseVariantsShareEntry()
    ensures var ns := [ClusterNode("N1", ["vp"]), ClusterNode("N2", ["VP"])];
            OwnerMap(ns) == map["vp" := "N2"]
  {
    var ns := [ClusterNode("N1", ["vp"]), ClusterNode("N2", ["VP"])];
    assert Fold("vp") == "vp";
    assert Fold("VP") == "vp";
    assert FoldAll(ns[0].viewports) == ["vp"];
    assert FoldAll(ns[1].viewports) == ["vp"];
    assert ns[..1] == [ns[0]];
    assert OwnerMap(ns[..1]) == map["vp" := "N1"];
  }
}
