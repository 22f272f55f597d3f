/**
 * The dependency graph both topological sorts build (unittest.h:780-794 for
 * the tests of one group, unittest.h:881-895 for the groups). Node `i`
 * keeps the list of its incoming edges: for each name `d` of its
 * `depends_on` list, in order, every other node `j` whose name compares
 * equal to `d`, in increasing `j`. A node may list the same source twice
 * (two equal names in `depends_on`); the in-degree counts both.
 */
module Dag {
  import opened Base
  import opened Strings
  import opened Records

  /** The nodes `j < m` that an edge for dependency name `d` leads from into node `i`. */
  function SourcesBelow(names: seq<Option<string>>, i: nat, d: string, m: nat): (r: seq<int>)
    requires m <= |names|
    ensures forall k :: 0 <= k < |r| ==> 0 <= r[k] < m && r[k] != i
  {
    if m == 0 then []
    else SourcesBelow(names, i, d, m - 1) + (if m - 1 != i && NullStrCmp(names[m - 1], Some(d)) == 0 then [m - 1] else [])
  }

  function Sources(names: seq<Option<string>>, i: nat, d: string): seq<int> {
    SourcesBelow(names, i, d, |names|)
  }

  /** The incoming edge list of node `i` for the dependency names `ds`. */
  function Row(names: seq<Option<string>>, i: nat, ds: seq<string>): (r: seq<int>)
    ensures forall k :: 0 <= k < |r| ==> 0 <= r[k] < |names| && r[k] != i
  {
    if ds == [] then [] else Row(names, i, ds[..|ds| - 1]) + Sources(names, i, ds[|ds| - 1])
  }

  /** The graph `dag` after the build loops: row `i` lists the sources of node `i`. */
  function DagOf(names: seq<Option<string>>, deps: seq<seq<Option<string>>>): (r: seq<seq<int>>)
    requires |deps| == |names|
    ensures |r| == |names|
    ensures forall i :: 0 <= i < |r| ==> r[i] == Row(names, i, DepNames(deps[i]))
  {
    seq(|names|, i requires 0 <= i < |names| => Row(names, i, DepNames(deps[i])))
  }

  /** Edge lists over `n` nodes: every source is another node. */
  predicate Graph(dag: seq<seq<int>>) {
    forall i, k :: 0 <= i < |dag| && 0 <= k < |dag[i]| ==> 0 <= dag[i][k] < |dag| && dag[i][k] != i
  }

  lemma {:induction false} DagOfIsGraph(names: seq<Option<string>>, deps: seq<seq<Option<string>>>)
    requires |deps| == |names|
    ensures Graph(DagOf(names, deps))
  {
  }

  lemma {:induction false} SourcesBelowMembers(names: seq<Option<string>>, i: nat, d: string, m: nat, j: int)
    requires m <= |names|
    ensures j in SourcesBelow(names, i, d, m) <==> 0 <= j < m && j != i && names[j] == Some(d)
  {
    if m > 0 {
      SourcesBelowMembers(names, i, d, m - 1, j);
      NullStrCmpIsThreeWay(names[m - 1], Some(d));
    }
  }

  lemma {:induction false} RowMembers(names: seq<Option<string>>, i: nat, ds: seq<string>, j: int)
    ensures j in Row(names, i, ds) <==> 0 <= j < |names| && j != i && names[j].Some? && names[j].value in ds
  {
    if ds != [] {
      var front, d := ds[..|ds| - 1], ds[|ds| - 1];
      RowMembers(names, i, front, j);
      SourcesBelowMembers(names, i, d, |names|, j);
      assert ds == front + [d];
    }
  }

  /**
   * There is an edge from `j` into `i` exactly when `j` is another node
   * whose name is one of the names `i` depends on. A node without a name
   * is never a source, a name no node has adds nothing, and a node never
   * depends on itself.
   */
  lemma {:induction false} EdgeIff(names: seq<Option<string>>, deps: seq<seq<Option<string>>>, i: nat, j: int)
    requires |deps| == |names| && i < |names|
    ensures j in DagOf(names, deps)[i]
        <==> 0 <= j < |names| && j != i && names[j].Some? && names[j].value in DepNames(deps[i])
  {
    RowMembers(names, i, DepNames(deps[i]), j);
  }

  /** The innermost loop: scan every node for the name `d`. */
  method AppendSources(names: seq<Option<string>>, i: nat, d: string, row: seq<int>) returns (res: seq<int>)
    ensures res == row + Sources(names, i, d)
  {
    res := row;
    var j := 0;
    while j < |names|
      invariant j <= |names|
      invariant res == row + SourcesBelow(names, i, d, j)
    {
      if j != i {
        var c := NullStrCmp(names[j], Some(d));
        if c == 0 {
          res := res + [j];
        }
      }
      j := j + 1;
    }
  }

  /** The `while(*d != NULL)` loop over one node's `depends_on` slots. */
  method BuildRow(names: seq<Option<string>>, i: nat, ds: seq<Option<string>>) returns (row: seq<int>)
    requires DepsTerminated(ds)
    ensures row == Row(names, i, DepNames(ds))
  {
    ghost var all := DepNames(ds);
    row := [];
    var k := 0;
    assert all[..0] == [];
    while Slot(ds, k) != None
      invariant k <= |all|
      invariant row == Row(names, i, all[..k])
      decreases |all| - k
    {
      assert k < |all|;
      var d := Slot(ds, k).value;
      row := AppendSources(names, i, d, row);
      assert all[..k + 1][..k] == all[..k];
      k := k + 1;
    }
    assert all[..k] == all;
  }

  /** The build loop: one edge list per node. */
  method BuildDag(names: seq<Option<string>>, deps: seq<seq<Option<string>>>) returns (dag: seq<seq<int>>)
    requires |deps| == |names|
    requires forall i :: 0 <= i < |deps| ==> DepsTerminated(deps[i])
    ensures dag == DagOf(names, deps)
  {
    dag := [];
    var i := 0;
    while i < |names|
      invariant i <= |names|
      invariant |dag| == i
      invariant forall k :: 0 <= k < i ==> dag[k] == Row(names, k, DepNames(deps[k]))
    {
      var row := BuildRow(names, i, deps[i]);
      dag := dag + [row];
      i := i + 1;
    }
  }
}
