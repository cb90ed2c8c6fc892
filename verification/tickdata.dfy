// The tick-data front end of the engine: a scenario instance, given as the list of its
// instance nodes, becomes a Bitmask with one entry per tag of the scenario classification.

module TickData {
  import opened Common
  import opened Valuations
  import opened Bitmasks

  /** The two facts of an instance node the front end looks at. */
  datatype InstanceNode = InstanceNode(nodeLabel: string, isUnknown: bool)

  /** Kotlin `firstOrNull { it.label == wanted }`, as an index: -1 when no node carries the label. */
  function FirstWithLabel(nodes: seq<InstanceNode>, wanted: string): (r: int)
    ensures -1 <= r < |nodes|
    ensures r == -1 <==> forall j :: 0 <= j < |nodes| ==> nodes[j].nodeLabel != wanted
    ensures r >= 0 ==> nodes[r].nodeLabel == wanted && forall j :: 0 <= j < r ==> nodes[j].nodeLabel != wanted
  {
    if |nodes| == 0 then -1
    else if nodes[0].nodeLabel == wanted then 0
    else
      var r := FirstWithLabel(nodes[1..], wanted);
      if r == -1 then -1 else r + 1
  }

  /** The `when` of the comprehension: absent is FALSE, an unknown node UNKNOWN, any other TRUE. */
  function Classify(nodes: seq<InstanceNode>, wanted: string): (v: Valuation)
    ensures v == FALSE <==> forall j :: 0 <= j < |nodes| ==> nodes[j].nodeLabel != wanted
    ensures forall j ::
      (0 <= j < |nodes| && nodes[j].nodeLabel == wanted &&
       (forall j' :: 0 <= j' < j ==> nodes[j'].nodeLabel != wanted)) ==>
      v == (if nodes[j].isUnknown then UNKNOWN else TRUE)
    ensures IsLegal(v) && v.realValue == None
  {
    var j := FirstWithLabel(nodes, wanted);
    if j == -1 then FALSE
    else if nodes[j].isUnknown then UNKNOWN
    else TRUE
  }

  /** Kotlin `toBitmask()`: position i answers for tags[i]. */
  function ToBitmask(nodes: seq<InstanceNode>, tags: seq<string>): (b: Bitmask)
    ensures |b| == |tags|
    ensures forall i :: 0 <= i < |tags| && (forall j :: 0 <= j < |nodes| ==> nodes[j].nodeLabel != tags[i]) ==>
      b[i] == FALSE
    ensures forall i, j ::
      (0 <= i < |tags| && 0 <= j < |nodes| && nodes[j].nodeLabel == tags[i] &&
       (forall j' :: 0 <= j' < j ==> nodes[j'].nodeLabel != tags[i])) ==>
      b[i] == (if nodes[j].isUnknown then UNKNOWN else TRUE)
    ensures AllLegal(b)
    ensures forall i :: 0 <= i < |b| ==> b[i].realValue == None
  {
    seq(|tags|, i requires 0 <= i < |tags| => Classify(nodes, tags[i]))
  }

  /** A tag is Unknown in the Bitmask exactly when the first node with its label is unknown. */
  lemma UnknownIffFirstNodeUnknown(nodes: seq<InstanceNode>, tags: seq<string>, i: nat)
    requires i < |tags|
    ensures ToBitmask(nodes, tags)[i].IsUnknown() <==>
      exists j :: 0 <= j < |nodes| && nodes[j].nodeLabel == tags[i] && nodes[j].isUnknown &&
        forall j' :: 0 <= j' < j ==> nodes[j'].nodeLabel != tags[i]
  {
    var j := FirstWithLabel(nodes, tags[i]);
    if j >= 0 && nodes[j].isUnknown {
      assert nodes[j].nodeLabel == tags[i];
    }
  }

  /** Only the first node with a label decides: more nodes with labels already present change nothing. */
  lemma {:induction false} FirstNodeDecides(nodes: seq<InstanceNode>, extra: seq<InstanceNode>, tags: seq<string>)
    requires forall e :: e in extra ==> exists n :: n in nodes && n.nodeLabel == e.nodeLabel
    ensures ToBitmask(nodes + extra, tags) == ToBitmask(nodes, tags)
  {
    forall i | 0 <= i < |tags|
      ensures Classify(nodes + extra, tags[i]) == Classify(nodes, tags[i])
    {
      FirstWithLabelPrefix(nodes, extra, tags[i]);
    }
  }

  lemma {:induction false} FirstWithLabelPrefix(nodes: seq<InstanceNode>, extra: seq<InstanceNode>, wanted: string)
    requires forall e :: e in extra ==> exists n :: n in nodes && n.nodeLabel == e.nodeLabel
    ensures FirstWithLabel(nodes + extra, wanted) == FirstWithLabel(nodes, wanted)
  {
    var all := nodes + extra;
    forall j | 0 <= j < |nodes| ensures all[j] == nodes[j] { }
    forall j | |nodes| <= j < |all|
      ensures exists k :: 0 <= k < |nodes| && nodes[k].nodeLabel == all[j].nodeLabel
    {
      assert all[j] == extra[j - |nodes|] && extra[j - |nodes|] in extra;
      var n :| n in nodes && n.nodeLabel == all[j].nodeLabel;
      var k :| 0 <= k < |nodes| && nodes[k] == n;
      assert nodes[k].nodeLabel == all[j].nodeLabel;
    }
  }
}
