/** The `<select id="layers">` list that updateLayers keeps in step with the
    stage's children (src/client/main.js:130-149): one option per child, the top
    child first, labelled with the child's name and a ghost when it is hidden, and
    the transformer's layer selected.

    The list is taken to be a single-selection list box, so setting one option's
    `selected` deselects every other option; option elements are reused by
    position, so a flag set on an earlier call stays on the element. */
module LayerList {
  import opened Wrappers
  import opened Stage

  /** U+1F47B GHOST, appended to the label of a hidden layer. */
  const GhostMark: string := "\U{1F47B}"

  /** One `<option>`: its textContent, its `_node` and its `selected` flag. */
  datatype OptionEl = OptionEl(text: string, node: Option<NodeId>, selected: bool)

  /** `document.createElement("option")`. */
  const Blank: OptionEl := OptionEl("", None, false)

  function Label(name: string, visible: bool): (r: string)
    ensures visible <==> |r| == |name|
  {
    name + (if visible then "" else GhostMark)
  }

  predicate Known(c: seq<NodeId>, names: map<NodeId, string>, shown: map<NodeId, bool>) {
    forall x :: x in c ==> x in names && x in shown
  }

  function Blanks(k: nat): (r: seq<OptionEl>)
    ensures |r| == k && forall j :: 0 <= j < k ==> r[j] == Blank
  {
    seq(k, _ => Blank)
  }

  /** The list after the first two loops of updateLayers: a blank option inserted
      in front for every child beyond the list's length, then every option past
      the child count removed. */
  function Fit(opts: seq<OptionEl>, n: nat): (r: seq<OptionEl>)
    ensures |r| == n
    ensures |opts| <= n ==> r == Blanks(n - |opts|) + opts
    ensures |opts| >= n ==> r == opts[..n]
  {
    if |opts| < n then Blanks(n - |opts|) + opts else opts[..n]
  }

  /** Where the transformer's layer sits among the children, or |c| when it is
      not a child. */
  function SelectedIndex(c: seq<NodeId>, sel: Option<NodeId>): (m: nat)
    ensures m <= |c|
    ensures m < |c| <==> (sel.Some? && sel.value in c)
    ensures m < |c| ==> c[m] == sel.value
  {
    if sel.Some? && sel.value in c then IndexOf(c, sel.value) else |c|
  }

  /** The list after the labelling loop has handled children 0 .. i - 1: option
      |c| - 1 - j is labelled and bound to child j, and once the transformer's
      layer has been met its option is the only selected one. */
  function Bound(o: seq<OptionEl>, c: seq<NodeId>, names: map<NodeId, string>, shown: map<NodeId, bool>,
                 sel: Option<NodeId>, i: nat): (r: seq<OptionEl>)
    requires |o| == |c| && i <= |c| && Known(c, names, shown)
    ensures |r| == |c|
  {
    var n := |c|;
    var m := SelectedIndex(c, sel);
    seq(n, k requires 0 <= k < n =>
      var child := c[n - 1 - k];
      var done := k >= n - i;
      OptionEl(if done then Label(names[child], shown[child]) else o[k].text,
               if done then Some(child) else o[k].node,
               if m < i then k == n - 1 - m else o[k].selected))
  }

  /** One pass of the labelling loop, for child i: its option gets the child's
      label and node, and is selected when the child is the transformer's layer. */
  function LabelStep(b: seq<OptionEl>, c: seq<NodeId>, names: map<NodeId, string>, shown: map<NodeId, bool>,
                     sel: Option<NodeId>, i: nat): (r: seq<OptionEl>)
    requires |b| == |c| && i < |c| && Known(c, names, shown)
    ensures |r| == |c|
    ensures r[|c| - 1 - i].node == Some(c[i]) && r[|c| - 1 - i].text == Label(names[c[i]], shown[c[i]])
  {
    var p := |c| - 1 - i;
    var relabelled := b[p := b[p].(text := Label(names[c[i]], shown[c[i]]), node := Some(c[i]))];
    if sel == Some(c[i]) then SelectOnly(relabelled, p) else relabelled
  }

  /** The first i passes of the labelling loop. */
  function Labelled(o: seq<OptionEl>, c: seq<NodeId>, names: map<NodeId, string>, shown: map<NodeId, bool>,
                    sel: Option<NodeId>, i: nat): (r: seq<OptionEl>)
    requires |o| == |c| && i <= |c| && Known(c, names, shown)
    ensures |r| == |c|
  {
    if i == 0 then o else LabelStep(Labelled(o, c, names, shown, sel, i - 1), c, names, shown, sel, i - 1)
  }

  /** The whole effect of updateLayers on the option list; ReconcileSpec states
      what it is. */
  function Reconcile(opts: seq<OptionEl>, c: seq<NodeId>, names: map<NodeId, string>,
                     shown: map<NodeId, bool>, sel: Option<NodeId>): (r: seq<OptionEl>)
    requires Known(c, names, shown)
    ensures |r| == |c|
  {
    Labelled(Fit(opts, |c|), c, names, shown, sel, |c|)
  }

  /** `selectedOptions[0]`: the first selected option, if any. */
  function FirstSelected(opts: seq<OptionEl>): (r: Option<nat>)
    ensures r.Some? ==> r.value < |opts| && opts[r.value].selected &&
                        forall k :: 0 <= k < r.value ==> !opts[k].selected
    ensures r.None? ==> forall k :: 0 <= k < |opts| ==> !opts[k].selected
  {
    if opts == [] then None
    else if opts[0].selected then Some(0)
    else match FirstSelected(opts[1..])
      case None => None
      case Some(k) => Some(k + 1)
  }

  /** `selectedOptions[0]._node`: the node behind the first selected option. */
  function SelectedNode(opts: seq<OptionEl>): (r: Option<NodeId>)
    ensures r.Some? ==> exists k :: 0 <= k < |opts| && opts[k].selected && opts[k].node == r
    ensures (forall k :: 0 <= k < |opts| ==> !opts[k].selected) ==> r.None?
  {
    match FirstSelected(opts)
    case None => None
    case Some(k) => opts[k].node
  }

  /** The user picks option k in the list box; every other option is deselected. */
  function SelectOnly(opts: seq<OptionEl>, k: nat): (r: seq<OptionEl>)
    ensures |r| == |opts|
    ensures forall j :: 0 <= j < |r| ==>
      r[j].selected == (j == k) && r[j].text == opts[j].text && r[j].node == opts[j].node
  {
    seq(|opts|, j requires 0 <= j < |opts| => opts[j].(selected := j == k))
  }

  // ---------------------------------------------------------------- lemmas

  /** The label ends in the ghost mark exactly when the layer is hidden; the name
      is kept as its prefix. */
  lemma LabelMarksHidden(name: string, visible: bool)
    requires |name| == 0 || name[|name| - 1] != GhostMark[0]
    ensures var s := Label(name, visible);
      s[..|name|] == name &&
      (visible <==> |s| == |name|) &&
      (!visible <==> (|s| > 0 && s[|s| - 1] == GhostMark[0]))
  {
  }

  /** Before the labelling loop runs, the list is as the first two loops left it. */
  lemma BoundZero(o: seq<OptionEl>, c: seq<NodeId>, names: map<NodeId, string>,
                  shown: map<NodeId, bool>, sel: Option<NodeId>)
    requires |o| == |c| && Known(c, names, shown)
    ensures Bound(o, c, names, shown, sel, 0) == o
  {
    var b := Bound(o, c, names, shown, sel, 0);
    forall k | 0 <= k < |o| ensures b[k] == o[k] {
      assert SelectedIndex(c, sel) >= 0;
    }
  }

  /** Labelling child i advances the loop from Bound(i) to Bound(i + 1). */
  lemma BoundStep(o: seq<OptionEl>, c: seq<NodeId>, names: map<NodeId, string>,
                  shown: map<NodeId, bool>, sel: Option<NodeId>, i: nat)
    requires Distinct(c) && |o| == |c| && i < |c| && Known(c, names, shown)
    ensures Bound(o, c, names, shown, sel, i + 1) == LabelStep(Bound(o, c, names, shown, sel, i), c, names, shown, sel, i)
  {
    var n := |c|;
    var m := SelectedIndex(c, sel);
    var b := Bound(o, c, names, shown, sel, i);
    var next := Bound(o, c, names, shown, sel, i + 1);
    var p := n - 1 - i;
    var relabelled := b[p := b[p].(text := Label(names[c[i]], shown[c[i]]), node := Some(c[i]))];
    forall k | 0 <= k < n
      ensures next[k].text == relabelled[k].text && next[k].node == relabelled[k].node
    {
    }
    if sel == Some(c[i]) {
      IndexOfDistinct(c, i);
      assert m == i;
      var step := SelectOnly(relabelled, p);
      forall k | 0 <= k < n ensures next[k] == step[k] {
        assert next[k].selected == (k == p);
      }
      assert next == step;
    } else {
      assert m != i;
      forall k | 0 <= k < n ensures next[k] == relabelled[k] {
        assert next[k].selected == b[k].selected;
      }
      assert next == relabelled;
    }
  }

  /** The labelling loop computes the closed form Bound: after i passes, the
      options of children 0 .. i - 1 are labelled, and the transformer's layer is
      the only selected option once it has been passed. */
  lemma {:induction false} LabelledIsBound(o: seq<OptionEl>, c: seq<NodeId>, names: map<NodeId, string>,
                                           shown: map<NodeId, bool>, sel: Option<NodeId>, i: nat)
    requires Distinct(c) && |o| == |c| && i <= |c| && Known(c, names, shown)
    ensures Labelled(o, c, names, shown, sel, i) == Bound(o, c, names, shown, sel, i)
  {
    if i == 0 {
      BoundZero(o, c, names, shown, sel);
    } else {
      var prev := Labelled(o, c, names, shown, sel, i - 1);
      assert Labelled(o, c, names, shown, sel, i) == LabelStep(prev, c, names, shown, sel, i - 1);
      LabelledIsBound(o, c, names, shown, sel, i - 1);
      BoundStep(o, c, names, shown, sel, i - 1);
    }
  }

  /** After updateLayers the list holds one option per child, top child first,
      each labelled with its child's name and a ghost when hidden; when the
      transformer's layer is a child, its option and no other is selected, and
      otherwise the selection flags are those the reused elements already had. */
  lemma ReconcileSpec(opts: seq<OptionEl>, c: seq<NodeId>, names: map<NodeId, string>,
                      shown: map<NodeId, bool>, sel: Option<NodeId>)
    requires Distinct(c) && Known(c, names, shown)
    ensures var r := Reconcile(opts, c, names, shown, sel);
      && (forall i :: 0 <= i < |c| ==>
            r[|c| - 1 - i].node == Some(c[i]) && r[|c| - 1 - i].text == Label(names[c[i]], shown[c[i]]))
      && (sel.Some? && sel.value in c ==>
            forall k :: 0 <= k < |r| ==> (r[k].selected <==> r[k].node == sel))
      && (!(sel.Some? && sel.value in c) ==>
            forall k :: 0 <= k < |r| ==> r[k].selected == Fit(opts, |c|)[k].selected)
  {
    var f := Fit(opts, |c|);
    var r := Reconcile(opts, c, names, shown, sel);
    LabelledIsBound(f, c, names, shown, sel, |c|);
    var b := Bound(f, c, names, shown, sel, |c|);
    assert r == b;
    forall i | 0 <= i < |c|
      ensures r[|c| - 1 - i].node == Some(c[i]) && r[|c| - 1 - i].text == Label(names[c[i]], shown[c[i]])
    {
      assert b[|c| - 1 - i].node == Some(c[i]);
    }
    if sel.Some? && sel.value in c {
      BoundSelects(f, c, names, shown, sel);
    } else {
      forall k | 0 <= k < |r| ensures r[k].selected == f[k].selected {
        assert SelectedIndex(c, sel) == |c|;
      }
    }
  }

  /** Once every child has been labelled, the transformer's layer's option, and
      only it, is selected. */
  lemma BoundSelects(o: seq<OptionEl>, c: seq<NodeId>, names: map<NodeId, string>,
                     shown: map<NodeId, bool>, sel: Option<NodeId>)
    requires Distinct(c) && |o| == |c| && Known(c, names, shown) && sel.Some? && sel.value in c
    ensures var r := Bound(o, c, names, shown, sel, |c|);
      forall k :: 0 <= k < |r| ==> (r[k].selected <==> r[k].node == sel)
  {
    var r := Bound(o, c, names, shown, sel, |c|);
    forall k | 0 <= k < |r| ensures r[k].selected <==> r[k].node == sel {
      var j := |c| - 1 - k;
      assert r[k].node == Some(c[j]);
      IndexOfDistinct(c, j);
    }
  }

  /** Every option of the reconciled list is bound to a child. */
  lemma ReconcileBinds(opts: seq<OptionEl>, c: seq<NodeId>, names: map<NodeId, string>,
                       shown: map<NodeId, bool>, sel: Option<NodeId>)
    requires Distinct(c) && Known(c, names, shown)
    ensures var r := Reconcile(opts, c, names, shown, sel);
      forall k :: 0 <= k < |r| ==> r[k].node.Some? && r[k].node.value in c
  {
    LabelledIsBound(Fit(opts, |c|), c, names, shown, sel, |c|);
    var r := Reconcile(opts, c, names, shown, sel);
    forall k | 0 <= k < |r| ensures r[k].node.Some? && r[k].node.value in c {
      assert r[k].node == Some(c[|c| - 1 - k]);
    }
  }

  /** After the user picks option k, it is the option the buttons act on. */
  lemma SelectOnlyIsFirst(opts: seq<OptionEl>, k: nat)
    requires k < |opts|
    ensures FirstSelected(SelectOnly(opts, k)) == Some(k)
    ensures SelectedNode(SelectOnly(opts, k)) == opts[k].node
  {
    var r := SelectOnly(opts, k);
    assert r[k].selected;
  }

  /** When the transformer's layer is on the stage, updateLayers rewrites every
      option's label, node and selection flag: the list it leaves behind does not
      depend on the list it started from. */
  lemma ReconcileForgets(x: seq<OptionEl>, y: seq<OptionEl>, c: seq<NodeId>, names: map<NodeId, string>,
                         shown: map<NodeId, bool>, sel: Option<NodeId>)
    requires Distinct(c) && Known(c, names, shown) && sel.Some? && sel.value in c
    ensures Reconcile(x, c, names, shown, sel) == Reconcile(y, c, names, shown, sel)
  {
    LabelledIsBound(Fit(x, |c|), c, names, shown, sel, |c|);
    LabelledIsBound(Fit(y, |c|), c, names, shown, sel, |c|);
    var rx := Reconcile(x, c, names, shown, sel);
    var ry := Reconcile(y, c, names, shown, sel);
    forall k | 0 <= k < |c| ensures rx[k] == ry[k] {
      assert SelectedIndex(c, sel) < |c|;
    }
  }
}
