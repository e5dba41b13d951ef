/** The module-level state of src/client/main.js and the handlers that change it:
    the Konva stage's layers, the `<select id="layers">` list, the bake guard of
    updateMap and the uv canvas's path.

    Each handler is a method proved against the specification functions of the
    Stage, LayerList, Bake and UvGuide modules: its postcondition gives the new
    state as those functions of the old one. A handler that reads
    `selectedOptions[0]._node` while nothing is selected throws a TypeError
    before it changes anything; the method then leaves the state as it is. */
module Client {
  import opened Wrappers
  import opened Stage
  import opened LayerList
  import Bake
  import UvGuide

  const Width: real := 512.0
  const Height: real := 512.0

  /** The uv guide layer, the first child the program adds to the stage. */
  const UvLayer: NodeId := 0

  class Editor {
    // The stage: its children bottom to top, each layer's name and visibility,
    // and the layer the transformer is attached to (None before the first
    // switchTransformer). Layers are never forgotten once created, so a removed
    // layer keeps its name and visibility.
    var children: seq<NodeId>
    var names: map<NodeId, string>
    var shown: map<NodeId, bool>
    var nextNode: nat
    var attached: Option<NodeId>

    // The layer list's option elements, top to bottom.
    var options: seq<OptionEl>

    // The bake of updateMap: the module-level `loading` flag, `mapImage.src`, the
    // export link and the stage's stubbed draw, as in Bake.BakeState. Its
    // `uvShown` is the uv layer's visibility, the same flag as `shown[UvLayer]`.
    var bake: Bake.BakeState

    // The layers the latest stage.toCanvas drew, bottom to top.
    var captured: seq<NodeId>

    // The 2D context of the uv canvas.
    const ctx: UvGuide.PathContext

    ghost predicate Valid()
      reads this
    {
      StageValid() && ListValid() && BakeValid()
    }

    /** Every layer has a name and a visibility, identities are fresh below
        nextNode, no layer is on the stage twice, and the transformer is never on
        the uv layer. */
    ghost predicate StageValid()
      reads this`children, this`names, this`shown, this`nextNode, this`attached
    {
      && UvLayer in names
      && names.Keys == shown.Keys
      && (forall x :: x in names ==> x < nextNode)
      && Distinct(children)
      && Known(children, names, shown)
      && (attached.Some? ==> attached.value in names && attached.value != UvLayer)
    }

    /** Every option is bound to a layer. */
    ghost predicate ListValid()
      reads this`options, this`names
    {
      forall k :: 0 <= k < |options| ==> options[k].node.Some? && options[k].node.value in names
    }

    /** The bake's invariant holds, and it agrees with the stage on the uv
        layer's visibility. */
    ghost predicate BakeValid()
      reads this`shown, this`bake
    {
      UvLayer in shown && shown[UvLayer] == bake.uvShown && Bake.Inv(bake)
    }

    /** Start-up: an empty stage gets the uv layer, named "uvs", and updateLayers
        lists it. No texture image exists yet, so no bake starts. */
    constructor ()
      ensures Valid() && fresh(ctx) && ctx.path == []
      ensures children == [UvLayer] && names == map[UvLayer := "uvs"] && attached == None
      ensures options == [OptionEl("uvs", Some(UvLayer), false)]
      ensures bake == Bake.Initial
    {
      children := [UvLayer];
      names := map[UvLayer := "uvs"];
      shown := map[UvLayer := true];
      nextNode := 1;
      attached := None;
      options := [];
      bake := Bake.Initial;
      captured := [];
      ctx := new UvGuide.PathContext();
      new;
      UpdateLayers(true);
      ReconcileSpec([], children, names, map[UvLayer := true], None);
      assert Fit([], 1)[0] == Blank;
      assert options[0].node == Some(UvLayer) && !options[0].selected;
      assert options[0].text == Label("uvs", true) == "uvs";
      assert options == [options[0]];
    }

    /** updateMap, also run on the stage's dragmove and the transformer's
        transform events. When a bake starts, the stage is captured with the uv
        layer hidden. */
    method UpdateMap()
      requires Valid()
      modifies this`bake, this`shown, this`captured
      ensures Valid()
      ensures bake == Bake.Request(old(bake))
      ensures shown == old(shown)[UvLayer := shown[UvLayer]]
      ensures Bake.Starts(old(bake)) ==>
        captured == Visible(children, shown) && UvLayer !in captured
      ensures !Bake.Starts(old(bake)) ==> captured == old(captured)
    {
      if bake.mapSrc.None? || bake.loading {
        return;
      }
      Capture();
    }

    /** The part of updateMap past its guard: draw is stubbed, the transformer
        and the uv layer are hidden, `loading` is set, the visible layers are
        drawn to a canvas and a blob is requested. */
    method Capture()
      requires Valid() && Bake.Starts(bake)
      modifies this`bake, this`shown, this`captured
      ensures Valid()
      ensures bake == Bake.Request(old(bake))
      ensures shown == old(shown)[UvLayer := false]
      ensures captured == Visible(children, shown) && UvLayer !in captured
    {
      ghost var before := bake;
      Bake.StepKeepsInv(before, Bake.UpdateMap);
      bake := bake.(drawStubbed := true, transformerShown := false);
      var hidden := shown[UvLayer := false];
      assert Known(children, names, hidden);
      shown := hidden;
      bake := bake.(uvShown := false, loading := true);
      var drawn := Visible(children, hidden);
      assert UvLayer !in drawn;
      captured := drawn;
      bake := bake.(blobPending := true);
    }

    /** The toBlob callback. */
    method OnBlob()
      requires Valid() && bake.blobPending
      modifies this`bake, this`shown
      ensures Valid()
      ensures bake == Bake.BlobReady(old(bake))
      ensures shown == old(shown)[UvLayer := true]
    {
      ghost var before := bake;
      Bake.StepKeepsInv(before, Bake.BlobCallback);
      var previous := bake.mapSrc.value;
      var minted := Bake.ObjectUrl(bake.nextSerial);
      bake := bake.(urlLog := bake.urlLog + [Bake.Revoked(previous), Bake.Created(minted)],
                    nextSerial := bake.nextSerial + 1);
      bake := bake.(mapSrc := Some(minted), decoding := true);
      bake := bake.(exportHref := bake.mapSrc);
      shown := shown[UvLayer := true];
      bake := bake.(uvShown := true, drawStubbed := false, blobPending := false);
    }

    /** `mapImage.onload`, with `loading` cleared whether or not the transformer
        has a layer to redraw (see Bake.MapLoaded). */
    method OnMapLoad()
      requires Valid() && bake.decoding
      modifies this`bake
      ensures Valid()
      ensures bake == Bake.MapLoaded(old(bake))
    {
      Bake.LoadReleasesGuard(bake);
      bake := bake.(textureDirty := true, transformerShown := true);
      bake := bake.(decoding := false, loading := false);
    }

    /** loadGLB's callback for a mesh with the given uv and index arrays and the
        given texture image source: the guide is drawn onto the uv canvas's path
        and the texture image becomes `mapImage`. */
    method LoadModel(uvs: seq<real>, index: seq<nat>, src: string)
      requires Valid()
      modifies this`bake, ctx
      ensures Valid()
      ensures ctx.path == UvGuide.Drawn(old(ctx.path), UvGuide.Guide(uvs, index, Width, Height))
      ensures bake == Bake.ModelLoaded(old(bake), src)
    {
      UvGuide.Trace(ctx, uvs, index, Width, Height);
      bake := bake.(mapSrc := Some(Bake.TextureSource(src)));
    }

    /** updateLayers(mapUpdate): the option list is reconciled with the stage's
        children, then updateMap runs when mapUpdate is set. */
    method UpdateLayers(mapUpdate: bool)
      requires Valid()
      modifies this
      ensures Valid()
      ensures children == old(children) && names == old(names) && nextNode == old(nextNode)
      ensures attached == old(attached)
      ensures Known(children, names, old(shown))
      ensures options == Reconcile(old(options), children, names, old(shown), attached)
      ensures mapUpdate ==> bake == Bake.Request(old(bake))
      ensures !mapUpdate ==> bake == old(bake)
      ensures shown == old(shown)[UvLayer := shown[UvLayer]]
      ensures mapUpdate && Bake.Starts(old(bake)) ==>
        captured == Visible(children, shown) && UvLayer !in captured
      ensures !(mapUpdate && Bake.Starts(old(bake))) ==> captured == old(captured)
    {
      ListChildren();
      if mapUpdate {
        UpdateMap();
      }
    }

    /** The three loops of updateLayers: the option list is reconciled with the
        stage's children. */
    method ListChildren()
      requires Valid()
      modifies this`options
      ensures Valid()
      ensures options == Reconcile(old(options), children, names, shown, attached)
    {
      var n := |children|;
      PadOptions(n);
      TrimOptions(n);
      assert options == Fit(old(options), n);
      LabelOptions(attached);
      assert options == Reconcile(old(options), children, names, shown, attached);
      ReconcileBinds(old(options), children, names, shown, attached);
      assert forall k :: 0 <= k < |options| ==> options[k].node.Some? && options[k].node.value in names;
    }

    /** The first loop of updateLayers: for every child i beyond the list's
        end, an option is inserted in front of the list. */
    method PadOptions(n: nat)
      modifies this`options
      ensures |old(options)| < n ==> options == Blanks(n - |old(options)|) + old(options)
      ensures |old(options)| >= n ==> options == old(options)
    {
      var i := 0;
      while i < n
        invariant 0 <= i <= n
        invariant options == if |old(options)| < i then Blanks(i - |old(options)|) + old(options) else old(options)
      {
        if i >= |options| {
          assert Blanks(i + 1 - |old(options)|) == [Blank] + Blanks(i - |old(options)|);
          options := [Blank] + options;
        }
        i := i + 1;
      }
    }

    /** The second loop of updateLayers: while an option exists at position n,
        it is removed. */
    method TrimOptions(n: nat)
      requires n <= |options|
      modifies this`options
      ensures options == old(options)[..n]
    {
      while n < |options|
        invariant n <= |options| <= |old(options)|
        invariant options[..n] == old(options)[..n]
        decreases |options|
      {
        options := options[..n] + options[n + 1..];
      }
    }

    /** The third loop of updateLayers: option |c| - 1 - i is labelled and bound
        to child i, and the option of the selected layer is selected. */
    method LabelOptions(sel: Option<NodeId>)
      requires Known(children, names, shown) && |options| == |children|
      modifies this`options
      ensures options == Labelled(old(options), children, names, shown, sel, |children|)
    {
      var c := children;
      var n := |c|;
      var opts := options;
      var i := 0;
      while i < n
        invariant 0 <= i <= n && |opts| == n
        invariant opts == Labelled(old(options), c, names, shown, sel, i)
      {
        var child := c[i];
        var p := n - 1 - i;
        var relabelled := opts[p := opts[p].(text := Label(names[child], shown[child]), node := Some(child))];
        if sel == Some(child) {
          opts := SelectOnly(relabelled, p);
        } else {
          opts := relabelled;
        }
        i := i + 1;
      }
      options := opts;
    }

    /** switchTransformer for an image of the given layer: the transformer is
        shown and moved to that layer, and the list is refreshed without a bake. */
    method SwitchTransformer(layer: NodeId)
      requires Valid() && layer in names && layer != UvLayer
      modifies this
      ensures Valid()
      ensures children == old(children) && names == old(names) && shown == old(shown)
      ensures nextNode == old(nextNode) && captured == old(captured)
      ensures attached == Some(layer)
      ensures bake == old(bake).(transformerShown := true)
      ensures options == Reconcile(old(options), children, names, shown, Some(layer))
    {
      bake := bake.(transformerShown := true);
      attached := Some(layer);
      UpdateLayers(false);
    }

    /** The image's mousedown handler. */
    method ImageMouseDown(layer: NodeId)
      requires Valid() && layer in names && layer != UvLayer
      modifies this
      ensures Valid()
      ensures children == old(children) && names == old(names) && shown == old(shown)
      ensures nextNode == old(nextNode) && captured == old(captured)
      ensures attached == Some(layer)
      ensures bake == old(bake).(transformerShown := true)
      ensures options == Reconcile(old(options), children, names, shown, Some(layer))
    {
      SwitchTransformer(layer);
    }

    /** A new layer called `name`, holding the dropped image, is added on top of
        the stage. */
    method AddLayer(name: string) returns (id: NodeId)
      requires Valid()
      modifies this
      ensures Valid()
      ensures id == old(nextNode) && id !in old(names) && id != UvLayer && id !in old(children)
      ensures names == old(names)[id := name] && shown == old(shown)[id := true] && nextNode == id + 1
      ensures children == old(children) + [id]
      ensures attached == old(attached) && options == old(options) && captured == old(captured)
      ensures bake == old(bake)
    {
      id := nextNode;
      assert UvLayer < id;
      nextNode := nextNode + 1;
      names := names[id := name];
      shown := shown[id := true];
      AddKeepsDistinct(children, id);
      children := children + [id];
    }

    /** The load handler of a dropped image called `name`: a new layer holding it
        goes on top of the stage and takes the transformer, the uv layer is moved
        back above it, and updateLayers runs with a bake. */
    method ImageLoaded(name: string) returns (id: NodeId)
      requires Valid()
      modifies this
      ensures Valid()
      ensures id == old(nextNode) && id !in old(names) && id != UvLayer
      ensures names == old(names)[id := name] && nextNode == id + 1 && attached == Some(id)
      ensures UvLayer in old(children) ==> children == Remove(old(children), UvLayer) + [id, UvLayer]
      ensures UvLayer !in old(children) ==> children == old(children) + [id]
      ensures Known(children, names, old(shown)[id := true])
      ensures options == Reconcile(old(options), children, names, old(shown)[id := true], Some(id))
      ensures bake == Bake.Request(old(bake).(transformerShown := true))
      ensures shown == old(shown)[id := true][UvLayer := shown[UvLayer]]
      ensures Bake.Starts(old(bake)) ==> captured == Visible(children, shown) && UvLayer !in captured
      ensures !Bake.Starts(old(bake)) ==> captured == old(captured)
    {
      id := AddLayer(name);
      SwitchTransformer(id);
      ghost var listed := options;
      if UvLayer in old(children) {
        MoveToTopAfterAdd(old(children), UvLayer, id);
      }
      var top := MoveToTop(children, UvLayer);
      DistinctBySubMultiset(children, top);
      Preserved(children, top);
      Rearrange(top);
      assert id in children;
      ReconcileForgets(listed, old(options), children, names, old(shown)[id := true], Some(id));
    }

    /** The user picks option k of the list box. */
    method SelectOption(k: nat)
      requires Valid() && k < |options|
      modifies this
      ensures Valid()
      ensures options == SelectOnly(old(options), k)
      ensures SelectedNode(options) == old(options)[k].node
      ensures children == old(children) && names == old(names) && shown == old(shown)
      ensures nextNode == old(nextNode) && attached == old(attached) && captured == old(captured)
      ensures bake == old(bake)
    {
      SelectOnlyIsFirst(options, k);
      options := SelectOnly(options, k);
    }

    /** A button handler's common tail: the stage's children become c, then
        updateLayers runs with a bake. */
    method Rearrange(c: seq<NodeId>)
      requires Valid() && Distinct(c) && forall x :: x in c ==> x in names
      modifies this
      ensures Valid()
      ensures children == c && names == old(names) && nextNode == old(nextNode) && attached == old(attached)
      ensures Known(children, names, old(shown))
      ensures options == Reconcile(old(options), children, names, old(shown), attached)
      ensures bake == Bake.Request(old(bake))
      ensures shown == old(shown)[UvLayer := shown[UvLayer]]
      ensures Bake.Starts(old(bake)) ==> captured == Visible(children, shown) && UvLayer !in captured
      ensures !Bake.Starts(old(bake)) ==> captured == old(captured)
    {
      children := c;
      UpdateLayers(true);
    }

    /** The "move up" button: the selected layer goes one place up, the uv layer
        back to the top, and updateLayers runs with a bake. */
    method MoveUpClicked()
      requires Valid()
      modifies this
      ensures Valid()
      ensures names == old(names) && nextNode == old(nextNode) && attached == old(attached)
      ensures SelectedNode(old(options)).None? ==> unchanged(this)
      ensures SelectedNode(old(options)).Some? ==>
        && children == MoveToTop(MoveUp(old(children), SelectedNode(old(options)).value), UvLayer)
        && (UvLayer in old(children) ==> children[|children| - 1] == UvLayer)
        && Known(children, names, old(shown))
        && options == Reconcile(old(options), children, names, old(shown), attached)
        && bake == Bake.Request(old(bake))
        && shown == old(shown)[UvLayer := shown[UvLayer]]
        && (Bake.Starts(old(bake)) ==> captured == Visible(children, shown) && UvLayer !in captured)
        && (!Bake.Starts(old(bake)) ==> captured == old(captured))
    {
      var sel := SelectedNode(options);
      if sel.None? {
        return;
      }
      var top := MoveToTop(MoveUp(children, sel.value), UvLayer);
      RaisedStage(children, sel.value);
      Rearrange(top);
    }

    /** The "move down" button: the selected layer goes one place down; the uv
        layer is not moved back to the top. */
    method MoveDownClicked()
      requires Valid()
      modifies this
      ensures Valid()
      ensures names == old(names) && nextNode == old(nextNode) && attached == old(attached)
      ensures SelectedNode(old(options)).None? ==> unchanged(this)
      ensures SelectedNode(old(options)).Some? ==>
        && children == MoveDown(old(children), SelectedNode(old(options)).value)
        && Known(children, names, old(shown))
        && options == Reconcile(old(options), children, names, old(shown), attached)
        && bake == Bake.Request(old(bake))
        && shown == old(shown)[UvLayer := shown[UvLayer]]
        && (Bake.Starts(old(bake)) ==> captured == Visible(children, shown) && UvLayer !in captured)
        && (!Bake.Starts(old(bake)) ==> captured == old(captured))
    {
      var sel := SelectedNode(options);
      if sel.None? {
        return;
      }
      DistinctBySubMultiset(children, MoveDown(children, sel.value));
      Preserved(children, MoveDown(children, sel.value));
      Rearrange(MoveDown(children, sel.value));
    }

    /** The "toggle visibility" button: the selected layer's visibility flips
        (also when it is the uv layer, or a removed layer), and updateLayers runs
        with a bake. */
    method ToggleClicked()
      requires Valid()
      modifies this
      ensures Valid()
      ensures names == old(names) && nextNode == old(nextNode) && attached == old(attached)
      ensures SelectedNode(old(options)).None? ==> unchanged(this)
      ensures SelectedNode(old(options)).Some? ==>
        var node := SelectedNode(old(options)).value;
        var toggled := old(shown)[node := !old(shown)[node]];
        && children == old(children)
        && options == Reconcile(old(options), children, names, toggled, attached)
        && bake == Bake.Request(old(bake).(uvShown := toggled[UvLayer]))
        && shown == toggled[UvLayer := shown[UvLayer]]
        && (Bake.Starts(old(bake)) ==> captured == Visible(children, shown) && UvLayer !in captured)
        && (Bake.Starts(old(bake)) && old(shown)[node] ==> node !in captured)
        && (!Bake.Starts(old(bake)) ==> captured == old(captured))
    {
      var sel := SelectedNode(options);
      if sel.None? {
        return;
      }
      Toggle(sel.value);
    }

    /** The toggle button's work for the layer `node`: its visibility flips, the
        uv layer's flag in the bake state follows, and updateLayers runs with a
        bake. */
    method Toggle(node: NodeId)
      requires Valid() && node in names
      modifies this
      ensures Valid()
      ensures names == old(names) && nextNode == old(nextNode) && attached == old(attached)
      ensures var toggled := old(shown)[node := !old(shown)[node]];
        && children == old(children)
        && options == Reconcile(old(options), children, names, toggled, attached)
        && bake == Bake.Request(old(bake).(uvShown := toggled[UvLayer]))
        && shown == toggled[UvLayer := shown[UvLayer]]
      ensures Bake.Starts(old(bake)) ==> captured == Visible(children, shown) && UvLayer !in captured
      ensures Bake.Starts(old(bake)) && old(shown)[node] ==> node !in captured
      ensures !Bake.Starts(old(bake)) ==> captured == old(captured)
    {
      shown := shown[node := !shown[node]];
      bake := bake.(uvShown := shown[UvLayer]);
      UpdateLayers(true);
    }

    /** The "delete" button: the selected layer leaves the stage, and updateLayers
        runs with a bake. */
    method DeleteClicked()
      requires Valid()
      modifies this
      ensures Valid()
      ensures names == old(names) && nextNode == old(nextNode) && attached == old(attached)
      ensures SelectedNode(old(options)).None? ==> unchanged(this)
      ensures SelectedNode(old(options)).Some? ==>
        && children == Remove(old(children), SelectedNode(old(options)).value)
        && Known(children, names, old(shown))
        && options == Reconcile(old(options), children, names, old(shown), attached)
        && bake == Bake.Request(old(bake))
        && shown == old(shown)[UvLayer := shown[UvLayer]]
        && (Bake.Starts(old(bake)) ==> captured == Visible(children, shown) && UvLayer !in captured)
        && (!Bake.Starts(old(bake)) ==> captured == old(captured))
    {
      var sel := SelectedNode(options);
      if sel.None? {
        return;
      }
      DistinctBySubMultiset(children, Remove(children, sel.value));
      Preserved(children, Remove(children, sel.value));
      Rearrange(Remove(children, sel.value));
    }

    /** The keyup handler: the Delete key removes the selected layer from the
        stage, and nothing else happens; the list and the texture are not
        refreshed. */
    method KeyUp(key: string)
      requires Valid()
      modifies this
      ensures Valid()
      ensures key == "Delete" && SelectedNode(old(options)).Some? ==>
        children == Remove(old(children), SelectedNode(old(options)).value)
      ensures !(key == "Delete" && SelectedNode(old(options)).Some?) ==> unchanged(this)
      ensures options == old(options) && shown == old(shown) && names == old(names)
      ensures nextNode == old(nextNode) && attached == old(attached) && captured == old(captured)
      ensures bake == old(bake)
    {
      var sel := SelectedNode(options);
      if key == "Delete" && sel.Some? {
        Detach(sel.value);
      }
    }

    /** Node.remove on its own: the layer leaves the stage and nothing else
        changes. */
    method Detach(node: NodeId)
      requires Valid()
      modifies this`children
      ensures Valid()
      ensures children == Remove(old(children), node)
    {
      var rest := Remove(children, node);
      DistinctBySubMultiset(children, rest);
      Preserved(children, rest);
      children := rest;
    }
  }

  /** The move up button's new child list: the same children without repeats, and
      the uv layer on top when it is a child. */
  lemma RaisedStage(c: seq<NodeId>, x: NodeId)
    requires Distinct(c)
    ensures var top := MoveToTop(MoveUp(c, x), UvLayer);
      Distinct(top) && (forall y :: y in top ==> y in c) &&
      (UvLayer in c ==> top[|top| - 1] == UvLayer)
  {
    var up := MoveUp(c, x);
    var top := MoveToTop(up, UvLayer);
    if UvLayer in c {
      assert UvLayer in multiset(up);
      MoveToTopIsTop(up, UvLayer);
    }
    assert multiset(top) == multiset(c);
    DistinctBySubMultiset(c, top);
    Preserved(c, top);
  }

  /** Every child of r was a child of c. */
  lemma Preserved(c: seq<NodeId>, r: seq<NodeId>)
    requires multiset(r) <= multiset(c)
    ensures forall x :: x in r ==> x in c
  {
    forall x | x in r ensures x in c {
      assert x in multiset(r);
    }
  }
}
