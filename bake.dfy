/** The bake guard and texture refresh of src/client/main.js: updateMap (lines
    36-53), the toBlob callback inside it, and the `mapImage.onload` handler that
    loadGLB installs (lines 195-201).

    A bake is one pass through three events: updateMap captures the stage and asks
    for a blob; the blob callback revokes the texture image's old URL, installs a
    new object URL and starts decoding it; the image's load event marks the
    texture for upload and clears `loading`. There is no queue and no generation
    counter: a call made while `loading` is set is simply dropped.

    URL.createObjectURL is an oracle that hands out fresh URLs; it is modelled by
    a serial counter. Completions are explicit transitions, not real callbacks. */
module Bake {
  import opened Wrappers

  /** An image URL: one minted by URL.createObjectURL, or the source the glTF
      loader gave the model's own texture image. */
  datatype Url = ObjectUrl(serial: nat) | TextureSource(src: string)

  /** The calls made on the URL oracle, in order. */
  datatype UrlEvent = Revoked(url: Url) | Created(url: Url)

  datatype BakeState = BakeState(
    mapSrc: Option<Url>,      // `mapImage.src`; None while `mapImage` is undefined
    loading: bool,            // the module-level `loading` flag
    drawStubbed: bool,        // `stage.draw` is the no-op installed by updateMap
    transformerShown: bool,
    uvShown: bool,            // visibility of the uv guide layer
    blobPending: bool,        // `canvas.toBlob` has been called and its callback has not run
    decoding: bool,           // `mapImage.src` was set from a blob and its load event has not fired
    exportHref: Option<Url>,  // `window.export.href`, once the program has set it
    textureDirty: bool,       // `mesh.material.map.needsUpdate`
    nextSerial: nat,          // serial of the next URL the oracle mints
    urlLog: seq<UrlEvent>)

  /** updateMap: nothing happens without a texture image or while a bake is
      loading; otherwise draw is stubbed, the transformer and the uv layer are
      hidden, `loading` is set, the stage is captured and a blob requested. */
  function Request(s: BakeState): (r: BakeState)
    ensures !Starts(s) ==> r == s
    ensures Starts(s) ==> r.loading && r.blobPending && !Starts(r)
    ensures r.mapSrc == s.mapSrc && r.urlLog == s.urlLog && r.nextSerial == s.nextSerial
  {
    if s.mapSrc.None? || s.loading then s
    else s.(drawStubbed := true, transformerShown := false, uvShown := false,
            loading := true, blobPending := true)
  }

  /** Whether updateMap starts a bake in state s (rather than returning at once). */
  predicate Starts(s: BakeState) {
    s.mapSrc.Some? && !s.loading
  }

  /** The toBlob callback: revoke the image's current URL, then mint a new one for
      the blob and install it, mirror it to the export link, show the uv layer
      and give the stage its draw back. */
  function BlobReady(s: BakeState): (r: BakeState)
    requires s.blobPending && s.mapSrc.Some?
    ensures r.mapSrc.Some? && r.exportHref == r.mapSrc && r.nextSerial == s.nextSerial + 1
    ensures r.loading == s.loading && r.decoding && !r.blobPending
    ensures |r.urlLog| == |s.urlLog| + 2 && r.urlLog[..|s.urlLog|] == s.urlLog
    ensures r.urlLog[|s.urlLog|] == Revoked(s.mapSrc.value)
  {
    var minted := ObjectUrl(s.nextSerial);
    s.(urlLog := s.urlLog + [Revoked(s.mapSrc.value), Created(minted)],
       nextSerial := s.nextSerial + 1,
       mapSrc := Some(minted), exportHref := Some(minted),
       uvShown := true, drawStubbed := false,
       blobPending := false, decoding := true)
  }

  /** The onload handler as written: it marks the texture, shows the transformer,
      and then calls `transformer.getLayer().draw()`. Before any image has been
      dropped the transformer belongs to no layer, `getLayer()` is null, the call
      throws, and `loading = false` is never reached. */
  function MapLoadedAsWritten(s: BakeState, transformerHasLayer: bool): (r: BakeState)
    requires s.decoding
    ensures r.loading <==> s.loading && !transformerHasLayer
    ensures r.textureDirty && !r.decoding && r.transformerShown
  {
    var marked := s.(textureDirty := true, transformerShown := true, decoding := false);
    if transformerHasLayer then marked.(loading := false) else marked
  }

  /** The onload handler as evidently intended: `loading` is cleared whether or
      not the transformer has a layer to redraw. */
  function MapLoaded(s: BakeState): (r: BakeState)
    requires s.decoding
    ensures !r.loading && !r.decoding && r.textureDirty && r.transformerShown
    ensures r.mapSrc == s.mapSrc && r.urlLog == s.urlLog && r.blobPending == s.blobPending
  {
    s.(textureDirty := true, transformerShown := true, decoding := false, loading := false)
  }

  /** loadGLB's callback: `mapImage` becomes the new model's texture image. */
  function ModelLoaded(s: BakeState, src: string): (r: BakeState)
    ensures r.mapSrc == Some(TextureSource(src))
    ensures r.loading == s.loading && r.urlLog == s.urlLog && r.nextSerial == s.nextSerial
    ensures Starts(r) <==> !s.loading
  {
    s.(mapSrc := Some(TextureSource(src)))
  }

  // ---------------------------------------------------------------- invariant

  /** Bakes in flight: captured but no blob yet, or installed but not decoded. */
  function InFlight(s: BakeState): nat {
    (if s.blobPending then 1 else 0) + (if s.decoding then 1 else 0)
  }

  predicate UrlMinted(u: Url, bound: nat) {
    u.ObjectUrl? ==> u.serial < bound
  }

  /** At most one bake is in flight, and `loading` is set exactly while one is;
      draw is stubbed exactly between capture and blob; every URL the state
      mentions was minted before the next serial. */
  predicate Inv(s: BakeState) {
    && InFlight(s) <= 1
    && (s.loading <==> InFlight(s) == 1)
    && (s.drawStubbed <==> s.blobPending)
    && (s.blobPending ==> s.mapSrc.Some?)
    && (s.decoding ==> s.mapSrc.Some?)
    && (s.mapSrc.Some? ==> UrlMinted(s.mapSrc.value, s.nextSerial))
    && (s.exportHref.Some? ==> UrlMinted(s.exportHref.value, s.nextSerial))
    && (forall k :: 0 <= k < |s.urlLog| ==> UrlMinted(s.urlLog[k].url, s.nextSerial))
  }

  /** The state at start-up: no texture image, nothing in flight, the transformer
      and the uv layer shown, no object URL minted yet. */
  const Initial: BakeState := BakeState(None, false, false, true, true, false, false, None, false, 0, [])

  /** The state after the first loadGLB, before any bake. */
  function Loaded(src: string): (s: BakeState)
    ensures Inv(s) && !s.loading && Starts(s)
  {
    ModelLoaded(Initial, src)
  }

  // ---------------------------------------------------------------- events

  datatype Event = UpdateMap | BlobCallback | ImageLoad | ModelLoad(src: string)

  /** One event, with the corrected image-load handler MapLoaded (the handler as
      written is MapLoadedAsWritten, which AsWrittenBreaksInv shows does not keep
      Inv). A completion arrives only when it is pending; otherwise it is not an
      event that can happen, and the state stays as it is. */
  function Step(s: BakeState, e: Event): (r: BakeState)
    ensures r.nextSerial >= s.nextSerial
    ensures |r.urlLog| >= |s.urlLog| && r.urlLog[..|s.urlLog|] == s.urlLog
  {
    match e
    case UpdateMap => Request(s)
    case BlobCallback => if s.blobPending && s.mapSrc.Some? then BlobReady(s) else s
    case ImageLoad => if s.decoding then MapLoaded(s) else s
    case ModelLoad(t) => ModelLoaded(s, t)
  }

  /** The events es, in order. The URL log only grows: nothing minted or revoked
      is ever forgotten. */
  function Run(s: BakeState, es: seq<Event>): (r: BakeState)
    ensures r.nextSerial >= s.nextSerial
    ensures |r.urlLog| >= |s.urlLog| && r.urlLog[..|s.urlLog|] == s.urlLog
    decreases |es|
  {
    if es == [] then s else Run(Step(s, es[0]), es[1..])
  }

  /** How many of the events start a bake. */
  function BakesStarted(s: BakeState, es: seq<Event>): nat
    decreases |es|
  {
    if es == [] then 0
    else (if es[0] == UpdateMap && Starts(s) then 1 else 0) + BakesStarted(Step(s, es[0]), es[1..])
  }

  function Repeat(e: Event, n: nat): (es: seq<Event>)
    ensures |es| == n && forall k :: 0 <= k < n ==> es[k] == e
  {
    if n == 0 then [] else [e] + Repeat(e, n - 1)
  }

  // ---------------------------------------------------------------- lemmas

  lemma UrlMintedLater(u: Url, a: nat, b: nat)
    requires UrlMinted(u, a) && a <= b
    ensures UrlMinted(u, b)
  {
  }

  /** Every event keeps the invariant. */
  lemma StepKeepsInv(s: BakeState, e: Event)
    requires Inv(s)
    ensures Inv(Step(s, e))
  {
    var t := Step(s, e);
    if e.BlobCallback? && s.blobPending && s.mapSrc.Some? {
      forall k | 0 <= k < |t.urlLog| ensures UrlMinted(t.urlLog[k].url, t.nextSerial) {
        if k < |s.urlLog| {
          assert t.urlLog[k] == s.urlLog[k];
          UrlMintedLater(s.urlLog[k].url, s.nextSerial, t.nextSerial);
        }
      }
    }
  }

  lemma {:induction false} RunKeepsInv(s: BakeState, es: seq<Event>)
    requires Inv(s)
    ensures Inv(Run(s, es))
    decreases |es|
  {
    if es != [] {
      StepKeepsInv(s, es[0]);
      RunKeepsInv(Step(s, es[0]), es[1..]);
    }
  }

  /** Calls made while a bake is loading are dropped, not queued: any number of
      them leaves the state exactly as it was. */
  lemma {:induction false} DroppedWhileLoading(s: BakeState, n: nat)
    requires s.loading
    ensures Run(s, Repeat(UpdateMap, n)) == s
    ensures BakesStarted(s, Repeat(UpdateMap, n)) == 0
  {
    if n > 0 {
      var es := Repeat(UpdateMap, n);
      assert es[0] == UpdateMap && es[1..] == Repeat(UpdateMap, n - 1);
      DroppedWhileLoading(s, n - 1);
    }
  }

  /** Single flight: until an image load completes a bake, at most one bake
      starts, and none if one is already loading. */
  lemma {:induction false} SingleFlight(s: BakeState, es: seq<Event>)
    requires Inv(s)
    requires forall k :: 0 <= k < |es| ==> es[k] != ImageLoad
    ensures BakesStarted(s, es) <= (if s.loading then 0 else 1)
    ensures s.loading ==> Run(s, es).loading
    decreases |es|
  {
    if es != [] {
      var t := Step(s, es[0]);
      StepKeepsInv(s, es[0]);
      assert s.loading ==> t.loading;
      assert es[0] == UpdateMap && Starts(s) ==> t.loading;
      SingleFlight(t, es[1..]);
    }
  }

  /** The blob callback revokes the image's previous URL before it mints and
      installs a URL never seen before, which the image and the export link then
      share. */
  lemma BlobInstallsFreshUrl(s: BakeState)
    requires Inv(s) && s.blobPending
    ensures var t := BlobReady(s);
      var u := t.mapSrc.value;
      t.urlLog == s.urlLog + [Revoked(s.mapSrc.value), Created(u)] &&
      t.exportHref == t.mapSrc &&
      s.mapSrc != Some(u) &&
      forall k :: 0 <= k < |s.urlLog| ==> s.urlLog[k].url != u
  {
    var u := ObjectUrl(s.nextSerial);
    forall k | 0 <= k < |s.urlLog| ensures s.urlLog[k].url != u {
      assert UrlMinted(s.urlLog[k].url, s.nextSerial);
    }
    assert UrlMinted(s.mapSrc.value, s.nextSerial);
  }

  /** During capture the uv layer and the transformer are hidden and draw is
      stubbed; the blob callback shows the uv layer again and restores draw. */
  lemma CaptureHidesOverlays(s: BakeState)
    requires Inv(s) && Starts(s)
    ensures var c := Request(s);
      c.loading && c.blobPending && c.drawStubbed && !c.uvShown && !c.transformerShown
    ensures var b := BlobReady(Request(s));
      b.uvShown && !b.drawStubbed && b.loading && b.decoding
  {
  }

  // ---------------------------------------------------------------- the stuck guard

  /** `loading` is set, yet no blob and no decode is pending that could clear it. */
  predicate Stuck(s: BakeState) {
    s.loading && !s.blobPending && !s.decoding
  }

  /** As written, an image load while the transformer has no layer leaves the
      guard stuck, so the next updateMap is dropped. */
  lemma AsWrittenLoadSticks(s: BakeState)
    requires Inv(s) && s.decoding
    ensures Stuck(MapLoadedAsWritten(s, false))
    ensures Request(MapLoadedAsWritten(s, false)) == MapLoadedAsWritten(s, false)
  {
  }

  /** Concretely: load a model, drag the stage before dropping any image, let the
      blob and the image load arrive; the guard is stuck. */
  lemma AsWrittenFirstBakeSticks()
    ensures var s := BlobReady(Request(Loaded("texture")));
      Inv(s) && s.decoding && Stuck(MapLoadedAsWritten(s, false))
  {
  }

  /** With the handler as written, the image load of that same first bake breaks
      the invariant: `loading` stays set with no bake in flight. */
  lemma AsWrittenBreaksInv()
    ensures var s := BlobReady(Request(Loaded("texture")));
      Inv(s) && s.decoding && !Inv(MapLoadedAsWritten(s, false))
  {
    var s := BlobReady(Request(Loaded("texture")));
    var t := MapLoadedAsWritten(s, false);
    assert t.loading && InFlight(t) == 0;
  }

  /** Nothing gets out of a stuck state: every later event leaves it stuck, and
      no bake ever starts again. */
  lemma {:induction false} StuckForever(s: BakeState, es: seq<Event>)
    requires Stuck(s)
    ensures Stuck(Run(s, es)) && BakesStarted(s, es) == 0
    decreases |es|
  {
    if es != [] {
      StuckForever(Step(s, es[0]), es[1..]);
    }
  }

  /** With the corrected handler, the image load ends the bake: the invariant
      holds, the guard is released and the next updateMap starts a new bake. */
  lemma LoadReleasesGuard(s: BakeState)
    requires Inv(s) && s.decoding
    ensures var t := MapLoaded(s); Inv(t) && !t.loading && !Stuck(t) && t.textureDirty
    ensures Request(MapLoaded(s)).blobPending
  {
  }

  /** With the corrected handler no reachable state is stuck. */
  lemma {:induction false} NeverStuck(s: BakeState, es: seq<Event>)
    requires Inv(s)
    ensures !Stuck(Run(s, es))
  {
    RunKeepsInv(s, es);
  }
}
