# quilt: a verified model of the texture editor's core

quilt is a browser tool for painting a glTF avatar's texture. Images dropped onto a
Konva stage become layers. A uv guide shows the model's triangle outlines, and every
change is baked back into the model's texture image. A small Express server proxies
dropped links so that their images can be fetched.

This project models the logic of that program in Dafny and proves what it promises:

- **UvGuide** (`uv_guide.dfy`): the uv guide loop of `loadGLB`. It is the function
  `Guide` (the calls the loop makes) plus the method `Trace`, which makes those calls
  on the uv canvas's 2D context. The context draws them as a canvas does: calls with
  a coordinate that is not finite are skipped, and a lineTo on an empty path starts
  it. The path is never cleared.
- **Bake** (`bake.dfy`): the bake guard of `updateMap`, the toBlob callback and the
  texture image's load handler, as a state machine. It is dropped-not-queued and, with the
  image-load handler corrected as under Findings, has a single bake in flight. Revocation of the old URL comes before the new one is
  installed.
- **Stage** (`stage.dfy`): the stage's child list and the Konva operations the
  buttons use.
- **LayerList** (`layer_list.dfy`): what `updateLayers` does to the `<select>`
  list.
- **Client** (`editor.dfy`): the client's module state as the class `Editor`, with
  one method per event handler. Each method is proved against the functions of the
  modules above.
- **DropSource** (`drop_source.dfy`): `imageFromDataTransfer`'s choice between a
  file, a `data:` image and a URI list.
- **UriComponent** (`uri_component.dfy`): encodeURIComponent and
  decodeURIComponent, as section 15.1.3 of ECMA-262 5.1 defines them.
- **ProxyRoute** (`proxy_route.dfy`): the `/proxy/:url` route. It covers Express's
  path match and parameter decoding, and the handler's choice between streaming the
  target, streaming its Open Graph image, a 404, or no response at all.

Assumptions about code that is not part of this model:

- **Konva.** `moveUp`/`moveDown` swap a child with its neighbour and do nothing at
  the end of the list or without a parent. `moveToTop` moves a child to the end.
  `remove` takes it out. `toCanvas` draws the visible children.
- **The `<select id="layers">` list.** It is a single-selection list box: setting one
  option's `selected` deselects the others. The page that holds it is not part of this
  model; the list is taken to start with no options (the `Client.Editor` constructor
  sets `options` to the empty list).
- **The uv canvas's 2D context.** moveTo and lineTo follow the CanvasPath methods of
  the HTML Living Standard (section 4.12.5.1): a call with an infinite or NaN
  coordinate does nothing, and a lineTo on a path with no subpath only starts one.
- **The image element's src.** The URL parser resolves a final "." or ".." path
  segment before the request is made (path state, section 4.4 of the WHATWG URL
  Standard).
- **URL.createObjectURL.** It returns a URL never returned before.

## Model

| member | source | states |
|---|---|---|
| UvGuide.Corner | src/client/main.js:181-188 | the point read for index slot j is finite exactly when the slot exists and its vertex has a (u, v) pair; otherwise JavaScript reads undefined and computes NaN |
| UvGuide.TriangleCommands | src/client/main.js:181-188 | one pass of the loop issues four calls: a moveTo, then three lineTo's, the last back to the moveTo's point |
| UvGuide.GuidePrefix | src/client/main.js:180-189 | the first t passes of the loop issue exactly 4·t calls |
| UvGuide.Guide | src/client/main.js:180-189 | the loop issues four calls per pass, whatever the index data, and none for an empty index array |
| UvGuide.CornerProjects | src/client/main.js:181-188 | for a well-formed mesh, the point read for index slot j is vertex index[j] projected to (uvs[2k]·w, uvs[2k+1]·h) |
| UvGuide.GuidePrefixAt | src/client/main.js:180-189 | command k of the first t passes is command k mod 4 of the pass over slots 3·(k/4) .. 3·(k/4)+2 |
| UvGuide.GuidePrefixSlice | src/client/main.js:180-189 | pass t of the loop owns places 4t..4t+3 of the calls it makes, and later passes never change them |
| UvGuide.GuideTriangle | src/client/main.js:180-189 | triangle t (a, b, c) contributes exactly moveTo(a), lineTo(b), lineTo(c), lineTo(a) at places 4t..4t+3: one closed outline per triangle, in index order |
| UvGuide.WellFormedGuideAt | src/client/main.js:177-188 | for well-formed index data every command is finite and projects the vertex its slot names; a pass starts with a moveTo |
| UvGuide.Draw | src/client/main.js:182-188 | one moveTo or lineTo either leaves the path as it was (a coordinate that is not finite) or adds one command at the given point and keeps everything before it |
| UvGuide.Drawn | src/client/main.js:180-189 | a run of calls keeps the path it started from as a prefix and adds at most one command per call |
| UvGuide.DrawnAppend | src/client/main.js:180-189 | drawing two runs of calls one after the other is drawing their concatenation, so the passes of the loop compose |
| UvGuide.DrawnFinite | src/client/main.js:180-189 | whatever the calls, the path holds only finite points and starts with a moveTo |
| UvGuide.DrawnAsCalled | src/client/main.js:180-189 | calls with finite points that start with a moveTo are drawn exactly as made |
| UvGuide.GuideDrawnAsCalled | src/client/main.js:177-189 | for a well-formed mesh the canvas keeps every call the loop makes: the path gains exactly the guide |
| UvGuide.PartialTriangleDropsUndefined | src/client/main.js:180-189 | a trailing index left over after whole triangles draws only its first corner's moveTo and the line back to it; the undefined corners are skipped |
| UvGuide.OutlineSkipsUndefined | src/client/main.js:181-188 | an outline whose middle corners are not finite draws the moveTo and the closing lineTo only |
| UvGuide.PathContext.constructor | src/client/main.js:157-164 | the uv canvas's path starts empty |
| UvGuide.PathContext.MoveTo | src/client/main.js:182 | ctx.moveTo adds a moveTo to the path when both coordinates are finite and otherwise changes nothing |
| UvGuide.PathContext.LineTo | src/client/main.js:184-188 | ctx.lineTo adds a lineTo when both coordinates are finite, only a moveTo when the path is empty, and otherwise changes nothing |
| UvGuide.Outline | src/client/main.js:181-188 | one pass of the loop draws its triangle's calls moveTo(a), lineTo(b), lineTo(c), lineTo(a) onto the path |
| UvGuide.Trace | src/client/main.js:180-189 | the loop draws the whole guide onto what the path already held, so the path is never cleared |
| Bake.Request | src/client/main.js:38-45 | updateMap without a texture image or while loading changes nothing; otherwise it sets `loading`, asks for a blob and cannot start a second bake; it never mints or revokes a URL |
| Bake.BlobReady | src/client/main.js:46-52 | the blob callback first revokes the image's old URL, then installs a newly minted one on the image and the export link; the log only grows, and `loading` stays set while the new image decodes |
| Bake.MapLoadedAsWritten | src/client/main.js:196-201 | as written, the image load marks the texture and shows the transformer, and clears `loading` exactly when the transformer has a layer |
| Bake.MapLoaded | src/client/main.js:196-201 | as corrected, the image load marks the texture, shows the transformer and always clears `loading`; the image and the URL log are untouched |
| Bake.ModelLoaded | src/client/main.js:195 | loadGLB makes the model's texture source the image's src; a bake in flight stays in flight, and otherwise the next updateMap starts one |
| Bake.Step | src/client/main.js:36-53 | no event forgets a minted or revoked URL: the log and the serial counter only grow |
| Bake.Run | src/client/main.js:36-53 | over any run of events the URL log only grows |
| Bake.Loaded | src/client/main.js:195 | the first model load from the start-up state leaves the guard idle and the invariant holding, so updateMap would start a bake |
| Bake.StepKeepsInv | src/client/main.js:36-53 | with the corrected image-load handler, every event keeps the invariant: at most one bake in flight, `loading` set exactly while one is, draw stubbed exactly between capture and blob, every URL minted before |
| Bake.RunKeepsInv | src/client/main.js:36-53 | with the corrected image-load handler, the invariant holds after any sequence of events |
| Bake.AsWrittenBreaksInv | src/client/main.js:195-201 | with the image-load handler as written, the first bake after a model load ends in a state that breaks the invariant: `loading` set with no bake in flight |
| Bake.DroppedWhileLoading | src/client/main.js:39 | while `loading` is set, any number of updateMap calls leave the state exactly as it was and start no bake: they are dropped, not queued |
| Bake.SingleFlight | src/client/main.js:39-44 | until an image load completes a bake, at most one bake starts, none if one is loading, and `loading` stays set |
| Bake.BlobInstallsFreshUrl | src/client/main.js:47-49 | the blob callback revokes the previous src and then creates a URL never seen before; the texture image and the export link end up with that same URL |
| Bake.CaptureHidesOverlays | src/client/main.js:40-51 | during capture the uv layer and the transformer are hidden and draw is stubbed; the blob callback shows the uv layer and restores draw |
| Bake.AsWrittenLoadSticks | src/client/main.js:196-201 | with the handler as written and no transformer layer, the image load leaves `loading` set with nothing pending, and the next updateMap is dropped |
| Bake.AsWrittenFirstBakeSticks | src/client/main.js:195-201 | concretely, load a model, bake once before any drop, and let the blob and the image load arrive: the guard is stuck |
| Bake.StuckForever | src/client/main.js:39 | from a stuck state every later event keeps it stuck and no bake ever starts |
| Bake.LoadReleasesGuard | src/client/main.js:196-200 | with the corrected handler the image load marks the texture for upload, keeps the invariant and releases the guard, so the next updateMap starts a bake |
| Bake.NeverStuck | src/client/main.js:36-53 | with the corrected handler no reachable state is stuck |
| Stage.IndexOf | src/client/main.js:113 | the first position of a child in the list |
| Stage.IndexOfDistinct | src/client/main.js:113 | in a list without repeats, the child at position i is found at i |
| Stage.Swap | src/client/main.js:113 | swapping two neighbours keeps the same children and moves only those two |
| Stage.MoveUp | src/client/main.js:113 | moveUp keeps the same children; it swaps the node with its upper neighbour, or does nothing at the top or when detached |
| Stage.MoveDown | src/client/main.js:118 | moveDown keeps the same children; it swaps the node with its lower neighbour, or does nothing at the bottom or when detached |
| Stage.Remove | src/client/main.js:127 | remove drops exactly one occurrence of the node, the others keep their order, and a detached node's removal does nothing |
| Stage.MoveToTop | src/client/main.js:91 | moveToTop keeps the same children and puts the node last |
| Stage.CountsOfDistinct | src/client/main.js:89 | a list without repeats holds every node at most once |
| Stage.DistinctBySubMultiset | src/client/main.js:112-129 | a list whose children all come from a list without repeats has no repeats |
| Stage.OperationsKeepDistinct | src/client/main.js:112-129 | no button operation ever puts a layer on the stage twice |
| Stage.AddKeepsDistinct | src/client/main.js:89 | stage.add of a new layer keeps the list free of repeats |
| Stage.MoveUpThenDown | src/client/main.js:112-120 | moveDown undoes a moveUp that moved the node |
| Stage.MoveDownThenUp | src/client/main.js:112-120 | moveUp undoes a moveDown that moved the node |
| Stage.MoveToTopIsTop | src/client/main.js:91 | after moveToTop the node is the last child and the others keep their order |
| Stage.Visible | src/client/main.js:45 | the captured canvas holds exactly the visible children |
| Stage.IndexOfAppend | src/client/main.js:89 | adding a layer on top does not change where an existing child is found |
| Stage.MoveToTopAfterAdd | src/client/main.js:89-91 | a new layer added on top and then covered again by the uv layer sits right beneath it |
| LayerList.Label | src/client/main.js:146 | a label is longer than the layer's name exactly when the layer is hidden |
| LayerList.LabelStep | src/client/main.js:144-148 | one pass of the labelling loop labels option len-1-i with child i's name and binds it to child i |
| LayerList.Labelled | src/client/main.js:142-149 | the labelling loop keeps one option per child; LabelledIsBound states its content |
| LayerList.Reconcile | src/client/main.js:130-149 | updateLayers leaves one option per child; ReconcileSpec states its content |
| LayerList.SelectedNode | src/client/main.js:97-98 | the node the buttons act on is that of a selected option, and there is none when no option is selected |
| LayerList.Blanks | src/client/main.js:133-136 | the options created in front of the list are blank |
| LayerList.Fit | src/client/main.js:132-141 | the first two loops leave one option per child: blanks in front when the list was short, the first n options when it was long |
| LayerList.SelectedIndex | src/client/main.js:142-143 | the position of the transformer's layer among the children, if it is one |
| LayerList.FirstSelected | src/client/main.js:97 | selectedOptions[0] is the first selected option, and none exists when nothing is selected |
| LayerList.SelectOnly | src/client/main.js:148 | selecting an option of a single-selection list deselects every other option and changes no label or node |
| LayerList.LabelMarksHidden | src/client/main.js:146 | a label is the layer's name, followed by the ghost mark exactly when the layer is hidden |
| LayerList.BoundZero | src/client/main.js:144 | before the labelling loop the list is as the first two loops left it |
| LayerList.BoundStep | src/client/main.js:144-149 | one pass of the labelling loop turns the list after i children into the list after i + 1 children |
| LayerList.LabelledIsBound | src/client/main.js:144-149 | after i passes, the options of children 0..i-1 carry their labels and nodes, and the transformer's layer is the only selected option once it has been passed |
| LayerList.ReconcileSpec | src/client/main.js:130-149 | after updateLayers there is one option per child. The option at len-1-i is bound to child i and labelled with its name, plus the ghost mark iff the child is hidden. An option is selected iff its child is the transformer's layer; when that layer is not a child, the flags are those the reused elements already had. |
| LayerList.BoundSelects | src/client/main.js:148 | once all children are labelled, the transformer's layer's option is selected and no other |
| LayerList.ReconcileBinds | src/client/main.js:147 | every option is bound to some child of the stage |
| LayerList.SelectOnlyIsFirst | src/client/main.js:97 | the option the user picks is the one the buttons act on |
| LayerList.ReconcileForgets | src/client/main.js:144-149 | when the transformer's layer is on the stage, the list updateLayers leaves behind does not depend on the one it started from |
| Client.Editor.constructor | src/client/main.js:153-164 | at start-up the stage holds the uv layer "uvs", the list shows it unselected, no bake can start, and the uv canvas's path is empty |
| Client.Editor.UpdateMap | src/client/main.js:36-57 | updateMap (also on dragmove and transform) is the Bake.Request transition; when a bake starts, the captured layers are the visible ones and the uv layer is not among them; the stage and the list are unchanged |
| Client.Editor.Capture | src/client/main.js:40-45 | past the guard, updateMap is the Bake.Request transition that starts a bake, and the captured layers are exactly the visible ones, never the uv layer |
| Client.Editor.OnBlob | src/client/main.js:46-52 | the toBlob callback is the Bake.BlobReady transition and shows the uv layer again |
| Client.Editor.OnMapLoad | src/client/main.js:196-201 | the texture image's load handler, as corrected, is the Bake.MapLoaded transition |
| Client.Editor.LoadModel | src/client/main.js:167-201 | loading a model draws its guide onto the uv canvas's path and makes its texture image the one baked into |
| Client.Editor.UpdateLayers | src/client/main.js:130-151 | the list becomes Reconcile of the old list with the stage; a bake is requested iff mapUpdate, and the stage is untouched; when the bake starts, it captures exactly the visible layers and never the uv layer, and otherwise the last capture stands |
| Client.Editor.ListChildren | src/client/main.js:132-149 | the three loops turn the list into Reconcile of the old list with the stage, and every option stays bound to a layer |
| Client.Editor.PadOptions | src/client/main.js:132-138 | the first loop puts one blank option in front for each child beyond the list's length |
| Client.Editor.TrimOptions | src/client/main.js:139-141 | the while loop leaves exactly the first n options |
| Client.Editor.LabelOptions | src/client/main.js:142-149 | the labelling loop computes the Labelled list of all children |
| Client.Editor.SwitchTransformer | src/client/main.js:59-73 | switchTransformer shows the transformer, attaches it to the layer and refreshes the list for it, and never starts a bake |
| Client.Editor.ImageMouseDown | src/client/main.js:88 | pressing on an image switches the transformer to its layer |
| Client.Editor.AddLayer | src/client/main.js:83-89 | a new layer with the image's name and a fresh identity goes on top of the stage |
| Client.Editor.ImageLoaded | src/client/main.js:82-93 | a loaded drop becomes a new layer right beneath the uv layer; the transformer is attached to it, its option is the selected one, and a bake is requested; when the bake starts, it captures exactly the visible layers and never the uv layer, and otherwise the last capture stands |
| Client.Editor.SelectOption | src/client/main.js:97 | the option the user picks is the only selected one |
| Client.Editor.Rearrange | src/client/main.js:112-129 | a button's new child list is installed, then the list is reconciled and a bake requested; when the bake starts, it captures exactly the visible layers and never the uv layer, and otherwise the last capture stands |
| Client.Editor.MoveUpClicked | src/client/main.js:112-116 | move up with no selection changes nothing (TypeError); otherwise the selected layer moves up, the uv layer goes back to the top, the list is reconciled and a bake requested; when the bake starts, it captures exactly the visible layers and never the uv layer, and otherwise the last capture stands |
| Client.RaisedStage | src/client/main.js:112-116 | the move up button's new child list holds the same children without repeats, with the uv layer on top when it is a child |
| Client.Editor.MoveDownClicked | src/client/main.js:117-120 | move down moves the selected layer down; the uv layer is not moved back to the top; the list is reconciled and a bake requested; when the bake starts, it captures exactly the visible layers and never the uv layer, and otherwise the last capture stands |
| Client.Editor.ToggleClicked | src/client/main.js:121-125 | toggle flips the selected layer's visibility (the uv layer's too), relabels the list and requests a bake; when the bake starts, it captures exactly the visible layers, so a layer the toggle hid is not baked, and otherwise the last capture stands |
| Client.Editor.Toggle | src/client/main.js:122-125 | flipping one layer's visibility keeps the uv layer's flag in the bake state in step, reconciles the list with the new visibility and requests a bake; a layer it hides is left out of the capture |
| Client.Editor.DeleteClicked | src/client/main.js:126-129 | delete removes the selected layer from the stage, reconciles the list and requests a bake; when the bake starts, it captures exactly the visible layers and never the uv layer, and otherwise the last capture stands |
| Client.Editor.KeyUp | src/client/main.js:96-102 | the Delete key removes the selected layer and nothing else: the list keeps its option and no bake is requested; other keys change nothing |
| Client.Editor.Detach | src/client/main.js:100 | removing a layer changes only the stage's child list |
| UriComponent.HexChar | src/client/utils.js:19 | octets are written with upper-case hexadecimal digits |
| UriComponent.Percent | src/client/utils.js:19 | every octet becomes three characters, '%' and two hexadecimal digits |
| UriComponent.EncodeChar | src/client/utils.js:19 | each character becomes a non-empty run of unreserved characters, '%' and hexadecimal digits |
| UriComponent.Encode | src/client/utils.js:19 | encodeURIComponent is empty only for the empty string, and its result never contains '/' |
| UriComponent.Utf8 | src/client/utils.js:19 | a character's UTF-8 octets are one to four, their first announces their number, and the others are continuation octets |
| UriComponent.Utf8Decode | src/server/main.js:14-15 | only a complete sequence, its length announced by its first octet and the rest continuation octets, decodes to a character |
| UriComponent.Decode | src/server/main.js:14-15 | decodeURIComponent never lengthens its input, and text without '%' decodes to itself |
| UriComponent.LeadingOctetsOfPercent | src/server/main.js:14-15 | reading back n "%XY" groups gives the n octets that were written |
| UriComponent.Utf8TwoOctets | src/server/main.js:14-15 | a code point from U+0080 to U+07FF is written as two octets, announced by the first, that decode back to it |
| UriComponent.Utf8ThreeOctets | src/server/main.js:14-15 | a code point from U+0800 to U+FFFF is written as three octets, announced by the first, that decode back to it |
| UriComponent.Utf8FourOctets | src/server/main.js:14-15 | a code point above U+FFFF is written as four octets, announced by the first, that decode back to it |
| UriComponent.Utf8RoundTrip | src/server/main.js:14-15 | the UTF-8 octets of a character decode to that character, and their first octet announces their number |
| UriComponent.DecodeEncodedChar | src/server/main.js:14-15 | decoding an encoded character followed by more text gives the character followed by the decoding of the text |
| UriComponent.DecodeEncode | src/server/main.js:14-15 | decodeURIComponent undoes encodeURIComponent for every string |
| ProxyRoute.Segment | src/server/main.js:14 | the route's parameter is one non-empty segment without '/', with an optional trailing '/' |
| ProxyRoute.MatchProxy | src/server/main.js:14-15 | a path is routed to the handler only if it starts with "/proxy/" in any letter case |
| ProxyRoute.ChosenOgUrl | src/server/main.js:21 | the og image url is absent without an ogImage field, a single object's own url, and for an array one of its entries |
| ProxyRoute.Respond | src/server/main.js:16-29 | the decision is NoResponse exactly when the HEAD request fails, the content-type is missing, or the page is HTML and the scraper throws; a source other than the target itself is streamed only for HTML |
| ProxyRoute.NonHtmlPassesThrough | src/server/main.js:16-17 | a content-type that is not HTML streams the target itself, whatever the scraper would say |
| ProxyRoute.HtmlStreamsOgImage | src/server/main.js:17-29 | for HTML the response is the chosen og image, a 404 when there is none, or nothing when the scraper throws |
| ProxyRoute.OgChoice | src/server/main.js:21 | a non-empty array gives its last entry's url, a single object its own url, and an absent field or an empty array nothing |
| ProxyRoute.NotFoundOnlyWithoutImage | src/server/main.js:21-26 | the 404 is sent exactly for an HTML target without a usable og image |
| ProxyRoute.RouteRoundTrip | src/server/main.js:14 | "/proxy/" + encodeURIComponent(s) routes with parameter s for every non-empty s, and does not route for the empty string |
| ProxyRoute.RouteIgnoresCase | src/server/main.js:14 | any path whose first seven characters spell "/proxy/" in any mix of letter cases routes exactly as the lower-case one does |
| DropSource.ImageFromDataTransfer | src/client/utils.js:1-21 | only a dropped file can give a name other than "image" |
| DropSource.FileFirst | src/client/utils.js:2-5 | a dropped file gives its own name and object URL, and HTML or URI data dropped with it is ignored |
| DropSource.DataImageUnchanged | src/client/utils.js:6-15 | with no file, a `data:` image in the HTML is returned unchanged, named "image" |
| DropSource.HtmlFallsThrough | src/client/utils.js:10-17 | HTML without a `data:` image does not end the search: the result is as if there were no HTML |
| DropSource.NothingFound | src/client/utils.js:1-21 | the function returns undefined exactly when there is no file, no `data:` image and no URI-list type |
| DropSource.Requested | src/client/utils.js:17-20 | the src "/proxy/" + seg is requested as it is, except that a final "." or ".." segment is resolved away |
| DropSource.UriListReachesProxy | src/client/utils.js:17-20 | a dropped URI list becomes the src "/proxy/" + encodeURIComponent(list), and the request made for it arrives at the server's handler as exactly the dropped text; the lists "", "." and ".." reach no route |
| DropSource.DotsDecode | src/server/main.js:14-15 | "." and ".." decode to themselves, so only the lists "." and ".." encode to a dot segment |

## Left out

- The three.js scene, renderer, camera, controls and glTF parsing (src/client/main.js:5-30, 168-176) are rendering and library code. The mesh's uv and index arrays and its texture's source are parameters of `Client.Editor.LoadModel`.
- Konva's drawing, the transformer's geometry, stage dragging and image dragging are rendering. They appear only as the events that call updateMap.
- The wheel handler (src/client/main.js:103-111) is floating-point stage scaling. Its call to switchTransformer is the same as `Client.Editor.SwitchTransformer`.
- `canvas.toBlob`, URL.createObjectURL and revokeObjectURL, and image decoding are browser services. URLs come from a serial counter, and each completion is an explicit call (`OnBlob`, `OnMapLoad`, `ImageLoaded`). Their failure paths are not modelled: a toBlob callback with a null blob makes URL.createObjectURL throw (src/client/main.js:48), and an image that fails to decode fires no load event because no error handler is installed (src/client/main.js:196); either way `loading` stays set even with the corrected handler, so `Bake.NeverStuck` holds only when every completion arrives and succeeds.
- The drop handler's own steps (src/client/main.js:77-95): imageFromDataTransfer is `DropSource.ImageFromDataTransfer`. When it finds nothing, the destructuring throws and no layer is made. When the image element loads, `Client.Editor.ImageLoaded` runs. An image that never loads makes no layer.
- HTML parsing in imageFromDataTransfer is reduced to the first `<img>`'s src.
- Express beyond the one route, node-fetch, open-graph-scraper and the stream piping are network I/O. The HEAD response and the scraper's result are parameters of `ProxyRoute.Respond`, which returns the decision as a value.
- ProxyRoute.Respond: a Pipe decision is not followed further. The streaming GET at src/server/main.js:23 and :31 has no rejection handler, so a GET that fails (a relative og:image url, or a network error after a successful HEAD) also leaves the request unanswered; the model does not represent that outcome.
- The static file server, the webpack middleware, src/server/utils.js, webpack.config.js and script.js hold no logic of the core.
- Uv coordinates are real numbers rather than IEEE doubles. A read past the end of an array gives NaN, as in JavaScript; other floating-point rounding is not modelled.
- Strings are sequences of Unicode scalar values. The lone surrogates for which encodeURIComponent throws cannot occur.
- The express router's case-insensitive match is modelled for ASCII letters only.
- DropSource.Requested: resolves only the dot segments that a src built from "/proxy/" and one encoded segment can hold; the rest of URL parsing against the page's base URL is not modelled.
- Bake.StepKeepsInv: `Bake.Step` sends the image load to the corrected `Bake.MapLoaded`, not to `Bake.MapLoadedAsWritten`; the program as written does not keep the invariant (`Bake.AsWrittenBreaksInv`).
- Bake.RunKeepsInv: as for `Bake.StepKeepsInv`, it holds for the corrected handler only.
- Client.Editor.OnMapLoad: models the corrected handler, not the code as written (see Findings). The as-written behaviour is `Bake.MapLoadedAsWritten`.
- Loading a second model while a bake is pending is modelled only through `mapImage.src`. The earlier image's own load handler is not tracked separately.

## Findings

| source | as written | input that shows it | evidently intended | confidence | as-written member | corrected member |
|---|---|---|---|---|---|---|
| src/client/main.js:196-201 | The texture image's load handler calls `transformer.getLayer().draw()` before `loading = false`. Until an image has been dropped the transformer belongs to no layer, so `getLayer()` is null and the call throws. `loading` then stays set and every later updateMap is dropped, so the texture never updates again. | Load a model, drag the stage before dropping any image (dragmove calls updateMap), and let the blob and the image load arrive (`Bake.AsWrittenFirstBakeSticks`, then `Bake.StuckForever`). | The load always clears `loading`; the redraw is skipped when the transformer has no layer (`Bake.LoadReleasesGuard`, `Bake.NeverStuck`). | not executed | Bake.MapLoadedAsWritten | Bake.MapLoaded |
