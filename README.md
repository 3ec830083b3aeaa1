# Selective bloom: material mask and restore

This project models the selective-bloom frame step of the ElBaldo water demo
(`src/main.js`). Each frame does three things, and the model covers them:

- The mask pass darkens every mesh that should not glow. Each mesh that is
  not the water surface and fails the bloom-layer test has its material
  saved in the `materials` table under its uuid. Its material is then
  replaced by the shared `darkMaterial`.
- The bloom composer renders the masked scene.
- The restore pass puts every saved material back and deletes its table entry.

The model has three modules:

- `Layers` (`layers.dfy`) covers the 32-bit layer masks. It models `set`,
  `enable` and `test`, the channels `ENTIRE_SCENE` (0) and `BLOOM_SCENE` (1),
  and the default mask of channel 0.
- `SelectiveBloom` (`selective_bloom.dfy`) holds the scene entities as values:
  `Object3D` (uuid, type tag, `isMesh`, layers, material) and `Material`,
  which is a material object, `null` or `undefined`, with JavaScript
  truthiness. The table is a map from uuid to material. The two visitors,
  `Darken` and `Restore`, are functions of one object and the table. The two
  traversals, `DarkenPass` and `RestorePass`, visit the scene as a flat
  sequence in traversal order. The lemmas describe exactly what each pass
  does to every object and to the table. From them follow the round trip and
  the two ways it breaks.
- `Renderer` (`renderer.dfy`) holds the frame state, which the source updates
  in place. The class `BloomRenderer` has the scene, the table, the camera's
  layer mask and a log of composer renders. Its visitor methods update one
  object and the table. Its traversal methods are loops, proved equal to the
  traversal functions. `RenderBloom` and `Render` sequence the steps.
  `EnableBloomLayer` flags the loaded `set.json` nodes in place, in an array.

The composers' `render()` calls are opaque. Each one appends a record of what
it was shown (the objects with their materials at that moment, and the
camera's mask) and changes nothing else.

The round trip needs three conditions: the table starts empty, no two
objects share a uuid, and every darkened mesh has a truthy material. Under
them, the scene comes back exactly and the table ends empty. Without distinct
uuids, the later of two darkened meshes with one uuid stays dark. Without a
truthy material, a darkened mesh stays dark and its entry stays in the table.

Two details of the code shape the model:

- The restore visitor acts only on a truthy table entry, and the entry is
  deleted when it is used. So among objects sharing a uuid, only the first
  one visited gets a material back (`src/main.js:326-328`).
- The `set.json` callback enables the bloom channel on every node of the
  loaded object, since it goes through `traverse` (`src/main.js:142-144`).

## Model

| member | source | states |
|---|---|---|
| `Layers.Set` | src/main.js:81-82 | `bloomLayer.set(BLOOM_SCENE)` gives a mask in which exactly one channel, the given one, is enabled |
| `Layers.Enable` | src/main.js:142-144 | `layers.enable(BLOOM_SCENE)` turns the given channel on and keeps every other channel as it was |
| `Layers.Test` | src/main.js:319 | `bloomLayer.test(obj.layers)` is true exactly when some channel is enabled in both masks |
| `Layers.TestSingleChannel` | src/main.js:319 | testing against a single-channel mask is true exactly when that channel is enabled in the object's layers |
| `SelectiveBloom.BloomedIffBloomChannel` | src/main.js:319 | an object passes `bloomLayer.test` exactly when its `BLOOM_SCENE` channel is enabled |
| `SelectiveBloom.Lookup` | src/main.js:326-327 | reading `materials[obj.uuid]` gives the stored entry when the key is present, and `undefined` (falsy) when it is missing |
| `SelectiveBloom.Darken` | src/main.js:315-323 | the visitor leaves water, non-meshes and bloom-layer meshes and the table unchanged; any other mesh gets `darkMaterial`, and its uuid maps to its old material with no other entry changed |
| `SelectiveBloom.Restore` | src/main.js:325-329 | with a truthy entry under the object's uuid, the object gets that material back and the entry is deleted; otherwise object and table are unchanged |
| `SelectiveBloom.DarkenPass` | src/main.js:305 | the mask traversal visits every object once, in order, and yields a scene of the same length |
| `SelectiveBloom.RestorePass` | src/main.js:307 | the restore traversal visits every object once, in order, and yields a scene of the same length |
| `SelectiveBloom.DarkenPassObjects` | src/main.js:315-323 | after the mask pass, every object that should be darkened wears `darkMaterial` and every other object is unchanged, whatever the table held |
| `SelectiveBloom.DarkenPassTable` | src/main.js:319-322 | after the mask pass, the table's keys are the old keys plus the darkened objects' uuids; untouched entries keep their values; a uuid's entry holds the material of the last darkened object with that uuid |
| `SelectiveBloom.WaterUntouched` | src/main.js:316-318 | an object of type `'Water'` is unchanged by the mask pass, whatever its layers or mesh flag; with distinct uuids, its table entry is neither added nor changed |
| `SelectiveBloom.BloomedAndNonMeshUntouched` | src/main.js:319 | non-meshes and meshes that pass the bloom test are unchanged by the mask pass; with distinct uuids, their table entries are neither added nor changed |
| `SelectiveBloom.DarkenedObjectSaved` | src/main.js:319-322 | with distinct uuids, a darkened mesh ends the mask pass in `darkMaterial`, and the table maps its uuid to its previous material |
| `SelectiveBloom.RestorePassTable` | src/main.js:325-329 | after the restore pass, the table has lost exactly the truthy entries whose uuid some object of the scene carries |
| `SelectiveBloom.RestorePassObjects` | src/main.js:325-329 | after the restore pass, an object has the table's material when the table held a truthy entry for its uuid and no earlier object had that uuid; otherwise it is unchanged |
| `SelectiveBloom.RoundTrip` | src/main.js:303-307 | from an empty table, with distinct uuids and truthy materials on darkened meshes, mask then restore gives back the same scene and an empty table |
| `SelectiveBloom.SharedUuidStaysDark` | src/main.js:320-328 | of two darkened meshes that share a uuid, the later one keeps `darkMaterial` after the round trip, so the scene does not come back |
| `SelectiveBloom.FalsyMaterialStaysDark` | src/main.js:326-328 | a darkened mesh whose material was `null` or `undefined` stays dark after the round trip, and its entry stays, so the table is not empty |
| `SelectiveBloom.FlagForBloom` | src/main.js:142-144 | a flagged node keeps its uuid, type, mesh flag and material, gains the bloom channel, keeps its other channels, and passes the bloom test |
| `SelectiveBloom.BloomedSceneNeverDarkened` | src/main.js:142-146 | a set of objects that all pass the bloom test goes through the mask pass with no object and no table entry changed |
| `Renderer.EnableBloomLayer` | src/main.js:142-144 | every node of the loaded object is flagged in place, and afterwards each one passes the bloom test |
| `Renderer.BloomRenderer.constructor` | src/main.js:46-53 | the frame state starts with the given objects, an empty `materials` table, a camera on the default channel and no renders |
| `Renderer.BloomRenderer.DarkenNonBloomed` | src/main.js:315-323 | visiting object `i` changes that object and the table as `Darken` says, and no other object |
| `Renderer.BloomRenderer.RestoreMaterial` | src/main.js:325-329 | visiting object `i` changes that object and the table as `Restore` says, and no other object |
| `Renderer.BloomRenderer.TraverseDarken` | src/main.js:305 | the loop leaves the scene and table that `DarkenPass` gives for the old ones |
| `Renderer.BloomRenderer.TraverseRestore` | src/main.js:307 | the loop leaves the scene and table that `RestorePass` gives for the old ones |
| `Renderer.BloomRenderer.BloomComposerRender` | src/main.js:306 | the bloom render is shown the current scene and camera mask, and changes neither the materials nor the table |
| `Renderer.BloomRenderer.FinalComposerRender` | src/main.js:300 | the final render is shown the current scene and camera mask, and changes neither the materials nor the table |
| `Renderer.BloomRenderer.RenderBloom` | src/main.js:303-313 | masked: the bloom render sees the masked scene, then the restore pass runs, and under the round-trip conditions the scene comes back with an empty table; unmasked: the bloom render sees the unchanged scene through a camera on `BLOOM_SCENE` alone, and the camera ends on `ENTIRE_SCENE` |
| `Renderer.BloomRenderer.Render` | src/main.js:297-301 | a frame renders bloom with the mask, then the final composite; from a round-trip-ready state it leaves the scene unchanged and the table empty, so the next frame is ready too |
| `Renderer.BloomRenderer.OnSetLoaded` | src/main.js:139-147 | the loaded nodes are flagged for bloom and appended to the scene; none of them is ever darkened; if the uuids stay distinct, the scene stays ready for the round trip |

## Left out

- Rendering by three.js (`EffectComposer`, `RenderPass`, `UnrealBloomPass`, `ShaderPass`, the shaders, `WebGLRenderer`, tone mapping) is a foreign library. The two composer renders are logged as opaque steps.
- `scene.traverse` walks a tree. The model walks a flat sequence in traversal order. The `set.json` subtree is appended to it in traversal order.
- The object loader and texture loaders are asynchronous I/O. They, the progress and error callbacks, and the loaded object's rotation (a floating-point angle) are not modelled. Only the layer flagging and the `scene.add` are.
- dat.gui callbacks, flow-vector normalisation and the `Math.pow` exposure are UI wiring and floating-point numerics. They are not modelled.
- `onResize` and the `requestAnimationFrame` loop are browser event plumbing. The camera aspect is a float division. They are not modelled.
- The visualiser mesh is built but never added to the scene, so it never enters a traversal.
- `src/water_main.js` is a second scene setup with no logic of its own. It is not part of this model.
- `Renderer.BloomRenderer.RenderBloom`: `mask` is a boolean. The source compares it with `=== true`, so any non-boolean argument takes the unmasked branch. Every call in the source passes `true`.
- `SelectiveBloom.Lookup`: the table is a plain object, so a uuid that names an inherited property (`constructor`, `__proto__`, `toString`, ...) would read that property, and writing `__proto__` would replace the prototype. The model treats every uuid as an ordinary key. Generated three.js uuids are hexadecimal strings and never take those values.
- Materials are identified by a number. `darkMaterial` is the material numbered 0. Nothing else about materials is modelled.
- Layer masks model only `set`, `enable` and `test` on 32 bits. Other `Layers` operations are not used by the demo.
