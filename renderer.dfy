/**
 The frame loop's state and the steps that change it in place: the scene's
 objects, the `materials` table, the camera's layer mask, and the record of
 what each opaque composer render was shown.  The traversals are loops over
 the scene that call the visitors; each is proved against the traversal
 functions of `SelectiveBloom`, whose properties are proved there.
 */
module Renderer {
  import opened Layers
  import opened SelectiveBloom

  /**
   A call of one of the two composers, with what it was shown: the scene's
   objects (with their materials at that moment) and the camera's layers.
   The rendering itself is outside the model.
   */
  datatype RenderCall =
    | BloomRender(objects: seq<Object3D>, camera: Mask)
    | FinalRender(objects: seq<Object3D>, camera: Mask)

  /** The loaded scene's traversal: every node gets the bloom channel enabled, in place. */
  method EnableBloomLayer(nodes: array<Object3D>)
    modifies nodes
    ensures forall j :: 0 <= j < nodes.Length ==> nodes[j] == FlagForBloom(old(nodes[j]))
    ensures forall j :: 0 <= j < nodes.Length ==> IsBloomed(nodes[j])
  {
    var i := 0;
    while i < nodes.Length
      invariant 0 <= i <= nodes.Length
      invariant forall j :: 0 <= j < i ==> nodes[j] == FlagForBloom(old(nodes[j]))
      invariant forall j :: i <= j < nodes.Length ==> nodes[j] == old(nodes[j])
    {
      nodes[i] := nodes[i].(layers := Enable(nodes[i].layers, BLOOM_SCENE));
      i := i + 1;
    }
  }

  class BloomRenderer {
    /** The scene's objects in traversal order. */
    var scene: seq<Object3D>
    /** `materials`: the materials of the objects currently darkened. */
    var materials: Table
    /** `camera.layers` */
    var cameraLayers: Mask
    /** Every composer render so far, oldest first. */
    var renders: seq<RenderCall>

    /** `init()`: the procedurally built objects, an empty table, a camera on the default layer. */
    constructor (initial: seq<Object3D>)
      ensures scene == initial && materials == map[]
      ensures cameraLayers == DEFAULT_MASK && renders == []
    {
      scene := initial;
      materials := map[];
      cameraLayers := DEFAULT_MASK;
      renders := [];
    }

    /** `darkenNonBloomed(scene[i])` */
    method DarkenNonBloomed(i: int)
      requires 0 <= i < |scene|
      modifies this`scene, this`materials
      ensures |scene| == old(|scene|) && scene == old(scene)[i := scene[i]]
      ensures (scene[i], materials) == Darken(old(scene[i]), old(materials))
    {
      var obj := scene[i];
      if obj.typeName == WATER_TYPE {
        return;
      }
      if obj.isMesh && !Test(BLOOM_LAYER, obj.layers) {
        materials := materials[obj.uuid := obj.material];
        scene := scene[i := obj.(material := DARK_MATERIAL)];
      }
    }

    /** `restoreMaterial(scene[i])` */
    method RestoreMaterial(i: int)
      requires 0 <= i < |scene|
      modifies this`scene, this`materials
      ensures |scene| == old(|scene|) && scene == old(scene)[i := scene[i]]
      ensures (scene[i], materials) == Restore(old(scene[i]), old(materials))
    {
      var obj := scene[i];
      if Truthy(Lookup(materials, obj.uuid)) {
        scene := scene[i := obj.(material := materials[obj.uuid])];
        materials := materials - {obj.uuid};
      }
    }

    /** `scene.traverse(darkenNonBloomed)` */
    method TraverseDarken()
      modifies this`scene, this`materials
      ensures (scene, materials) == DarkenPass(old(scene), old(materials))
    {
      ghost var s0, t0 := scene, materials;
      var i := 0;
      while i < |scene|
        invariant 0 <= i <= |scene| == |s0|
        invariant scene[i..] == s0[i..]
        invariant (scene[..i], materials) == DarkenPass(s0[..i], t0)
      {
        DarkenNonBloomed(i);
        assert s0[..i + 1][..i] == s0[..i];
        assert scene[..i + 1] == scene[..i] + [scene[i]];
        i := i + 1;
      }
      assert scene == scene[..i] && s0 == s0[..i];
    }

    /** `scene.traverse(restoreMaterial)` */
    method TraverseRestore()
      modifies this`scene, this`materials
      ensures (scene, materials) == RestorePass(old(scene), old(materials))
    {
      ghost var s0, t0 := scene, materials;
      var i := 0;
      while i < |scene|
        invariant 0 <= i <= |scene| == |s0|
        invariant scene[i..] == s0[i..]
        invariant (scene[..i], materials) == RestorePass(s0[..i], t0)
      {
        RestoreMaterial(i);
        assert s0[..i + 1][..i] == s0[..i];
        assert scene[..i + 1] == scene[..i] + [scene[i]];
        i := i + 1;
      }
      assert scene == scene[..i] && s0 == s0[..i];
    }

    /** `bloomComposer.render()`: shown the scene and the camera's layers; changes nothing else. */
    method BloomComposerRender()
      modifies this`renders
      ensures renders == old(renders) + [BloomRender(scene, cameraLayers)]
    {
      renders := renders + [BloomRender(scene, cameraLayers)];
    }

    /** `finalComposer.render()`: shown the scene and the camera's layers; changes nothing else. */
    method FinalComposerRender()
      modifies this`renders
      ensures renders == old(renders) + [FinalRender(scene, cameraLayers)]
    {
      renders := renders + [FinalRender(scene, cameraLayers)];
    }

    /**
     `renderBloom(mask)`.  Masked: the bloom composer is shown the scene after
     the mask pass, and the restore pass follows; when the round trip's
     conditions hold the scene comes back unchanged and the table empty.
     Unmasked: the bloom composer is shown the scene through a camera on the
     bloom channel alone, and the camera ends on the whole-scene channel.
     */
    method RenderBloom(mask: bool)
      modifies this`scene, this`materials, this`cameraLayers, this`renders
      ensures mask ==>
        var d := DarkenPass(old(scene), old(materials));
        && (scene, materials) == RestorePass(d.0, d.1)
        && cameraLayers == old(cameraLayers)
        && renders == old(renders) + [BloomRender(d.0, old(cameraLayers))]
      ensures mask && RoundTripReady(old(scene), old(materials)) ==>
        scene == old(scene) && materials == map[]
      ensures !mask ==>
        && scene == old(scene) && materials == old(materials)
        && cameraLayers == Set(ENTIRE_SCENE)
        && renders == old(renders) + [BloomRender(old(scene), Set(BLOOM_SCENE))]
    {
      if mask {
        TraverseDarken();
        BloomComposerRender();
        TraverseRestore();
        if RoundTripReady(old(scene), old(materials)) {
          RoundTrip(old(scene), old(materials));
        }
      } else {
        cameraLayers := Set(BLOOM_SCENE);
        BloomComposerRender();
        cameraLayers := Set(ENTIRE_SCENE);
      }
    }

    /**
     `render()`: the masked bloom pass, then the final composite.  The final
     composer is shown the scene as the restore pass left it.  From a state
     ready for the round trip, the frame leaves the scene and the empty table
     as they were, so the next frame is ready too, and the final composer
     sees the scene unmasked.
     */
    method Render()
      modifies this`scene, this`materials, this`cameraLayers, this`renders
      ensures
        var d := DarkenPass(old(scene), old(materials));
        && (scene, materials) == RestorePass(d.0, d.1)
        && cameraLayers == old(cameraLayers)
        && renders == old(renders) + [BloomRender(d.0, cameraLayers), FinalRender(scene, cameraLayers)]
      ensures RoundTripReady(old(scene), old(materials)) ==>
        scene == old(scene) && materials == map[] && RoundTripReady(scene, materials)
    {
      RenderBloom(true);
      FinalComposerRender();
    }

    /**
     The `set.json` load callback: every node of the loaded object is put on
     the bloom channel and the object is added to the scene.
     */
    method OnSetLoaded(loaded: array<Object3D>)
      modifies this`scene, loaded
      ensures scene == old(scene) + loaded[..]
      ensures forall j :: 0 <= j < loaded.Length ==> loaded[j] == FlagForBloom(old(loaded[j]))
      ensures forall j :: |old(scene)| <= j < |scene| ==> !IsDarkened(scene[j])
      ensures RoundTripReady(old(scene), materials) && DistinctUuids(scene) ==> RoundTripReady(scene, materials)
    {
      EnableBloomLayer(loaded);
      scene := scene + loaded[..];
    }
  }
}
