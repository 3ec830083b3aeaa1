/**
 The material mask / restore round trip of the selective bloom.

 Before the bloom pass every mesh that should not glow has its material
 swapped for one shared black material, the swapped-out material being kept
 in a table keyed by the object's uuid; after the pass a second traversal
 puts every kept material back and drains the table.  This module gives the
 two visitors as functions on one object and the table, the two traversals
 as functions on the scene (a flat sequence in traversal order), and proves
 what the traversals do: which objects change, what the table holds, and
 when the round trip gives the scene back exactly.
 */
module SelectiveBloom {
  import opened Layers

  type Uuid = string

  /**
   A material reference as the script sees it.  Any material object is
   truthy; `null` and `undefined` are the two falsy values a material slot
   or a table lookup can hold.
   */
  datatype Material = Null | Undefined | Ref(id: nat)

  predicate Truthy(m: Material)
  {
    m.Ref?
  }

  /** `darkMaterial`: the one black material every darkened mesh shares. */
  const DARK_MATERIAL: Material := Ref(0)

  /** The type tag of the water surface, which is never darkened. */
  const WATER_TYPE: string := "Water"

  /** A scene node, reduced to what the two visitors read and write. */
  datatype Object3D = Object3D(uuid: Uuid, typeName: string, isMesh: bool, layers: Mask, material: Material)

  /** The `materials` table: uuid to the material a darkened object had. */
  type Table = map<Uuid, Material>

  /**
   `materials[uuid]`: a stored key reads as its entry, a missing key as
   `undefined`, which is falsy.  Uuids that name a property every object
   inherits (`constructor`, `__proto__`, ...) read differently in the script
   and are outside the model.
   */
  function Lookup(t: Table, k: Uuid): (r: Material)
    ensures k in t ==> r == t[k]
    ensures k !in t ==> r == Undefined && !Truthy(r)
  {
    if k in t then t[k] else Undefined
  }

  /** `bloomLayer`: a layer mask holding the bloom channel alone. */
  const BLOOM_LAYER: Mask := Set(BLOOM_SCENE)

  /** Does the object pass `bloomLayer.test(obj.layers)`? */
  predicate IsBloomed(o: Object3D)
  {
    Test(BLOOM_LAYER, o.layers)
  }

  /** The objects whose material the mask pass replaces. */
  predicate IsDarkened(o: Object3D)
  {
    o.typeName != WATER_TYPE && o.isMesh && !IsBloomed(o)
  }

  /** An object tests as bloomed exactly when its bloom channel is enabled. */
  lemma BloomedIffBloomChannel(o: Object3D)
    ensures IsBloomed(o) <==> InChannel(o.layers, BLOOM_SCENE)
  {
    TestSingleChannel(BLOOM_SCENE, o.layers);
  }

  // ---------------------------------------------------------------------------
  // The two visitors

  /** `darkenNonBloomed(obj)`: the object and the table after visiting `o`. */
  function Darken(o: Object3D, t: Table): (r: (Object3D, Table))
    ensures o.typeName == WATER_TYPE ==> r == (o, t)
    ensures !o.isMesh || IsBloomed(o) ==> r == (o, t)
    ensures IsDarkened(o) ==>
      && r.0 == o.(material := DARK_MATERIAL)
      && o.uuid in r.1 && r.1[o.uuid] == o.material
      && r.1 - {o.uuid} == t - {o.uuid}
  {
    if o.typeName == WATER_TYPE then (o, t)
    else if o.isMesh && !Test(BLOOM_LAYER, o.layers) then
      (o.(material := DARK_MATERIAL), t[o.uuid := o.material])
    else (o, t)
  }

  /** `restoreMaterial(obj)`: the object and the table after visiting `o`. */
  function Restore(o: Object3D, t: Table): (r: (Object3D, Table))
    ensures Truthy(Lookup(t, o.uuid)) ==>
      r.0 == o.(material := t[o.uuid]) && o.uuid !in r.1 && r.1 == t - {o.uuid}
    ensures !Truthy(Lookup(t, o.uuid)) ==> r == (o, t)
  {
    if Truthy(Lookup(t, o.uuid)) then (o.(material := t[o.uuid]), t - {o.uuid})
    else (o, t)
  }

  // ---------------------------------------------------------------------------
  // The two traversals, visiting the scene in sequence order

  /** `scene.traverse(darkenNonBloomed)` */
  function DarkenPass(s: seq<Object3D>, t: Table): (r: (seq<Object3D>, Table))
    ensures |r.0| == |s|
  {
    if s == [] then ([], t)
    else
      var front := DarkenPass(s[..|s| - 1], t);
      var last := Darken(s[|s| - 1], front.1);
      (front.0 + [last.0], last.1)
  }

  /** `scene.traverse(restoreMaterial)` */
  function RestorePass(s: seq<Object3D>, t: Table): (r: (seq<Object3D>, Table))
    ensures |r.0| == |s|
  {
    if s == [] then ([], t)
    else
      var front := RestorePass(s[..|s| - 1], t);
      var last := Restore(s[|s| - 1], front.1);
      (front.0 + [last.0], last.1)
  }

  // ---------------------------------------------------------------------------
  // Vocabulary for the lemmas

  /** The uuids of the objects in `s`. */
  function Uuids(s: seq<Object3D>): set<Uuid>
  {
    set j | 0 <= j < |s| :: s[j].uuid
  }

  /** The uuids of the objects in `s` that the mask pass darkens. */
  function DarkenedUuids(s: seq<Object3D>): set<Uuid>
  {
    set j | 0 <= j < |s| && IsDarkened(s[j]) :: s[j].uuid
  }

  /** No two objects of the scene share a uuid. */
  predicate DistinctUuids(s: seq<Object3D>)
  {
    forall i, j :: 0 <= i < j < |s| ==> s[i].uuid != s[j].uuid
  }

  /** No object before position `j` has the uuid of `s[j]`. */
  predicate FirstWithUuid(s: seq<Object3D>, j: int)
    requires 0 <= j < |s|
  {
    forall i :: 0 <= i < j ==> s[i].uuid != s[j].uuid
  }

  /** `s[j]` is darkened and no darkened object after it has its uuid. */
  predicate LastDarkenedWithUuid(s: seq<Object3D>, j: int)
    requires 0 <= j < |s|
  {
    IsDarkened(s[j]) && forall i :: j < i < |s| && IsDarkened(s[i]) ==> s[i].uuid != s[j].uuid
  }

  /** `o` as the mask pass leaves it. */
  function Masked(o: Object3D): Object3D
  {
    if IsDarkened(o) then o.(material := DARK_MATERIAL) else o
  }

  /** `t` with every truthy entry under one of the uuids `us` removed. */
  function Drained(t: Table, us: set<Uuid>): Table
  {
    map k | k in t && !(Truthy(t[k]) && k in us) :: t[k]
  }

  /**
   The conditions of a clean round trip: the table starts empty, no two
   objects share a uuid, and every object that will be darkened has a
   truthy material.
   */
  predicate RoundTripReady(s: seq<Object3D>, t: Table)
  {
    t == map[] && DistinctUuids(s) && forall j :: 0 <= j < |s| && IsDarkened(s[j]) ==> Truthy(s[j].material)
  }

  // ---------------------------------------------------------------------------
  // What the mask pass does

  /** Every object comes out of the mask pass as `Masked` says, whatever the table holds. */
  lemma {:induction false} DarkenPassObjects(s: seq<Object3D>, t: Table)
    ensures forall j :: 0 <= j < |s| ==> DarkenPass(s, t).0[j] == Masked(s[j])
  {
    if s != [] {
      var n := |s| - 1;
      DarkenPassObjects(s[..n], t);
      forall j | 0 <= j < n
        ensures DarkenPass(s, t).0[j] == Masked(s[j])
      {
        assert s[..n][j] == s[j];
      }
    }
  }

  /**
   The table after the mask pass: the old keys plus one key per darkened
   object; an entry no darkened object touches keeps its value, and the
   entry of a uuid holds the material of the last darkened object with it.
   */
  lemma {:induction false} DarkenPassTable(s: seq<Object3D>, t: Table)
    ensures DarkenPass(s, t).1.Keys == t.Keys + DarkenedUuids(s)
    ensures forall k :: k in t && k !in DarkenedUuids(s) ==> DarkenPass(s, t).1[k] == t[k]
    ensures forall j :: 0 <= j < |s| && LastDarkenedWithUuid(s, j) ==>
      DarkenPass(s, t).1[s[j].uuid] == s[j].material
  {
    if s != [] {
      var n := |s| - 1;
      var front := s[..n];
      DarkenPassTable(front, t);
      assert s == front + [s[n]];
      assert DarkenedUuids(s) == DarkenedUuids(front) + (if IsDarkened(s[n]) then {s[n].uuid} else {}) by {
        forall k | k in DarkenedUuids(s)
          ensures k in DarkenedUuids(front) + (if IsDarkened(s[n]) then {s[n].uuid} else {})
        {
          var j :| 0 <= j < |s| && IsDarkened(s[j]) && s[j].uuid == k;
          if j < n { assert front[j] == s[j]; }
        }
        forall k | k in DarkenedUuids(front)
          ensures k in DarkenedUuids(s)
        {
          var j :| 0 <= j < n && IsDarkened(front[j]) && front[j].uuid == k;
          assert s[j] == front[j];
        }
      }
      forall j | 0 <= j < |s| && LastDarkenedWithUuid(s, j)
        ensures DarkenPass(s, t).1[s[j].uuid] == s[j].material
      {
        if j < n {
          assert front[j] == s[j];
          assert LastDarkenedWithUuid(front, j);
        }
      }
    }
  }

  /**
   The water surface keeps its material whatever the scene holds; when uuids
   are distinct, its table entry is neither added nor changed.
   */
  lemma WaterUntouched(s: seq<Object3D>, t: Table, j: int)
    requires 0 <= j < |s| && s[j].typeName == WATER_TYPE
    ensures DarkenPass(s, t).0[j] == s[j]
    ensures DistinctUuids(s) ==> (s[j].uuid in DarkenPass(s, t).1 <==> s[j].uuid in t)
    ensures DistinctUuids(s) && s[j].uuid in t ==> DarkenPass(s, t).1[s[j].uuid] == t[s[j].uuid]
  {
    DarkenPassObjects(s, t);
    DarkenPassTable(s, t);
  }

  /**
   Non-meshes and meshes that pass the bloom test keep their material
   whatever the scene holds; when uuids are distinct, their table entry is
   neither added nor changed.
   */
  lemma BloomedAndNonMeshUntouched(s: seq<Object3D>, t: Table, j: int)
    requires 0 <= j < |s| && (!s[j].isMesh || IsBloomed(s[j]))
    ensures DarkenPass(s, t).0[j] == s[j]
    ensures DistinctUuids(s) ==> (s[j].uuid in DarkenPass(s, t).1 <==> s[j].uuid in t)
    ensures DistinctUuids(s) && s[j].uuid in t ==> DarkenPass(s, t).1[s[j].uuid] == t[s[j].uuid]
  {
    DarkenPassObjects(s, t);
    DarkenPassTable(s, t);
  }

  /**
   A darkened object ends the mask pass wearing the dark material, and its
   uuid maps to the material it had; uuids being distinct.
   */
  lemma DarkenedObjectSaved(s: seq<Object3D>, t: Table, j: int)
    requires 0 <= j < |s| && IsDarkened(s[j])
    requires DistinctUuids(s)
    ensures DarkenPass(s, t).0[j] == s[j].(material := DARK_MATERIAL)
    ensures s[j].uuid in DarkenPass(s, t).1 && DarkenPass(s, t).1[s[j].uuid] == s[j].material
  {
    DarkenPassObjects(s, t);
    DarkenPassTable(s, t);
    assert LastDarkenedWithUuid(s, j);
  }

  // ---------------------------------------------------------------------------
  // What the restore pass does

  /**
   The table after the restore pass: every truthy entry whose uuid some
   object of the scene carries is gone; nothing else changes.
   */
  lemma {:induction false} RestorePassTable(s: seq<Object3D>, t: Table)
    ensures RestorePass(s, t).1 == Drained(t, Uuids(s))
  {
    if s == [] {
      assert Drained(t, {}) == t;
    } else {
      var n := |s| - 1;
      var front := s[..n];
      RestorePassTable(front, t);
      assert Uuids(s) == Uuids(front) + {s[n].uuid} by {
        forall k | k in Uuids(s) ensures k in Uuids(front) + {s[n].uuid} {
          var j :| 0 <= j < |s| && s[j].uuid == k;
          if j < n { assert front[j] == s[j]; }
        }
        forall k | k in Uuids(front) ensures k in Uuids(s) {
          var j :| 0 <= j < n && front[j].uuid == k;
          assert s[j] == front[j];
        }
      }
    }
  }

  /**
   `s[j]` as the restore pass leaves it: it gets the table's material back
   when the table holds a truthy entry for its uuid and no earlier object
   with the same uuid has already taken that entry; otherwise it is as it was.
   */
  function Restored(s: seq<Object3D>, t: Table, j: int): Object3D
    requires 0 <= j < |s|
  {
    if FirstWithUuid(s, j) && Truthy(Lookup(t, s[j].uuid)) then s[j].(material := t[s[j].uuid]) else s[j]
  }

  /** Looking up a drained table. */
  lemma DrainedLookup(t: Table, us: set<Uuid>, u: Uuid)
    ensures u !in us ==> Lookup(Drained(t, us), u) == Lookup(t, u)
    ensures u in us ==> !Truthy(Lookup(Drained(t, us), u))
  {
  }

  /** Every object comes out of the restore pass as `Restored` says. */
  lemma {:induction false} RestorePassObjects(s: seq<Object3D>, t: Table)
    ensures forall j :: 0 <= j < |s| ==> RestorePass(s, t).0[j] == Restored(s, t, j)
  {
    if s != [] {
      var n := |s| - 1;
      var front := s[..n];
      RestorePassObjects(front, t);
      forall j | 0 <= j < n
        ensures RestorePass(s, t).0[j] == Restored(s, t, j)
      {
        assert front[j] == s[j];
        assert FirstWithUuid(s, j) == FirstWithUuid(front, j) by {
          forall i | 0 <= i < j ensures front[i] == s[i] { }
        }
        assert Restored(s, t, j) == Restored(front, t, j);
      }
      RestorePassLast(s, t);
    }
  }

  /** The last object of the restore pass meets the table that the earlier objects left. */
  lemma RestorePassLast(s: seq<Object3D>, t: Table)
    requires s != []
    ensures RestorePass(s, t).0[|s| - 1] == Restored(s, t, |s| - 1)
  {
    var n := |s| - 1;
    var front := s[..n];
    var u := s[n].uuid;
    RestorePassTable(front, t);
    DrainedLookup(t, Uuids(front), u);
    if FirstWithUuid(s, n) {
      forall i | 0 <= i < n ensures front[i].uuid != u {
        assert front[i] == s[i];
      }
    } else {
      var i :| 0 <= i < n && s[i].uuid == u;
      assert front[i] == s[i];
      assert u in Uuids(front);
    }
  }

  // ---------------------------------------------------------------------------
  // The round trip

  /**
   Mask pass, then restore pass: from an empty table, with distinct uuids and
   truthy materials on every object that is darkened, every object gets its
   own material back and the table ends empty.
   */
  lemma RoundTrip(s: seq<Object3D>, t: Table)
    requires RoundTripReady(s, t)
    ensures var d := DarkenPass(s, t); RestorePass(d.0, d.1) == (s, map[])
  {
    RoundTripObjects(s, t);
    RoundTripTable(s, t);
  }

  /** The mask pass keeps every uuid in its place. */
  lemma MaskKeepsUuids(s: seq<Object3D>, t: Table)
    ensures forall j :: 0 <= j < |s| ==> DarkenPass(s, t).0[j].uuid == s[j].uuid
    ensures Uuids(DarkenPass(s, t).0) == Uuids(s)
  {
    var d := DarkenPass(s, t);
    DarkenPassObjects(s, t);
    forall k | k in Uuids(s) ensures k in Uuids(d.0) {
      var j :| 0 <= j < |s| && s[j].uuid == k;
      assert d.0[j].uuid == k;
    }
  }

  /** The object half of `RoundTrip`. */
  lemma RoundTripObjects(s: seq<Object3D>, t: Table)
    requires RoundTripReady(s, t)
    ensures var d := DarkenPass(s, t); RestorePass(d.0, d.1).0 == s
  {
    var d := DarkenPass(s, t);
    var r := RestorePass(d.0, d.1);
    forall j | 0 <= j < |s|
      ensures r.0[j] == s[j]
    {
      RoundTripAt(s, t, j);
    }
  }

  /** One object of the round trip gets its own material back. */
  lemma RoundTripAt(s: seq<Object3D>, t: Table, j: int)
    requires RoundTripReady(s, t) && 0 <= j < |s|
    ensures var d := DarkenPass(s, t); RestorePass(d.0, d.1).0[j] == s[j]
  {
    var d := DarkenPass(s, t);
    DarkenPassObjects(s, t);
    DarkenPassTable(s, t);
    MaskKeepsUuids(s, t);
    RestorePassObjects(d.0, d.1);
    assert d.0[j] == Masked(s[j]);
    assert FirstWithUuid(d.0, j);
    if IsDarkened(s[j]) {
      assert LastDarkenedWithUuid(s, j);
    } else {
      assert s[j].uuid !in DarkenedUuids(s);
    }
  }

  /** The table half of `RoundTrip`. */
  lemma RoundTripTable(s: seq<Object3D>, t: Table)
    requires RoundTripReady(s, t)
    ensures var d := DarkenPass(s, t); RestorePass(d.0, d.1).1 == map[]
  {
    var d := DarkenPass(s, t);
    DarkenPassTable(s, t);
    MaskKeepsUuids(s, t);
    RestorePassTable(d.0, d.1);
    forall k | k in d.1
      ensures Truthy(d.1[k]) && k in Uuids(d.0)
    {
      var j :| 0 <= j < |s| && IsDarkened(s[j]) && s[j].uuid == k;
      assert LastDarkenedWithUuid(s, j);
    }
    assert Drained(d.1, Uuids(d.0)) == map[];
  }

  /**
   Without distinct uuids the round trip breaks: of two darkened meshes that
   share a uuid, the later one in traversal order keeps the dark material,
   because the earlier one has already taken and deleted the entry.
   */
  lemma SharedUuidStaysDark(s: seq<Object3D>, t: Table, i: int, j: int)
    requires 0 <= i < j < |s| && s[i].uuid == s[j].uuid
    requires IsDarkened(s[i]) && IsDarkened(s[j])
    ensures var d := DarkenPass(s, t); RestorePass(d.0, d.1).0[j].material == DARK_MATERIAL
    ensures var d := DarkenPass(s, t); s[j].material != DARK_MATERIAL ==> RestorePass(d.0, d.1).0 != s
  {
    var d := DarkenPass(s, t);
    DarkenPassObjects(s, t);
    RestorePassObjects(d.0, d.1);
    assert d.0[i].uuid == d.0[j].uuid;
    assert !FirstWithUuid(d.0, j);
  }

  /**
   A darkened mesh whose material was falsy stays dark after the round trip
   and its entry stays in the table, which therefore does not end empty.
   */
  lemma FalsyMaterialStaysDark(s: seq<Object3D>, j: int)
    requires 0 <= j < |s| && IsDarkened(s[j]) && !Truthy(s[j].material)
    requires DistinctUuids(s)
    ensures var d := DarkenPass(s, map[]); var r := RestorePass(d.0, d.1);
      && r.0[j].material == DARK_MATERIAL
      && s[j].uuid in r.1 && r.1[s[j].uuid] == s[j].material
      && r.1 != map[]
  {
    var d := DarkenPass(s, map[]);
    DarkenedObjectSaved(s, map[], j);
    RestorePassObjects(d.0, d.1);
    RestorePassTable(d.0, d.1);
  }

  // ---------------------------------------------------------------------------
  // Objects flagged for bloom

  /** The loaded scene's nodes: `object.layers.enable(BLOOM_SCENE)`. */
  function FlagForBloom(o: Object3D): (r: Object3D)
    ensures r.uuid == o.uuid && r.typeName == o.typeName && r.isMesh == o.isMesh && r.material == o.material
    ensures IsBloomed(r)
    ensures forall c: Channel :: InChannel(r.layers, c) <==> InChannel(o.layers, c) || c == BLOOM_SCENE
  {
    var r := o.(layers := Enable(o.layers, BLOOM_SCENE));
    BloomedIffBloomChannel(r);
    r
  }

  /** A scene made only of objects that pass the bloom test goes through the mask pass unchanged. */
  lemma {:induction false} BloomedSceneNeverDarkened(s: seq<Object3D>, t: Table)
    requires forall j :: 0 <= j < |s| ==> IsBloomed(s[j])
    ensures DarkenPass(s, t) == (s, t)
  {
    if s != [] {
      var n := |s| - 1;
      BloomedSceneNeverDarkened(s[..n], t);
      assert s[..n] + [s[n]] == s;
    }
  }
}
