/**
 * A worked scene: one top-level group "chair_leg" with origin (8, 8, 8) and
 * one 4x16x4 cube pivoted on the group origin, whose north face shows the
 * texture "wood" at a 16x16 resolution.
 */
module Scenarios {
  import opened Wrappers
  import opened Ordered
  import opened Scene
  import opened Geometry
  import opened Faces
  import opened Elements
  import opened Walker
  import opened Assembler

  const WOOD := Texture("u-wood", "wood", "block/wood")

  const NORTH := Face([0.0, 0.0, 4.0, 16.0], 0, Ref("u-wood"), "", -1, true)

  const LEG := Cube("leg", [0.0, 0.0, 0.0], [4.0, 16.0, 4.0], [8.0, 8.0, 8.0], [0.0, 0.0, 0.0], None,
                    0.0, true, false, true, 0, [("north", NORTH)])

  const CHAIR := [Group("chair_leg", [8.0, 8.0, 8.0], [CubeNode(LEG)])]

  const HOST := Host(false, "", true, false, Resolution(16.0, 16.0), [WOOD], map[], [])

  const TAG := OutputFace(Some([0.0, 0.0, 4.0, 16.0]), None, "#wood", None, None)

  const LEG_ELEMENT := Element(Some("leg"), [-8.0, -8.0, -8.0], [-4.0, 8.0, -4.0], None, None, None, None, [("north", TAG)])

  /** At a 16x16 resolution the UV is already in the 16-unit space, and the face names its texture by id. */
  lemma NorthTag()
    ensures FaceOutput(NORTH, HOST) == Some(TAG)
  {
    assert GetTexture(HOST.textures, "u-wood") == Some(WOOD);
    var uv := ScaleUv(NORTH.uv, HOST.resolution);
    assert uv[0] == 0.0 && uv[1] == 0.0 && uv[2] == 4.0 && uv[3] == 16.0;
    assert uv == [0.0, 0.0, 4.0, 16.0];
    assert "#" + WOOD.id == "#wood";
  }

  lemma LegFaces()
    ensures FacesOutput(LEG.faces, HOST) == [("north", TAG)]
    ensures UsedTextures(LEG.faces, HOST.textures) == [WOOD]
    ensures HasTextureRef(LEG.faces)
  {
    NorthTag();
    assert LEG.faces[..0] == [];
    assert GetTexture(HOST.textures, "u-wood") == Some(WOOD);
    assert LEG.faces[0].1.texture.Ref?;
  }

  /** The leg's corners re-centred on the group origin; its pivot is that origin, so there is no rotation. */
  lemma LegGeometry()
    ensures ElementFrom(LEG, [8.0, 8.0, 8.0]) == [-8.0, -8.0, -8.0]
    ensures ElementTo(LEG, [8.0, 8.0, 8.0]) == [-4.0, 8.0, -4.0]
    ensures Descriptor(LEG, Pivot(LEG, [8.0, 8.0, 8.0])) == None
    ensures Rotated(LEG) == None
  {
    assert Pivot(LEG, [8.0, 8.0, 8.0]) == [0.0, 0.0, 0.0];
    assert PositiveItems(LEG.rotation) == 0;
  }

  /** The leg's element: re-centred corners, no rotation, and the north face with its UV unchanged at 16x16. */
  lemma LegElement()
    ensures CubeElement(LEG, [8.0, 8.0, 8.0], HOST, NO_OPTIONS) == Some(LEG_ELEMENT)
  {
    LegFaces();
    LegGeometry();
  }

  /** Walking a group that holds one cube adds that cube's contribution to the empty component. */
  lemma LegWalk()
    ensures Walk(EMPTY, [CubeNode(LEG)], [8.0, 8.0, 8.0], HOST, NO_OPTIONS) == Add(EMPTY, Contribute(LEG, [8.0, 8.0, 8.0], HOST, NO_OPTIONS))
  {
    assert [CubeNode(LEG)][1..] == [];
  }

  /** Adding one element and one texture to the empty component. */
  lemma AddToEmpty(e: Element, t: Texture)
    ensures Add(EMPTY, Contribution(Some(e), [t])) == Lists([e], [t])
  {
    var none: seq<Texture> := [];
    assert [t][..0] == none;
    assert PushAll(none, none) == none;
    assert SafePush(none, t) == [t];
  }

  /** The chair_leg group's component: the leg's element and the wood texture. */
  lemma LegComponent()
    ensures Walk(EMPTY, [CubeNode(LEG)], [8.0, 8.0, 8.0], HOST, NO_OPTIONS) == Lists([LEG_ELEMENT], [WOOD])
  {
    LegWalk();
    assert Contribute(LEG, [8.0, 8.0, 8.0], HOST, NO_OPTIONS) == Contribution(Some(LEG_ELEMENT), [WOOD]) by {
      LegElement();
      LegFaces();
    }
    AddToEmpty(LEG_ELEMENT, WOOD);
  }

  lemma ChairComponents()
    ensures Components(CHAIR, HOST, NO_OPTIONS) == [("chair_leg", Lists([LEG_ELEMENT], [WOOD]))]
  {
    LegComponent();
    assert CHAIR[..0] == [];
  }

  /** With no options set: no credit, ambient occlusion left on, no GUI light and no display; the textures map and the element. */
  lemma ChairDocument()
    ensures Assemble("chair_leg", Lists([LEG_ELEMENT], [WOOD]), HOST, NO_OPTIONS) ==
      Document(None, None, Some([("wood", "block/wood")]), Some([LEG_ELEMENT]), None, None)
  {
    assert TextureMap(HOST.textures, [WOOD], false) == [("wood", "block/wood")] by {
      assert HOST.textures[..0] == [];
      assert StripHash("block/wood") == "block/wood";
    }
    assert DisplayMap(HOST.displaySlots, HOST.displaySettings) == [];
  }

  /** Compiling the chair leg gives one block model, keyed "chair_leg", holding that one element and the wood texture. */
  lemma ChairLeg(hook: Document -> Document)
    ensures CompileSpec(CHAIR, HOST, NO_OPTIONS, hook) ==
      [("chair_leg", hook(Document(None, None, Some([("wood", "block/wood")]), Some([LEG_ELEMENT]), None, None)))]
  {
    var comp := Lists([LEG_ELEMENT], [WOOD]);
    var components := [("chair_leg", comp)];
    ChairComponents();
    ChairDocument();
    var model := hook(Assemble("chair_leg", comp, HOST, NO_OPTIONS));
    var none: Entries<Document> := [];
    assert components[..0] == [];
    assert Documents(components, HOST, NO_OPTIONS, hook) == Put(none, "chair_leg", model);
    assert IndexOf(none, "chair_leg").None?;
  }
}
