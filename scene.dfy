/**
 * The scene the block-model compiler reads and the documents it writes
 * (carpenter.js:174-374). The scene is read-only input; the host's globals
 * (settings, project flags, the texture list, the UV editor's resolution and
 * the display settings) arrive as one explicit `Host` snapshot.
 */
module Scene {
  import opened Wrappers
  import opened Ordered

  type Vec3 = v: seq<real> | |v| == 3 witness [0.0, 0.0, 0.0]

  type Positive = r: real | r > 0.0 witness 1.0

  datatype Axis = X | Y | Z {
    function Index(): nat {
      match this
      case X => 0
      case Y => 1
      case Z => 2
    }
  }

  /**
   * A face's texture slot: `null` is the explicit "no face" marker, Blank an
   * unset (falsy) slot, Ref the (non-empty) uuid of a texture.
   */
  datatype FaceTexture = Null | Blank | Ref(uuid: string)

  /** A cube face; a cullface of "" means none, a tint below 0 means none. */
  datatype Face = Face(uv: seq<real>, rotation: int, texture: FaceTexture, cullface: string, tint: int, enabled: bool)

  /** A cube of the outliner, with its faces keyed by direction in the order they are stored. */
  datatype Cube = Cube(
    name: string,
    from: Vec3,
    to: Vec3,
    origin: Vec3,
    rotation: Vec3,
    rotationAxis: Option<Axis>,
    inflate: real,
    shade: bool,
    rescale: bool,
    exported: bool,  // the cube's `export` flag
    color: int,
    faces: Entries<Face>)

  /** An outliner node: a group owns its children in order. */
  datatype Node = Group(name: string, origin: Vec3, children: seq<Node>) | CubeNode(cube: Cube)

  /** A texture of the project, with its `javaTextureLink()` precomputed. */
  datatype Texture = Texture(uuid: string, id: string, link: string)

  /** What a display slot's `export()` returns. */
  datatype DisplayData = DisplayData(rotation: Vec3, translation: Vec3, scale: Vec3)

  /** An entry of `Project.display_settings`: whether it has an `export` method, and what that returns. */
  datatype DisplaySetting = DisplaySetting(exportable: bool, data: DisplayData)

  /** `UVEditor.getResolution(axis)`: 0 is the width, 1 the height. */
  datatype Resolution = Resolution(width: Positive, height: Positive) {
    function Of(axis: nat): Positive {
      if axis == 0 then width else height
    }
  }

  /** The host globals the compiler reads. */
  datatype Host = Host(
    minifiedOut: bool,                              // settings.minifiedout.value
    credit: string,                                 // settings.credit.value
    ambientOcclusion: bool,                         // Project.ambientocclusion
    frontGuiLight: bool,                            // Project.front_gui_light
    resolution: Resolution,                         // UVEditor.getResolution
    textures: seq<Texture>,                         // Texture.all
    displaySettings: map<string, DisplaySetting>,   // Project.display_settings
    displaySlots: seq<string>)                      // DisplayMode.slots

  /** The compile options; None is an option left undefined. */
  datatype Options = Options(
    cubeName: Option<bool>,
    comment: Option<bool>,
    ambientOcclusion: Option<bool>,
    textures: Option<bool>,
    elements: Option<bool>,
    frontGuiLight: Option<bool>,
    display: Option<bool>,
    itemModel: Option<string>)

  const NO_OPTIONS := Options(None, None, None, None, None, None, None, None)

  datatype OutputFace = OutputFace(
    uv: Option<seq<real>>,
    rotation: Option<int>,
    texture: string,
    cullface: Option<string>,
    tintIndex: Option<int>)

  /** An element's rotation; `rescale` false stands for the key being absent. */
  datatype Rotation = Rotation(angle: real, axis: Axis, origin: Vec3, rescale: bool)

  datatype Element = Element(
    name: Option<string>,
    from: Vec3,
    to: Vec3,
    shade: Option<bool>,
    rotation: Option<Rotation>,
    rotated: Option<Vec3>,
    color: Option<int>,
    faces: Entries<OutputFace>)

  /** One group's block model. */
  datatype Document = Document(
    credit: Option<string>,
    ambientOcclusion: Option<bool>,
    textures: Option<Entries<string>>,
    elements: Option<seq<Element>>,
    guiLight: Option<string>,
    display: Option<Entries<DisplayData>>)
}
