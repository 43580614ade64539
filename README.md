# Carpenter block-model compiler, in Dafny

Carpenter is a Blockbench plugin for building furniture models for Minecraft:
Java Edition. This project models its two computational parts:

- **The cube size limiter** (`cube_size_limiter` in `carpenter.js`). It checks
  whether a cube, grown by its `inflate`, leaves the coordinate domain
  `[-16, 32]` on some axis (`test`). It can also bring such a cube back in,
  either by shifting it (`move`) or by cutting it (`clamp`).
- **The block-model compiler** (`compile` in `carpenter.js`). Each top-level
  group of the outliner becomes one *component*. `iterate` walks the group's
  subtree and `computeCube` turns each exported cube into a Java block-model
  element:
  - inflated corners re-centred on the group's origin;
  - an optional single-axis rotation descriptor;
  - per-face tags with UVs scaled into the 16-unit space;
  - the textures the faces use, collected once each.

  Each component is then assembled into a block-model document. The
  `textures` map, `elements`, `credit`, `ambientocclusion`, `gui_light` and
  `display` are each written by an explicit option or by a default condition
  (`checkExport`). Finally the document is offered to `compile` listeners.

The model is organised as follows:

| module | role |
|---|---|
| `Limiter` (`limiter.dfy`) | The limiter. `Cube` is a class whose corner arrays `move` and `clamp` update in place. `Move` and `Clamp` are loops over the three axes, proved against the per-axis functions `MoveAxis` and `ClampAxis`. |
| `Ordered` (`ordered.dfy`) | JavaScript objects that are filled by `obj[key] = value`, as sequences of key/value pairs. The first assignment fixes a key's position and later ones replace the value in place. |
| `Scene` (`scene.dfy`) | The outliner (groups and cubes), the project textures, and the host state the compiler reads: settings, `Project`, `UVEditor`, `DisplayMode`. The output block-model document. |
| `Geometry` (`geometry.dfy`) | Corner re-centring and the rotation descriptor. |
| `Faces` (`faces.dfy`) | Face tags, UV scaling, texture lookup, and the per-cube faces object. |
| `Elements` (`elements.dfy`) | One cube's element: the specification of `computeCube`. |
| `Walker` (`walker.dfy`) | The imperative `computeCube`/`iterate` over a mutable `Component` (class with `elements` and `textures`), proved against the functional `Walk`. `Walk` is in turn characterised as a fold over the cubes in depth-first order. |
| `Assembler` (`assembler.dfy`) | `checkExport`, the textures map, the display map, the document, and the whole `compile` loop (`Compile`, proved equal to `CompileSpec`). |
| `Scenarios` (`scenarios.dfy`) | A one-group, one-cube chair leg, compiled end to end. |

Host globals become explicit parameters:

- The `Host` record carries `settings.minifiedout`, `settings.credit`,
  `Project.ambientocclusion`, `Project.front_gui_light`, the UV editor
  resolution, `Texture.all`, `Project.display_settings` and
  `DisplayMode.slots`.
- `dispatchEvent('compile', …)` becomes a `hook: Document -> Document`
  parameter, applied to each document before it is stored.

Coordinates and UVs are `real`.

Behaviour of the code worth noting:

- **`element_has_texture`** is set for any face with a truthy texture
  reference (`carpenter.js:252-259`), even one that does not resolve to a
  project texture. The element's `color` is therefore dropped as soon as a
  face has any texture reference.
- **A disabled face** is still written, without `uv`
  (`carpenter.js:241-248`). Only a `null` texture suppresses a face.
- **UV scaling** uses the UV editor's one global resolution
  (`carpenter.js:246`), not a per-texture size.
- **`rotated`** is written when at least two rotation components are
  strictly positive (`carpenter.js:234`). Negative angles do not count.
- **A group with no elements** (`isTexturesOnlyModel`, `carpenter.js:327-335`)
  draws its `textures` map from every project texture, not from the ones the
  group uses. A component with no elements writes no `textures` key only
  when every project texture's link equals its id
  (`Assembler.TexturesOnlyModel`).

## Model

| member | source | states |
|---|---|---|
| Limiter.Cube.constructor | carpenter.js:447-449 | A cube holds the corner arrays and the inflate that `test`, `move` and `clamp` fall back to. |
| Limiter.FromOf | carpenter.js:447 | (definition, no contract) `values.from` when given, otherwise the cube's `from` array. |
| Limiter.ToOf | carpenter.js:448 | (definition, no contract) `values.to` when given, otherwise the cube's `to` array. |
| Limiter.InflateOf | carpenter.js:449 | (definition, no contract) `values.inflate` when defined (zero included), otherwise the cube's inflate. |
| Limiter.Outside | carpenter.js:452-457 | (definition, no contract) The `find` predicate on one axis: `to + inflate` above 32 or below -16, or `from - inflate` above 32 or below -16. |
| Limiter.FindOutside | carpenter.js:451-458 | `from.find(...)`: returns the index of the first axis from `i` on whose inflated edges leave `[-16, 32]`. `find` itself returns that axis's `from` value, but `test` only checks `undefined !==`, and the result is defined exactly when such an index exists. Every axis before it is inside, and it returns none iff every axis is inside. |
| Limiter.Test | carpenter.js:446-459 | `test` is true iff some axis of the resolved corners, grown by the resolved inflate, has an edge above 32 or below -16. Explicit `values` take precedence over the cube's fields. |
| Limiter.TestIgnoresOverriddenCube | carpenter.js:447-449 | When corners and inflate are all given explicitly, the cube passed in plays no part in `test`. |
| Limiter.MoveAxis | carpenter.js:465-486 | On one axis: a box already inside is unchanged. A box over the top is shifted so its inflated top edge is exactly 32. A box under the bottom is shifted so its inflated bottom edge is exactly -16. The size is kept iff the inflated box fits the domain; otherwise the box ends up spanning exactly the domain. A well-formed box then passes the test. |
| Limiter.MoveAxisIdempotent | carpenter.js:465-486 | Moving a well-formed box twice is the same as moving it once. |
| Limiter.ClampTo | carpenter.js:494-495 | (definition, no contract) `Math.clamp(x, lo, hi)`: `lo` below the range, `hi` above it, `x` otherwise. |
| Limiter.ClampAxis | carpenter.js:493-496 | On one axis: the result is always inside the domain, a box already inside is unchanged, and a box whose inflated edges are in order (`from - inflate <= to + inflate`) is never made larger. |
| Limiter.ClampAxisIdempotent | carpenter.js:493-496 | Clamping twice is the same as clamping once. |
| Limiter.Move | carpenter.js:460-487 | `move` updates the resolved arrays in place, each axis as `MoveAxis` says. Afterwards `test` is false for any well-formed box with non-negative inflate. |
| Limiter.Clamp | carpenter.js:488-497 | `clamp` updates the resolved arrays in place, each axis as `ClampAxis` says. Afterwards `test` is false for every input. |
| Ordered.Keys | carpenter.js:324 | `for (key in …)` and `Object.keys` visit each entry's key, in entry order; the order lemmas below state the key order of the result through it. |
| Ordered.IndexFrom | carpenter.js:324 | Returns the first position at or after `i` holding the key. None is returned iff no later entry has the key. |
| Ordered.IndexOf | carpenter.js:324 | Returns the first position of a key, or none iff the object lacks the key. |
| Ordered.Get | carpenter.js:325 | `obj[key]` is defined iff the key is present, and then it is a value stored under that key. |
| Ordered.IndexOfPrefix | carpenter.js:324 | Entries added after a prefix, under other keys, do not move a key's position. |
| Ordered.AssignedKeyLaws | carpenter.js:269 | Assignment as implemented (replace at the first position or append) reads back the assigned value and leaves every other key's value alone. |
| Ordered.Put | carpenter.js:269 | `obj[k] = v`: afterwards `obj[k]` is `v`, every other key reads as before, and keys stay distinct. |
| Ordered.PutHasKey | carpenter.js:307 | After `obj[k] = v` the keys are the old ones plus `k`. |
| Ordered.PutKeys | carpenter.js:333 | An assignment to a new key appends it to the key order; an assignment to an existing key keeps the order. |
| Ordered.GetAppend | carpenter.js:371 | Reading an object extended by one entry: earlier keys win, then the new entry. |
| Ordered.KeysSnoc | carpenter.js:371 | An object grown by one entry at its end lists that entry's key last. |
| Ordered.FirstOccurrences | carpenter.js:307 | The keys of a sequence in the order each first occurs, each once: exactly the keys of the sequence, with no repeats. |
| Ordered.FirstOccurrencesOfDistinct | carpenter.js:371 | Keys that never repeat keep every place. |
| Ordered.PutAppendsKey | carpenter.js:307 | Assigning one more key to an object whose keys are the first occurrences of `ks` gives the first occurrences of `ks + [k]`: a new key goes last, a known key keeps its place. |
| Geometry.RecentredCoordinates | carpenter.js:194-209 | Each element corner is the cube's corner grown by `inflate` minus the group origin. The pivot is the cube's origin minus the group origin. |
| Geometry.RecentringIsTranslationInvariant | carpenter.js:194-209 | Translating a cube and its group by the same vector leaves the re-centred corners and pivot unchanged. |
| Geometry.Sub | carpenter.js:178-182 | (definition, no contract) `offsetVec`: each coordinate minus the origin's. |
| Geometry.Shift | carpenter.js:196-201 | (definition, no contract) Each coordinate moved by the same amount, as the inflate loop does. |
| Geometry.ElementFrom | carpenter.js:194-205 | (definition, no contract) `element.from`: the cube's `from`, lowered by `inflate` when it is non-zero, then re-centred on the group origin; `Geometry.RecentredCoordinates` states it per axis. |
| Geometry.ElementTo | carpenter.js:194-205 | (definition, no contract) `element.to`: the cube's `to`, raised by `inflate` when it is non-zero, then re-centred. |
| Geometry.Pivot | carpenter.js:208-209 | (definition, no contract) `cubeOrigin`: the cube's origin re-centred on the group origin. |
| Geometry.AllZero | carpenter.js:214 | (definition, no contract) `allEqual(0)`: every component is zero. |
| Geometry.FirstRotatedAxis | carpenter.js:215 | Returns the first axis with a non-zero angle, or none iff all angles are zero. |
| Geometry.RotationAxisOf | carpenter.js:215 | (definition, no contract) `rotationAxis()`: the first rotated axis, otherwise the stored `rotation_axis`; the caller falls back to `y` when neither is set. |
| Geometry.Descriptor | carpenter.js:214-233 | A rotation descriptor is written iff the cube is rotated, pivoted off the group origin, or rescaled. Its origin is the pivot and its rescale the cube's. Its angle is the cube's angle on the chosen axis, which is the first rotated axis when there is one. A zero-angle descriptor uses the stored axis or `y`. |
| Geometry.PositiveItems | carpenter.js:234 | (definition, no contract) `positiveItems()`: how many components are strictly positive; `Geometry.Rotated` states the `>= 2` test through it. |
| Geometry.Rotated | carpenter.js:234-236 | `rotated` is the cube's rotation, present iff at least two components are strictly positive. |
| Faces.ScaleUv | carpenter.js:244-247 | Each UV coordinate keeps its fraction of the atlas axis it measures (width for even indices, height for odd), rescaled to 16. |
| Faces.UnscaleUv | carpenter.js:244-247 | The inverse scaling preserves length. |
| Faces.ScaleCancels | carpenter.js:246 | One coordinate scaled by `16 / w` and back (or the other way round) is unchanged, for any positive resolution `w`. |
| Faces.UvRoundTrip | carpenter.js:244-247 | Scaling and unscaling are mutual inverses. |
| Faces.GetTexture | carpenter.js:253 | `getTexture()` returns a project texture with the face's uuid. It returns none iff no project texture has that uuid. |
| Faces.ResolvedTexture | carpenter.js:252-254 | (definition, no contract) Only a set texture slot is looked up, with `getTexture()`; a blank slot or a failed lookup gives nothing. |
| Faces.FaceOutput | carpenter.js:241-270 | A face gets a tag iff its texture is not `null`. |
| Faces.FaceTag | carpenter.js:242-268 | The tag has: `uv` iff the face is enabled, scaled; `rotation` iff non-zero; `cullface` iff non-empty; `tintindex` iff the tint is ≥ 0. Its texture is `#` plus the id of a project texture with the face's uuid, or `#missing` when none resolves. |
| Faces.FacesOutput | carpenter.js:238-272 | The faces object has distinct keys. |
| Faces.HasWrittenFaceAppend | carpenter.js:239-272 | A face key is written by a longer face list iff it was written by the prefix or by the new face. |
| Faces.FacesWritten | carpenter.js:239-272 | The faces object has key `k` iff the cube has a face `k` whose texture is not `null`. |
| Faces.FacesMatchInput | carpenter.js:239-272 | For distinct face keys, each written tag is the tag of the face with that key. |
| Faces.NoFacesWritten | carpenter.js:279-282 | The faces object is empty iff every face's texture is `null`. |
| Faces.HasTextureRef | carpenter.js:252-258 | (definition, no contract) `element_has_texture`: some face has a set texture slot, whether or not it resolves. |
| Faces.SafePush | carpenter.js:256 | (definition, no contract) `safePush`: append unless already listed; `Faces.PushAll` states its laws. |
| Faces.UsedTextures | carpenter.js:252-257 | A texture is collected iff some face resolves to it. |
| Faces.PushAll | carpenter.js:256 | Repeated `safePush` yields exactly the old and new textures, keeps earlier ones at their places, and keeps the list free of duplicates. |
| Elements.ElementName | carpenter.js:189-193 | The name is written iff the cube is not named `cube` and either the `cube_name` option is true, or it is unset and output is not minified. The value is the cube's name. |
| Elements.NamesWritten | carpenter.js:189 | (definition, no contract) The naming condition: `cube_name` not false and output not minified, or `cube_name` true. |
| Elements.CubeElement | carpenter.js:184-283 | An element is pushed iff the cube is exported and some face's texture is not `null`. `color` is written iff no face has a texture reference, and its value is the cube's colour. `shade` is written only as `false`, iff the cube is unshaded. |
| Elements.CubeTextures | carpenter.js:185-257 | (definition, no contract) The textures `computeCube` safe-pushes: none for an unexported cube, else each face's resolved texture in face order. |
| Elements.ElementGeometry | carpenter.js:194-232 | The element's corners and rotation origin are the cube's, inflated and re-centred on the group origin. |
| Elements.AtRestHasNoDescriptor | carpenter.js:214-233 | An unrotated, unrescaled cube pivoted on its group origin gets no rotation. |
| Elements.ElementTranslationInvariant | carpenter.js:184-283 | Moving a cube together with its group yields the same element. |
| Walker.Component.constructor | carpenter.js:302-306 | A fresh component has no elements and no textures. |
| Walker.OffsetVec | carpenter.js:178-182 | `offsetVec` subtracts the origin from the vector in place. |
| Walker.ScaleUvInPlace | carpenter.js:244-247 | The in-place `forEach` rescaling computes `ScaleUv`. |
| Walker.ResolveFace | carpenter.js:242-268 | Builds the face tag as `FaceOutput` says. It pushes the resolved texture, if any, onto the component once, and leaves the elements alone. |
| Walker.CopyVec | carpenter.js:194-195 | `slice()` yields a fresh array with the same contents. |
| Walker.InflateInPlace | carpenter.js:196-201 | Growing by `inflate` lowers each `from` and raises each `to` by it. |
| Walker.Corners | carpenter.js:194-209 | The corners and pivot computed in place equal the functional re-centring. |
| Walker.BuildRotation | carpenter.js:214-233 | The rotation built by the two `if`s equals `Descriptor`. |
| Walker.HasTextureRefSnoc | carpenter.js:252-259 | `element_has_texture` after one more face is the old flag or that face's reference. |
| Walker.FacesOutputSnoc | carpenter.js:269 | The faces object after one more face is the old one with that face's tag assigned, if it has one. |
| Walker.PushUsedSnoc | carpenter.js:256 | The texture list after one more face is the old one with that face's texture safe-pushed, if it resolves. |
| Walker.FaceLoopStep | carpenter.js:239-272 | One turn of the face loop keeps the three loop facts: the faces object, the texture flag and the texture list each equal their specification on the faces seen so far. |
| Walker.WriteFace | carpenter.js:240-270 | One face: assigns its tag if its texture is not `null`, updates `element_has_texture`, safe-pushes its resolved texture. |
| Walker.WriteFaces | carpenter.js:237-272 | The face loop yields exactly `FacesOutput` and `HasTextureRef`, and appends exactly the used textures to the component. |
| Walker.ComputeCube | carpenter.js:184-283 | `computeCube` appends the cube's element (if any) to the component, and its used textures, each once. |
| Walker.Iterate | carpenter.js:285-297 | `iterate` updates the component exactly as `Walk` does on the subtree. |
| Walker.Contribute | carpenter.js:184-283 | (definition, no contract) What `computeCube` adds for one cube: its element, if any, and the textures it safe-pushes. |
| Walker.Add | carpenter.js:256-281 | (definition, no contract) Adding a contribution: push the element, safe-push each texture in turn. |
| Walker.Walk | carpenter.js:285-297 | (definition, no contract) `iterate`: nodes left to right, a cube adds its contribution, a group is walked in place with the top-level group's origin; `Walker.WalkIsFold` and `Walker.GroupContents` state what it yields. |
| Walker.Cubes | carpenter.js:290-296 | (definition, no contract) The cubes under a node list in the order `iterate` visits them: depth first, children in stored order. |
| Walker.Contributions | carpenter.js:290-296 | There is one contribution per cube. |
| Walker.ContributionAt | carpenter.js:290-296 | The i-th contribution is the i-th cube's. |
| Walker.ContributionsAppend | carpenter.js:290-296 | Contributions distribute over concatenation. |
| Walker.FoldAppend | carpenter.js:290-296 | Folding a concatenation is folding the parts in turn. |
| Walker.WalkIsFold | carpenter.js:285-297 | The recursive walk equals a fold over the subtree's cubes in depth-first order. Groups nested in a component only flatten. |
| Walker.EmittedElements | carpenter.js:279-282 | An element is emitted iff some contribution carries it. |
| Walker.FoldElements | carpenter.js:281 | Folding only appends elements, in order. |
| Walker.FoldKeepsTexturesDistinct | carpenter.js:256 | A component's texture list never holds a texture twice. |
| Walker.FoldTextures | carpenter.js:256 | A texture is in the folded list iff it was there before or some contribution registers it. |
| Walker.GroupContents | carpenter.js:285-310 | A group's component elements are the exported cubes' elements in depth-first order. Its textures are exactly the textures its cubes use, without duplicates. |
| Assembler.CheckExport | carpenter.js:312-319 | An explicit option decides. When it is absent, the default condition does. |
| Assembler.StripHash | carpenter.js:332 | `link.replace(/^#/, '')` removes one leading `#` and nothing else. |
| Assembler.Listed | carpenter.js:331-332 | (definition, no contract) A texture is listed when the component uses it (or has no elements) and its id differs from its link without the leading `#`. |
| Assembler.TextureMap | carpenter.js:328-335 | The textures map has distinct keys. |
| Assembler.ListsIdSnoc | carpenter.js:329-335 | An id is listed by a longer texture list iff it is listed by the prefix or by the last texture. |
| Assembler.TextureMapKeys | carpenter.js:329-335 | The map has key `id` iff some project texture has that id, is used by the component (or the model has no elements), and has a link that differs from its id. |
| Assembler.TextureMapValue | carpenter.js:333 | For an id, the value is the link of the last listed texture with it. |
| Assembler.ListedIds | carpenter.js:329-335 | (definition, no contract) The ids of the listed textures in project order, repeats included. |
| Assembler.TextureMapOrder | carpenter.js:329-335 | The textures map's keys are the listed ids in the order their first texture appears in `Texture.all`, each once. |
| Assembler.BuildTextures | carpenter.js:328-335 | The `forEach` with its early `return` builds exactly `TextureMap`. |
| Assembler.DisplayMap | carpenter.js:354-362 | The display map has distinct keys. |
| Assembler.Exports | carpenter.js:358 | (definition, no contract) The slot has a display setting and that setting can export. |
| Assembler.ExportingSlots | carpenter.js:356-361 | (definition, no contract) The exporting slots in `DisplayMode.slots` order, repeats included. |
| Assembler.DisplayMapOrder | carpenter.js:356-361 | The display map's keys are the exporting slots in slot order, each once. |
| Assembler.DisplayMapEntries | carpenter.js:356-361 | A slot is in the display map iff it is a display slot whose setting exists and exports. Its value is that setting's exported data. |
| Assembler.BuildDisplay | carpenter.js:354-362 | The loop builds exactly `DisplayMap`, and its `entries` counter is non-zero iff the map is non-empty. |
| Assembler.Assemble | carpenter.js:337-366 | `credit`, when written, is the credit setting; `ambientocclusion` is only ever `false` and `gui_light` only `front`. `elements` are the component's. `display` is never empty and is written only when the option or the item-model rule asks for it. |
| Assembler.ExplicitOptionsWin | carpenter.js:338-353 | Each explicit option turns its field on or off, whatever the project says. An explicit `display: false` suppresses display. |
| Assembler.DefaultFields | carpenter.js:338-366 | With no options: `credit` iff the credit setting is non-empty; `ambientocclusion` iff it is off in the project; `textures` iff some texture is listed; `elements` iff there are any; `gui_light` iff front lighting is on; `display` iff display settings exist, the key is the item model, and some slot exports. |
| Assembler.TexturesOnlyModel | carpenter.js:327-347 | A component without elements writes no `elements`. Its textures map lists every project texture whose link differs from its id. If there is none, no `textures` is written. |
| Assembler.AssembleDocument | carpenter.js:337-366 | The imperative assembly builds exactly `Assemble`. |
| Assembler.Components | carpenter.js:299-310 | The components object has distinct keys. |
| Assembler.GroupNamedSnoc | carpenter.js:300-310 | A name belongs to a group of a longer root list iff it names a group of the prefix or the last node is a group with that name. |
| Assembler.ComponentsKeys | carpenter.js:299-310 | There is a component for a name iff a top-level group has that name. Top-level cubes are ignored. |
| Assembler.ComponentsValue | carpenter.js:302-308 | A name's component is the walk of the last top-level group with that name. |
| Assembler.GroupNames | carpenter.js:300-307 | (definition, no contract) The top-level group names in `Outliner.root` order, repeats included. |
| Assembler.ComponentsOrder | carpenter.js:300-307 | The components are keyed by the top-level group names in the order each name first occurs; a repeated name keeps its first place. |
| Assembler.BuildComponents | carpenter.js:299-310 | The loop over the root, with a fresh component per group, builds exactly `Components`. |
| Assembler.Documents | carpenter.js:323-372 | The output object has distinct keys. |
| Assembler.DocumentsMatch | carpenter.js:324-371 | For each key, the output is the hook applied to the document assembled from that key's component, and nothing else is output. |
| Assembler.DocumentsKeys | carpenter.js:324-371 | `blockmodels` gets the component keys in the order of `components`, each once. |
| Assembler.DocumentsOrder | carpenter.js:324-371 | With distinct component keys, `blockmodels` has exactly the keys of `components` in the same order. |
| Assembler.CompileSpec | carpenter.js:174-374 | (definition, no contract) What `compile` returns: the block models built from the components; `Assembler.CompileResult` states its keys, their order and each value. |
| Assembler.CompileResult | carpenter.js:174-374 | `compile` returns one document per top-level group name, keyed in the order each name first occurs among the top-level groups. It is the hook applied to the assembly of the last group with that name, walked from its own origin. |
| Assembler.Compile | carpenter.js:323-373 | The imperative `compile` loop returns exactly `CompileSpec`. |
| Scenarios.NorthTag | carpenter.js:242-269 | An enabled north face on a 16×16 atlas keeps its UV, and its texture reads `#wood`. |
| Scenarios.LegFaces | carpenter.js:237-272 | The leg's faces object is that single tag. Its textures are the wood texture, and it has a texture reference. |
| Scenarios.LegGeometry | carpenter.js:194-233 | The leg from (0,0,0) to (4,16,4) in a group at (8,8,8) becomes (-8,-8,-8)..(-4,8,-4) with no rotation. |
| Scenarios.LegElement | carpenter.js:184-283 | The leg's element is named `leg`, has no colour, and has the north tag. |
| Scenarios.LegWalk | carpenter.js:290-292 | Walking a list holding one cube adds exactly that cube's contribution to the empty component. |
| Scenarios.AddToEmpty | carpenter.js:256-281 | Pushing one element and safe-pushing one texture onto an empty component gives exactly those. |
| Scenarios.LegComponent | carpenter.js:285-297 | The chair-leg group's component is that element with the wood texture. |
| Scenarios.ChairComponents | carpenter.js:299-310 | The chair has exactly one component, `chair_leg`. |
| Scenarios.ChairDocument | carpenter.js:327-366 | Under default options, with ambient occlusion on, the document has only `textures` (`wood` → `block/wood`) and `elements`. |
| Scenarios.ChairLeg | carpenter.js:174-374 | Compiling the chair yields exactly `chair_leg` mapped to the hooked document. |

## Left out

- The plugin plumbing is not modelled: registration, actions, the export dialog, project properties and the `compile`/`parse` listeners (`carpenter.js:1-173`). They are UI and host wiring.
- `write` and `export` (`carpenter.js:375-414`) are file I/O and dialogs and are not modelled.
- The model format's render flags (`carpenter.js:417-443, 499-503`) are declarations for the editor, not computation, and are not modelled.
- `console.log(options)` (`carpenter.js:321`) is output only and is not modelled.
- `dispatchEvent('compile', …)` calls into unseen listeners. The model abstracts it as a pure `hook` on the document; listeners with other side effects are not modelled.
- Helpers defined outside this file are modelled by the behaviour their names and uses imply:
  - `rotationAxis()` returns the first axis with a non-zero angle, else the stored axis;
  - `positiveItems()` counts entries > 0;
  - `allEqual(0)` holds iff all entries are zero;
  - `getTexture()` returns the first project texture with the face's uuid;
  - `safePush` appends only when absent;
  - `Math.clamp` clamps to `[lo, hi]`;
  - `javaTextureLink()` is a per-texture value `link`.
  - `DisplayMode.slots` is a given list of slot names;
  - `Project.display_settings[slot].export()` is one fixed value per slot, computed ahead of the compile.
- The shape of a display slot's exported data (rotation, translation, scale in `Scene.DisplayData`) is assumed. The compiler only copies that value into the `display` map and never inspects it.
- Texture identity (`includes`, `safePush`) is modelled as equality of texture records, not object identity.
- Floating-point rounding is not modelled: coordinates, UVs and angles are exact `real`s.
- Limiter.Move: the source lets `values.from` and `values.to` be the same array. The model requires the two resolved arrays to be distinct, because aliasing them makes the per-axis result order-dependent.
- Limiter.Clamp: requires distinct resolved arrays, for the same reason.
- Limiter.Move: the well-formedness conclusion (`test` false afterwards) is stated only for boxes with `from ≤ to` and non-negative inflate, because an inverted box can remain outside after the shift.
- Outliner nodes other than groups and cubes are not modelled; `iterate` ignores them. A missing `children` array is modelled as an empty one.
- JavaScript's ordering of integer-like object keys before other keys is not modelled: keys keep insertion order.
- Components are stored as values after their walk completes, not as shared mutable objects. Nothing in `compile` mutates a component after its walk.
- Face keys are iterated in the face object's own order, and `hasOwnProperty` is assumed to hold for all of them. Inherited keys are not modelled.
- Faces.FacesOutput: states only distinct keys; its contents are stated by `Faces.FacesWritten` and `Faces.FacesMatchInput`.
- Faces.FaceOutput: states only when a tag exists; its fields are stated by `Faces.FaceTag`.
