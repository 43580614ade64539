/**
 * One cube turned into one block-model element: what `computeCube`
 * (carpenter.js:184-283) pushes, and what it registers in the group's
 * texture list.
 */
module Elements {
  import opened Wrappers
  import opened Scene
  import opened Geometry
  import opened Faces

  /** The naming condition of computeCube: forced on, or not forced off and output not minified. */
  predicate NamesWritten(options: Options, host: Host) {
    (options.cubeName != Some(false) && !host.minifiedOut) || options.cubeName == Some(true)
  }

  /** `element.name`: written only under the naming condition, and never for the default name "cube". */
  function ElementName(s: Cube, options: Options, host: Host): (r: Option<string>)
    ensures r.Some? ==> r.value == s.name
    ensures r.Some? <==> s.name != "cube" && (options.cubeName == Some(true) || (options.cubeName.None? && !host.minifiedOut))
  {
    assert NamesWritten(options, host) <==> options.cubeName == Some(true) || (options.cubeName.None? && !host.minifiedOut) by {
      if options.cubeName.Some? {
        if options.cubeName.value { assert options.cubeName == Some(true); } else { assert options.cubeName == Some(false); }
      }
    }
    if NamesWritten(options, host) && s.name != "cube" then Some(s.name) else None
  }

  /** The element computeCube pushes for s, or None when it pushes none. */
  function CubeElement(s: Cube, origin: Vec3, host: Host, options: Options): (r: Option<Element>)
    // an element is pushed iff the cube is exported and at least one face is written
    ensures r.Some? <==> s.exported && exists i :: 0 <= i < |s.faces| && s.faces[i].1.texture != Null
    // the flat colour stands in only when no face has a texture set
    ensures r.Some? ==> (r.value.color.Some? <==> !HasTextureRef(s.faces)) && r.value.color.GetOr(s.color) == s.color
    // shade is written only to turn it off
    ensures r.Some? ==> (r.value.shade.Some? <==> !s.shade) && r.value.shade != Some(true)
  {
    if !s.exported then None
    else
      var faces := FacesOutput(s.faces, host);
      NoFacesWritten(s.faces, host);
      if |faces| == 0 then None
      else
        Some(Element(
          ElementName(s, options, host),
          ElementFrom(s, origin),
          ElementTo(s, origin),
          if !s.shade then Some(false) else None,
          Descriptor(s, Pivot(s, origin)),
          Rotated(s),
          if HasTextureRef(s.faces) then None else Some(s.color),
          faces))
  }

  /** The textures computeCube hands to safePush for s, in face order. */
  function CubeTextures(s: Cube, host: Host): seq<Texture> {
    if !s.exported then [] else UsedTextures(s.faces, host.textures)
  }

  /** The element's corners and pivot are the cube's, inflated and re-centred on the group origin. */
  lemma ElementGeometry(s: Cube, origin: Vec3, host: Host, options: Options, i: nat)
    requires i < 3 && CubeElement(s, origin, host, options).Some?
    ensures var e := CubeElement(s, origin, host, options).value;
      && e.from[i] == s.from[i] - s.inflate - origin[i]
      && e.to[i] == s.to[i] + s.inflate - origin[i]
      && (e.rotation.Some? ==> e.rotation.value.origin[i] == s.origin[i] - origin[i])
  {
    RecentredCoordinates(s, origin, i);
  }

  /** A cube at rest (no rotation, pivot on the group origin, no rescale) gets no rotation descriptor. */
  lemma AtRestHasNoDescriptor(s: Cube, origin: Vec3, host: Host, options: Options)
    requires AllZero(s.rotation) && s.origin == origin && !s.rescale
    requires CubeElement(s, origin, host, options).Some?
    ensures CubeElement(s, origin, host, options).value.rotation.None?
  {
    assert AllZero(Pivot(s, origin));
  }

  /** Moving a cube and its group together leaves the element unchanged. */
  lemma ElementTranslationInvariant(s: Cube, origin: Vec3, d: Vec3, host: Host, options: Options)
    ensures CubeElement(Translate(s, d), Shift3(origin, d), host, options) == CubeElement(s, origin, host, options)
  {
    RecentringIsTranslationInvariant(s, origin, d);
  }
}
