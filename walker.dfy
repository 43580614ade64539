/**
 * The scene walker (carpenter.js:184-297): `iterate` visits a top-level
 * group's tree depth first and `computeCube` appends each cube's element and
 * textures to the group's component, in place.
 */
module Walker {
  import opened Wrappers
  import opened Ordered
  import opened Scene
  import opened Geometry
  import opened Faces
  import opened Elements

  /** A component's two lists, as values. */
  datatype Lists = Lists(elements: seq<Element>, textures: seq<Texture>)

  const EMPTY := Lists([], [])

  /** A top-level group's component: the lists computeCube appends to. */
  class Component {
    var elements: seq<Element>
    var textures: seq<Texture>

    constructor ()
      ensures elements == [] && textures == []
    {
      elements := [];
      textures := [];
    }

    function State(): Lists
      reads this
    {
      Lists(elements, textures)
    }
  }

  /** What computeCube adds for one cube: the element it pushes, if any, and the textures it hands to safePush. */
  datatype Contribution = Contribution(element: Option<Element>, textures: seq<Texture>)

  function Contribute(s: Cube, origin: Vec3, host: Host, options: Options): Contribution {
    Contribution(CubeElement(s, origin, host, options), CubeTextures(s, host))
  }

  function Emit(e: Option<Element>): seq<Element> {
    match e
    case Some(x) => [x]
    case None => []
  }

  /** A contribution added to the component: push the element, safePush each texture. */
  function Add(acc: Lists, x: Contribution): Lists {
    Lists(acc.elements + Emit(x.element), PushAll(acc.textures, x.textures))
  }

  /** What `iterate(c, g, nodes)` does to the component; origin is the top-level group's throughout. */
  function Walk(acc: Lists, nodes: seq<Node>, origin: Vec3, host: Host, options: Options): Lists
    decreases nodes
  {
    if |nodes| == 0 then acc
    else
      var next :=
        match nodes[0]
        case CubeNode(s) => Add(acc, Contribute(s, origin, host, options))
        case Group(_, _, children) => Walk(acc, children, origin, host, options);
      Walk(next, nodes[1..], origin, host, options)
  }

  /** The cubes under nodes, depth first, children in their stored order. */
  function Cubes(nodes: seq<Node>): seq<Cube>
    decreases nodes
  {
    if |nodes| == 0 then []
    else
      var first :=
        match nodes[0]
        case CubeNode(s) => [s]
        case Group(_, _, children) => Cubes(children);
      first + Cubes(nodes[1..])
  }

  /** Each cube's contribution, in the order of the cubes. */
  function Contributions(cubes: seq<Cube>, origin: Vec3, host: Host, options: Options): (r: seq<Contribution>)
    ensures |r| == |cubes|
    decreases |cubes|
  {
    if |cubes| == 0 then [] else [Contribute(cubes[0], origin, host, options)] + Contributions(cubes[1..], origin, host, options)
  }

  lemma {:induction false} ContributionAt(cubes: seq<Cube>, origin: Vec3, host: Host, options: Options, i: nat)
    requires i < |cubes|
    ensures Contributions(cubes, origin, host, options)[i] == Contribute(cubes[i], origin, host, options)
    decreases i
  {
    if i > 0 {
      ContributionAt(cubes[1..], origin, host, options, i - 1);
    }
  }

  lemma {:induction false} ContributionsAppend(a: seq<Cube>, b: seq<Cube>, origin: Vec3, host: Host, options: Options)
    ensures Contributions(a + b, origin, host, options) == Contributions(a, origin, host, options) + Contributions(b, origin, host, options)
    decreases |a|
  {
    if |a| > 0 {
      assert (a + b)[0] == a[0] && (a + b)[1..] == a[1..] + b;
      ContributionsAppend(a[1..], b, origin, host, options);
    } else {
      assert a + b == b;
    }
  }

  /** The contributions added in order. */
  function Fold(acc: Lists, xs: seq<Contribution>): Lists
    decreases |xs|
  {
    if |xs| == 0 then acc else Fold(Add(acc, xs[0]), xs[1..])
  }

  lemma {:induction false} FoldAppend(acc: Lists, a: seq<Contribution>, b: seq<Contribution>)
    ensures Fold(acc, a + b) == Fold(Fold(acc, a), b)
    decreases |a|
  {
    if |a| > 0 {
      assert (a + b)[0] == a[0] && (a + b)[1..] == a[1..] + b;
      FoldAppend(Add(acc, a[0]), a[1..], b);
    } else {
      assert a + b == b;
    }
  }

  /** Walking the tree is adding its cubes' contributions in depth-first order: groups add nothing of their own. */
  lemma {:induction false} WalkIsFold(acc: Lists, nodes: seq<Node>, origin: Vec3, host: Host, options: Options)
    ensures Walk(acc, nodes, origin, host, options) == Fold(acc, Contributions(Cubes(nodes), origin, host, options))
    decreases nodes
  {
    if |nodes| > 0 {
      var rest := Cubes(nodes[1..]);
      match nodes[0]
      case CubeNode(s) =>
        var x := Contribute(s, origin, host, options);
        WalkIsFold(Add(acc, x), nodes[1..], origin, host, options);
        ContributionsAppend([s], rest, origin, host, options);
        assert [s][1..] == [];
        FoldAppend(acc, [x], Contributions(rest, origin, host, options));
      case Group(_, _, children) =>
        WalkIsFold(acc, children, origin, host, options);
        WalkIsFold(Walk(acc, children, origin, host, options), nodes[1..], origin, host, options);
        ContributionsAppend(Cubes(children), rest, origin, host, options);
        FoldAppend(acc, Contributions(Cubes(children), origin, host, options), Contributions(rest, origin, host, options));
    }
  }

  /** The elements pushed for a list of contributions, in order. */
  function Emitted(xs: seq<Contribution>): seq<Element>
    decreases |xs|
  {
    if |xs| == 0 then [] else Emit(xs[0].element) + Emitted(xs[1..])
  }

  /** Each element emitted is the element of one of the contributions, and each present one is emitted. */
  lemma {:induction false} EmittedElements(xs: seq<Contribution>, e: Element)
    ensures e in Emitted(xs) <==> exists i :: 0 <= i < |xs| && xs[i].element == Some(e)
    decreases |xs|
  {
    if |xs| > 0 {
      EmittedElements(xs[1..], e);
      if exists i :: 0 <= i < |xs| && xs[i].element == Some(e) {
        var i :| 0 <= i < |xs| && xs[i].element == Some(e);
        if i > 0 { assert xs[1..][i - 1] == xs[i]; }
      }
      if e in Emitted(xs[1..]) {
        var i :| 0 <= i < |xs[1..]| && xs[1..][i].element == Some(e);
        assert xs[i + 1] == xs[1..][i];
      }
    }
  }

  lemma {:induction false} FoldElements(acc: Lists, xs: seq<Contribution>)
    ensures Fold(acc, xs).elements == acc.elements + Emitted(xs)
    decreases |xs|
  {
    if |xs| > 0 {
      FoldElements(Add(acc, xs[0]), xs[1..]);
    }
  }

  lemma {:induction false} FoldKeepsTexturesDistinct(acc: Lists, xs: seq<Contribution>)
    requires NoDuplicates(acc.textures)
    ensures NoDuplicates(Fold(acc, xs).textures)
    decreases |xs|
  {
    if |xs| > 0 {
      FoldKeepsTexturesDistinct(Add(acc, xs[0]), xs[1..]);
    }
  }

  /** Some contribution of the list registers t. */
  predicate Registers(xs: seq<Contribution>, t: Texture) {
    exists i :: 0 <= i < |xs| && t in xs[i].textures
  }

  lemma {:induction false} FoldTextures(acc: Lists, xs: seq<Contribution>, t: Texture)
    ensures t in Fold(acc, xs).textures <==> t in acc.textures || Registers(xs, t)
    decreases |xs|
  {
    if |xs| > 0 {
      FoldTextures(Add(acc, xs[0]), xs[1..], t);
      if Registers(xs, t) {
        var i :| 0 <= i < |xs| && t in xs[i].textures;
        if i > 0 { assert xs[1..][i - 1] == xs[i]; }
      }
      if Registers(xs[1..], t) {
        var i :| 0 <= i < |xs[1..]| && t in xs[1..][i].textures;
        assert xs[i + 1] == xs[1..][i];
      }
    }
  }

  /**
   * A top-level group's component after the walk: the elements of its cubes,
   * depth first, each only from a cube that is exported and writes a face;
   * and each texture any of its cubes resolved, listed once.
   */
  lemma GroupContents(nodes: seq<Node>, origin: Vec3, host: Host, options: Options)
    ensures var r := Walk(EMPTY, nodes, origin, host, options);
      var cubes := Cubes(nodes);
      && r.elements == Emitted(Contributions(cubes, origin, host, options))
      && (forall e :: e in r.elements <==>
            exists i :: 0 <= i < |cubes| && CubeElement(cubes[i], origin, host, options) == Some(e))
      && NoDuplicates(r.textures)
      && (forall t :: t in r.textures <==> exists i :: 0 <= i < |cubes| && t in CubeTextures(cubes[i], host))
  {
    var cubes := Cubes(nodes);
    var xs := Contributions(cubes, origin, host, options);
    WalkIsFold(EMPTY, nodes, origin, host, options);
    FoldElements(EMPTY, xs);
    FoldKeepsTexturesDistinct(EMPTY, xs);
    forall e
      ensures e in Emitted(xs) <==> exists i :: 0 <= i < |cubes| && CubeElement(cubes[i], origin, host, options) == Some(e)
    {
      EmittedElements(xs, e);
      if exists i :: 0 <= i < |cubes| && CubeElement(cubes[i], origin, host, options) == Some(e) {
        var i :| 0 <= i < |cubes| && CubeElement(cubes[i], origin, host, options) == Some(e);
        ContributionAt(cubes, origin, host, options, i);
      }
      if e in Emitted(xs) {
        var i :| 0 <= i < |xs| && xs[i].element == Some(e);
        ContributionAt(cubes, origin, host, options, i);
      }
    }
    forall t
      ensures t in Fold(EMPTY, xs).textures <==> exists i :: 0 <= i < |cubes| && t in CubeTextures(cubes[i], host)
    {
      FoldTextures(EMPTY, xs, t);
      if exists i :: 0 <= i < |cubes| && t in CubeTextures(cubes[i], host) {
        var i :| 0 <= i < |cubes| && t in CubeTextures(cubes[i], host);
        ContributionAt(cubes, origin, host, options, i);
      }
      if Registers(xs, t) {
        var i :| 0 <= i < |xs| && t in xs[i].textures;
        ContributionAt(cubes, origin, host, options, i);
      }
    }
  }

  /** `offsetVec(v, o)`, in place. */
  method OffsetVec(v: array<real>, o: Vec3)
    requires v.Length == 3
    modifies v
    ensures v[..] == Sub(old(v[..]), o)
  {
    v[0] := v[0] - o[0];
    v[1] := v[1] - o[1];
    v[2] := v[2] - o[2];
  }

  /** The in-place UV rescaling of a face's copied `uv` array. */
  method ScaleUvInPlace(uv: array<real>, res: Resolution)
    modifies uv
    ensures uv[..] == ScaleUv(old(uv[..]), res)
  {
    for i := 0 to uv.Length
      invariant forall k :: 0 <= k < i ==> uv[k] == old(uv[k]) * 16.0 / res.Of(k % 2)
      invariant forall k :: i <= k < uv.Length ==> uv[k] == old(uv[k])
    {
      uv[i] := uv[i] * 16.0 / res.Of(i % 2);
    }
  }

  /** The body of the face loop for a face whose texture is not null: builds its tag, registers its texture. */
  method ResolveFace(c: Component, face: Face, host: Host) returns (tag: OutputFace)
    requires face.texture != Null
    modifies c
    ensures Some(tag) == FaceOutput(face, host)
    ensures c.textures == match ResolvedTexture(face, host.textures)
      case Some(t) => SafePush(old(c.textures), t)
      case None => old(c.textures)
    ensures c.elements == old(c.elements)
  {
    var uv: Option<seq<real>> := None;
    if face.enabled {
      var copy := new real[|face.uv|](i requires 0 <= i < |face.uv| => face.uv[i]);
      assert copy[..] == face.uv;
      ScaleUvInPlace(copy, host.resolution);
      uv := Some(copy[..]);
    }
    var rotation := if face.rotation != 0 then Some(face.rotation) else None;
    var texture: Option<string> := None;
    if face.texture.Ref? {
      var tex := GetTexture(host.textures, face.texture.uuid);
      if tex.Some? {
        texture := Some("#" + tex.value.id);
        c.textures := SafePush(c.textures, tex.value);
      }
    }
    if texture.None? {
      texture := Some("#missing");
    }
    var cullface := if face.cullface != "" then Some(face.cullface) else None;
    var tintIndex := if face.tint >= 0 then Some(face.tint) else None;
    tag := OutputFace(uv, rotation, texture.value, cullface, tintIndex);
  }

  /** `v.slice()`. */
  method CopyVec(v: Vec3) returns (a: array<real>)
    ensures fresh(a) && a[..] == v
  {
    a := new real[3];
    a[0], a[1], a[2] := v[0], v[1], v[2];
  }

  /** The inflate loop of computeCube: from moves down and to moves up by d on every axis. */
  method InflateInPlace(from: array<real>, to: array<real>, d: real)
    requires from.Length == 3 && to.Length == 3 && from != to
    modifies from, to
    ensures from[..] == Shift(old(from[..]), -d) && to[..] == Shift(old(to[..]), d)
  {
    for i := 0 to 3
      invariant forall k :: 0 <= k < i ==> from[k] == old(from[k]) - d && to[k] == old(to[k]) + d
      invariant forall k :: i <= k < 3 ==> from[k] == old(from[k]) && to[k] == old(to[k])
    {
      from[i] := from[i] - d;
      to[i] := to[i] + d;
    }
  }

  /** The corner and pivot arrays of computeCube: copied, inflated, offset by the group origin. */
  method Corners(s: Cube, origin: Vec3) returns (from: Vec3, to: Vec3, pivot: Vec3)
    ensures from == ElementFrom(s, origin) && to == ElementTo(s, origin) && pivot == Pivot(s, origin)
  {
    var f := CopyVec(s.from);
    var t := CopyVec(s.to);
    if s.inflate != 0.0 {
      InflateInPlace(f, t, s.inflate);
    }
    OffsetVec(f, origin);
    OffsetVec(t, origin);
    var o := CopyVec(s.origin);
    OffsetVec(o, origin);
    from, to, pivot := f[..], t[..], o[..];
  }

  /** The building of `element.rotation`. */
  method BuildRotation(s: Cube, pivot: Vec3) returns (rotation: Option<Rotation>)
    ensures rotation == Descriptor(s, pivot)
  {
    rotation := None;
    if !AllZero(s.rotation) || !AllZero(pivot) {
      var axis := RotationAxisOf(s).GetOr(Y);
      rotation := Some(Rotation(s.rotation[axis.Index()], axis, pivot, false));
    }
    if s.rescale {
      if rotation.Some? {
        rotation := Some(rotation.value.(rescale := true));
      } else {
        rotation := Some(Rotation(0.0, s.rotationAxis.GetOr(Y), pivot, true));
      }
    }
  }

  lemma HasTextureRefSnoc(faces: Entries<Face>, i: nat)
    requires i < |faces|
    ensures HasTextureRef(faces[..i + 1]) <==> HasTextureRef(faces[..i]) || faces[i].1.texture.Ref?
  {
    if HasTextureRef(faces[..i + 1]) {
      var j :| 0 <= j < i + 1 && faces[..i + 1][j].1.texture.Ref?;
      if j < i { assert faces[..i][j] == faces[..i + 1][j]; }
    }
    if HasTextureRef(faces[..i]) {
      var j :| 0 <= j < i && faces[..i][j].1.texture.Ref?;
      assert faces[..i + 1][j] == faces[..i][j];
    }
  }

  lemma FacesOutputSnoc(faces: Entries<Face>, i: nat, host: Host)
    requires i < |faces|
    ensures FacesOutput(faces[..i + 1], host) ==
      match FaceOutput(faces[i].1, host)
      case Some(tag) => Put(FacesOutput(faces[..i], host), faces[i].0, tag)
      case None => FacesOutput(faces[..i], host)
  {
    assert faces[..i + 1][..i] == faces[..i];
  }

  lemma PushUsedSnoc(ts: seq<Texture>, faces: Entries<Face>, i: nat, all: seq<Texture>)
    requires i < |faces|
    ensures PushAll(ts, UsedTextures(faces[..i + 1], all)) ==
      match ResolvedTexture(faces[i].1, all)
      case Some(t) => SafePush(PushAll(ts, UsedTextures(faces[..i], all)), t)
      case None => PushAll(ts, UsedTextures(faces[..i], all))
  {
    assert faces[..i + 1][..i] == faces[..i];
    var used := UsedTextures(faces[..i], all);
    match ResolvedTexture(faces[i].1, all)
    case Some(t) =>
      assert UsedTextures(faces[..i + 1], all) == used + [t];
      assert (used + [t])[..|used|] == used;
    case None =>
  }

  /** One turn of the face loop of computeCube, for the face stored under key. */
  method WriteFace(c: Component, key: string, face: Face, host: Host, faces: Entries<OutputFace>, hasTexture: bool)
    returns (faces': Entries<OutputFace>, hasTexture': bool)
    modifies c
    ensures faces' == match FaceOutput(face, host)
      case Some(tag) => Put(faces, key, tag)
      case None => faces
    ensures hasTexture' == (hasTexture || face.texture.Ref?)
    ensures c.textures == match ResolvedTexture(face, host.textures)
      case Some(t) => SafePush(old(c.textures), t)
      case None => old(c.textures)
    ensures c.elements == old(c.elements)
  {
    faces', hasTexture' := faces, hasTexture;
    if face.texture != Null {
      var tag := ResolveFace(c, face, host);
      if face.texture.Ref? {
        hasTexture' := true;
      }
      faces' := Put(faces', key, tag);
    }
  }

  /** The face loop's invariant is kept by one turn. */
  lemma FaceLoopStep(faces: Entries<Face>, i: nat, host: Host, textures0: seq<Texture>,
                     written: Entries<OutputFace>, hasTexture: bool, textures: seq<Texture>,
                     written': Entries<OutputFace>, hasTexture': bool, textures': seq<Texture>)
    requires i < |faces|
    requires written == FacesOutput(faces[..i], host)
    requires hasTexture == HasTextureRef(faces[..i])
    requires textures == PushAll(textures0, UsedTextures(faces[..i], host.textures))
    requires written' == match FaceOutput(faces[i].1, host)
      case Some(tag) => Put(written, faces[i].0, tag)
      case None => written
    requires hasTexture' == (hasTexture || faces[i].1.texture.Ref?)
    requires textures' == match ResolvedTexture(faces[i].1, host.textures)
      case Some(t) => SafePush(textures, t)
      case None => textures
    ensures written' == FacesOutput(faces[..i + 1], host)
    ensures hasTexture' == HasTextureRef(faces[..i + 1])
    ensures textures' == PushAll(textures0, UsedTextures(faces[..i + 1], host.textures))
  {
    FacesOutputSnoc(faces, i, host);
    PushUsedSnoc(textures0, faces, i, host.textures);
    HasTextureRefSnoc(faces, i);
  }

  /** The face loop of computeCube: the faces written and whether any face has a texture set. */
  method WriteFaces(c: Component, s: Cube, host: Host) returns (faces: Entries<OutputFace>, hasTexture: bool)
    modifies c
    ensures faces == FacesOutput(s.faces, host)
    ensures hasTexture == HasTextureRef(s.faces)
    ensures c.textures == PushAll(old(c.textures), UsedTextures(s.faces, host.textures))
    ensures c.elements == old(c.elements)
  {
    hasTexture := false;
    faces := [];
    for i := 0 to |s.faces|
      invariant faces == FacesOutput(s.faces[..i], host)
      invariant hasTexture == HasTextureRef(s.faces[..i])
      invariant c.textures == PushAll(old(c.textures), UsedTextures(s.faces[..i], host.textures))
      invariant c.elements == old(c.elements)
    {
      ghost var textures := c.textures;
      var faces', hasTexture' := WriteFace(c, s.faces[i].0, s.faces[i].1, host, faces, hasTexture);
      FaceLoopStep(s.faces, i, host, old(c.textures), faces, hasTexture, textures, faces', hasTexture', c.textures);
      faces, hasTexture := faces', hasTexture';
    }
    assert s.faces[..|s.faces|] == s.faces;
  }

  /** `computeCube(c, g, s)` with g's origin. */
  method ComputeCube(c: Component, origin: Vec3, s: Cube, host: Host, options: Options)
    modifies c
    ensures c.State() == Add(old(c.State()), Contribute(s, origin, host, options))
  {
    if !s.exported {
      return;
    }
    var name := if NamesWritten(options, host) && s.name != "cube" then Some(s.name) else None;
    var from, to, pivot := Corners(s, origin);
    var shade := if !s.shade then Some(false) else None;
    var rotation := BuildRotation(s, pivot);
    var rotated := if PositiveItems(s.rotation) >= 2 then Some(s.rotation) else None;
    var faces, hasTexture := WriteFaces(c, s, host);
    var color := if !hasTexture then Some(s.color) else None;
    if |faces| > 0 {
      c.elements := c.elements + [Element(name, from, to, shade, rotation, rotated, color, faces)];
    }
  }

  /** `iterate(c, g, arr)` with g's origin. */
  method Iterate(c: Component, origin: Vec3, arr: seq<Node>, host: Host, options: Options)
    modifies c
    ensures c.State() == Walk(old(c.State()), arr, origin, host, options)
    decreases arr
  {
    if |arr| == 0 {
      return;
    }
    for i := 0 to |arr|
      invariant Walk(c.State(), arr[i..], origin, host, options) == Walk(old(c.State()), arr, origin, host, options)
    {
      assert arr[i..][0] == arr[i] && arr[i..][1..] == arr[i + 1..];
      match arr[i]
      case CubeNode(s) =>
        ComputeCube(c, origin, s, host, options);
      case Group(_, _, children) =>
        assert arr[i] in arr;
        Iterate(c, origin, children, host, options);
    }
  }
}
