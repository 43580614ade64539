/**
 * The face half of `computeCube` (carpenter.js:237-277): which faces are
 * written, their UVs in 16-unit space, their texture references, and the
 * textures each cube registers with its group.
 */
module Faces {
  import opened Wrappers
  import opened Ordered
  import opened Scene

  /** `uv[i] * 16 / UVEditor.getResolution(i % 2)` for every coordinate. */
  function ScaleUv(uv: seq<real>, res: Resolution): (r: seq<real>)
    ensures |r| == |uv|
    // each coordinate keeps its fraction of the atlas axis it measures, in a 16-unit space
    ensures forall i :: 0 <= i < |uv| ==> r[i] / 16.0 == uv[i] / res.Of(i % 2)
  {
    seq(|uv|, i requires 0 <= i < |uv| => uv[i] * 16.0 / res.Of(i % 2))
  }

  /** The way back from 16-unit space to atlas pixels. */
  function UnscaleUv(uv: seq<real>, res: Resolution): (r: seq<real>)
    ensures |r| == |uv|
  {
    seq(|uv|, i requires 0 <= i < |uv| => uv[i] * res.Of(i % 2) / 16.0)
  }

  /** One coordinate scaled by 16 / w and back, either way round. */
  lemma ScaleCancels(x: real, w: real)
    requires w > 0.0
    ensures (x * 16.0 / w) * w / 16.0 == x
    ensures (x * w / 16.0) * 16.0 / w == x
  {
  }

  /** Scaling by a resolution and scaling back by the same one are inverse. */
  lemma {:induction false} UvRoundTrip(uv: seq<real>, res: Resolution)
    ensures UnscaleUv(ScaleUv(uv, res), res) == uv
    ensures ScaleUv(UnscaleUv(uv, res), res) == uv
  {
    var s, u := ScaleUv(uv, res), UnscaleUv(uv, res);
    var a, b := UnscaleUv(s, res), ScaleUv(u, res);
    forall i | 0 <= i < |uv|
      ensures a[i] == uv[i] && b[i] == uv[i]
    {
      var w := res.Of(i % 2);
      ScaleCancels(uv[i], w);
      assert s[i] == uv[i] * 16.0 / w;
      assert u[i] == uv[i] * w / 16.0;
    }
  }

  /** `face.getTexture()`: the project texture with the face's uuid. */
  function GetTexture(all: seq<Texture>, uuid: string): (r: Option<Texture>)
    ensures r.Some? ==> r.value in all && r.value.uuid == uuid
    ensures r.None? <==> forall t :: t in all ==> t.uuid != uuid
  {
    if |all| == 0 then None
    else if all[0].uuid == uuid then Some(all[0])
    else
      var r := GetTexture(all[1..], uuid);
      assert forall t :: t in all ==> t == all[0] || t in all[1..];
      r
  }

  /** The texture a face resolves to: only a set slot is looked up, and the lookup may fail. */
  function ResolvedTexture(face: Face, all: seq<Texture>): Option<Texture> {
    if face.texture.Ref? then GetTexture(all, face.texture.uuid) else None
  }

  /** The `tag` written for one face, or None when the face is left out. */
  function FaceOutput(face: Face, host: Host): (r: Option<OutputFace>)
    // only the explicit null texture suppresses a face
    ensures r.Some? <==> face.texture != Null
  {
    if face.texture == Null then None
    else
      var texture :=
        match ResolvedTexture(face, host.textures)
        case Some(t) => "#" + t.id
        case None => "#missing";
      Some(OutputFace(
        if face.enabled then Some(ScaleUv(face.uv, host.resolution)) else None,
        if face.rotation != 0 then Some(face.rotation) else None,
        texture,
        if face.cullface != "" then Some(face.cullface) else None,
        if face.tint >= 0 then Some(face.tint) else None))
  }

  /** The fields of a written face's tag. */
  lemma FaceTag(face: Face, host: Host)
    requires face.texture != Null
    ensures var r := FaceOutput(face, host).value;
      && (r.uv.Some? <==> face.enabled)
      && (face.enabled ==> r.uv == Some(ScaleUv(face.uv, host.resolution)))
      && (r.rotation.Some? <==> face.rotation != 0) && r.rotation.GetOr(face.rotation) == face.rotation
      && (r.cullface.Some? <==> face.cullface != "") && r.cullface.GetOr(face.cullface) == face.cullface
      && (r.tintIndex.Some? <==> face.tint >= 0) && r.tintIndex.GetOr(face.tint) == face.tint
      // the reference names a texture carrying the face's uuid, or is the #missing sentinel
      && (ResolvedTexture(face, host.textures).Some? ==>
            exists t :: t in host.textures && t.uuid == face.texture.uuid && r.texture == "#" + t.id)
      && (ResolvedTexture(face, host.textures).None? ==> r.texture == "#missing")
  {
  }

  /** Some face under key k is written (its texture is not null). */
  predicate HasWrittenFace(faces: Entries<Face>, k: string) {
    exists i :: 0 <= i < |faces| && faces[i].0 == k && faces[i].1.texture != Null
  }

  /** `e_faces`: the faces written, in the order they are stored. */
  function FacesOutput(faces: Entries<Face>, host: Host): (r: Entries<OutputFace>)
    ensures DistinctKeys(r)
    decreases |faces|
  {
    if |faces| == 0 then []
    else
      var n := |faces| - 1;
      var before := FacesOutput(faces[..n], host);
      match FaceOutput(faces[n].1, host)
      case Some(tag) => Put(before, faces[n].0, tag)
      case None => before
  }

  lemma HasWrittenFaceAppend(prefix: Entries<Face>, last: (string, Face), k: string)
    ensures HasWrittenFace(prefix + [last], k) <==> HasWrittenFace(prefix, k) || (last.0 == k && last.1.texture != Null)
  {
    var faces := prefix + [last];
    if HasWrittenFace(faces, k) {
      var i :| 0 <= i < |faces| && faces[i].0 == k && faces[i].1.texture != Null;
      if i < |prefix| { assert prefix[i] == faces[i]; }
    }
    if HasWrittenFace(prefix, k) {
      var i :| 0 <= i < |prefix| && prefix[i].0 == k && prefix[i].1.texture != Null;
      assert faces[i] == prefix[i];
    }
    if last.0 == k && last.1.texture != Null {
      assert faces[|prefix|] == last;
    }
  }

  /** A face is written under its key exactly when its texture is not null; no other key appears. */
  lemma {:induction false} FacesWritten(faces: Entries<Face>, host: Host, k: string)
    ensures HasKey(FacesOutput(faces, host), k) <==> HasWrittenFace(faces, k)
    decreases |faces|
  {
    if |faces| > 0 {
      var n := |faces| - 1;
      assert faces == faces[..n] + [faces[n]];
      FacesWritten(faces[..n], host, k);
      HasWrittenFaceAppend(faces[..n], faces[n], k);
      match FaceOutput(faces[n].1, host)
      case Some(tag) => PutHasKey(FacesOutput(faces[..n], host), faces[n].0, tag, k);
      case None =>
    }
  }

  /** With the faces' keys distinct (they are an object's keys), each written face is the input face's tag. */
  lemma {:induction false} FacesMatchInput(faces: Entries<Face>, host: Host, k: string)
    requires DistinctKeys(faces)
    requires HasKey(FacesOutput(faces, host), k)
    ensures HasKey(faces, k) && Get(FacesOutput(faces, host), k) == FaceOutput(Get(faces, k).value, host)
    decreases |faces|
  {
    var n := |faces| - 1;
    var prefix, last := faces[..n], faces[n];
    assert faces == prefix + [last];
    assert !HasKey(prefix, last.0);
    GetAppend(prefix, last, k);
    FacesWritten(prefix, host, k);
    if k != last.0 {
      FacesMatchInput(prefix, host, k);
    } else {
      FacesWritten(prefix, host, last.0);
    }
  }

  /** A cube writes no face at all exactly when every one of its faces has a null texture. */
  lemma NoFacesWritten(faces: Entries<Face>, host: Host)
    ensures |FacesOutput(faces, host)| == 0 <==> forall i :: 0 <= i < |faces| ==> faces[i].1.texture == Null
  {
    var r := FacesOutput(faces, host);
    if |r| > 0 {
      FacesWritten(faces, host, r[0].0);
    }
    if exists i :: 0 <= i < |faces| && faces[i].1.texture != Null {
      var i :| 0 <= i < |faces| && faces[i].1.texture != Null;
      FacesWritten(faces, host, faces[i].0);
    }
  }

  /** `element_has_texture`: some face's texture slot is set (whether or not it resolves). */
  predicate HasTextureRef(faces: Entries<Face>) {
    exists i :: 0 <= i < |faces| && faces[i].1.texture.Ref?
  }

  /** The textures the faces resolve to, in face order, before de-duplication. */
  function UsedTextures(faces: Entries<Face>, all: seq<Texture>): (r: seq<Texture>)
    ensures forall t :: t in r <==> exists i :: 0 <= i < |faces| && ResolvedTexture(faces[i].1, all) == Some(t)
    decreases |faces|
  {
    if |faces| == 0 then []
    else
      var n := |faces| - 1;
      var before := UsedTextures(faces[..n], all);
      var r :=
        match ResolvedTexture(faces[n].1, all)
        case Some(t) => before + [t]
        case None => before;
      assert forall t :: t in r <==> exists i :: 0 <= i < |faces| && ResolvedTexture(faces[i].1, all) == Some(t) by {
        forall t
          ensures t in r <==> exists i :: 0 <= i < |faces| && ResolvedTexture(faces[i].1, all) == Some(t)
        {
          if exists i :: 0 <= i < |faces| && ResolvedTexture(faces[i].1, all) == Some(t) {
            var i :| 0 <= i < |faces| && ResolvedTexture(faces[i].1, all) == Some(t);
            if i < n { assert faces[..n][i] == faces[i]; }
          }
          if t in before {
            var i :| 0 <= i < n && ResolvedTexture(faces[..n][i].1, all) == Some(t);
            assert faces[i] == faces[..n][i];
          }
        }
      }
      r
  }

  predicate NoDuplicates(ts: seq<Texture>) {
    forall i, j :: 0 <= i < j < |ts| ==> ts[i] != ts[j]
  }

  /** `list.safePush(t)`: append unless already listed. */
  function SafePush(ts: seq<Texture>, t: Texture): seq<Texture> {
    if t in ts then ts else ts + [t]
  }

  /** safePush of each texture of us in turn. */
  function PushAll(ts: seq<Texture>, us: seq<Texture>): (r: seq<Texture>)
    ensures forall t :: t in r <==> t in ts || t in us
    ensures NoDuplicates(ts) ==> NoDuplicates(r)
    // what was listed keeps its place
    ensures ts <= r
    decreases |us|
  {
    if |us| == 0 then ts
    else
      var n := |us| - 1;
      assert us == us[..n] + [us[n]];
      SafePush(PushAll(ts, us[..n]), us[n])
  }
}
