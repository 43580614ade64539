/**
 * The tail of `compile` (carpenter.js:299-373): one component per top-level
 * group, then one block model per component, each optional field decided by
 * `checkExport`: an option the caller set wins, otherwise a default computed
 * from the component and the host.
 */
module Assembler {
  import opened Wrappers
  import opened Ordered
  import opened Scene
  import opened Walker

  /** `checkExport(key, condition)`, given `options[key]`. */
  function CheckExport(option: Option<bool>, condition: bool): (r: bool)
    ensures option.Some? ==> r == option.value
    ensures option.None? ==> r == condition
  {
    option.GetOr(condition)
  }

  /** `link.replace(/^#/, '')`: at most one leading '#' is dropped. */
  function StripHash(link: string): (r: string)
    ensures |link| > 0 && link[0] == '#' ==> link == "#" + r
    ensures !(|link| > 0 && link[0] == '#') ==> r == link
  {
    if |link| > 0 && link[0] == '#' then link[1..] else link
  }

  /** Whether the textures map lists t: t is one the group used (or the group has no elements), and its link is not just its id. */
  predicate Listed(t: Texture, used: seq<Texture>, texturesOnly: bool) {
    (texturesOnly || t in used) && t.id != StripHash(t.link)
  }

  /** The `textures` map of one block model: id to link, in the order of the project's textures. */
  function TextureMap(all: seq<Texture>, used: seq<Texture>, texturesOnly: bool): (r: Entries<string>)
    ensures DistinctKeys(r)
    decreases |all|
  {
    if |all| == 0 then []
    else
      var n := |all| - 1;
      var before := TextureMap(all[..n], used, texturesOnly);
      if Listed(all[n], used, texturesOnly) then Put(before, all[n].id, all[n].link) else before
  }

  /** The ids of the listed textures, in the order of the project's textures, repeats included. */
  function ListedIds(all: seq<Texture>, used: seq<Texture>, texturesOnly: bool): seq<string>
    decreases |all|
  {
    if |all| == 0 then []
    else
      var n := |all| - 1;
      ListedIds(all[..n], used, texturesOnly) + if Listed(all[n], used, texturesOnly) then [all[n].id] else []
  }

  /** The map's keys are the listed ids in the order their first texture appears in the project. */
  lemma {:induction false} TextureMapOrder(all: seq<Texture>, used: seq<Texture>, texturesOnly: bool)
    ensures Keys(TextureMap(all, used, texturesOnly)) == FirstOccurrences(ListedIds(all, used, texturesOnly))
    decreases |all|
  {
    if |all| > 0 {
      var n := |all| - 1;
      TextureMapOrder(all[..n], used, texturesOnly);
      if Listed(all[n], used, texturesOnly) {
        PutAppendsKey(TextureMap(all[..n], used, texturesOnly), all[n].id, all[n].link, ListedIds(all[..n], used, texturesOnly));
      } else {
        assert ListedIds(all, used, texturesOnly) == ListedIds(all[..n], used, texturesOnly);
      }
    }
  }

  /** Some listed texture has id k. */
  predicate ListsId(all: seq<Texture>, used: seq<Texture>, texturesOnly: bool, k: string) {
    exists i :: 0 <= i < |all| && all[i].id == k && Listed(all[i], used, texturesOnly)
  }

  lemma ListsIdSnoc(all: seq<Texture>, used: seq<Texture>, texturesOnly: bool, k: string)
    requires |all| > 0
    ensures var n := |all| - 1;
      ListsId(all, used, texturesOnly, k) <==>
        ListsId(all[..n], used, texturesOnly, k) || (all[n].id == k && Listed(all[n], used, texturesOnly))
  {
    var n := |all| - 1;
    if ListsId(all, used, texturesOnly, k) {
      var i :| 0 <= i < |all| && all[i].id == k && Listed(all[i], used, texturesOnly);
      if i < n { assert all[..n][i] == all[i]; }
    }
    if ListsId(all[..n], used, texturesOnly, k) {
      var i :| 0 <= i < n && all[..n][i].id == k && Listed(all[..n][i], used, texturesOnly);
      assert all[i] == all[..n][i];
    }
  }

  /** The map's keys are exactly the ids of the listed textures. */
  lemma {:induction false} TextureMapKeys(all: seq<Texture>, used: seq<Texture>, texturesOnly: bool, k: string)
    ensures HasKey(TextureMap(all, used, texturesOnly), k) <==> ListsId(all, used, texturesOnly, k)
    decreases |all|
  {
    if |all| > 0 {
      var n := |all| - 1;
      TextureMapKeys(all[..n], used, texturesOnly, k);
      ListsIdSnoc(all, used, texturesOnly, k);
      if Listed(all[n], used, texturesOnly) {
        PutHasKey(TextureMap(all[..n], used, texturesOnly), all[n].id, all[n].link, k);
      }
    }
  }

  /** Under each id stands the link of the last listed texture with that id. */
  lemma {:induction false} TextureMapValue(all: seq<Texture>, used: seq<Texture>, texturesOnly: bool, i: nat)
    requires i < |all| && Listed(all[i], used, texturesOnly)
    requires forall j :: i < j < |all| && all[j].id == all[i].id ==> !Listed(all[j], used, texturesOnly)
    ensures Get(TextureMap(all, used, texturesOnly), all[i].id) == Some(all[i].link)
    decreases |all|
  {
    var n := |all| - 1;
    if i < n {
      assert all[..n][i] == all[i];
      TextureMapValue(all[..n], used, texturesOnly, i);
    }
  }

  /** `Project.display_settings[slot] && Project.display_settings[slot].export`: the slot has a setting that can export. */
  predicate Exports(settings: map<string, DisplaySetting>, slot: string) {
    slot in settings && settings[slot].exportable
  }

  /** The `display` map: each recognised slot whose setting can export, in slot order. */
  function DisplayMap(slots: seq<string>, settings: map<string, DisplaySetting>): (r: Entries<DisplayData>)
    ensures DistinctKeys(r)
    decreases |slots|
  {
    if |slots| == 0 then []
    else
      var n := |slots| - 1;
      var before := DisplayMap(slots[..n], settings);
      var slot := slots[n];
      if Exports(settings, slot) then Put(before, slot, settings[slot].data) else before
  }

  /** The slots whose setting exports, in slot order, repeats included. */
  function ExportingSlots(slots: seq<string>, settings: map<string, DisplaySetting>): seq<string>
    decreases |slots|
  {
    if |slots| == 0 then []
    else
      var n := |slots| - 1;
      ExportingSlots(slots[..n], settings) + if Exports(settings, slots[n]) then [slots[n]] else []
  }

  /** The display map's keys are the exporting slots in slot order, each once. */
  lemma {:induction false} DisplayMapOrder(slots: seq<string>, settings: map<string, DisplaySetting>)
    ensures Keys(DisplayMap(slots, settings)) == FirstOccurrences(ExportingSlots(slots, settings))
    decreases |slots|
  {
    if |slots| > 0 {
      var n := |slots| - 1;
      DisplayMapOrder(slots[..n], settings);
      if Exports(settings, slots[n]) {
        PutAppendsKey(DisplayMap(slots[..n], settings), slots[n], settings[slots[n]].data, ExportingSlots(slots[..n], settings));
      } else {
        assert ExportingSlots(slots, settings) == ExportingSlots(slots[..n], settings);
      }
    }
  }

  /** A slot is in the display map iff it is recognised and exports; its entry is what it exports. */
  lemma {:induction false} DisplayMapEntries(slots: seq<string>, settings: map<string, DisplaySetting>, k: string)
    ensures HasKey(DisplayMap(slots, settings), k) <==> k in slots && Exports(settings, k)
    ensures HasKey(DisplayMap(slots, settings), k) ==> Get(DisplayMap(slots, settings), k) == Some(settings[k].data)
    decreases |slots|
  {
    if |slots| > 0 {
      var n := |slots| - 1;
      var before := DisplayMap(slots[..n], settings);
      DisplayMapEntries(slots[..n], settings, k);
      assert slots == slots[..n] + [slots[n]];
      if Exports(settings, slots[n]) {
        PutHasKey(before, slots[n], settings[slots[n]].data, k);
      }
    }
  }

  /** The block model of the component stored under key, before the compile event. */
  function Assemble(key: string, comp: Lists, host: Host, options: Options): (r: Document)
    // the credit written is the credit setting; ambient occlusion is only ever written to turn it off,
    // and the GUI light only to face front
    ensures r.credit.Some? ==> r.credit.value == host.credit
    ensures r.ambientOcclusion.Some? ==> r.ambientOcclusion.value == false
    ensures r.guiLight.Some? ==> r.guiLight.value == "front"
    // the elements written are the component's, in walk order
    ensures r.elements.Some? ==> r.elements.value == comp.elements
    // a display map is never written empty, and never unless the option or the item-model rule asks for it
    ensures r.display.Some? ==> |r.display.value| > 0 && CheckExport(options.display, |host.displaySettings| >= 1 && options.itemModel == Some(key))
  {
    var textures := TextureMap(host.textures, comp.textures, |comp.elements| == 0);
    var display := DisplayMap(host.displaySlots, host.displaySettings);
    Document(
      if CheckExport(options.comment, host.credit != "") then Some(host.credit) else None,
      if CheckExport(options.ambientOcclusion, !host.ambientOcclusion) then Some(false) else None,
      if CheckExport(options.textures, |textures| >= 1) then Some(textures) else None,
      if CheckExport(options.elements, |comp.elements| >= 1) then Some(comp.elements) else None,
      if CheckExport(options.frontGuiLight, host.frontGuiLight) then Some("front") else None,
      if CheckExport(options.display, |host.displaySettings| >= 1 && options.itemModel == Some(key)) && |display| > 0
      then Some(display) else None)
  }

  /** An option set to true or false decides its field outright. */
  lemma ExplicitOptionsWin(key: string, comp: Lists, host: Host, options: Options)
    ensures var r := Assemble(key, comp, host, options);
      && (options.comment.Some? ==> (r.credit.Some? <==> options.comment.value))
      && (options.ambientOcclusion.Some? ==> (r.ambientOcclusion.Some? <==> options.ambientOcclusion.value))
      && (options.textures.Some? ==> (r.textures.Some? <==> options.textures.value))
      && (options.elements.Some? ==> (r.elements.Some? <==> options.elements.value))
      && (options.frontGuiLight.Some? ==> (r.guiLight.Some? <==> options.frontGuiLight.value))
      && (options.display == Some(false) ==> r.display.None?)
  {
  }

  /** With no field option set, each field follows its default rule. */
  lemma DefaultFields(key: string, comp: Lists, host: Host, options: Options)
    requires options.comment.None? && options.ambientOcclusion.None? && options.textures.None?
    requires options.elements.None? && options.frontGuiLight.None? && options.display.None?
    ensures var r := Assemble(key, comp, host, options);
      && (r.credit.Some? <==> host.credit != "") && r.credit.GetOr(host.credit) == host.credit
      && (r.ambientOcclusion.Some? <==> !host.ambientOcclusion)
      && (r.textures.Some? <==> exists t :: t in host.textures && Listed(t, comp.textures, |comp.elements| == 0))
      && (r.elements.Some? <==> |comp.elements| >= 1)
      && (r.guiLight.Some? <==> host.frontGuiLight)
      && (r.display.Some? <==>
            |host.displaySettings| >= 1 && options.itemModel == Some(key) &&
            exists slot :: slot in host.displaySlots && Exports(host.displaySettings, slot))
  {
    var textures := TextureMap(host.textures, comp.textures, |comp.elements| == 0);
    var display := DisplayMap(host.displaySlots, host.displaySettings);
    if |textures| >= 1 {
      TextureMapKeys(host.textures, comp.textures, |comp.elements| == 0, textures[0].0);
    }
    if |textures| >= 1 {
      var i :| 0 <= i < |host.textures| && host.textures[i].id == textures[0].0 && Listed(host.textures[i], comp.textures, |comp.elements| == 0);
      assert host.textures[i] in host.textures;
    }
    if exists t :: t in host.textures && Listed(t, comp.textures, |comp.elements| == 0) {
      var t :| t in host.textures && Listed(t, comp.textures, |comp.elements| == 0);
      var i :| 0 <= i < |host.textures| && host.textures[i] == t;
      TextureMapKeys(host.textures, comp.textures, |comp.elements| == 0, t.id);
    }
    if |display| > 0 {
      DisplayMapEntries(host.displaySlots, host.displaySettings, display[0].0);
    }
    if exists slot :: slot in host.displaySlots && Exports(host.displaySettings, slot) {
      var slot :| slot in host.displaySlots && Exports(host.displaySettings, slot);
      DisplayMapEntries(host.displaySlots, host.displaySettings, slot);
    }
  }

  /**
   * A group without elements is a textures-only model: its textures map is
   * drawn from every texture of the project, whatever the group used, so it
   * has no textures key only when no project texture has a link other than
   * its id.
   */
  lemma TexturesOnlyModel(key: string, comp: Lists, host: Host, options: Options, k: string)
    requires comp.elements == []
    requires options.elements.None? && options.textures.None?
    ensures var r := Assemble(key, comp, host, options);
      && r.elements.None?
      && (r.textures.Some? ==>
            (HasKey(r.textures.value, k) <==>
               exists t :: t in host.textures && t.id == k && t.id != StripHash(t.link)))
      && ((forall t :: t in host.textures ==> t.id == StripHash(t.link)) ==> r.textures.None?)
  {
    var textures := TextureMap(host.textures, comp.textures, true);
    TextureMapKeys(host.textures, comp.textures, true, k);
    if ListsId(host.textures, comp.textures, true, k) {
      var i :| 0 <= i < |host.textures| && host.textures[i].id == k && Listed(host.textures[i], comp.textures, true);
      assert host.textures[i] in host.textures;
    }
    if |textures| >= 1 {
      TextureMapKeys(host.textures, comp.textures, true, textures[0].0);
      var i :| 0 <= i < |host.textures| && host.textures[i].id == textures[0].0 && Listed(host.textures[i], comp.textures, true);
      assert host.textures[i] in host.textures;
    }
  }

  /** `components`: each top-level group's walked component under the group's name; cubes at the top level are skipped. */
  function Components(root: seq<Node>, host: Host, options: Options): (r: Entries<Lists>)
    ensures DistinctKeys(r)
    decreases |root|
  {
    if |root| == 0 then []
    else
      var n := |root| - 1;
      var before := Components(root[..n], host, options);
      match root[n]
      case Group(name, origin, children) => Put(before, name, Walk(EMPTY, children, origin, host, options))
      case CubeNode(_) => before
  }

  /** Some top-level group is named k. */
  predicate GroupNamed(root: seq<Node>, k: string) {
    exists i :: 0 <= i < |root| && root[i].Group? && root[i].name == k
  }

  lemma GroupNamedSnoc(root: seq<Node>, k: string)
    requires |root| > 0
    ensures var n := |root| - 1;
      GroupNamed(root, k) <==> GroupNamed(root[..n], k) || (root[n].Group? && root[n].name == k)
  {
    var n := |root| - 1;
    if GroupNamed(root, k) {
      var i :| 0 <= i < |root| && root[i].Group? && root[i].name == k;
      if i < n { assert root[..n][i] == root[i]; }
    }
    if GroupNamed(root[..n], k) {
      var i :| 0 <= i < n && root[..n][i].Group? && root[..n][i].name == k;
      assert root[i] == root[..n][i];
    }
  }

  /** There is a component for exactly each name of a top-level group. */
  lemma {:induction false} ComponentsKeys(root: seq<Node>, host: Host, options: Options, k: string)
    ensures HasKey(Components(root, host, options), k) <==> GroupNamed(root, k)
    decreases |root|
  {
    if |root| > 0 {
      var n := |root| - 1;
      ComponentsKeys(root[..n], host, options, k);
      GroupNamedSnoc(root, k);
      match root[n]
      case Group(name, origin, children) =>
        PutHasKey(Components(root[..n], host, options), name, Walk(EMPTY, children, origin, host, options), k);
      case CubeNode(_) =>
    }
  }

  /** The names of the top-level groups in `Outliner.root` order, repeats included. */
  function GroupNames(root: seq<Node>): seq<string>
    decreases |root|
  {
    if |root| == 0 then []
    else
      var n := |root| - 1;
      GroupNames(root[..n]) + match root[n] case Group(name, _, _) => [name] case CubeNode(_) => []
  }

  /** The components are keyed by the top-level group names, in the order each name first occurs. */
  lemma {:induction false} ComponentsOrder(root: seq<Node>, host: Host, options: Options)
    ensures Keys(Components(root, host, options)) == FirstOccurrences(GroupNames(root))
    decreases |root|
  {
    if |root| > 0 {
      var n := |root| - 1;
      ComponentsOrder(root[..n], host, options);
      match root[n]
      case Group(name, origin, children) =>
        PutAppendsKey(Components(root[..n], host, options), name, Walk(EMPTY, children, origin, host, options), GroupNames(root[..n]));
      case CubeNode(_) =>
        assert GroupNames(root) == GroupNames(root[..n]);
    }
  }

  /** Two top-level groups of one name share a key, and the last one's walk is what stays. */
  lemma {:induction false} ComponentsValue(root: seq<Node>, host: Host, options: Options, i: nat)
    requires i < |root| && root[i].Group?
    requires forall j :: i < j < |root| && root[j].Group? ==> root[j].name != root[i].name
    ensures Get(Components(root, host, options), root[i].name) ==
      Some(Walk(EMPTY, root[i].children, root[i].origin, host, options))
    decreases |root|
  {
    var n := |root| - 1;
    if i < n {
      assert root[..n][i] == root[i];
      ComponentsValue(root[..n], host, options, i);
    }
  }

  /** `blockmodels`: each component's block model, as the compile event leaves it, under the component's key. */
  function Documents(components: Entries<Lists>, host: Host, options: Options, hook: Document -> Document): (r: Entries<Document>)
    ensures DistinctKeys(r)
    decreases |components|
  {
    if |components| == 0 then []
    else
      var n := |components| - 1;
      var (key, comp) := components[n];
      Put(Documents(components[..n], host, options, hook), key, hook(Assemble(key, comp, host, options)))
  }

  /** Each component gets its own block model under its own key, and no other key appears. */
  lemma {:induction false} DocumentsMatch(components: Entries<Lists>, host: Host, options: Options, hook: Document -> Document, k: string)
    requires DistinctKeys(components)
    ensures Get(Documents(components, host, options, hook), k) ==
      match Get(components, k)
      case Some(comp) => Some(hook(Assemble(k, comp, host, options)))
      case None => None
    decreases |components|
  {
    if |components| > 0 {
      var n := |components| - 1;
      var prefix, last := components[..n], components[n];
      assert components == prefix + [last];
      assert DistinctKeys(prefix);
      assert !HasKey(prefix, last.0);
      GetAppend(prefix, last, k);
      DocumentsMatch(prefix, host, options, hook, k);
    }
  }

  /** `blockmodels` is assigned the component keys in turn. */
  lemma {:induction false} DocumentsKeys(components: Entries<Lists>, host: Host, options: Options, hook: Document -> Document)
    ensures Keys(Documents(components, host, options, hook)) == FirstOccurrences(Keys(components))
    decreases |components|
  {
    if |components| > 0 {
      var n := |components| - 1;
      var prefix, key := components[..n], components[n].0;
      var doc := hook(Assemble(key, components[n].1, host, options));
      var before := Documents(prefix, host, options, hook);
      assert components == prefix + [components[n]];
      calc {
        Keys(Documents(components, host, options, hook));
        Keys(Put(before, key, doc));
        { DocumentsKeys(prefix, host, options, hook); PutAppendsKey(before, key, doc, Keys(prefix)); }
        FirstOccurrences(Keys(prefix) + [key]);
        { KeysSnoc(prefix, components[n]); }
        FirstOccurrences(Keys(components));
      }
    }
  }

  /** With distinct component keys, `blockmodels` takes its keys in exactly the order of `components`. */
  lemma DocumentsOrder(components: Entries<Lists>, host: Host, options: Options, hook: Document -> Document)
    requires DistinctKeys(components)
    ensures Keys(Documents(components, host, options, hook)) == Keys(components)
  {
    DocumentsKeys(components, host, options, hook);
    FirstOccurrencesOfDistinct(Keys(components));
  }

  /** What `compile(options)` returns. */
  function CompileSpec(root: seq<Node>, host: Host, options: Options, hook: Document -> Document): Entries<Document> {
    Documents(Components(root, host, options), host, options, hook)
  }

  /**
   * The result has one block model per top-level group name, and under each
   * name the model of the last top-level group with that name, walked from
   * its own origin.
   */
  lemma CompileResult(root: seq<Node>, host: Host, options: Options, hook: Document -> Document, i: nat)
    requires i < |root| && root[i].Group?
    requires forall j :: i < j < |root| && root[j].Group? ==> root[j].name != root[i].name
    ensures DistinctKeys(CompileSpec(root, host, options, hook))
    ensures forall k :: HasKey(CompileSpec(root, host, options, hook), k) <==> GroupNamed(root, k)
    // in the order each name first occurs among the top-level groups
    ensures Keys(CompileSpec(root, host, options, hook)) == FirstOccurrences(GroupNames(root))
    ensures Get(CompileSpec(root, host, options, hook), root[i].name) ==
      Some(hook(Assemble(root[i].name, Walk(EMPTY, root[i].children, root[i].origin, host, options), host, options)))
  {
    var components := Components(root, host, options);
    ComponentsOrder(root, host, options);
    DocumentsOrder(components, host, options, hook);
    ComponentsValue(root, host, options, i);
    DocumentsMatch(components, host, options, hook, root[i].name);
    forall k
      ensures HasKey(CompileSpec(root, host, options, hook), k) <==> GroupNamed(root, k)
    {
      ComponentsKeys(root, host, options, k);
      DocumentsMatch(components, host, options, hook, k);
    }
  }

  /** The loop over `Outliner.root` that builds `components`, walking each top-level group into a fresh component. */
  method BuildComponents(root: seq<Node>, host: Host, options: Options) returns (components: Entries<Lists>)
    ensures components == Components(root, host, options)
  {
    components := [];
    for i := 0 to |root|
      invariant components == Components(root[..i], host, options)
    {
      assert root[..i + 1][..i] == root[..i];
      match root[i]
      case Group(name, origin, children) =>
        var c := new Component();
        Iterate(c, origin, children, host, options);
        components := Put(components, name, c.State());
      case CubeNode(_) =>
    }
    assert root[..|root|] == root;
  }

  /** The `Texture.all.forEach` loop that fills `textures`. */
  method BuildTextures(all: seq<Texture>, used: seq<Texture>, texturesOnly: bool) returns (textures: Entries<string>)
    ensures textures == TextureMap(all, used, texturesOnly)
  {
    textures := [];
    for i := 0 to |all|
      invariant textures == TextureMap(all[..i], used, texturesOnly)
    {
      assert all[..i + 1][..i] == all[..i];
      var t := all[i];
      if !(t in used) && !texturesOnly {
        continue;
      }
      if t.id != StripHash(t.link) {
        textures := Put(textures, t.id, t.link);
      }
    }
    assert all[..|all|] == all;
  }

  /** The loop over `DisplayMode.slots` that fills `new_display` and counts its entries. */
  method BuildDisplay(slots: seq<string>, settings: map<string, DisplaySetting>) returns (display: Entries<DisplayData>, entries: nat)
    ensures display == DisplayMap(slots, settings)
    // the counter is non-zero exactly when the map has an entry
    ensures entries > 0 <==> |display| > 0
  {
    display, entries := [], 0;
    for i := 0 to |slots|
      invariant display == DisplayMap(slots[..i], settings)
      invariant entries > 0 <==> |display| > 0
    {
      assert slots[..i + 1][..i] == slots[..i];
      var slot := slots[i];
      if Exports(settings, slot) {
        display := Put(display, slot, settings[slot].data);
        assert HasKey(display, slot);
        entries := entries + 1;
      }
    }
    assert slots[..|slots|] == slots;
  }

  /** The body of the loop over `components`: builds `blockmodel` field by field. */
  method AssembleDocument(key: string, comp: Lists, host: Host, options: Options) returns (blockmodel: Document)
    ensures blockmodel == Assemble(key, comp, host, options)
  {
    ghost var expected := Assemble(key, comp, host, options);
    var isTexturesOnlyModel := |comp.elements| == 0;
    var textures := BuildTextures(host.textures, comp.textures, isTexturesOnlyModel);
    assert expected.textures == if CheckExport(options.textures, |textures| >= 1) then Some(textures) else None;
    var credit, ambientOcclusion, texturesField, elements, guiLight, display := None, None, None, None, None, None;
    if CheckExport(options.comment, host.credit != "") {
      credit := Some(host.credit);
    }
    if CheckExport(options.ambientOcclusion, !host.ambientOcclusion) {
      ambientOcclusion := Some(false);
    }
    if CheckExport(options.textures, |textures| >= 1) {
      texturesField := Some(textures);
    }
    if CheckExport(options.elements, |comp.elements| >= 1) {
      elements := Some(comp.elements);
    }
    if CheckExport(options.frontGuiLight, host.frontGuiLight) {
      guiLight := Some("front");
    }
    if CheckExport(options.display, |host.displaySettings| >= 1 && options.itemModel == Some(key)) {
      var newDisplay, entries := BuildDisplay(host.displaySlots, host.displaySettings);
      if entries > 0 {
        display := Some(newDisplay);
      }
    }
    blockmodel := Document(credit, ambientOcclusion, texturesField, elements, guiLight, display);
  }

  /** `compile(options)`, with the compile event's listeners as hook. */
  method Compile(root: seq<Node>, host: Host, options: Options, hook: Document -> Document) returns (blockmodels: Entries<Document>)
    ensures blockmodels == CompileSpec(root, host, options, hook)
  {
    var components := BuildComponents(root, host, options);
    blockmodels := [];
    for i := 0 to |components|
      invariant blockmodels == Documents(components[..i], host, options, hook)
    {
      assert components[..i + 1][..i] == components[..i];
      var (key, comp) := components[i];
      var blockmodel := AssembleDocument(key, comp, host, options);
      blockmodels := Put(blockmodels, key, hook(blockmodel));
    }
    assert components[..|components|] == components;
  }
}
