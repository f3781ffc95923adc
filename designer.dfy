/**
 * The layout logic of the card designer (card-designer.js): one layout per
 * rarity template, chosen from the card value, tuned field by field,
 * reordered through the layer selector and merged with an external layout
 * file whose nested objects are combined key by key.
 */
module Designer {
  import opened Wrappers
  import Text

  /** A parsed JSON value. */
  datatype Json =
    | JNull
    | JBool(b: bool)
    | JNum(r: real)
    | JStr(s: string)
    | JArr(items: seq<Json>)
    | JObj(fields: map<string, Json>)

  /** One rarity's layout: `frame`, `layers`, `name`, `suit`, `val`, `art`. */
  type Layout = map<string, Json>

  /** The whole configuration: a layout per rarity name. */
  type Config = map<string, Layout>

  // ---------------------------------------------------------------------------
  // JavaScript value semantics

  /** JavaScript truthiness (NaN is not a value of this model). */
  predicate Truthy(j: Json)
  {
    match j
    case JNull => false
    case JBool(b) => b
    case JNum(r) => r != 0.0
    case JStr(s) => s != ""
    case JArr(_) => true
    case JObj(_) => true
  }

  /** `typeof v === 'object' && !Array.isArray(v)`: an object, or `null`. */
  predicate ObjectLike(j: Json)
  {
    j.JObj? || j.JNull?
  }

  /** The own enumerable properties of a sequence: `"0"`, `"1"`, ... */
  function IndexSpread(items: seq<Json>): (m: map<string, Json>)
    ensures forall i | 0 <= i < |items| :: Text.NatToString(i) in m && m[Text.NatToString(i)] == items[i]
    decreases |items|
  {
    if |items| == 0 then map[]
    else
      var n := |items| - 1;
      var init := IndexSpread(items[..n]);
      IndexSpreadStep(items, init);
      init[Text.NatToString(n) := items[n]]
  }

  /** Adding the last item's key keeps the keys of the items before it. */
  lemma IndexSpreadStep(items: seq<Json>, init: map<string, Json>)
    requires |items| > 0
    requires forall i | 0 <= i < |items| - 1 ::
               Text.NatToString(i) in init && init[Text.NatToString(i)] == items[..|items| - 1][i]
    ensures var m := init[Text.NatToString(|items| - 1) := items[|items| - 1]];
            forall i | 0 <= i < |items| :: Text.NatToString(i) in m && m[Text.NatToString(i)] == items[i]
  {
    var n := |items| - 1;
    var m := init[Text.NatToString(n) := items[n]];
    forall i | 0 <= i < |items| ensures Text.NatToString(i) in m && m[Text.NatToString(i)] == items[i] {
      if i < n {
        Text.NatToStringInjective(i, n);
        assert items[..n][i] == items[i];
      }
    }
  }

  /** The properties `{...j}` copies: an object's fields, a string's characters or an array's items by index, nothing else. */
  function Spread(j: Json): map<string, Json>
  {
    match j
    case JObj(m) => m
    case JStr(s) => IndexSpread(seq(|s|, i requires 0 <= i < |s| => JStr([s[i]])))
    case JArr(items) => IndexSpread(items)
    case _ => map[]
  }

  // ---------------------------------------------------------------------------
  // The external layout merge

  /**
   * One property of the merge: an incoming object (or `null`) is spread over
   * a truthy default, anything else overwrites.
   */
  function MergeProp(default: Option<Json>, incoming: Json): (merged: Json)
    ensures ObjectLike(incoming) && default.Some? && Truthy(default.value) ==>
              merged == JObj(Spread(default.value) + Spread(incoming))
    ensures !(ObjectLike(incoming) && default.Some? && Truthy(default.value)) ==> merged == incoming
  {
    if ObjectLike(incoming) && default.Some? && Truthy(default.value) then
      JObj(Spread(default.value) + Spread(incoming))
    else incoming
  }

  function Lookup(layout: Layout, prop: string): Option<Json>
  {
    if prop in layout then Some(layout[prop]) else None
  }

  /** A known rarity after the merge: every incoming property merged, the others kept. */
  function MergeLayout(layout: Layout, incoming: Layout): (merged: Layout)
    ensures merged.Keys == layout.Keys + incoming.Keys
  {
    map p | p in layout.Keys + incoming.Keys ::
      if p in incoming then MergeProp(Lookup(layout, p), incoming[p]) else layout[p]
  }

  /** The merge of `loadExternalConfig`: a new rarity is inserted whole, a known one merged property-wise. */
  function MergeConfig(config: Config, data: Config): (merged: Config)
    ensures merged.Keys == config.Keys + data.Keys
  {
    map r | r in config.Keys + data.Keys ::
      if r in data then (if r in config then MergeLayout(config[r], data[r]) else data[r])
      else config[r]
  }

  /** A rarity missing from the defaults is taken from the file as it stands. */
  lemma MergeInsertsNewRarity(config: Config, data: Config, r: string)
    requires r in data && r !in config
    ensures r in MergeConfig(config, data) && MergeConfig(config, data)[r] == data[r]
  {
  }

  /** Rarities the file does not mention, and properties it does not mention, keep their defaults. */
  lemma MergeKeepsUnmentioned(config: Config, data: Config, r: string, p: string)
    requires r in config && p in config[r] && (r !in data || p !in data[r])
    ensures r in MergeConfig(config, data) && p in MergeConfig(config, data)[r]
    ensures MergeConfig(config, data)[r][p] == config[r][p]
  {
  }

  /**
   * A nested object of a known rarity is merged key by key: incoming keys win,
   * default keys the file leaves out survive.
   */
  lemma MergeNestedObject(config: Config, data: Config, r: string, p: string, key: string)
    requires r in config && r in data && p in config[r] && p in data[r]
    requires config[r][p].JObj? && data[r][p].JObj?
    ensures var merged := MergeConfig(config, data)[r][p];
            && merged == JObj(config[r][p].fields + data[r][p].fields)
            && (key in data[r][p].fields ==> merged.fields[key] == data[r][p].fields[key])
            && (key in config[r][p].fields && key !in data[r][p].fields ==> merged.fields[key] == config[r][p].fields[key])
            && (key in merged.fields <==> key in config[r][p].fields || key in data[r][p].fields)
  {
  }

  /**
   * Strings, numbers, booleans, arrays such as `layers`, and objects for
   * properties without a truthy default overwrite the default.
   */
  lemma MergeOverwrites(config: Config, data: Config, r: string, p: string)
    requires r in config && r in data && p in data[r]
    requires !ObjectLike(data[r][p]) || p !in config[r] || !Truthy(config[r][p])
    ensures p in MergeConfig(config, data)[r] && MergeConfig(config, data)[r][p] == data[r][p]
  {
  }

  /** Loading the same file twice gives the layout of loading it once. */
  lemma MergeIdempotent(config: Config, data: Config)
    ensures MergeConfig(MergeConfig(config, data), data) == MergeConfig(config, data)
  {
    var once := MergeConfig(config, data);
    forall r | r in once.Keys
      ensures MergeConfig(once, data)[r] == once[r]
    {
      if r in data {
        if r in config {
          MergeLayoutIdempotent(config[r], data[r]);
        } else {
          MergeLayoutSelf(data[r]);
        }
      }
    }
  }

  lemma MergeLayoutIdempotent(layout: Layout, incoming: Layout)
    ensures MergeLayout(MergeLayout(layout, incoming), incoming) == MergeLayout(layout, incoming)
  {
    var once := MergeLayout(layout, incoming);
    forall p | p in once.Keys
      ensures MergeLayout(once, incoming)[p] == once[p]
    {
      if p in incoming {
        MergePropIdempotent(Lookup(layout, p), incoming[p]);
      }
    }
  }

  /** Merging a layout into itself changes nothing. */
  lemma MergeLayoutSelf(layout: Layout)
    ensures MergeLayout(layout, layout) == layout
  {
    forall p | p in layout.Keys
      ensures MergeLayout(layout, layout)[p] == layout[p]
    {
      MergePropSelf(layout[p]);
    }
  }

  lemma MergePropSelf(j: Json)
    ensures MergeProp(Some(j), j) == j
  {
    if ObjectLike(j) && Truthy(j) {
      assert Spread(j) + Spread(j) == j.fields;
    }
  }

  lemma MergePropIdempotent(default: Option<Json>, incoming: Json)
    ensures MergeProp(Some(MergeProp(default, incoming)), incoming) == MergeProp(default, incoming)
  {
    var once := MergeProp(default, incoming);
    if ObjectLike(incoming) && default.Some? && Truthy(default.value) {
      assert Spread(once) + Spread(incoming) == Spread(once);
    } else {
      MergePropSelf(incoming);
    }
  }

  // ---------------------------------------------------------------------------
  // Tuning one field

  /** The configuration after `updateValue(group, key, v)` on `template`. */
  function SetField(config: Config, template: string, group: string, key: string, v: real): Config
    requires template in config && group in config[template] && config[template][group].JObj?
  {
    var layout := config[template];
    config[template := layout[group := JObj(layout[group].fields[key := JNum(v)])]]
  }

  /** A tuned field takes the new number, and every other rarity, property and field is left as it was. */
  lemma SetFieldOnlyChanges(config: Config, template: string, group: string, key: string, v: real,
                            r: string, p: string, k: string)
    requires template in config && group in config[template] && config[template][group].JObj?
    ensures var updated := SetField(config, template, group, key, v);
            && updated.Keys == config.Keys && updated[template].Keys == config[template].Keys
            && updated[template][group] == JObj(config[template][group].fields[key := JNum(v)])
            && (r in config && r != template ==> updated[r] == config[r])
            && (p in config[template] && p != group ==> updated[template][p] == config[template][p])
            && (k in config[template][group].fields && k != key ==>
                  updated[template][group].fields[k] == config[template][group].fields[k])
  {
  }

  // ---------------------------------------------------------------------------
  // Templates and layers

  datatype Template = Common | Uncommon | Rare | Boss

  function TemplateName(t: Template): string
  {
    match t
    case Common => "common"
    case Uncommon => "uncommon"
    case Rare => "rare"
    case Boss => "boss"
  }

  /** The rarity a card value calls for. */
  function TemplateFor(v: int): (t: Template)
    ensures t == Uncommon <==> 6 <= v <= 10
    ensures t == Rare <==> 11 <= v <= 14
    ensures t == Boss <==> v > 14
    ensures t == Common <==> v <= 5
  {
    if 6 <= v <= 10 then Uncommon
    else if 11 <= v <= 14 then Rare
    else if v > 14 then Boss
    else Common
  }

  /** The template after `autoSelectTemplate`, given the parsed value (`None` for NaN). */
  function Selected(current: string, v: Option<int>): (t: string)
    ensures v.None? ==> t == current
    ensures v.Some? ==> t == TemplateName(TemplateFor(v.value))
  {
    if v.None? then current else TemplateName(TemplateFor(v.value))
  }

  lemma TemplateNamesDistinct(t: Template, u: Template)
    ensures TemplateName(t) == TemplateName(u) ==> t == u
  {
  }

  /** Typing the same value again keeps the template the first one chose. */
  lemma SelectedIdempotent(current: string, v: Option<int>)
    ensures Selected(Selected(current, v), v) == Selected(current, v)
  {
  }

  datatype Layer = Art | FrameLayer | TextLayer

  /** The pass a layer name asks for; other names draw nothing. */
  function LayerNamed(j: Json): Option<Layer>
  {
    if j == JStr("art") then Some(Art)
    else if j == JStr("frame") then Some(FrameLayer)
    else if j == JStr("text") then Some(TextLayer)
    else None
  }

  function Passes(items: seq<Json>): (passes: seq<Layer>)
    ensures |passes| <= |items|
  {
    if |items| == 0 then []
    else
      var init := Passes(items[..|items| - 1]);
      var last := LayerNamed(items[|items| - 1]);
      if last.Some? then init + [last.value] else init
  }

  const DefaultLayers: seq<Json> := [JStr("art"), JStr("frame"), JStr("text")]

  /**
   * The passes `draw` makes for a template, in order: none without a layout,
   * the listed ones, or art, frame, text when `layers` is falsy; `None` when
   * `layers` is truthy but no array, where the `forEach` call throws.
   */
  function DrawOrder(config: Config, template: string): Option<seq<Layer>>
  {
    if template !in config then Some([])
    else
      var layers := if "layers" in config[template] && Truthy(config[template]["layers"])
                    then config[template]["layers"] else JArr(DefaultLayers);
      if layers.JArr? then Some(Passes(layers.items)) else None
  }

  /** `value.split(',')` as the new `layers` array. */
  function LayerList(value: string): (list: Json)
    ensures list.JArr? && |list.items| == |Text.Split(value, ',')|
  {
    JArr(seq(|Text.Split(value, ',')|, i requires 0 <= i < |Text.Split(value, ',')| => JStr(Text.Split(value, ',')[i])))
  }

  /** The passes of one list entry. */
  function PassOf(j: Json): seq<Layer>
  {
    if LayerNamed(j).Some? then [LayerNamed(j).value] else []
  }

  lemma PassesOfThree(x: Json, y: Json, z: Json)
    ensures Passes([x, y, z]) == PassOf(x) + PassOf(y) + PassOf(z)
  {
    assert [x][..0] == [];
    assert Passes([x]) == PassOf(x);
    assert [x, y][..1] == [x];
    assert Passes([x, y]) == PassOf(x) + PassOf(y);
    assert [x, y, z][..2] == [x, y];
  }

  /** Choosing the names `a`, `b`, `c` in the layer selector draws exactly those passes, in that order. */
  lemma {:induction false} LayerChoice(config: Config, template: string, a: string, b: string, c: string, value: string)
    requires template in config
    requires ',' !in a && ',' !in b && ',' !in c && value == a + "," + b + "," + c
    ensures DrawOrder(config[template := config[template]["layers" := LayerList(value)]], template)
            == Some(PassOf(JStr(a)) + PassOf(JStr(b)) + PassOf(JStr(c)))
  {
    var names := [a, b, c];
    assert names[..2][..1] == [a];
    assert Text.Join(names[..2], ',') == a + "," + b;
    assert Text.Join(names, ',') == a + "," + b + "," + c;
    Text.SplitJoin(names, ',');
    var list := LayerList(a + "," + b + "," + c);
    assert list.items == [JStr(a), JStr(b), JStr(c)];
    PassesOfThree(JStr(a), JStr(b), JStr(c));
  }

  /** The selector's "Standard" option: art behind the frame, text on top. */
  lemma StandardLayers(config: Config, template: string)
    requires template in config
    ensures DrawOrder(config[template := config[template]["layers" := LayerList("art,frame,text")]], template)
            == Some([Art, FrameLayer, TextLayer])
  {
    assert PassOf(JStr("art")) + PassOf(JStr("frame")) + PassOf(JStr("text")) == [Art, FrameLayer, TextLayer];
    LayerChoice(config, template, "art", "frame", "text", "art,frame,text");
  }

  /** The selector's "Pop-out" option: art over the frame, text on top. */
  lemma PopOutLayers(config: Config, template: string)
    requires template in config
    ensures DrawOrder(config[template := config[template]["layers" := LayerList("frame,art,text")]], template)
            == Some([FrameLayer, Art, TextLayer])
  {
    assert PassOf(JStr("frame")) + PassOf(JStr("art")) + PassOf(JStr("text")) == [FrameLayer, Art, TextLayer];
    LayerChoice(config, template, "frame", "art", "text", "frame,art,text");
  }

  /** Without a `layers` entry the art goes under the frame and the text on top. */
  lemma DefaultDrawOrder(config: Config, template: string)
    requires template in config && "layers" !in config[template]
    ensures DrawOrder(config, template) == Some([Art, FrameLayer, TextLayer])
  {
    PassesOfThree(JStr("art"), JStr("frame"), JStr("text"));
    assert PassOf(JStr("art")) + PassOf(JStr("frame")) + PassOf(JStr("text")) == [Art, FrameLayer, TextLayer];
    assert DefaultLayers == [JStr("art"), JStr("frame"), JStr("text")];
  }

  // ---------------------------------------------------------------------------
  // The defaults

  function TextStyle(x: real, y: real, size: real, color: string, stroke: string, strokeWidth: real): Json
  {
    JObj(map["x" := JNum(x), "y" := JNum(y), "size" := JNum(size), "color" := JStr(color),
             "stroke" := JStr(stroke), "strokeWidth" := JNum(strokeWidth)])
  }

  function NameStyle(y: real, size: real, color: string, stroke: string, strokeWidth: real): Json
  {
    JObj(TextStyle(385.0, y, size, color, stroke, strokeWidth).fields["font" := JStr("Cinzel")])
  }

  function DefaultLayout(frame: string, layers: seq<string>, nameY: real, nameSize: real, color: string,
                         nameStroke: string, nameStrokeWidth: real, iconSize: real, iconStrokeWidth: real,
                         artScale: real): Layout
  {
    map["frame" := JStr(frame),
        "layers" := JArr(seq(|layers|, i requires 0 <= i < |layers| => JStr(layers[i]))),
        "name" := NameStyle(nameY, nameSize, color, nameStroke, nameStrokeWidth),
        "suit" := TextStyle(100.0, 120.0, iconSize, color, "#000000", iconStrokeWidth),
        "val" := TextStyle(670.0, 120.0, iconSize, color, "#000000", iconStrokeWidth),
        "art" := JObj(map["x" := JNum(385.0), "y" := JNum(600.0), "scale" := JNum(artScale)])]
  }

  /** The built-in layouts of the four rarities. */
  function DefaultConfig(): (config: Config)
    ensures config.Keys == {"common", "uncommon", "rare", "boss"}
  {
    map["common" := DefaultLayout("assets/images/cards/card_frame_common.png", ["frame", "art", "text"],
                                  1120.0, 70.0, "#ffffff", "#000000", 6.0, 120.0, 4.0, 4.0),
        "uncommon" := DefaultLayout("assets/images/cards/card_frame_uncommon.png", ["frame", "art", "text"],
                                    1120.0, 70.0, "#ffaa00", "#000000", 6.0, 120.0, 4.0, 4.0),
        "rare" := DefaultLayout("assets/images/cards/card_frame_rare.png", ["art", "frame", "text"],
                                1120.0, 80.0, "#aa00ff", "#000000", 8.0, 130.0, 5.0, 4.5),
        "boss" := DefaultLayout("assets/images/cards/card_frame_boss.png", ["art", "frame", "text"],
                                1150.0, 90.0, "#ffd700", "#440000", 10.0, 140.0, 6.0, 5.0)]
  }

  // ---------------------------------------------------------------------------
  // The designer

  class CardDesigner {
    var currentTemplate: string
    var config: Config

    /** The designer's initial template and layouts (the external file is merged later). */
    constructor ()
      ensures currentTemplate == "common" && config == DefaultConfig()
    {
      currentTemplate := "common";
      config := DefaultConfig();
    }

    /** `autoSelectTemplate(valStr)`, with `parseInt` done by the caller. */
    method AutoSelectTemplate(v: Option<int>)
      modifies this`currentTemplate
      ensures currentTemplate == Selected(old(currentTemplate), v)
    {
      if v.None? {
        return;
      }
      var t := TemplateName(TemplateFor(v.value));
      if currentTemplate != t {
        currentTemplate := t;
      }
    }

    /** The merge loop of `loadExternalConfig`, over the parsed file. */
    method LoadExternalConfig(data: Config)
      modifies this`config
      ensures config == MergeConfig(old(config), data)
    {
      ghost var original := config;
      var todo := data.Keys;
      MergedNothing(original, data);
      while todo != {}
        invariant todo <= data.Keys
        invariant MergedSoFar(config, original, data, data.Keys - todo)
        decreases |todo|
      {
        var rarity :| rarity in todo;
        ghost var done := data.Keys - todo;
        ghost var before := config;
        LoadRarity(rarity, data[rarity]);
        MergeConfigStep(before, config, original, data, done, rarity);
        todo := todo - {rarity};
        assert data.Keys - todo == done + {rarity};
      }
      assert data.Keys - todo == data.Keys;
      MergedEverything(config, original, data);
    }

    /** One rarity of the file: merged into a known layout, or inserted whole. */
    method LoadRarity(rarity: string, incoming: Layout)
      modifies this`config
      ensures config == old(config)[rarity := if rarity in old(config) then MergeLayout(old(config)[rarity], incoming) else incoming]
    {
      if rarity in config {
        var layout := MergeRarity(config[rarity], incoming);
        config := config[rarity := layout];
      } else {
        config := config[rarity := incoming];
      }
    }

    /** One property of the merge: an object spread over a truthy old value, anything else replacing it. */
    static method MergeProperty(layout: Layout, prop: string, value: Json) returns (merged: Layout)
      ensures merged == layout[prop := if ObjectLike(value) && prop in layout && Truthy(layout[prop])
                                       then JObj(Spread(layout[prop]) + Spread(value)) else value]
    {
      if ObjectLike(value) && prop in layout && Truthy(layout[prop]) {
        merged := layout[prop := JObj(Spread(layout[prop]) + Spread(value))];
      } else {
        merged := layout[prop := value];
      }
    }

    /** The inner loop: each incoming property of one known rarity. */
    static method MergeRarity(layout: Layout, incoming: Layout) returns (merged: Layout)
      ensures merged == MergeLayout(layout, incoming)
    {
      merged := layout;
      var todo := incoming.Keys;
      LayoutNothing(layout, incoming);
      while todo != {}
        invariant todo <= incoming.Keys
        invariant LayoutSoFar(merged, layout, incoming, incoming.Keys - todo)
        decreases |todo|
      {
        var prop :| prop in todo;
        ghost var done := incoming.Keys - todo;
        ghost var before := merged;
        merged := MergeProperty(merged, prop, incoming[prop]);
        MergeLayoutStep(layout, incoming, done, prop, before, merged);
        todo := todo - {prop};
        assert incoming.Keys - todo == done + {prop};
      }
      assert incoming.Keys - todo == incoming.Keys;
      LayoutEverything(merged, layout, incoming);
    }

    /** `updateValue(group, key, val)`, with `parseFloat` done by the caller. */
    method UpdateValue(group: string, key: string, v: real)
      requires currentTemplate in config && group in config[currentTemplate]
      requires config[currentTemplate][group].JObj?
      modifies this`config
      ensures config == SetField(old(config), currentTemplate, group, key, v)
    {
      var layout := config[currentTemplate];
      var settings := layout[group].fields;
      config := config[currentTemplate := layout[group := JObj(settings[key := JNum(v)])]];
    }

    /** The `cd_layer_select` handler. */
    method SelectLayers(value: string)
      requires currentTemplate in config
      modifies this`config
      ensures config == old(config)[currentTemplate := old(config)[currentTemplate]["layers" := LayerList(value)]]
    {
      var pieces := Text.Split(value, ',');
      var list: seq<Json> := [];
      for i := 0 to |pieces|
        invariant |list| == i && forall j | 0 <= j < i :: list[j] == JStr(pieces[j])
      {
        list := list + [JStr(pieces[i])];
      }
      assert JArr(list) == LayerList(value);
      config := config[currentTemplate := config[currentTemplate]["layers" := JArr(list)]];
    }

    /** The layer loop of `draw`: the passes it makes, in order (`None` where it throws). */
    method Draw() returns (passes: Option<seq<Layer>>)
      ensures passes == DrawOrder(config, currentTemplate)
    {
      if currentTemplate !in config {
        return Some([]);
      }
      var cfg := config[currentTemplate];
      var layers := if "layers" in cfg && Truthy(cfg["layers"]) then cfg["layers"] else JArr(DefaultLayers);
      if !layers.JArr? {
        return None;
      }
      var drawn: seq<Layer> := [];
      for i := 0 to |layers.items|
        invariant drawn == Passes(layers.items[..i])
      {
        assert layers.items[..i + 1][..i] == layers.items[..i];
        var item := layers.items[i];
        if item == JStr("art") {
          drawn := drawn + [Art];
        }
        if item == JStr("frame") {
          drawn := drawn + [FrameLayer];
        }
        if item == JStr("text") {
          drawn := drawn + [TextLayer];
        }
      }
      assert layers.items[..|layers.items|] == layers.items;
      return Some(drawn);
    }
  }

  /** The part of a map on the given keys. */
  function Restrict<K, V>(m: map<K, V>, keys: set<K>): (r: map<K, V>)
    ensures r.Keys == m.Keys * keys
  {
    map k | k in m.Keys * keys :: m[k]
  }

  /** The layout after the rarities in `done` have been loaded. */
  ghost predicate MergedSoFar(config: Config, original: Config, data: Config, done: set<string>)
  {
    config == MergeConfig(original, Restrict(data, done))
  }

  lemma MergedNothing(original: Config, data: Config)
    ensures MergedSoFar(original, original, data, {})
  {
    assert Restrict(data, {}) == map[];
  }

  lemma MergedEverything(config: Config, original: Config, data: Config)
    requires MergedSoFar(config, original, data, data.Keys)
    ensures config == MergeConfig(original, data)
  {
    assert Restrict(data, data.Keys) == data;
  }

  lemma MergeConfigStep(before: Config, after: Config, original: Config, data: Config, done: set<string>, r: string)
    requires r in data && r !in done && MergedSoFar(before, original, data, done)
    requires after == before[r := if r in before then MergeLayout(before[r], data[r]) else data[r]]
    ensures MergedSoFar(after, original, data, done + {r})
  {
    var d0 := Restrict(data, done);
    var d1 := Restrict(data, done + {r});
    var target := MergeConfig(original, d1);
    assert r !in d0 && r in d1;
    assert after.Keys == target.Keys;
    forall k | k in after ensures after[k] == target[k] {
      if k != r {
        assert k in d1 <==> k in d0;
      }
    }
  }

  /** The rarity's layout after the properties in `done` have been merged. */
  ghost predicate LayoutSoFar(merged: Layout, layout: Layout, incoming: Layout, done: set<string>)
  {
    merged == MergeLayout(layout, Restrict(incoming, done))
  }

  lemma LayoutNothing(layout: Layout, incoming: Layout)
    ensures LayoutSoFar(layout, layout, incoming, {})
  {
    assert Restrict(incoming, {}) == map[];
  }

  lemma LayoutEverything(merged: Layout, layout: Layout, incoming: Layout)
    requires LayoutSoFar(merged, layout, incoming, incoming.Keys)
    ensures merged == MergeLayout(layout, incoming)
  {
    assert Restrict(incoming, incoming.Keys) == incoming;
  }

  lemma MergeLayoutStep(layout: Layout, incoming: Layout, done: set<string>, p: string, before: Layout, after: Layout)
    requires p in incoming && p !in done && LayoutSoFar(before, layout, incoming, done)
    requires var v := incoming[p];
             after == before[p := if ObjectLike(v) && p in before && Truthy(before[p])
                                  then JObj(Spread(before[p]) + Spread(v)) else v]
    ensures LayoutSoFar(after, layout, incoming, done + {p})
  {
    var d0 := Restrict(incoming, done);
    var d1 := Restrict(incoming, done + {p});
    var target := MergeLayout(layout, d1);
    assert p !in d0 && p in d1;
    assert p in before <==> p in layout;
    assert p in before ==> before[p] == layout[p];
    assert after.Keys == target.Keys;
    forall q | q in after ensures after[q] == target[q] {
      if q != p {
        assert q in d1 <==> q in d0;
      }
    }
  }
}
