/**
 * `minimalNormalize` (scripts/runtime.js): any parsed document becomes
 * `{background, metadata, sections}`. Sections come first from the legacy
 * `section` map, in key order, then from the `sections` array, in array
 * order; an array entry may be `{type: 'text', ...}`, `{type: <name>, ...}`
 * or a single-key shorthand.
 */
module ConfigNormalizer {
  import opened Wrappers
  import opened JsValue
  import opened Seqs

  datatype Background = Background(color: Option<string>, image: Option<string>)

  datatype Section =
    | Text(content: string, color: Option<string>, style: Value)
    | Bit(name: string, config: Value)

  datatype Config = Config(background: Background, metadata: Value, sections: seq<Section>)

  /** `typeof v[key] === 'string' ? v[key] : undefined` */
  function StringField(v: Value, key: string): Option<string> {
    if Get(v, key).Str? then Some(Get(v, key).s) else None
  }

  /** The `background` of the result: colour and image only when they are strings. */
  function BackgroundOf(cfg: Value): (r: Background)
    ensures r.color.Some? <==> Get(Get(cfg, "background"), "color").Str?
    ensures r.color.Some? ==> r.color.value == Get(Get(cfg, "background"), "color").s
    ensures r.image.Some? <==> Get(Get(cfg, "background"), "image").Str?
    ensures r.image.Some? ==> r.image.value == Get(Get(cfg, "background"), "image").s
  {
    var bg := Get(cfg, "background");
    if Truthy(cfg) && Truthy(bg) then Background(StringField(bg, "color"), StringField(bg, "image"))
    else Background(None, None)
  }

  /** The `metadata` of the result: copied only when it is an object (or array). */
  function MetadataOf(cfg: Value): (r: Value)
    ensures IsObject(r)
    ensures IsObject(Get(cfg, "metadata")) ==> r == Get(cfg, "metadata")
    ensures !IsObject(Get(cfg, "metadata")) ==> r == Obj([])
  {
    var m := Get(cfg, "metadata");
    if Truthy(cfg) && Truthy(m) && IsObject(m) then m else Obj([])
  }

  /** The text section the runtime pushes for a text object `t`. */
  function TextSection(t: Value): (r: Section)
    ensures r.Text?
    ensures Get(t, "content").Str? ==> r.content == Get(t, "content").s
    ensures !Get(t, "content").Str? ==> r.content == ""
    ensures Get(t, "color").Str? <==> r.color.Some?
    ensures r.color.Some? ==> r.color.value == Get(t, "color").s
    ensures Truthy(r.style)
  {
    Text(if Get(t, "content").Str? then Get(t, "content").s else "",
         StringField(t, "color"),
         Or(Get(t, "style"), Obj([])))
  }

  /** A key and its value, in the legacy map or as a one-key shorthand entry. */
  function KeyedSection(key: string, v: Value): (r: Section)
    ensures r.Text? <==> key == "text"
    ensures r.Text? ==> Truthy(r.style)
    ensures r.Bit? ==> r == Bit(key, v)
  {
    if key == "text" then TextSection(Or(v, Obj([]))) else Bit(key, v)
  }

  /** One section per key, in key order. */
  function KeyedSections(es: seq<(string, Value)>): (r: seq<Section>)
    ensures |r| == |es| && forall i :: 0 <= i < |es| ==> r[i] == KeyedSection(es[i].0, es[i].1)
  {
    seq(|es|, i requires 0 <= i < |es| => KeyedSection(es[i].0, es[i].1))
  }

  /** The sections of the legacy `section` map, one per key. */
  function LegacySections(cfg: Value): (r: seq<Section>)
    ensures |r| <= |Entries(Get(cfg, "section"))|
  {
    var sec := Get(cfg, "section");
    if Truthy(cfg) && Truthy(sec) && IsObject(sec) then KeyedSections(Entries(sec)) else []
  }

  /** The section one entry of the `sections` array contributes, if any. */
  function ClassifyEntry(s: Value): (r: Option<Section>)
    ensures r.None? <==> !Truthy(s) || !IsObject(s) || (!Truthy(Get(s, "type")) && |Entries(s)| != 1)
    ensures r.Some? && r.value.Text? ==> Truthy(r.value.style)
  {
    if !Truthy(s) then None
    else if IsObject(s) && Get(s, "type") == Str("text") then Some(TextSection(s))
    else if IsObject(s) && Truthy(Get(s, "type")) then
      Some(Bit(ToStr(Get(s, "type")), Or(Or(Get(s, "config"), Get(s, "options")), s)))
    else if IsObject(s) && |Entries(s)| == 1 then Some(KeyedSection(Entries(s)[0].0, Entries(s)[0].1))
    else None
  }

  /** The sections of the `sections` array. */
  function ArraySections(cfg: Value): (r: seq<Section>)
    ensures |r| <= ArrayLength(cfg)
    ensures !Get(cfg, "sections").Arr? ==> r == []
  {
    var xs := Get(cfg, "sections");
    if xs.Arr? then FilterMap(xs.items, ClassifyEntry) else []
  }

  /** The number of entries of the `sections` array, 0 when it is not an array. */
  function ArrayLength(cfg: Value): nat {
    var xs := Get(cfg, "sections");
    if xs.Arr? then |xs.items| else 0
  }

  /** What `minimalNormalize(cfg)` returns. */
  function Normalize(cfg: Value): (r: Config)
    ensures r.background.color.Some? <==> Get(Get(cfg, "background"), "color").Str?
    ensures r.background.color.Some? ==> r.background.color.value == Get(Get(cfg, "background"), "color").s
    ensures r.background.image.Some? <==> Get(Get(cfg, "background"), "image").Str?
    ensures r.background.image.Some? ==> r.background.image.value == Get(Get(cfg, "background"), "image").s
    ensures IsObject(r.metadata)
    ensures IsObject(Get(cfg, "metadata")) ==> r.metadata == Get(cfg, "metadata")
    ensures !IsObject(Get(cfg, "metadata")) ==> r.metadata == Obj([])
    ensures |r.sections| <= |Entries(Get(cfg, "section"))| + ArrayLength(cfg)
  {
    Config(BackgroundOf(cfg), MetadataOf(cfg), LegacySections(cfg) + ArraySections(cfg))
  }

  /** `minimalNormalize`, with the runtime's loops. */
  method MinimalNormalize(cfg: Value) returns (r: Config)
    ensures r == Normalize(cfg)
  {
    var background := Background(None, None);
    var metadata := Obj([]);
    var sections: seq<Section> := [];
    if Truthy(cfg) && Truthy(Get(cfg, "background")) {
      var bg := Get(cfg, "background");
      background := Background(StringField(bg, "color"), StringField(bg, "image"));
    }
    assert background == BackgroundOf(cfg);
    if Truthy(cfg) && Truthy(Get(cfg, "metadata")) && IsObject(Get(cfg, "metadata")) {
      metadata := Get(cfg, "metadata");
    }
    assert metadata == MetadataOf(cfg);
    var sec := Get(cfg, "section");
    if Truthy(cfg) && Truthy(sec) && IsObject(sec) {
      sections := PushLegacySections(sections, Entries(sec));
    }
    assert sections == LegacySections(cfg);
    var xs := Get(cfg, "sections");
    if xs.Arr? {
      sections := PushArraySections(sections, xs.items);
    }
    assert sections == LegacySections(cfg) + ArraySections(cfg);
    r := Config(background, metadata, sections);
  }

  /** The `Object.keys(section).forEach` block: one section per key, in key order. */
  method PushLegacySections(acc: seq<Section>, keys: seq<(string, Value)>) returns (sections: seq<Section>)
    ensures sections == acc + KeyedSections(keys)
  {
    sections := acc;
    for i := 0 to |keys|
      invariant sections == acc + KeyedSections(keys[..i])
    {
      var k, v := keys[i].0, keys[i].1;
      assert KeyedSections(keys[..i + 1]) == KeyedSections(keys[..i]) + [KeyedSection(k, v)];
      if k == "text" {
        sections := sections + [TextSection(Or(v, Obj([])))];
      } else {
        sections := sections + [Bit(k, v)];
      }
    }
    assert keys[..|keys|] == keys;
  }

  /** The `for (const s of cfg.sections)` block: each entry's section, if any, in order. */
  method PushArraySections(acc: seq<Section>, items: seq<Value>) returns (sections: seq<Section>)
    ensures sections == acc + FilterMap(items, ClassifyEntry)
  {
    sections := acc;
    for i := 0 to |items|
      invariant sections == acc + FilterMap(items[..i], ClassifyEntry)
    {
      var s := items[i];
      ghost var next := sections + OptionToSeq(ClassifyEntry(s));
      assert next == acc + FilterMap(items[..i + 1], ClassifyEntry) by {
        assert items[..i + 1] == items[..i] + [s];
        FilterMapSnoc(items[..i], s, ClassifyEntry);
      }
      if !Truthy(s) {
        continue;
      }
      if IsObject(s) && Get(s, "type") == Str("text") {
        sections := sections + [TextSection(s)];
        continue;
      }
      if IsObject(s) && Truthy(Get(s, "type")) && Get(s, "type") != Str("text") {
        var name := ToStr(Get(s, "type"));
        var conf := Or(Or(Get(s, "config"), Get(s, "options")), s);
        sections := sections + [Bit(name, conf)];
        continue;
      }
      if IsObject(s) {
        var keys := Entries(s);
        if |keys| == 1 {
          var name := keys[0].0;
          if name == "text" {
            sections := sections + [TextSection(Or(keys[0].1, Obj([])))];
          } else {
            sections := sections + [Bit(name, keys[0].1)];
          }
        }
      }
    }
    assert items[..|items|] == items;
  }

  /**
   * The legacy map comes first, one section per key in key order: the key
   * `text` gives a text section, any other key a bit named by the key whose
   * configuration is the key's value.
   */
  lemma LegacySectionAt(cfg: Value, i: nat)
    requires Truthy(Get(cfg, "section")) && IsObject(Get(cfg, "section"))
    requires i < |Entries(Get(cfg, "section"))|
    ensures i < |Normalize(cfg).sections|
    ensures var (k, v) := Entries(Get(cfg, "section"))[i];
      && (k == "text" ==> Normalize(cfg).sections[i] == TextSection(Or(v, Obj([]))))
      && (k != "text" ==> Normalize(cfg).sections[i] == Bit(k, v))
  {
    assert Truthy(cfg);
  }

  /**
   * The `sections` array follows, in array order: an entry that gives a
   * section sits right after the legacy sections and the sections of the
   * entries before it.
   */
  lemma ArraySectionAt(cfg: Value, j: nat)
    requires Get(cfg, "sections").Arr?
    requires j < |Get(cfg, "sections").items|
    requires ClassifyEntry(Get(cfg, "sections").items[j]).Some?
    ensures var at := |LegacySections(cfg)| + |FilterMap(Get(cfg, "sections").items[..j], ClassifyEntry)|;
      at < |Normalize(cfg).sections|
      && Normalize(cfg).sections[at] == ClassifyEntry(Get(cfg, "sections").items[j]).value
  {
    FilterMapPosition(Get(cfg, "sections").items, j, ClassifyEntry);
  }

  /**
   * How an array entry is read: `type: 'text'` gives a text section with the
   * entry's own fields; any other truthy `type` gives a bit named
   * `String(type)` configured by `config || options || entry`; an untyped
   * one-key object gives a text section for the key `text`, otherwise a bit
   * named by its key.
   */
  lemma ClassifyEntryCases(s: Value)
    requires IsObject(s)
    ensures Get(s, "type") == Str("text") ==> ClassifyEntry(s) == Some(TextSection(s))
    ensures Truthy(Get(s, "type")) && Get(s, "type") != Str("text") ==>
      ClassifyEntry(s) == Some(Bit(ToStr(Get(s, "type")), Or(Or(Get(s, "config"), Get(s, "options")), s)))
    ensures !Truthy(Get(s, "type")) && |Entries(s)| == 1 && Entries(s)[0].0 == "text" ==>
      ClassifyEntry(s) == Some(TextSection(Or(Entries(s)[0].1, Obj([]))))
    ensures !Truthy(Get(s, "type")) && |Entries(s)| == 1 && Entries(s)[0].0 != "text" ==>
      ClassifyEntry(s) == Some(Bit(Entries(s)[0].0, Entries(s)[0].1))
  {
  }

  /** Every text section in `secs` has a truthy style. */
  predicate TextStylesAllTruthy(secs: seq<Section>) {
    forall i :: 0 <= i < |secs| && secs[i].Text? ==> Truthy(secs[i].style)
  }

  /** Every text section of a normalised config carries a truthy style. */
  lemma TextStylesTruthy(cfg: Value)
    ensures TextStylesAllTruthy(Normalize(cfg).sections)
  {
    var legacy := LegacySections(cfg);
    var arr := ArraySections(cfg);
    assert TextStylesAllTruthy(legacy);
    assert TextStylesAllTruthy(arr) by {
      var xs := Get(cfg, "sections");
      if xs.Arr? {
        forall j | 0 <= j < |arr| && arr[j].Text?
          ensures Truthy(arr[j].style)
        {
          var k := FilterMapFrom(xs.items, ClassifyEntry, j);
        }
      }
    }
    assert Normalize(cfg).sections == legacy + arr;
  }

  /** The object the runtime builds for a normalised section. */
  function EncodeSection(sec: Section): (r: Value)
    ensures r.Obj? && Get(r, "type") == Str(if sec.Text? then "text" else "bit")
    ensures sec.Text? ==> Get(r, "content") == Str(sec.content) && Get(r, "style") == sec.style
                          && (Get(r, "color") == if sec.color.Some? then Str(sec.color.value) else Null)
    ensures sec.Bit? ==> Get(r, "name") == Str(sec.name) && Get(r, "config") == sec.config
  {
    match sec
    case Text(content, color, style) =>
      var fs := [("type", Str("text")), ("content", Str(content)),
                 ("color", if color.Some? then Str(color.value) else Null), ("style", style)];
      LookupFirst(fs, "content", 1);
      LookupFirst(fs, "color", 2);
      LookupFirst(fs, "style", 3);
      Obj(fs)
    case Bit(name, config) =>
      var fs := [("type", Str("bit")), ("name", Str(name)), ("config", config)];
      LookupFirst(fs, "name", 1);
      LookupFirst(fs, "config", 2);
      Obj(fs)
  }

  function EncodeSections(secs: seq<Section>): (r: seq<Value>)
    ensures |r| == |secs| && forall i :: 0 <= i < |secs| ==> r[i] == EncodeSection(secs[i])
  {
    seq(|secs|, i requires 0 <= i < |secs| => EncodeSection(secs[i]))
  }

  /** The `background` object the runtime builds: only the fields that were kept. */
  function EncodeBackground(bg: Background): (r: Value)
    ensures r.Obj?
    ensures Get(r, "color") == if bg.color.Some? then Str(bg.color.value) else Null
    ensures Get(r, "image") == if bg.image.Some? then Str(bg.image.value) else Null
  {
    var fs := (if bg.color.Some? then [("color", Str(bg.color.value))] else [])
            + (if bg.image.Some? then [("image", Str(bg.image.value))] else []);
    BackgroundFieldsFound(bg, fs);
    Obj(fs)
  }

  lemma BackgroundFieldsFound(bg: Background, fs: seq<(string, Value)>)
    requires fs == (if bg.color.Some? then [("color", Str(bg.color.value))] else [])
                 + (if bg.image.Some? then [("image", Str(bg.image.value))] else [])
    ensures Lookup(fs, "color") == if bg.color.Some? then Str(bg.color.value) else Null
    ensures Lookup(fs, "image") == if bg.image.Some? then Str(bg.image.value) else Null
  {
    if bg.color.Some? {
      LookupFirst(fs, "color", 0);
    } else {
      LookupAbsent(fs, "color");
    }
    if bg.image.Some? {
      LookupFirst(fs, "image", |fs| - 1);
    } else {
      LookupAbsent(fs, "image");
    }
  }

  /** The object the runtime builds for a normalised config. */
  function EncodeConfig(c: Config): (r: Value)
    ensures r.Obj? && Get(r, "metadata") == c.metadata
    ensures Get(r, "sections").Arr? && Get(r, "sections").items == EncodeSections(c.sections)
    ensures Get(r, "background") == EncodeBackground(c.background)
    ensures Get(r, "section") == Null
  {
    var fs := [("background", EncodeBackground(c.background)), ("metadata", c.metadata),
               ("sections", Arr(EncodeSections(c.sections)))];
    LookupAbsent(fs, "section");
    LookupFirst(fs, "metadata", 1);
    LookupFirst(fs, "sections", 2);
    Obj(fs)
  }

  /** A text section with a truthy style reads back as itself. */
  lemma TextSectionReadsBack(sec: Section)
    requires sec.Text? && Truthy(sec.style)
    ensures ClassifyEntry(EncodeSection(sec)) == Some(sec)
  {
    var e := EncodeSection(sec);
    assert ClassifyEntry(e) == Some(TextSection(e));
    assert TextSection(e) == sec;
  }

  /**
   * A bit section does not: it reads back as a bit named `bit`, so
   * normalising is not idempotent once a bit is named anything else.
   */
  lemma BitSectionRenamed(name: string, config: Value)
    ensures ClassifyEntry(EncodeSection(Bit(name, config)))
         == Some(Bit("bit", Or(config, EncodeSection(Bit(name, config)))))
    ensures name != "bit" ==> ClassifyEntry(EncodeSection(Bit(name, config))) != Some(Bit(name, config))
  {
    var e := EncodeSection(Bit(name, config));
    assert Get(e, "options") == Null by {
      LookupAbsent(e.fields, "options");
    }
    assert Or(Or(Get(e, "config"), Get(e, "options")), e) == Or(config, e);
    ClassifyEntryCases(e);
  }

  /** A bit that is already named `bit` and has a truthy config does read back as itself. */
  lemma BitNamedBitReadsBack(config: Value)
    requires Truthy(config)
    ensures ClassifyEntry(EncodeSection(Bit("bit", config))) == Some(Bit("bit", config))
  {
    BitSectionRenamed("bit", config);
  }

  lemma TextSectionsReadBack(secs: seq<Section>)
    requires forall i :: 0 <= i < |secs| ==> secs[i].Text? && Truthy(secs[i].style)
    ensures FilterMap(EncodeSections(secs), ClassifyEntry) == secs
  {
    var enc := EncodeSections(secs);
    forall i | 0 <= i < |secs|
      ensures ClassifyEntry(enc[i]) == Some(secs[i])
    {
      TextSectionReadsBack(secs[i]);
    }
    FilterMapAllSome(enc, ClassifyEntry, secs);
  }

  /** The encoded background reads back as itself. */
  lemma BackgroundReadsBack(c: Config)
    ensures BackgroundOf(EncodeConfig(c)) == c.background
  {
    var bg := Get(EncodeConfig(c), "background");
    assert Get(bg, "color") == if c.background.color.Some? then Str(c.background.color.value) else Null;
    assert Get(bg, "image") == if c.background.image.Some? then Str(c.background.image.value) else Null;
  }

  /** Encoded text sections read back as themselves. */
  lemma SectionsReadBack(c: Config)
    requires forall i :: 0 <= i < |c.sections| ==> c.sections[i].Text? && Truthy(c.sections[i].style)
    ensures ArraySections(EncodeConfig(c)) == c.sections
  {
    var e := EncodeConfig(c);
    LookupFirst(e.fields, "sections", 2);
    TextSectionsReadBack(c.sections);
  }

  /**
   * A config whose metadata is an object and whose sections are text
   * sections with truthy styles is what normalising its object gives.
   */
  lemma ReadsBack(c: Config)
    requires IsObject(c.metadata)
    requires forall i :: 0 <= i < |c.sections| ==> c.sections[i].Text? && Truthy(c.sections[i].style)
    ensures Normalize(EncodeConfig(c)) == c
  {
    var e := EncodeConfig(c);
    SectionsReadBack(c);
    BackgroundReadsBack(c);
    assert LegacySections(e) == [];
    assert MetadataOf(e) == c.metadata;
    assert ArraySections(e) == c.sections;
  }

  /** Normalising the object of a normalised config with only text sections changes nothing. */
  lemma RenormalizeTextOnly(cfg: Value)
    requires forall i :: 0 <= i < |Normalize(cfg).sections| ==> Normalize(cfg).sections[i].Text?
    ensures Normalize(EncodeConfig(Normalize(cfg))) == Normalize(cfg)
  {
    TextStylesTruthy(cfg);
    ReadsBack(Normalize(cfg));
  }
}
