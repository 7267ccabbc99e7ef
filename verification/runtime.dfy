/**
 * The plugin ("bit") state of scripts/runtime.js: the source chain
 * `bitSources`, the definition cache `bitDefCache`, the CSS-applied set
 * `bitCssApplied`, and what the runtime appends to the document. The
 * network and the YAML parser are parameters: `net(url)` is the text a
 * successful fetch of `url` returns, or `None` when the fetch fails;
 * `parse(text)` is what the YAML loader returns (`Null` when it throws).
 */
module FlashRuntime {
  import opened Wrappers
  import opened JsValue
  import opened ConfigNormalizer
  import opened SourceResolver
  import opened Render
  import opened Seqs

  /** A `<style data-bit="bit">` element in the document head. */
  datatype StyleTag = StyleTag(bit: string, css: string)

  function StyleNames(tags: seq<StyleTag>): set<string> {
    set i | 0 <= i < |tags| :: tags[i].bit
  }

  /** No two style elements belong to the same bit. */
  predicate DistinctBits(tags: seq<StyleTag>) {
    forall i, j :: 0 <= i < j < |tags| ==> tags[i].bit != tags[j].bit
  }

  /**
   * How far the fallback chain got through `paths`: every path requested
   * before the last one failed, and it stopped at the first success or after
   * the last path.
   */
  predicate FetchTrace(paths: seq<string>, net: string -> Option<string>, requested: seq<string>) {
    requested <= paths
    && (forall k :: 0 <= k < |requested| - 1 ==> net(requested[k]).None?)
    && (requested == paths || (|requested| > 0 && net(requested[|requested| - 1]).Some?))
  }

  /** The last request of the chain succeeded. */
  predicate Fetched(net: string -> Option<string>, requested: seq<string>) {
    |requested| > 0 && net(requested[|requested| - 1]).Some?
  }

  /** The style elements after `applyBitCss(name, css)`: added only for truthy CSS and a bit not yet styled. */
  function WithBitCss(tags: seq<StyleTag>, name: string, css: Value): (r: seq<StyleTag>)
    ensures tags <= r && |r| <= |tags| + 1
    ensures |r| == |tags| + 1 <==> Truthy(css) && name !in StyleNames(tags)
    ensures |r| == |tags| + 1 ==> r[|tags|] == StyleTag(name, ToStr(css))
  {
    if Truthy(css) && name !in StyleNames(tags) then tags + [StyleTag(name, ToStr(css))] else tags
  }

  /** `def.CSS || def.css` for a loaded (hence truthy) definition. */
  function CssOf(def: Value): (r: Value)
    ensures Truthy(Get(def, "CSS")) ==> r == Get(def, "CSS")
    ensures !Truthy(Get(def, "CSS")) ==> r == Get(def, "css")
    ensures !def.Obj? ==> r == Null
  {
    Or(Get(def, "CSS"), Get(def, "css"))
  }

  /** Applying CSS keeps one style element per bit. */
  lemma WithBitCssDistinct(tags: seq<StyleTag>, name: string, css: Value)
    requires DistinctBits(tags)
    ensures DistinctBits(WithBitCss(tags, name, css))
    ensures StyleNames(WithBitCss(tags, name, css)) == StyleNames(tags) + (if Truthy(css) then {name} else {})
  {
    var r := WithBitCss(tags, name, css);
    if Truthy(css) && name !in StyleNames(tags) {
      forall i | 0 <= i < |tags|
        ensures tags[i].bit != name
      {
        assert tags[i].bit in StyleNames(tags);
      }
      assert StyleNames(r) == StyleNames(tags) + {name} by {
        forall n | n in StyleNames(r)
          ensures n in StyleNames(tags) + {name}
        {
          var i :| 0 <= i < |r| && r[i].bit == n;
          if i < |tags| {
            assert tags[i].bit in StyleNames(tags);
          }
        }
        assert r[|tags|].bit == name;
        forall n | n in StyleNames(tags)
          ensures n in StyleNames(r)
        {
          var i :| 0 <= i < |tags| && tags[i].bit == n;
          assert r[i].bit == n;
        }
      }
    }
  }

  /** The first CSS applied for a bit stays: later calls for the same bit change nothing. */
  lemma FirstCssWins(tags: seq<StyleTag>, name: string, css: Value, later: Value)
    requires Truthy(css)
    ensures WithBitCss(WithBitCss(tags, name, css), name, later) == WithBitCss(tags, name, css)
  {
    var r := WithBitCss(tags, name, css);
    if name !in StyleNames(tags) {
      assert r[|tags|].bit == name;
    }
    assert name in StyleNames(r);
  }

  /** Members every object literal inherits from `Object.prototype`. */
  const ObjectPrototypeMembers: set<string> := {
    "constructor", "hasOwnProperty", "isPrototypeOf", "propertyIsEnumerable",
    "toLocaleString", "toString", "valueOf", "__proto__",
    "__defineGetter__", "__defineSetter__", "__lookupGetter__", "__lookupSetter__"
  }

  /**
   * `bitDefCache[name]` is truthy, as the runtime tests it: an own entry
   * holding a truthy definition, or an inherited member (all of them are
   * functions or objects, hence truthy).
   */
  predicate CachedAsWritten(cache: map<string, Value>, name: string) {
    (name in cache && Truthy(cache[name])) || name in ObjectPrototypeMembers
  }

  /** `bitCssApplied[name]` is truthy, as the runtime tests it. */
  predicate CssAppliedAsWritten(applied: set<string>, name: string) {
    name in applied || name in ObjectPrototypeMembers
  }

  /**
   * As written, a bit named after an inherited member counts as cached before
   * anything was loaded, so its definition is never fetched; and its CSS counts
   * as applied before any was. The corrected test (`name in cache`, used by
   * Runtime.LoadBitDefinition and Runtime.ApplyBitCss) is false for both.
   */
  lemma InheritedNamesMisread(cache: map<string, Value>, tags: seq<StyleTag>, name: string)
    requires name in ObjectPrototypeMembers
    requires name !in cache && name !in StyleNames(tags)
    ensures CachedAsWritten(cache, name)
    ensures CssAppliedAsWritten(StyleNames(tags), name)
    ensures WithBitCss(tags, name, Str("x")) == tags + [StyleTag(name, "x")]
  {
  }

  /** For a name no object inherits, the as-written tests agree with the corrected ones. */
  lemma OwnNamesReadCorrectly(cache: map<string, Value>, applied: set<string>, name: string)
    requires forall n :: n in cache ==> Truthy(cache[n])
    requires name !in ObjectPrototypeMembers
    ensures CachedAsWritten(cache, name) <==> name in cache
    ensures CssAppliedAsWritten(applied, name) <==> name in applied
  {
  }

  class Runtime {
    var sources: seq<string>
    var cache: map<string, Value>
    var cssApplied: set<string>
    var styles: seq<StyleTag>
    var body: seq<Node>

    /**
     * Cached definitions are truthy (`load(src) || {}`), and `cssApplied`
     * names exactly the bits with a style element, one element each.
     */
    ghost predicate Valid()
      reads this
    {
      (forall n :: n in cache ==> Truthy(cache[n]))
      && cssApplied == StyleNames(styles)
      && DistinctBits(styles)
    }

    /** The state when the runtime script starts. */
    constructor ()
      ensures Valid()
      ensures sources == [] && cache == map[] && cssApplied == {} && styles == [] && body == []
    {
      sources := [];
      cache := map[];
      cssApplied := {};
      styles := [];
      body := [];
    }

    /** `setBitSources(bits)` */
    method SetBitSources(bits: Value)
      requires Valid()
      modifies this`sources
      ensures Valid()
      ensures sources == ResolvedSources(bits)
    {
      sources := BuildSourceList(bits);
    }

    /**
     * `fetchBitYaml(name)`: try `name.yaml` then `name.yml` under each source,
     * in order, and give the first text fetched.
     */
    method FetchBitYaml(name: string, net: string -> Option<string>) returns (text: Option<string>, requested: seq<string>)
      ensures FetchTrace(Candidates(sources, name), net, requested)
      ensures text.Some? <==> Fetched(net, requested)
      ensures text.Some? ==> text == net(requested[|requested| - 1])
      ensures text.None? <==> forall p :: p in Candidates(sources, name) ==> net(p).None?
    {
      var paths := CandidateUrls(sources, name);
      var outcomes := seq(|paths|, i requires 0 <= i < |paths| => net(paths[i]));
      var attempts;
      text, attempts := FetchText(outcomes);
      requested := paths[..attempts];
      forall k | 0 <= k < |requested| - 1
        ensures net(requested[k]).None?
      {
        assert outcomes[k] == net(requested[k]);
      }
      if text.None? {
        forall p | p in paths
          ensures net(p).None?
        {
          var k :| 0 <= k < |paths| && paths[k] == p;
          assert outcomes[k] == net(p);
        }
      } else {
        assert net(paths[attempts - 1]).Some?;
      }
    }

    /**
     * `loadBitDefinition(name)`: a cached definition is returned without any
     * request; otherwise the definition is fetched, parsed (`{}` when the parse
     * gives nothing) and cached. A failed fetch caches nothing.
     */
    method LoadBitDefinition(name: string, net: string -> Option<string>, parse: string -> Value)
      returns (def: Option<Value>, requested: seq<string>)
      requires Valid()
      modifies this`cache
      ensures Valid()
      ensures old(name in cache) ==> def == Some(old(cache[name])) && requested == [] && cache == old(cache)
      ensures !old(name in cache) ==> FetchTrace(Candidates(sources, name), net, requested)
      ensures !old(name in cache) && sources != [] ==> requested != []
      ensures !old(name in cache) ==> (def.Some? <==> Fetched(net, requested))
      ensures !old(name in cache) && def.Some? ==>
                def.value == Or(parse(net(requested[|requested| - 1]).value), Obj([]))
                && cache == old(cache)[name := def.value]
      ensures def.None? ==> cache == old(cache) && forall p :: p in Candidates(sources, name) ==> net(p).None?
      ensures def.Some? ==> name in cache && cache[name] == def.value && Truthy(def.value)
    {
      if name in cache {
        return Some(cache[name]), [];
      }
      var text;
      text, requested := FetchBitYaml(name, net);
      if text.None? {
        return None, requested;
      }
      var parsed := Or(parse(text.value), Obj([]));
      cache := cache[name := parsed];
      def := Some(parsed);
    }

    /** `applyBitCss(name, css)`: one style element per bit, for truthy CSS only. */
    method ApplyBitCss(name: string, css: Value)
      requires Valid()
      modifies this`cssApplied, this`styles
      ensures Valid()
      ensures styles == WithBitCss(old(styles), name, css)
      ensures cssApplied == old(cssApplied) + (if Truthy(css) then {name} else {})
    {
      WithBitCssDistinct(styles, name, css);
      if !Truthy(css) || name in cssApplied {
        return;
      }
      styles := styles + [StyleTag(name, ToStr(css))];
      cssApplied := cssApplied + {name};
    }

    /**
     * `renderBitSection`: load the definition, then apply its `CSS` (or
     * `css`). A failed load is swallowed and changes nothing else.
     */
    method RenderBitSection(name: string, net: string -> Option<string>, parse: string -> Value)
      returns (def: Option<Value>, requested: seq<string>)
      requires Valid()
      modifies this`cache, this`cssApplied, this`styles
      ensures Valid()
      ensures old(name in cache) ==> def == Some(old(cache[name])) && requested == [] && cache == old(cache)
      ensures !old(name in cache) ==> FetchTrace(Candidates(sources, name), net, requested)
      ensures !old(name in cache) && sources != [] ==> requested != []
      ensures !old(name in cache) ==> (def.Some? <==> Fetched(net, requested))
      ensures !old(name in cache) && def.Some? ==>
                def.value == Or(parse(net(requested[|requested| - 1]).value), Obj([]))
                && cache == old(cache)[name := def.value]
      ensures def.Some? ==> name in cache && cache[name] == def.value
      ensures def.Some? ==> styles == WithBitCss(old(styles), name, CssOf(def.value))
      ensures cssApplied == old(cssApplied) + (if def.Some? && Truthy(CssOf(def.value)) then {name} else {})
      ensures def.None? ==> cache == old(cache) && styles == old(styles)
                            && forall p :: p in Candidates(sources, name) ==> net(p).None?
    {
      def, requested := LoadBitDefinition(name, net, parse);
      if def.Some? {
        ApplyBitCss(name, CssOf(def.value));
      }
    }

    /**
     * `renderSections(cfg)`: append a holder per text section and a container
     * per named bit section to the body, in order, and start a plugin job for
     * each container.
     */
    method RenderSections(cfg: Config) returns (jobs: seq<Job>)
      requires Valid()
      modifies this`body
      ensures Valid()
      ensures body == old(body) + Rendered(cfg.sections)
      ensures jobs == Jobs(cfg.sections)
    {
      var secs := cfg.sections;
      jobs := [];
      for i := 0 to |secs|
        invariant body == old(body) + Rendered(secs[..i])
        invariant jobs == Jobs(secs[..i])
      {
        var s := secs[i];
        assert Rendered(secs[..i + 1]) == Rendered(secs[..i]) + OptionToSeq(NodeFor(s))
            && Jobs(secs[..i + 1]) == Jobs(secs[..i]) + OptionToSeq(JobFor(s)) by {
          assert secs[..i + 1] == secs[..i] + [s];
          FilterMapSnoc(secs[..i], s, NodeFor);
          FilterMapSnoc(secs[..i], s, JobFor);
        }
        ghost var before := body;
        if s.Text? {
          body := body + [TextHolder(RenderText(s.content, s.color, s.style))];
          assert body == before + OptionToSeq(NodeFor(s));
        } else if s.Bit? && s.name != "" {
          body := body + [BitContainer(s.name, ContainerId(s.config))];
          jobs := jobs + [Job(s.name, s.config)];
          assert body == before + OptionToSeq(NodeFor(s));
        }
      }
      assert secs[..|secs|] == secs;
    }
  }
}
