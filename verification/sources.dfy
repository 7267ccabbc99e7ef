/**
 * Plugin lookup locations (scripts/runtime.js): `ensureSlash`, the source
 * chain `setBitSources` derives from `bits.sources`, the candidate URLs
 * `fetchBitYaml` tries, and the first-success-wins fallback of `fetchText`.
 */
module SourceResolver {
  import opened Wrappers
  import opened JsValue
  import opened Seqs

  predicate EndsWithSlash(s: string) {
    |s| > 0 && s[|s| - 1] == '/'
  }

  /** `ensureSlash(u)`: a string gains a trailing slash unless it has one; anything else gives ''. */
  function EnsureSlash(u: Value): (r: string)
    ensures !u.Str? ==> r == ""
    ensures u.Str? ==> EndsWithSlash(r) && (r == u.s || r == u.s + "/")
    ensures u.Str? ==> (r == u.s <==> EndsWithSlash(u.s))
  {
    if !u.Str? then "" else if EndsWithSlash(u.s) then u.s else u.s + "/"
  }

  const RawGithub := "https://raw.githubusercontent.com/"

  /** The base a `github: {repo, ref, path}` object stands for, when its repo is not blank. */
  function GithubBase(gh: Value): (r: Option<string>)
    ensures !Truthy(Get(gh, "repo")) ==> r.None?
    ensures r.None? <==> Trim(ToStr(Or(Get(gh, "repo"), Str("")))) == ""
    ensures r.Some? ==> EndsWithSlash(r.value)
  {
    var repo := Trim(ToStr(Or(Get(gh, "repo"), Str(""))));
    if repo == "" then None
    else
      var ref := ToStr(Or(Get(gh, "ref"), Str("main")));
      var p := EnsureSlash(Str(ToStr(Or(Get(gh, "path"), Str("bits")))));
      Some(EnsureSlash(Str(RawGithub + repo + "/" + ref + "/" + p)))
  }

  /** The base one `bits.sources` entry contributes, if it is recognised. */
  function SourceBase(s: Value): (r: Option<string>)
    ensures s.Str? ==> r == Some(EnsureSlash(s))
    ensures !s.Obj? && !s.Str? ==> r.None?
    ensures s.Obj? && Get(s, "url").Str? && Get(s, "url") != Str("") ==> r == Some(EnsureSlash(Get(s, "url")))
    ensures s.Obj? && !(Truthy(Get(s, "url")) && Get(s, "url").Str?)
            && !(Truthy(Get(s, "github")) && IsObject(Get(s, "github")) && GithubBase(Get(s, "github")).Some?)
            && Truthy(Get(s, "local")) ==>
              r == Some(EnsureSlash(if Get(s, "local").Str? then Get(s, "local") else Or(Get(s, "base"), Str("./bits/"))))
    ensures s.Obj? && !(Truthy(Get(s, "url")) && Get(s, "url").Str?)
            && !(Truthy(Get(s, "github")) && IsObject(Get(s, "github")) && GithubBase(Get(s, "github")).Some?)
            && !Truthy(Get(s, "local")) ==>
              (r.Some? <==> Get(s, "base").Str? && Get(s, "base") != Str(""))
  {
    if s.Str? then Some(EnsureSlash(s))
    else if Truthy(s) && IsObject(s) then
      var url := Get(s, "url");
      var gh := Get(s, "github");
      var local := Get(s, "local");
      var base := Get(s, "base");
      if Truthy(url) && url.Str? then Some(EnsureSlash(url))
      else if Truthy(gh) && IsObject(gh) && GithubBase(gh).Some? then GithubBase(gh)
      else if Truthy(local) then Some(EnsureSlash(if local.Str? then local else Or(base, Str("./bits/"))))
      else if Truthy(base) && base.Str? then Some(EnsureSlash(base))
      else None
    else None
  }

  /** The chain used when no entry is recognised. */
  function DefaultSources(): seq<string> {
    [EnsureSlash(Str("./bits/")), EnsureSlash(Str("https://raw.githubusercontent.com/rhenryw/FLASH/main/bits"))]
  }

  /** The recognised entries of `bits.sources`, in declaration order. */
  function DeclaredSources(bits: Value): seq<string> {
    var srcs := Get(bits, "sources");
    if Truthy(bits) && srcs.Arr? then FilterMap(srcs.items, SourceBase) else []
  }

  /** The chain `setBitSources(bits)` installs. */
  function ResolvedSources(bits: Value): (r: seq<string>)
    ensures |r| >= 1
  {
    var declared := DeclaredSources(bits);
    if |declared| == 0 then DefaultSources() else declared
  }

  /** The loop of `setBitSources`, which builds the list it then installs. */
  method BuildSourceList(bits: Value) returns (list: seq<string>)
    ensures list == ResolvedSources(bits)
  {
    list := [];
    var srcs := Get(bits, "sources");
    if Truthy(bits) && srcs.Arr? {
      var items := srcs.items;
      for i := 0 to |items|
        invariant list == FilterMap(items[..i], SourceBase)
      {
        assert items[..i + 1] == items[..i] + [items[i]];
        FilterMapSnoc(items[..i], items[i], SourceBase);
        var base := EntryBase(items[i]);
        if base.Some? {
          list := list + [base.value];
        }
      }
      assert items[..|items|] == items;
    }
    if |list| == 0 {
      list := list + [EnsureSlash(Str("./bits/"))];
      list := list + [EnsureSlash(Str("https://raw.githubusercontent.com/rhenryw/FLASH/main/bits"))];
    }
  }

  /**
   * One pass of the loop body of `setBitSources`: the base the entry pushes,
   * or `None` where the body reaches the end without pushing. It is the
   * statement form (early exits standing for `push` + `continue`) of the
   * value `SourceBase` gives, which the functions and lemmas use; it is kept
   * out of `BuildSourceList` so that the loop's proof only needs its
   * postcondition.
   */
  method EntryBase(s: Value) returns (base: Option<string>)
    ensures base == SourceBase(s)
  {
    if s.Str? {
      return Some(EnsureSlash(s));
    }
    if Truthy(s) && IsObject(s) {
      if Truthy(Get(s, "url")) && Get(s, "url").Str? {
        return Some(EnsureSlash(Get(s, "url")));
      }
      var gh := Get(s, "github");
      if Truthy(gh) && IsObject(gh) {
        var repo := Trim(ToStr(Or(Get(gh, "repo"), Str(""))));
        if repo != "" {
          var ref := ToStr(Or(Get(gh, "ref"), Str("main")));
          var p := EnsureSlash(Str(ToStr(Or(Get(gh, "path"), Str("bits")))));
          return Some(EnsureSlash(Str(RawGithub + repo + "/" + ref + "/" + p)));
        }
      }
      if Truthy(Get(s, "local")) {
        var b := if Get(s, "local").Str? then Get(s, "local") else Or(Get(s, "base"), Str("./bits/"));
        return Some(EnsureSlash(b));
      }
      if Truthy(Get(s, "base")) && Get(s, "base").Str? {
        return Some(EnsureSlash(Get(s, "base")));
      }
    }
    return None;
  }

  /** The default chain is the local `./bits/` folder, then the project's own repository. */
  lemma DefaultChainExact()
    ensures DefaultSources() == ["./bits/", "https://raw.githubusercontent.com/rhenryw/FLASH/main/bits/"]
  {
    assert EndsWithSlash("./bits/");
    assert !EndsWithSlash("https://raw.githubusercontent.com/rhenryw/FLASH/main/bits");
    assert "https://raw.githubusercontent.com/rhenryw/FLASH/main/bits" + "/"
        == "https://raw.githubusercontent.com/rhenryw/FLASH/main/bits/";
  }

  /**
   * The default chain is used exactly when no entry is recognised; otherwise
   * the chain is the recognised entries and nothing else.
   */
  lemma DefaultOnlyWhenNothingRecognised(bits: Value)
    ensures !Get(bits, "sources").Arr? ==> ResolvedSources(bits) == DefaultSources()
    ensures Get(bits, "sources").Arr? && (forall e :: e in Get(bits, "sources").items ==> SourceBase(e).None?) ==>
      ResolvedSources(bits) == DefaultSources()
    ensures Get(bits, "sources").Arr? && (exists e :: e in Get(bits, "sources").items && SourceBase(e).Some?) ==>
      ResolvedSources(bits) == FilterMap(Get(bits, "sources").items, SourceBase)
  {
    var srcs := Get(bits, "sources");
    if srcs.Arr? {
      FilterMapEmpty(srcs.items, SourceBase);
    }
  }

  /**
   * Declaration order is kept: a recognised entry's base sits right after the
   * bases of the entries declared before it.
   */
  lemma SourceAt(bits: Value, j: nat)
    requires Get(bits, "sources").Arr?
    requires j < |Get(bits, "sources").items|
    requires SourceBase(Get(bits, "sources").items[j]).Some?
    ensures var at := |FilterMap(Get(bits, "sources").items[..j], SourceBase)|;
      at < |ResolvedSources(bits)|
      && ResolvedSources(bits)[at] == SourceBase(Get(bits, "sources").items[j]).value
  {
    FilterMapPosition(Get(bits, "sources").items, j, SourceBase);
  }

  /**
   * Every base ends in '/', except the '' that `ensureSlash` gives for a
   * `local` entry whose fallback `base` is not a string.
   */
  lemma SourceBaseShape(s: Value)
    requires SourceBase(s).Some?
    ensures SourceBase(s).value == "" || EndsWithSlash(SourceBase(s).value)
    ensures SourceBase(s).value == "" ==>
      s.Obj? && Truthy(Get(s, "local")) && !Get(s, "local").Str?
      && !Or(Get(s, "base"), Str("./bits/")).Str?
  {
  }

  lemma SourcesSlashTerminated(bits: Value, i: nat)
    requires i < |ResolvedSources(bits)|
    ensures ResolvedSources(bits)[i] == "" || EndsWithSlash(ResolvedSources(bits)[i])
  {
    var declared := DeclaredSources(bits);
    if |declared| == 0 {
      DefaultChainExact();
    } else {
      var items := Get(bits, "sources").items;
      var k := FilterMapFrom(items, SourceBase, i);
      SourceBaseShape(items[k]);
    }
  }

  /** An object entry without a `url` string but with a usable `github` object is read through `GithubBase`. */
  lemma GithubEntryUsed(s: Value)
    requires s.Obj? && !(Truthy(Get(s, "url")) && Get(s, "url").Str?)
    requires Get(s, "github").Obj? && GithubBase(Get(s, "github")).Some?
    ensures SourceBase(s) == GithubBase(Get(s, "github"))
  {
    assert Truthy(s) && IsObject(s);
    assert Truthy(Get(s, "github")) && IsObject(Get(s, "github"));
  }

  /**
   * A GitHub object with a non-blank repo expands to
   * `https://raw.githubusercontent.com/{repo}/{ref}/{path}/`; the outer
   * `ensureSlash` adds nothing, since the path already ends in '/'.
   */
  lemma GithubBaseExpands(gh: Value)
    requires Trim(ToStr(Or(Get(gh, "repo"), Str("")))) != ""
    ensures GithubBase(gh) == Some(RawGithub + Trim(ToStr(Or(Get(gh, "repo"), Str("")))) + "/"
                                   + ToStr(Or(Get(gh, "ref"), Str("main"))) + "/"
                                   + EnsureSlash(Str(ToStr(Or(Get(gh, "path"), Str("bits"))))))
  {
    var p := EnsureSlash(Str(ToStr(Or(Get(gh, "path"), Str("bits")))));
    var full := RawGithub + Trim(ToStr(Or(Get(gh, "repo"), Str("")))) + "/"
                + ToStr(Or(Get(gh, "ref"), Str("main"))) + "/" + p;
    assert full[|full| - 1] == p[|p| - 1];
  }

  lemma MainBitsSuffix(prefix: string)
    ensures prefix + "/" + "main" + "/" + "bits/" == prefix + "/main/bits/"
  {
  }

  /** Without `ref` and `path`, a GitHub object points at the `bits` folder of `main`. */
  lemma GithubDefaults(gh: Value, repo: string)
    requires Get(gh, "repo") == Str(repo) && Trim(repo) != ""
    requires Get(gh, "ref") == Null && Get(gh, "path") == Null
    ensures GithubBase(gh) == Some(RawGithub + Trim(repo) + "/main/bits/")
  {
    GithubBaseExpands(gh);
    assert ToStr(Or(Get(gh, "repo"), Str(""))) == repo;
    assert ToStr(Or(Get(gh, "ref"), Str("main"))) == "main";
    assert EnsureSlash(Str(ToStr(Or(Get(gh, "path"), Str("bits"))))) == "bits/";
    MainBitsSuffix(RawGithub + Trim(repo));
  }

  /**
   * The URLs `fetchBitYaml(name)` tries: for each base in order,
   * `base + name + '.yaml'` and then `base + name + '.yml'`.
   */
  function Candidates(sources: seq<string>, name: string): (r: seq<string>)
    ensures |r| == 2 * |sources|
    ensures forall i :: 0 <= i < |sources| ==>
      r[2 * i] == sources[i] + name + ".yaml" && r[2 * i + 1] == sources[i] + name + ".yml"
  {
    if sources == [] then []
    else
      var rest := Candidates(sources[1..], name);
      assert forall i :: 1 <= i < |sources| ==> sources[i] == sources[1..][i - 1];
      [sources[0] + name + ".yaml", sources[0] + name + ".yml"] + rest
  }

  lemma {:induction false} CandidatesSnoc(sources: seq<string>, base: string, name: string)
    ensures Candidates(sources + [base], name) == Candidates(sources, name) + [base + name + ".yaml", base + name + ".yml"]
  {
    if sources != [] {
      assert (sources + [base])[1..] == sources[1..] + [base];
      CandidatesSnoc(sources[1..], base, name);
    } else {
      assert sources + [base] == [base];
    }
  }

  /** The loop of `fetchBitYaml` that builds its list of paths. */
  method CandidateUrls(sources: seq<string>, name: string) returns (paths: seq<string>)
    ensures paths == Candidates(sources, name)
  {
    paths := [];
    for i := 0 to |sources|
      invariant paths == Candidates(sources[..i], name)
    {
      assert sources[..i + 1] == sources[..i] + [sources[i]];
      CandidatesSnoc(sources[..i], sources[i], name);
      paths := paths + [sources[i] + name + ".yaml"];
      paths := paths + [sources[i] + name + ".yml"];
    }
    assert sources[..|sources|] == sources;
  }

  /**
   * `fetchText(paths)` given the outcome of fetching each path in order
   * (`None` for a network error or a status that is not ok): each stage of
   * the promise chain runs only when the one before it failed, so the result
   * is the first success, and it fails only when every path failed.
   * `attempts` is how many fetches were issued.
   */
  method FetchText(outcomes: seq<Option<string>>) returns (r: Option<string>, attempts: nat)
    ensures attempts <= |outcomes|
    ensures forall k :: 0 <= k < attempts - 1 ==> outcomes[k].None?
    ensures r.Some? ==> 0 < attempts && outcomes[attempts - 1] == r
    ensures r.None? ==> attempts == |outcomes| && forall k :: 0 <= k < |outcomes| ==> outcomes[k].None?
  {
    r := None;
    attempts := 0;
    for i := 0 to |outcomes|
      invariant attempts <= i
      invariant forall k :: 0 <= k < attempts - 1 ==> outcomes[k].None?
      invariant r.Some? ==> 0 < attempts && outcomes[attempts - 1] == r
      invariant r.None? ==> attempts == i && forall k :: 0 <= k < i ==> outcomes[k].None?
    {
      if r.None? {
        attempts := attempts + 1;
        r := outcomes[i];
      }
    }
  }
}
