# FLASH client runtime, modelled in Dafny

FLASH turns a YAML page description (background, metadata, a list of content
sections) into a web page. Text sections are built in. "Bit" sections are
plugins whose YAML definitions are fetched from a chain of source folders,
cached by name, and whose CSS is injected once per bit. This project models
the core of `scripts/runtime.js`:

- `normalizeColor`: `white` and 1- to 6-digit hex colours become a canonical
  `#RRGGBB` (module `Color`).
- `minimalNormalize`: an arbitrary parsed tree becomes
  `{background, metadata, sections}` (module `ConfigNormalizer`). The tree
  may use the legacy `section` map, a `sections` array of typed entries, or
  single-key shorthand entries.
- `ensureSlash` and `setBitSources`: the ordered source chain, with its
  default (module `SourceResolver`).
- `fetchBitYaml` and `fetchText`: the candidate URLs and the first-success
  fallback (modules `SourceResolver` and `FlashRuntime`).
- `loadBitDefinition`, `applyBitCss` and `renderBitSection`: the definition
  cache and the CSS-applied set (class `FlashRuntime.Runtime`).
- `renderTextInto` and `renderSections`: the style record of a text element
  and the nodes appended to the body, in order (module `Render`, and
  `FlashRuntime.Runtime`).

Parsed YAML is a `JsValue.Value`: null, booleans, integers, strings, arrays,
and objects as ordered field lists, so that `Object.keys` order is explicit.
The JavaScript operations the runtime relies on are written out: truthiness,
`typeof`, `||`, property lookup, `Object.keys`, `String(x)` and `trim`.

The network and the YAML loader are parameters. `net(url)` is the text a
successful fetch returns, or `None` for a failed one. `parse(text)` is what
the loader returns, with `Null` for a loader that throws.

Loops that the runtime writes as loops are methods. `Color.NormalizeColor`
(with `Color.ExpandDigits`), `ConfigNormalizer.MinimalNormalize`,
`SourceResolver.BuildSourceList`, `SourceResolver.CandidateUrls` and
`FlashRuntime.Runtime.RenderSections` are each proved equal to a
specification function, and the lemmas state the runtime's promises about
those functions. `SourceResolver.FetchText` has no such function: its
postcondition states the first-success property directly.

Normalising is sometimes described as idempotent. The code is not.
Re-normalising the object of a normalised config turns every bit section
into a bit named `bit`, because its `type: 'bit'` is read as the plugin name
(`ConfigNormalizer.BitSectionRenamed`). Configs whose sections are text
sections, or bits already named `bit` with a truthy config
(`ConfigNormalizer.BitNamedBitReadsBack`), come back unchanged;
`ConfigNormalizer.RenormalizeTextOnly` proves the text-only case for whole
configs.

The model follows the code in one more place where the runtime's behaviour
is sometimes described differently. A definition that fails to parse is
still accepted and cached as `{}`; the remaining candidate URLs are not tried.

## Model

| member | source | states |
|---|---|---|
| JsValue.Trim | scripts/runtime.js:12 | `trim` gives the stretch of the string between a prefix and a suffix made only of JavaScript white space and line terminators, and that stretch neither starts nor ends with one |
| JsValue.ToStr | scripts/runtime.js:55 | `String(x)` of a string is the string; of a non-negative integer the decimal digits whose value is that integer, with no leading zero; of a negative one `-` and the digits of its magnitude; of a boolean `'true'` or `'false'`; of an empty array `''`; of null `'null'`; of an object `'[object Object]'` |
| JsValue.NatToString | scripts/runtime.js:55 | the decimal digits of a natural number: their value is the number, and there is no leading zero |
| JsValue.ArrayStringJoins | scripts/runtime.js:55 | `String` of a non-empty array is its first element's string (empty for null), then, when more follow, a comma and `String` of the rest |
| JsValue.TrimIdempotent | scripts/runtime.js:12 | trimming twice is trimming once |
| JsValue.Entries | scripts/runtime.js:37 | `Object.keys` of an object lists its fields in order; of an array, one entry per element, keyed by its index in decimal and holding that element; of anything else, nothing |
| Color.NormalizedColor | scripts/runtime.js:10-25 | a value that is not a non-empty string is returned unchanged; a non-empty string always gives a string |
| Color.NormalizeColor | scripts/runtime.js:10-25 | the early return, the `white` test and the hex branch compute exactly `NormalizedColor` |
| Color.ExpandDigits | scripts/runtime.js:14-23 | the digit-doubling loop for three digits, the upper-casing for six, and the padding `while` loop for the other lengths compute exactly the six digits `Expand` gives |
| Color.HexDigitsNormalized | scripts/runtime.js:14-23 | `#` and one to six hex digits normalises to `#` and the six digits they expand to |
| Color.HexFormsCanonical | scripts/runtime.js:14-23 | every `#` plus 1 to 6 hex digits (after trimming) becomes `#` plus exactly six upper-case hex digits |
| Color.ThreeDigitsDoubled | scripts/runtime.js:14-17 | a three-digit form doubles each digit: `#abc` gives `#AABBCC` |
| Color.SixDigitsUpperCased | scripts/runtime.js:18 | a six-digit form is only upper-cased |
| Color.ShortFormsRepeatLast | scripts/runtime.js:19-23 | 1, 2, 4 and 5 digits are upper-cased and padded to six by repeating the last digit: `#1` gives `#111111` |
| Color.OtherStrings | scripts/runtime.js:11-24 | a trimmed, ASCII-case-insensitive `white` gives `#FFFFFF`; any other non-hex string is returned trimmed |
| Color.CanonicalColorFixed | scripts/runtime.js:14-23 | a canonical `#RRGGBB` normalises to itself |
| Color.NormalizeColorIdempotent | scripts/runtime.js:10-25 | normalising twice gives what normalising once gives, for every value |
| ConfigNormalizer.BackgroundOf | scripts/runtime.js:28-31 | the background colour and image are kept exactly when they are strings, and then unchanged |
| ConfigNormalizer.MetadataOf | scripts/runtime.js:32-34 | the metadata is always an object: the input's when that is an object, else `{}` |
| ConfigNormalizer.TextSection | scripts/runtime.js:40 | a text section takes `content` only when it is a string (else `''`) and `color` only when it is a string; its style is always truthy (`style \|\| {}`) |
| ConfigNormalizer.KeyedSection | scripts/runtime.js:38-43 | a key gives a text section exactly when it is `text`, and that section's style is truthy; any other key gives a bit named by the key and configured by its value |
| ConfigNormalizer.LegacySections | scripts/runtime.js:35-45 | the legacy map gives at most one section per key |
| ConfigNormalizer.ArraySections | scripts/runtime.js:46-73 | a `sections` value that is not an array gives no sections; an array gives at most one section per entry |
| ConfigNormalizer.ClassifyEntry | scripts/runtime.js:47-72 | an array entry is dropped exactly when it is falsy, not an object, or an untyped object without exactly one key |
| ConfigNormalizer.Normalize | scripts/runtime.js:26-75 | every input gives a config; background colour and image are kept exactly when they are strings; metadata is copied exactly when it is an object, else `{}`; there are at most as many sections as legacy keys plus array entries |
| ConfigNormalizer.MinimalNormalize | scripts/runtime.js:26-75 | the `push`/`continue` loops compute exactly `Normalize` |
| ConfigNormalizer.PushLegacySections | scripts/runtime.js:37-44 | the `forEach` over the keys appends exactly their sections, one per key in key order, after what came before |
| ConfigNormalizer.PushArraySections | scripts/runtime.js:46-73 | the loop over the `sections` array appends the classified entries, in array order, after what came before |
| ConfigNormalizer.LegacySectionAt | scripts/runtime.js:35-45 | the legacy sections come first, in key order: key `text` gives a text section, any other key a bit named by the key and configured by its value |
| ConfigNormalizer.ArraySectionAt | scripts/runtime.js:46-73 | array entries follow the legacy sections, in array order |
| ConfigNormalizer.ClassifyEntryCases | scripts/runtime.js:47-72 | `type: 'text'` gives a text section; another truthy `type` gives a bit named `String(type)` configured by `config \|\| options \|\| entry`; an untyped one-key entry gives a text section for `text` and otherwise a bit named by the key |
| ConfigNormalizer.TextStylesTruthy | scripts/runtime.js:35-73 | every text section of a normalised config, legacy or from the array, has a truthy style |
| ConfigNormalizer.EncodeSection | scripts/runtime.js:40-42 | the object built for a text section has `type: 'text'` and its content, colour (undefined when absent) and style; the object built for a bit has `type: 'bit'`, its name and its config |
| ConfigNormalizer.EncodeBackground | scripts/runtime.js:27-31 | the built background object has a colour and an image exactly when they were kept, with their values |
| ConfigNormalizer.EncodeConfig | scripts/runtime.js:27-34 | the built config object carries the background object, the metadata and the array of section objects, and no legacy `section` map |
| ConfigNormalizer.TextSectionReadsBack | scripts/runtime.js:49-53 | the object built for a text section with a truthy style (as every built section has) is read back as the same section |
| ConfigNormalizer.BitSectionRenamed | scripts/runtime.js:54-57 | the object built for a bit section is read back as a bit named `bit`, so it changes whenever the name is not `bit` |
| ConfigNormalizer.BitNamedBitReadsBack | scripts/runtime.js:54-57 | a bit named `bit` with a truthy config reads back as itself |
| ConfigNormalizer.TextSectionsReadBack | scripts/runtime.js:46-73 | a list of objects built for text sections with truthy styles is read back as the same list |
| ConfigNormalizer.BackgroundReadsBack | scripts/runtime.js:28-31 | the built background object is read back as the same background |
| ConfigNormalizer.SectionsReadBack | scripts/runtime.js:46-73 | the built `sections` array of text sections with truthy styles is read back unchanged |
| ConfigNormalizer.ReadsBack | scripts/runtime.js:26-75 | normalising the object built from a config with object metadata and only text sections, each with a truthy style, gives that config back |
| ConfigNormalizer.RenormalizeTextOnly | scripts/runtime.js:26-75 | normalising twice equals normalising once when every section is a text section |
| SourceResolver.EnsureSlash | scripts/runtime.js:119-122 | a non-string gives `''`; a string gets one `/` appended exactly when it does not already end in `/` |
| SourceResolver.GithubBase | scripts/runtime.js:130-137 | a GitHub object gives no base exactly when `String(repo \|\| '')` trims to the empty string (so a falsy or whitespace-only repo); a base it gives ends in `/` |
| SourceResolver.SourceBase | scripts/runtime.js:126-145 | a string entry is its own base with a slash; entries that are neither strings nor objects are skipped; a `url` string wins over every other field; with no usable `url` or GitHub object, a truthy `local` gives its own value when it is a string and otherwise `base \|\| './bits/'`, with a slash, whatever `base` holds; with no usable `url` or GitHub object and a falsy `local`, an entry is recognised exactly when `base` is a non-empty string |
| SourceResolver.ResolvedSources | scripts/runtime.js:123-153 | the chain is never empty |
| SourceResolver.BuildSourceList | scripts/runtime.js:123-153 | the loop over `bits.sources` with its `continue`s, and the default, compute exactly `ResolvedSources` |
| SourceResolver.EntryBase | scripts/runtime.js:126-145 | one pass of the loop body, with its `continue`s, pushes exactly the base `SourceBase` assigns to the entry, or nothing |
| SourceResolver.DefaultChainExact | scripts/runtime.js:148-151 | the default chain is exactly `./bits/` then `https://raw.githubusercontent.com/rhenryw/FLASH/main/bits/` |
| SourceResolver.DefaultOnlyWhenNothingRecognised | scripts/runtime.js:123-152 | the default chain is used exactly when `sources` is not an array or no entry is recognised; otherwise the chain is the recognised entries only |
| SourceResolver.SourceAt | scripts/runtime.js:125-147 | recognised entries keep their declared order, unrecognised ones are skipped |
| SourceResolver.SourceBaseShape | scripts/runtime.js:126-145 | every base ends in `/`, except the `''` of a `local` entry whose fallback `base` is not a string |
| SourceResolver.SourcesSlashTerminated | scripts/runtime.js:119-152 | every entry of the chain ends in `/` or is that `''` |
| SourceResolver.GithubEntryUsed | scripts/runtime.js:128-138 | an object entry without a `url` string but with a GitHub object whose repo is not blank takes its base from that GitHub object |
| SourceResolver.GithubBaseExpands | scripts/runtime.js:130-138 | a GitHub object with a non-blank repo expands to `https://raw.githubusercontent.com/{repo}/{ref}/{path}/` |
| SourceResolver.GithubDefaults | scripts/runtime.js:131-135 | without `ref` and `path` the GitHub object points at `/main/bits/` of the repo |
| SourceResolver.Candidates | scripts/runtime.js:154-161 | there are two candidates per base, in base order: `base + name + '.yaml'` then `base + name + '.yml'` |
| SourceResolver.CandidatesSnoc | scripts/runtime.js:156-159 | one more base adds its two candidates at the end |
| SourceResolver.CandidateUrls | scripts/runtime.js:154-159 | the `push` loop computes exactly `Candidates` |
| SourceResolver.FetchText | scripts/runtime.js:2-9 | the chain stops at the first success and returns it; every earlier attempt failed; it fails only when every outcome failed |
| Render.RenderText | scripts/runtime.js:199-214 | the text is the content; a non-empty colour is applied in its normalised form; bold exactly when `(style \|\| {}).bold` is truthy; centred text exactly for `align.horizontal === 'center'`; the four flex properties are set together, exactly for `align.vertical === 'middle'` |
| Render.AppliedColorStable | scripts/runtime.js:202 | the colour applied to a text element is a fixed point of colour normalisation |
| Render.HexTextColorCanonical | scripts/runtime.js:202 | a hex colour on a text section is applied as `#RRGGBB` |
| Render.OtherStyleKeysIgnored | scripts/runtime.js:203-207 | style keys other than `bold` and `align` do not change the element |
| Render.StringStyleIsBold | scripts/runtime.js:203-205 | a non-empty string given as the style makes the text bold, through the inherited `String.prototype.bold`, and sets no alignment |
| Render.ContainerId | scripts/runtime.js:241 | a container gets an id exactly when `config.id` is a string, and then that string |
| Render.NodeFor | scripts/runtime.js:229-245 | a section appends no node exactly when it is a bit with an empty name; a text section appends its rendered element, a bit section a container carrying its name and the id `ContainerId(config)` |
| Render.JobFor | scripts/runtime.js:238-244 | a job is started exactly for a bit section with a non-empty name, with that section's name and config |
| Render.RenderedCount | scripts/runtime.js:229-247 | one node per section, except the bit sections without a name |
| Render.RenderedAt | scripts/runtime.js:232-245 | nodes are appended in section order |
| Render.JobAt | scripts/runtime.js:238-244 | jobs are started in section order |
| Render.ContainersMatchJobs | scripts/runtime.js:229-247 | the bits named by the appended containers are the bits of the jobs, in the same order, so there are as many jobs as containers |
| FlashRuntime.WithBitCss | scripts/runtime.js:175-182 | applying CSS keeps the existing style elements and adds at most one, at the end, exactly for truthy CSS and a bit not yet styled, holding `String(css)` |
| FlashRuntime.CssOf | scripts/runtime.js:218 | a truthy `CSS` field wins; otherwise the `css` field is taken; a definition that is not an object has none |
| FlashRuntime.WithBitCssDistinct | scripts/runtime.js:175-182 | injecting CSS keeps one style element per bit, and marks the bit as applied only for truthy CSS |
| FlashRuntime.FirstCssWins | scripts/runtime.js:175-182 | once a bit's CSS is injected, later CSS for the same bit changes nothing |
| FlashRuntime.InheritedNamesMisread | scripts/runtime.js:163 | as written, a bit named after an `Object.prototype` member counts as cached and as styled before anything was stored |
| FlashRuntime.OwnNamesReadCorrectly | scripts/runtime.js:162-182 | for every other name, the truthiness tests agree with membership in the cache and the applied set |
| FlashRuntime.Runtime.constructor | scripts/runtime.js:116-118 | the runtime starts with an empty chain, cache and applied set |
| FlashRuntime.Runtime.SetBitSources | scripts/runtime.js:123-153 | the chain becomes `ResolvedSources(bits)`, and the runtime's invariant is kept |
| FlashRuntime.Runtime.FetchBitYaml | scripts/runtime.js:154-161 | the candidates are requested in order up to the first success, whose text is returned; the fetch fails exactly when every candidate fails |
| FlashRuntime.Runtime.LoadBitDefinition | scripts/runtime.js:162-174 | a cached name is answered from the cache with no request; otherwise the definition is fetched and, on success only, stored as `parse(text) \|\| {}`; a failed fetch leaves the cache unchanged |
| FlashRuntime.Runtime.ApplyBitCss | scripts/runtime.js:175-182 | a style element is added only for truthy CSS and a bit not yet styled, so there is at most one per bit |
| FlashRuntime.Runtime.RenderBitSection | scripts/runtime.js:215-228 | the definition is loaded as by `LoadBitDefinition` (cache first with no request; otherwise fetched and, on success only, stored as `parse(text) \|\| {}` with the rest of the cache unchanged); a loaded definition's `CSS \|\| css` is injected for the bit and the applied set gains the bit exactly for truthy CSS; a failed load changes neither the cache nor the styles |
| FlashRuntime.Runtime.RenderSections | scripts/runtime.js:229-247 | the body gains exactly the nodes of `Rendered(sections)`, in order, and the jobs are `Jobs(sections)` |

## Left out

- `applyBackground`, `applyMetadata`, `applyCustom` and `init` (scripts/runtime.js:76-115, 188-198, 248-270): side effects on the document head and body, outside the core.
- `executeBitJs` (scripts/runtime.js:183-187) and the script half of `applyCustom`: they run arbitrary code through `new Function`. The model treats them as doing nothing.
- FlashRuntime.Runtime.RenderBitSection: does not build the plugin context (`container`, `config`, `metadata`, `utils`) and does not run the plugin's `JS`/`js` code, because that code is arbitrary.
- FlashRuntime.Runtime.RenderSections: returns the jobs rather than starting them. In the runtime every job starts before any load finishes, so two sections naming the same uncached bit both fetch it. The model runs a job as one `RenderBitSection` call, one job at a time, and does not capture that overlap.
- `fetch`, Promises and `Promise.all`: `net` is a fixed function, so a URL gives the same outcome each time it is requested.
- `fetchText` given a single path instead of an array (scripts/runtime.js:3): the runtime always passes an array.
- YAML parsing through `window.jsyaml` and its fallbacks: a parameter. A loader that throws is modelled by `parse` returning `Null`, which the `|| {}` fallback turns into `{}`.
- JsValue.ToStr: does not model `String(x)` throwing a TypeError for an object with its own non-callable `toString` field, nor its calling an own `valueOf`: the model's values hold no functions, and every object prints as `[object Object]`. In the runtime that exception makes `minimalNormalize` throw at scripts/runtime.js:55, and the `.catch` at :263 then leaves the page unrendered. It makes `setBitSources` throw at :131-134, and :256 then installs an empty chain, so every bit has no candidate URL. It makes `textContent = css` throw at :179 inside the plugin job, so the bit is not marked as applied. `ConfigNormalizer.Normalize`, `SourceResolver.ResolvedSources` and `FlashRuntime.WithBitCss` are total on such input instead.
- Numbers are unbounded integers. Floating point and `String(x)` of fractional numbers are not modelled. Neither is the exponent form JavaScript prints for integers of 1e21 or more (`String(1e21)` is `1e+21`), nor the precision lost above 2^53: `JsValue.NatToString` prints every digit. Both can reach a bit name (scripts/runtime.js:55) and a GitHub repo, ref or path (scripts/runtime.js:131-134).
- `Object.keys` lists integer-like keys first; the model takes an object's field list to be in key order already.
- An object of the model may repeat a key, which a JavaScript object cannot. A property read (`JsValue.Get`) sees the first binding, but `JsValue.Entries` lists every binding. So a legacy `section` map with a repeated key gives one section per binding, and a one-key shorthand entry with a repeated key is dropped. For such trees the model's result differs from the runtime's.
- Strings are sequences of Unicode characters rather than UTF-16 code units. Only ASCII letters are case-mapped, which is all the colour forms contain.
- Property reads see only an object's own fields. `String.prototype.bold` is the one inherited member the runtime can read, and `Render.RenderText` accounts for it. The inherited members read through a bit's name are the subject of the finding below.
- The text holder's `id` (scripts/runtime.js:235): normalised sections never carry an `id`, so it is never set and is not modelled.
- `scripts/build.js` and `scripts/script.js`: build glue and an older page script, not part of this model.
- URL-parameter redirection, watching the mount element for changes, and frame embedding: they do not appear in scripts/runtime.js.

## Findings

| source | as written | input that shows it | evidently intended | confidence | as-written member | corrected member |
|---|---|---|---|---|---|---|
| scripts/runtime.js:163 | `bitDefCache[name]` on a plain object is also truthy for members inherited from `Object.prototype` | a bit section named `constructor` (or `toString`, `valueOf`, ...) with nothing cached: the inherited function is returned as its definition and no candidate URL is requested | only definitions the runtime stored count as cached, so the bit's YAML is fetched | not executed | FlashRuntime.InheritedNamesMisread | FlashRuntime.Runtime.LoadBitDefinition |
| scripts/runtime.js:176 | `bitCssApplied[name]` is truthy for the same inherited names | CSS for a bit named `toString` when no CSS was applied: the style element is never added. This cannot be reached while :163 stands: line 218 is the only caller, and for such a name :163 hands back the inherited member as the definition, which has no `CSS` or `css`, so `!css` returns first. The defect shows once :163 is corrected | only bits whose CSS was injected count as applied, so the CSS is injected once | not executed | FlashRuntime.InheritedNamesMisread | FlashRuntime.Runtime.ApplyBitCss |
