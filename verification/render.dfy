/**
 * What `renderTextInto` and `renderSections` (scripts/runtime.js) put into
 * the page body, as values: the inline styles of a text element, the
 * containers left for plugins, and the plugin jobs started in section order.
 */
module Render {
  import opened Wrappers
  import opened JsValue
  import opened Seqs
  import opened Color
  import opened ConfigNormalizer

  /** A text `div` and the inline style properties set on it (`None`: not set). */
  datatype TextElement = TextElement(
    text: string,
    color: Option<string>,
    fontWeight: Option<string>,
    textAlign: Option<string>,
    display: Option<string>,
    minHeight: Option<string>,
    alignItems: Option<string>,
    justifyContent: Option<string>)

  /**
   * `(s.style || {}).bold`. A non-empty string style has no field of its own
   * but inherits `String.prototype.bold`, a function, which is truthy.
   */
  predicate BoldRequested(style: Value) {
    var st := Or(style, Obj([]));
    (st.Str? && st.s != "") || Truthy(Get(st, "bold"))
  }

  /** `s.style && s.style.align ? s.style.align : {}` */
  function AlignOf(style: Value): Value {
    if Truthy(style) && Truthy(Get(style, "align")) then Get(style, "align") else Obj([])
  }

  /** True when `align.vertical === 'middle'`. */
  predicate MiddleAligned(style: Value) {
    Get(AlignOf(style), "vertical") == Str("middle")
  }

  /** The element `renderTextInto` builds for a text section. */
  function RenderText(content: string, color: Option<string>, style: Value): (e: TextElement)
    ensures e.text == content
    ensures e.color.Some? <==> color.Some? && color.value != ""
    ensures e.color.Some? ==> Str(e.color.value) == NormalizedColor(Str(color.value))
    ensures e.fontWeight.Some? <==> BoldRequested(style)
    ensures e.fontWeight.Some? ==> e.fontWeight.value == "700"
    ensures e.textAlign.Some? <==> Get(AlignOf(style), "horizontal") == Str("center")
    ensures e.textAlign.Some? ==> e.textAlign.value == "center"
    // the four flex properties are set together, exactly for vertical middle alignment
    ensures e.display.Some? <==> MiddleAligned(style)
    ensures e.display.Some? <==> e.minHeight.Some?
    ensures e.display.Some? <==> e.alignItems.Some?
    ensures e.display.Some? <==> e.justifyContent.Some?
    ensures e.display.Some? ==> e.display.value == "flex" && e.minHeight.value == "100vh"
                                && e.alignItems.value == "center" && e.justifyContent.value == "center"
  {
    var middle := MiddleAligned(style);
    TextElement(
      content,
      if color.Some? && color.value != "" then Some(NormalizedColor(Str(color.value)).s) else None,
      if BoldRequested(style) then Some("700") else None,
      if Get(AlignOf(style), "horizontal") == Str("center") then Some("center") else None,
      if middle then Some("flex") else None,
      if middle then Some("100vh") else None,
      if middle then Some("center") else None,
      if middle then Some("center") else None)
  }

  /** The colour a text element is given is already normalised: normalising it again changes nothing. */
  lemma AppliedColorStable(content: string, color: Option<string>, style: Value)
    requires RenderText(content, color, style).color.Some?
    ensures var c := RenderText(content, color, style).color.value;
            NormalizedColor(Str(c)) == Str(c)
  {
    NormalizeColorIdempotent(Str(color.value));
  }

  /** A hex colour on a text section is applied as `#RRGGBB`. */
  lemma HexTextColorCanonical(content: string, color: string, style: Value)
    requires IsHexColor(Trim(color))
    ensures RenderText(content, Some(color), style).color.Some?
    ensures IsCanonicalColor(RenderText(content, Some(color), style).color.value)
  {
    HexFormsCanonical(color);
  }

  /** Style keys other than `bold` and `align` have no effect on the element. */
  lemma OtherStyleKeysIgnored(content: string, color: Option<string>, fields: seq<(string, Value)>, k: string, v: Value)
    requires k != "bold" && k != "align"
    ensures RenderText(content, color, Obj(fields + [(k, v)])) == RenderText(content, color, Obj(fields))
  {
    LookupAppendOther(fields, k, v, "bold");
    LookupAppendOther(fields, k, v, "align");
  }

  /** A non-empty string given as the style makes the text bold (the inherited `bold` method). */
  lemma StringStyleIsBold(content: string, color: Option<string>, s: string)
    requires s != ""
    ensures RenderText(content, color, Str(s)).fontWeight == Some("700")
    ensures RenderText(content, color, Str(s)).textAlign.None?
    ensures RenderText(content, color, Str(s)).display.None?
  {
  }

  /** A node appended to the body: a text holder, or a container a plugin renders into. */
  datatype Node =
    | TextHolder(element: TextElement)
    | BitContainer(bit: string, id: Option<string>)

  /** A plugin render started for a named bit section, with the section's config. */
  datatype Job = Job(name: string, config: Value)

  /** `s.config && typeof s.config.id === 'string' ? s.config.id : (no id)` */
  function ContainerId(config: Value): (r: Option<string>)
    ensures r.Some? <==> Get(config, "id").Str?
    ensures r.Some? ==> Str(r.value) == Get(config, "id")
  {
    if Truthy(config) && Get(config, "id").Str? then Some(Get(config, "id").s) else None
  }

  /** The node a section appends to the body; a bit section without a name appends none. */
  function NodeFor(s: Section): (r: Option<Node>)
    ensures r.None? <==> s.Bit? && s.name == ""
    ensures r.Some? && s.Text? ==> r.value == TextHolder(RenderText(s.content, s.color, s.style))
    ensures r.Some? && s.Bit? ==> r.value == BitContainer(s.name, ContainerId(s.config))
  {
    match s
    case Text(content, color, style) => Some(TextHolder(RenderText(content, color, style)))
    case Bit(name, config) => if name == "" then None else Some(BitContainer(name, ContainerId(config)))
  }

  /** The plugin job a section starts, if any. */
  function JobFor(s: Section): (r: Option<Job>)
    ensures r.Some? <==> s.Bit? && s.name != ""
    ensures r.Some? ==> r.value == Job(s.name, s.config)
  {
    if s.Bit? && s.name != "" then Some(Job(s.name, s.config)) else None
  }

  /** The nodes `renderSections` appends, in section order. */
  function Rendered(secs: seq<Section>): seq<Node> {
    FilterMap(secs, NodeFor)
  }

  /** The jobs `renderSections` starts, in section order. */
  function Jobs(secs: seq<Section>): seq<Job> {
    FilterMap(secs, JobFor)
  }

  function ContainerName(n: Node): Option<string> {
    if n.BitContainer? then Some(n.bit) else None
  }

  function JobName(j: Job): Option<string> {
    Some(j.name)
  }

  /** The number of bit sections without a name, which render nothing. */
  function UnnamedBits(secs: seq<Section>): (r: nat)
    ensures r <= |secs|
  {
    if secs == [] then 0 else (if secs[0].Bit? && secs[0].name == "" then 1 else 0) + UnnamedBits(secs[1..])
  }

  /** Every section renders exactly one node, except the unnamed bit sections. */
  lemma {:induction false} RenderedCount(secs: seq<Section>)
    ensures |Rendered(secs)| == |secs| - UnnamedBits(secs)
  {
    if secs != [] {
      RenderedCount(secs[1..]);
    }
  }

  /**
   * One job per container, in the same order: the bits named by the
   * containers in the body are the bits of the jobs started.
   */
  lemma {:induction false} ContainersMatchJobs(secs: seq<Section>)
    ensures FilterMap(Rendered(secs), ContainerName) == FilterMap(Jobs(secs), JobName)
    ensures |FilterMap(Rendered(secs), ContainerName)| == |Jobs(secs)|
  {
    if secs == [] {
    } else {
      ContainersMatchJobs(secs[1..]);
      var head := OptionToSeq(NodeFor(secs[0]));
      var jhead := OptionToSeq(JobFor(secs[0]));
      assert Rendered(secs) == head + Rendered(secs[1..]);
      assert Jobs(secs) == jhead + Jobs(secs[1..]);
      FilterMapAppend(head, Rendered(secs[1..]), ContainerName);
      FilterMapAppend(jhead, Jobs(secs[1..]), JobName);
      assert FilterMap(head, ContainerName) == FilterMap(jhead, JobName);
    }
  }

  /** Section `i`'s node sits right after the nodes of the sections before it. */
  lemma RenderedAt(secs: seq<Section>, i: nat)
    requires i < |secs| && !(secs[i].Bit? && secs[i].name == "")
    ensures |Rendered(secs[..i])| < |Rendered(secs)|
    ensures Rendered(secs)[|Rendered(secs[..i])|] == NodeFor(secs[i]).value
  {
    FilterMapPosition(secs, i, NodeFor);
  }

  /** Section `i`'s job comes right after the jobs of the sections before it. */
  lemma JobAt(secs: seq<Section>, i: nat)
    requires i < |secs| && secs[i].Bit? && secs[i].name != ""
    ensures |Jobs(secs[..i])| < |Jobs(secs)|
    ensures Jobs(secs)[|Jobs(secs[..i])|] == Job(secs[i].name, secs[i].config)
  {
    FilterMapPosition(secs, i, JobFor);
  }
}
