/**
 * The older post renderer of components/layout/posts/postContent/postContent.tsx.
 * Only paragraphs are overridden: one whose first child is an image becomes a
 * bare 600x300 image of class `postImg`; every other node, code blocks
 * included, gets the converter's default element. There is no theme.
 */
module LegacyPostContent {
  import opened Wrappers
  import opened Markdown
  import PostContent

  /** The image that replaces a paragraph opening with an image. */
  function PostImage(slug: string, src: string, alt: string): (o: Out)
    ensures o.ImageOut? && o.cls == "postImg" && o.alt == alt
    ensures o.width == 600 && o.height == 300
    ensures AssetDir(slug) <= o.src && o.src[|AssetDir(slug)|..] == src
  {
    ImageOut(AssetDir(slug) + src, alt, ImageWidth, ImageHeight, "postImg")
  }

  /** Converts one node with the `p` override at any depth. */
  function Render(slug: string, n: Node): Option<Out>
    decreases n, 1
  {
    match n
    case Para(cs) =>
      if cs == [] then None  // `node.children[0].tagName` throws
      else if cs[0].Img? then Some(PostImage(slug, cs[0].src, cs[0].alt))
      else
        var rs := RenderAll(slug, cs);
        if rs.None? then None else Some(ElementOut("p", "", rs.value))
    case Img(src, alt) => Some(RawImage(src, alt))
    case Code(language, pieces) => Some(PlainCode(language, pieces))
    case Element(tag, cs) =>
      var rs := RenderAll(slug, cs);
      if rs.None? then None else Some(ElementOut(tag, "", rs.value))
    case Text(t) => Some(TextOut(t))
  }

  function RenderAll(slug: string, ns: seq<Node>): (r: Option<seq<Out>>)
    ensures r.Some? ==> |r.value| == |ns|
    decreases ns, 0
  {
    if ns == [] then Some([])
    else
      var first := Render(slug, ns[0]);
      var rest := RenderAll(slug, ns[1..]);
      if first.None? || rest.None? then None else Some([first.value] + rest.value)
  }

  // ---------------------------------------------------------------------------
  // Properties

  /** Only `children[0]` is inspected; the image keeps its file name and alternative text. */
  lemma ImageParagraph(slug: string, src: string, alt: string, rest: seq<Node>)
    ensures Render(slug, Para([Img(src, alt)] + rest)) == Some(PostImage(slug, src, alt))
  {
  }

  /** Any other non-empty paragraph is a plain `<p>` of its rendered children. */
  lemma PlainParagraph(slug: string, cs: seq<Node>)
    requires cs != [] && !cs[0].Img?
    ensures var o := Render(slug, Para(cs));
      var rs := RenderAll(slug, cs);
      && (o.Some? <==> rs.Some?)
      && (o.Some? ==> o.value == ElementOut("p", "", rs.value))
  {
  }

  /** A code block is not overridden: its language and text pass through to the default element. */
  lemma CodeNotOverridden(slug: string, language: string, pieces: seq<string>)
    ensures Render(slug, Code(language, pieces)) == Some(PlainCode(language, pieces))
    ensures TextContent(Render(slug, Code(language, pieces)).value) == Concat(pieces)
  {
  }

  /** No override fires anywhere in a node: no code block and no paragraph opening with an image. */
  predicate NoOverride(n: Node)
    decreases n, 1
  {
    match n
    case Para(cs) => (cs == [] || !cs[0].Img?) && NoOverrideAll(cs)
    case Img(_, _) => true
    case Code(_, _) => false
    case Element(_, cs) => NoOverrideAll(cs)
    case Text(_) => true
  }

  predicate NoOverrideAll(ns: seq<Node>)
    decreases ns, 0
  {
    ns == [] || (NoOverride(ns[0]) && NoOverrideAll(ns[1..]))
  }

  /**
   * Where neither version rewrites anything, the older and the newer renderer
   * agree on everything but class names, whatever the newer one's theme.
   */
  lemma {:induction false} AgreesWithNewer(theme: string, slug: string, n: Node)
    requires NoOverride(n)
    ensures Render(slug, n).Some? <==> PostContent.Render(theme, slug, n).Some?
    ensures Render(slug, n).Some? ==> Erase(Render(slug, n).value) == Erase(PostContent.Render(theme, slug, n).value)
    decreases n, 1
  {
    match n
    case Para(cs) => if cs != [] { AgreesWithNewerAll(theme, slug, cs); }
    case Img(_, _) =>
    case Element(_, cs) => AgreesWithNewerAll(theme, slug, cs);
    case Text(_) =>
  }

  lemma {:induction false} AgreesWithNewerAll(theme: string, slug: string, ns: seq<Node>)
    requires NoOverrideAll(ns)
    ensures RenderAll(slug, ns).Some? <==> PostContent.RenderAll(theme, slug, ns).Some?
    ensures RenderAll(slug, ns).Some? ==>
      EraseAll(RenderAll(slug, ns).value) == EraseAll(PostContent.RenderAll(theme, slug, ns).value)
    decreases ns, 0
  {
    if ns != [] {
      AgreesWithNewer(theme, slug, ns[0]);
      AgreesWithNewerAll(theme, slug, ns[1..]);
    }
  }
}
