/**
 * The post renderer of components/posts/postContent/postContent.tsx: the
 * markdown converter's `p` and `code` overrides, the theme-dependent
 * highlighter palette and the header image path. The active theme is an
 * explicit parameter. A paragraph with no children makes the `p` override
 * read `tagName` of `undefined`, which throws; rendering then yields `None`.
 */
module PostContent {
  import opened Wrappers
  import opened Markdown

  /** `theme === "dark" ? contentDark : contentLight`. */
  function ContentClass(theme: string): (c: string)
    ensures c == "contentDark" <==> theme == "dark"
    ensures c == "contentLight" <==> theme != "dark"
  {
    if theme == "dark" then "contentDark" else "contentLight"
  }

  /** `getEditorStyle`: xonokai for the dark theme, okaidia for every other value. */
  function EditorStyle(theme: string): (s: Style)
    ensures s == Xonokai <==> theme == "dark"
    ensures s == Okaidia <==> theme != "dark"
  {
    if theme == "dark" then Xonokai else Okaidia
  }

  /** The header image `/assets/img/posts/<slug>/<post.image>`. */
  function HeaderImagePath(slug: string, image: string): (p: string)
    ensures AssetDir(slug) <= p && p[|AssetDir(slug)|..] == image
  {
    AssetDir(slug) + image
  }

  /** The image embed that replaces a paragraph opening with an image. */
  function ImageEmbed(slug: string, src: string, alt: string): (o: Out)
    ensures o.ElementOut? && o.tag == "div" && |o.children| == 1
    ensures var img := o.children[0];
      && img.ImageOut?
      && AssetDir(slug) <= img.src && img.src[|AssetDir(slug)|..] == src
      && img.alt == alt
      && img.width == 600 && img.height == 300
  {
    ElementOut("div", "imageContainer", [ImageOut(AssetDir(slug) + src, alt, ImageWidth, ImageHeight, "image")])
  }

  /** The first piece of a code node's text (`children[0]`); nothing when there is none. */
  function Snippet(children: seq<string>): string
  {
    if children == [] then "" else children[0]
  }

  /** `customRenderer.code`: a copy button beside the highlighted first child. */
  function RenderCode(theme: string, language: string, children: seq<string>): (o: Out)
    ensures TextContent(o) == Snippet(children)
    ensures o.ElementOut? && |o.children| == 2
    ensures o.children[1] == HighlightOut(EditorStyle(theme), language, Snippet(children))
  {
    var button := ElementOut("button", "copyBtn", [ElementOut("i", "fa-solid fa-copy", [])]);
    var highlighted := HighlightOut(EditorStyle(theme), language, Snippet(children));
    assert TextContentAll([highlighted]) == Snippet(children);
    assert TextContent(button) == "" by {
      assert TextContentAll([ElementOut("i", "fa-solid fa-copy", [])]) == "";
    }
    ElementOut("div", "relative", [button, highlighted])
  }

  /** Converts one node, applying the `p` and `code` overrides at any depth. */
  function Render(theme: string, slug: string, n: Node): Option<Out>
    decreases n, 1
  {
    match n
    case Para(cs) =>
      if cs == [] then None  // `node.children[0].tagName` throws
      else if cs[0].Img? then Some(ImageEmbed(slug, cs[0].src, cs[0].alt))
      else
        var rs := RenderAll(theme, slug, cs);
        if rs.None? then None else Some(ElementOut("p", ContentClass(theme), rs.value))
    case Img(src, alt) => Some(RawImage(src, alt))
    case Code(language, children) => Some(RenderCode(theme, language, children))
    case Element(tag, cs) =>
      var rs := RenderAll(theme, slug, cs);
      if rs.None? then None else Some(ElementOut(tag, "", rs.value))
    case Text(t) => Some(TextOut(t))
  }

  function RenderAll(theme: string, slug: string, ns: seq<Node>): (r: Option<seq<Out>>)
    ensures r.Some? ==> |r.value| == |ns|
    decreases ns, 0
  {
    if ns == [] then Some([])
    else
      var first := Render(theme, slug, ns[0]);
      var rest := RenderAll(theme, slug, ns[1..]);
      if first.None? || rest.None? then None else Some([first.value] + rest.value)
  }

  /** The post view: an article holding the header and the converted body. */
  function RenderPost(theme: string, slug: string, title: string, image: string, body: seq<Node>): Option<Out>
  {
    var rs := RenderAll(theme, slug, body);
    if rs.None? then None
    else Some(ElementOut("article", "content " + ContentClass(theme), [
      HeaderOut(title, HeaderImagePath(slug, image)),
      ElementOut("markdown", ContentClass(theme), rs.value)]))
  }

  // ---------------------------------------------------------------------------
  // Properties

  /**
   * Only `children[0]` is inspected: a paragraph opening with an image becomes
   * the 600x300 embed of that image, and whatever follows it is dropped.
   */
  lemma ImageParagraph(theme: string, slug: string, src: string, alt: string, rest: seq<Node>)
    ensures var o := Render(theme, slug, Para([Img(src, alt)] + rest));
      && o == Render(theme, slug, Para([Img(src, alt)]))
      && o.Some? && o.value.children[0].ImageOut?
      && var img := o.value.children[0];
      && img.src == AssetDir(slug) + src && img.alt == alt
      && img.width == ImageWidth && img.height == ImageHeight
  {
  }

  /** Any other non-empty paragraph keeps its rendered children; only its class follows the theme. */
  lemma PlainParagraph(theme: string, slug: string, cs: seq<Node>)
    requires cs != [] && !cs[0].Img?
    ensures var o := Render(theme, slug, Para(cs));
      var rs := RenderAll(theme, slug, cs);
      && (o.Some? <==> rs.Some?)
      && (o.Some? ==> (
        && o.value.ElementOut? && o.value.tag == "p" && o.value.children == rs.value
        && o.value.cls in {"contentDark", "contentLight"}))
  {
  }

  /** A paragraph of text alone is emitted with exactly that text. */
  lemma TextParagraph(theme: string, slug: string, t: string)
    ensures Render(theme, slug, Para([Text(t)])).Some?
    ensures TextContent(Render(theme, slug, Para([Text(t)])).value) == t
  {
    assert [Text(t)][1..] == [];
    assert RenderAll(theme, slug, [Text(t)][1..]) == Some([]);
    assert Render(theme, slug, [Text(t)][0]) == Some(TextOut(t));
    assert [TextOut(t)] + [] == [TextOut(t)];
    assert RenderAll(theme, slug, [Text(t)]) == Some([TextOut(t)]);
    assert TextContentAll([TextOut(t)]) == t;
  }

  /** The example of a tagged code block: its copyable text is exactly the snippet. */
  lemma CodeBlockExample(theme: string, slug: string)
    ensures var o := Render(theme, slug, Code("js", ["const x = 1;"]));
      o.Some? && TextContent(o.value) == "const x = 1;"
      && o.value.children[1].HighlightOut? && o.value.children[1].language == "js"
  {
  }

  /** The example of an image paragraph with slug "my-post". */
  lemma ImageParagraphExample(theme: string)
    ensures Render(theme, "my-post", Para([Img("foo.png", "bar")]))
      == Some(ElementOut("div", "imageContainer",
                         [ImageOut("/assets/img/posts/my-post/foo.png", "bar", 600, 300, "image")]))
  {
    assert AssetDir("my-post") + "foo.png" == "/assets/img/posts/my-post/foo.png";
  }

  /**
   * Switching theme changes class names and the highlighter palette only:
   * the rendered structure, text, image sources and alternative texts agree.
   */
  lemma {:induction false} ThemeOnlyRestyles(t1: string, t2: string, slug: string, n: Node)
    ensures Render(t1, slug, n).Some? <==> Render(t2, slug, n).Some?
    ensures Render(t1, slug, n).Some? ==>
      Erase(Render(t1, slug, n).value) == Erase(Render(t2, slug, n).value)
    decreases n, 1
  {
    match n
    case Para(cs) =>
      if cs != [] && !cs[0].Img? { ThemeOnlyRestylesAll(t1, t2, slug, cs); }
    case Img(_, _) =>
    case Code(language, children) =>
      var c1 := RenderCode(t1, language, children).children;
      var c2 := RenderCode(t2, language, children).children;
      assert EraseAll(c1) == EraseAll(c2) by {
        assert Erase(c1[0]) == Erase(c2[0]) && Erase(c1[1]) == Erase(c2[1]);
      }
    case Element(tag, cs) => ThemeOnlyRestylesAll(t1, t2, slug, cs);
    case Text(_) =>
  }

  lemma {:induction false} ThemeOnlyRestylesAll(t1: string, t2: string, slug: string, ns: seq<Node>)
    ensures RenderAll(t1, slug, ns).Some? <==> RenderAll(t2, slug, ns).Some?
    ensures RenderAll(t1, slug, ns).Some? ==>
      EraseAll(RenderAll(t1, slug, ns).value) == EraseAll(RenderAll(t2, slug, ns).value)
    decreases ns, 0
  {
    if ns != [] {
      ThemeOnlyRestyles(t1, t2, slug, ns[0]);
      ThemeOnlyRestylesAll(t1, t2, slug, ns[1..]);
      var r1 := RenderAll(t1, slug, ns);
      if r1.Some? {
        var a := Render(t1, slug, ns[0]).value;
        var b := RenderAll(t1, slug, ns[1..]).value;
        assert r1.value == [a] + b;
        assert ([a] + b)[1..] == b;
        var c := Render(t2, slug, ns[0]).value;
        var d := RenderAll(t2, slug, ns[1..]).value;
        assert ([c] + d)[1..] == d;
      }
    }
  }

  lemma ThemeOnlyRestylesPost(t1: string, t2: string, slug: string, title: string, image: string, body: seq<Node>)
    ensures RenderPost(t1, slug, title, image, body).Some? <==> RenderPost(t2, slug, title, image, body).Some?
    ensures RenderPost(t1, slug, title, image, body).Some? ==>
      Erase(RenderPost(t1, slug, title, image, body).value) == Erase(RenderPost(t2, slug, title, image, body).value)
  {
    ThemeOnlyRestylesAll(t1, t2, slug, body);
  }
}
