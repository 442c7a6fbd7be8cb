/**
 * The markdown document tree the renderers receive (one node per markdown
 * construct, as the markdown converter hands them to its per-node callbacks)
 * and the rendered element tree they produce.
 */
module Markdown {

  /**
   * A markdown node: paragraphs, images, code blocks, any other element, and
   * text. `Element` stands only for elements other than `p`, `img` and
   * `code`: those three always take their own constructors, so an
   * `Element` is never given to an override.
   */
  datatype Node =
    | Para(children: seq<Node>)
    | Img(src: string, alt: string)
    | Code(language: string, pieces: seq<string>)
    | Element(tag: string, children: seq<Node>)
    | Text(text: string)

  /** The two highlighter palettes. */
  datatype Style = Xonokai | Okaidia

  /** A rendered element. `cls` is the CSS class, "" when there is none. */
  datatype Out =
    | TextOut(text: string)
    | ElementOut(tag: string, cls: string, children: seq<Out>)
    | ImageOut(src: string, alt: string, width: int, height: int, cls: string)
    | RawImage(src: string, alt: string)
    | HighlightOut(style: Style, language: string, text: string)
    | PlainCode(language: string, pieces: seq<string>)
    | HeaderOut(title: string, image: string)

  /** The fixed size of every embedded post image. */
  const ImageWidth := 600
  const ImageHeight := 300

  /** `/assets/img/posts/<slug>/`: where a post's images live. */
  function AssetDir(slug: string): (d: string)
    ensures |d| == |"/assets/img/posts/"| + |slug| + 1
  {
    "/assets/img/posts/" + slug + "/"
  }

  /** The text a reader can copy out of a rendered element. */
  function TextContent(o: Out): string
  {
    match o
    case TextOut(t) => t
    case ElementOut(_, _, cs) => TextContentAll(cs)
    case ImageOut(_, _, _, _, _) => ""
    case RawImage(_, _) => ""
    case HighlightOut(_, _, t) => t
    case PlainCode(_, cs) => Concat(cs)
    case HeaderOut(t, _) => t
  }

  function TextContentAll(os: seq<Out>): string
  {
    if os == [] then "" else TextContent(os[0]) + TextContentAll(os[1..])
  }

  function Concat(ss: seq<string>): string
  {
    if ss == [] then "" else ss[0] + Concat(ss[1..])
  }

  /** The same element with every class and palette reset: what a theme cannot change. */
  function Erase(o: Out): Out
  {
    match o
    case TextOut(t) => o
    case ElementOut(tag, _, cs) => ElementOut(tag, "", EraseAll(cs))
    case ImageOut(src, alt, w, h, _) => ImageOut(src, alt, w, h, "")
    case RawImage(_, _) => o
    case HighlightOut(_, lang, t) => HighlightOut(Okaidia, lang, t)
    case PlainCode(_, _) => o
    case HeaderOut(_, _) => o
  }

  function EraseAll(os: seq<Out>): (r: seq<Out>)
    ensures |r| == |os|
    ensures forall i :: 0 <= i < |os| ==> r[i] == Erase(os[i])
  {
    if os == [] then [] else [Erase(os[0])] + EraseAll(os[1..])
  }
}
