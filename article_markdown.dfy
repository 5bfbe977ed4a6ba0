/** app/components/Article.tsx: the Markdown element overrides (direction and
    alignment of paragraphs, headings and lists, the "~/" image source rewrite,
    external-link isolation) and the article header. A class attribute is
    modelled as its sequence of space-separated tokens. */
module ArticleMarkdown {
  import opened TextUtil
  import LibUtils

  /** One child node the Markdown renderer passes to an override. */
  datatype Child = Text(s: string) | Element

  /** The `children` prop: absent, a single node, or an array of nodes. */
  datatype Children = NoChildren | Single(child: Child) | Many(items: seq<Child>)

  datatype Dir = Ltr | Rtl

  /** A rendered block element: its `dir` attribute and its class tokens. */
  datatype Block = Block(dir: Dir, classes: seq<string>)

  function DirOf(rtl: bool): (d: Dir)
    ensures d == Rtl <==> rtl
  {
    if rtl then Rtl else Ltr
  }

  /** The alignment token that goes with a direction. */
  function AlignFor(d: Dir): string {
    if d == Rtl then "text-right" else "text-left"
  }

  /** A block is aligned with its direction: it carries the alignment token of its
      `dir` and not the opposite one. */
  predicate Aligned(b: Block) {
    (b.dir == Rtl <==> "text-right" in b.classes) && (b.dir == Ltr <==> "text-left" in b.classes)
  }

  /** A block carries no alignment token at all. */
  predicate Unaligned(b: Block) {
    "text-right" !in b.classes && "text-left" !in b.classes
  }

  /** The string a node turns into under `toString()`. */
  function ChildText(c: Child): string {
    match c
    case Text(s) => s
    case Element => "[object Object]"
  }

  /** Array.prototype.toString: the items' strings joined with ",". */
  function JoinChildren(cs: seq<Child>): (r: string)
    ensures cs == [] ==> r == ""
    ensures |cs| == 1 ==> r == ChildText(cs[0])
    ensures |cs| > 1 ==> r == ChildText(cs[0]) + "," + JoinChildren(cs[1..])
  {
    if cs == [] then ""
    else if |cs| == 1 then ChildText(cs[0])
    else ChildText(cs[0]) + "," + JoinChildren(cs[1..])
  }

  /** `children?.toString() || ""` */
  function HeadingText(children: Children): string {
    match children
    case NoChildren => ""
    case Single(c) => ChildText(c)
    case Many(cs) => JoinChildren(cs)
  }

  /** p: right-to-left iff containsArabic(children), aligned to match. */
  function Paragraph(children: Children, containsArabic: Children -> bool): (b: Block)
    ensures b.dir == Rtl <==> containsArabic(children)
    ensures Aligned(b) && "mb-4" in b.classes
  {
    var d := DirOf(containsArabic(children));
    Block(d, ["mb-4", AlignFor(d)])
  }

  /** h1, h2, h3: right-to-left iff the children's text starts with an Arabic
      character; h2 and h3 align with the direction, h1 has no alignment. */
  function Heading(level: nat, children: Children): (b: Block)
    requires 1 <= level <= 3
    ensures b.dir == Rtl <==> LibUtils.StartsWithArabic(HeadingText(children))
    ensures level == 1 ==> Unaligned(b)
    ensures level != 1 ==> Aligned(b)
  {
    var d := DirOf(LibUtils.StartsWithArabic(HeadingText(children)));
    if level == 1 then Block(d, ["text-4xl", "font-bold", "mb-6", "text-foreground", "border-b", "pb-2", "border-border"])
    else if level == 2 then Block(d, ["text-3xl", "font-bold", "mb-3", AlignFor(d)])
    else Block(d, ["text-2xl", "font-bold", "mb-2", AlignFor(d)])
  }

  /** The text of the first child when it is a string, else "". */
  function FirstChildText(children: Children): string {
    match children
    case NoChildren => ""
    case Single(c) => if c.Text? then c.s else ""
    case Many(cs) => if cs != [] && cs[0].Text? then cs[0].s else ""
  }

  /** A list block: right-to-left lists indent on the right and align right,
      left-to-right ones indent on the left and align left. */
  function ListBlock(kind: string, rtl: bool): (b: Block)
    requires kind == "list-disc" || kind == "list-decimal"
    ensures b.dir == Rtl <==> rtl
    ensures Aligned(b) && kind in b.classes
    ensures b.dir == Rtl ==> "mr-6" in b.classes && "ml-6" !in b.classes
    ensures b.dir == Ltr ==> "ml-6" in b.classes && "mr-6" !in b.classes
  {
    if rtl then Block(Rtl, [kind, "mr-6", "text-right", "mb-4"])
    else Block(Ltr, [kind, "ml-6", "text-left", "mb-4"])
  }

  /** ul: right-to-left iff its first child is a string starting with Arabic, or
      containsArabic(children); right-to-left lists indent on the right. */
  function UnorderedList(children: Children, containsArabic: Children -> bool): (b: Block)
    ensures b.dir == Rtl <==> LibUtils.StartsWithArabic(FirstChildText(children)) || containsArabic(children)
    ensures Aligned(b) && "list-disc" in b.classes
    ensures b.dir == Rtl ==> "mr-6" in b.classes && "ml-6" !in b.classes
    ensures b.dir == Ltr ==> "ml-6" in b.classes && "mr-6" !in b.classes
  {
    ListBlock("list-disc", LibUtils.StartsWithArabic(FirstChildText(children)) || containsArabic(children))
  }

  /** ol: right-to-left iff containsArabic(children), indented like ul. */
  function OrderedList(children: Children, containsArabic: Children -> bool): (b: Block)
    ensures b.dir == Rtl <==> containsArabic(children)
    ensures Aligned(b) && "list-decimal" in b.classes
    ensures b.dir == Rtl ==> "mr-6" in b.classes && "ml-6" !in b.classes
    ensures b.dir == Ltr ==> "ml-6" in b.classes && "mr-6" !in b.classes
  {
    ListBlock("list-decimal", containsArabic(children))
  }

  /** li: right-to-left iff containsArabic(children); its only token is the alignment. */
  function ListItem(children: Children, containsArabic: Children -> bool): (b: Block)
    ensures b.dir == Rtl <==> containsArabic(children)
    ensures Aligned(b) && |b.classes| == 1
  {
    var d := DirOf(containsArabic(children));
    Block(d, [AlignFor(d)])
  }

  /** A list whose first item text starts with Arabic is right-to-left whatever
      containsArabic says about the whole list. */
  lemma {:induction false} ArabicFirstItemList(first: string, rest: seq<Child>, containsArabic: Children -> bool)
    requires LibUtils.StartsWithArabic(first)
    ensures UnorderedList(Many([Text(first)] + rest), containsArabic).dir == Rtl
    ensures UnorderedList(Single(Text(first)), containsArabic).dir == Rtl
  {
    assert FirstChildText(Many([Text(first)] + rest)) == first;
  }

  /** A heading made of one text node takes its direction from that text's first
      visible character; leading whitespace does not count. */
  lemma {:induction false} HeadingOfText(level: nat, s: string)
    requires 1 <= level <= 3
    ensures Heading(level, Single(Text(s))).dir == Rtl <==>
              exists i :: LibUtils.FirstVisibleAt(s, i) && LibUtils.IsArabic(s[i])
  {
    assert HeadingText(Single(Text(s))) == s;
  }

  /** A heading whose first node is an element renders its text as
      "[object Object]…", which is never right-to-left. */
  lemma {:induction false} ElementHeadingIsLtr(level: nat, rest: seq<Child>)
    requires 1 <= level <= 3
    ensures Heading(level, Single(Element)).dir == Ltr
    ensures Heading(level, Many([Element] + rest)).dir == Ltr
  {
    var t := "[object Object]";
    assert LibUtils.FirstVisibleAt(t, 0);
    LibUtils.TrimFirstChar(t);
    var m := Many([Element] + rest);
    var u := HeadingText(m);
    assert u[..|t|] == t;
    assert LibUtils.FirstVisibleAt(u, 0);
    LibUtils.TrimFirstChar(u);
  }

  /** img: a source starting with "~/" is rewritten to BASE_URL followed by the
      source without its "~"; any other source, or none, is kept. */
  function ImageSrc(src: Option<string>, baseUrl: string): (r: Option<string>)
    ensures src.Some? && StartsWith(src.value, "~/") ==>
              r.Some? && StartsWith(r.value, baseUrl + "/") && r.value[|baseUrl|..] == src.value[1..]
    ensures !(src.Some? && StartsWith(src.value, "~/")) ==> r == src
  {
    if src.Some? && StartsWith(src.value, "~/") then Some(baseUrl + src.value[1..]) else src
  }

  /** The attributes an `a` element gets beyond its href. */
  datatype LinkAttrs = LinkAttrs(target: Option<string>, rel: Option<string>)

  /** a: links whose href starts with "http" open in a new tab without opener or
      referrer; other links get neither attribute. */
  function Link(href: Option<string>): (r: LinkAttrs)
    ensures r.target.Some? <==> href.Some? && StartsWith(href.value, "http")
    ensures r.rel.Some? <==> r.target.Some?
    ensures r.target.Some? ==> r.target.value == "_blank" && r.rel.value == "noopener noreferrer"
  {
    if href.Some? && StartsWith(href.value, "http")
    then LinkAttrs(Some("_blank"), Some("noopener noreferrer"))
    else LinkAttrs(None, None)
  }

  /** The props of the Article component that shape its header. */
  datatype ArticleProps = ArticleProps(
    title: string,
    image: Option<string>,
    description: Option<string>,
    date: Option<string>,
    author: Option<string>)

  predicate Truthy(v: Option<string>) {
    v.Some? && v.value != ""
  }

  /** What the header and the featured image show: each optional part with its
      direction where it has one. */
  datatype Header = Header(
    title: Option<Dir>,
    metaLine: bool,
    author: bool,
    separator: bool,
    date: bool,
    description: Option<Dir>,
    image: Option<string>,
    imageAlt: string)

  /** Article: the title and description are shown when non-empty and take their
      direction from startsWithArabic; the author/date line is shown when either
      is, with the separator only between both; the featured image's alt text
      falls back to "Article featured image". */
  function ArticleHeader(p: ArticleProps): (h: Header)
    ensures h.title.Some? <==> p.title != ""
    ensures h.title.Some? ==> (h.title.value == Rtl <==> LibUtils.StartsWithArabic(p.title))
    ensures h.description.Some? <==> Truthy(p.description)
    ensures h.description.Some? ==> (h.description.value == Rtl <==> LibUtils.StartsWithArabic(p.description.value))
    ensures h.separator <==> Truthy(p.author) && Truthy(p.date)
    ensures h.metaLine <==> h.author || h.date
    ensures h.author <==> Truthy(p.author)
    ensures h.date <==> Truthy(p.date)
    ensures h.image.Some? <==> Truthy(p.image)
    ensures h.image.Some? ==> h.image == p.image
    ensures p.title != "" ==> h.imageAlt == p.title
    ensures p.title == "" ==> h.imageAlt == "Article featured image"
  {
    var titleDir := DirOf(LibUtils.StartsWithArabic(p.title));
    Header(
      if p.title != "" then Some(titleDir) else None,
      Truthy(p.author) || Truthy(p.date),
      Truthy(p.author),
      Truthy(p.author) && Truthy(p.date),
      Truthy(p.date),
      if Truthy(p.description) then Some(DirOf(LibUtils.StartsWithArabic(p.description.value))) else None,
      if Truthy(p.image) then p.image else None,
      if p.title != "" then p.title else "Article featured image")
  }

  /** The separator never appears without the author and the date beside it. */
  lemma SeparatorBetween(p: ArticleProps)
    ensures ArticleHeader(p).separator ==> ArticleHeader(p).metaLine && ArticleHeader(p).author && ArticleHeader(p).date
  {
  }
}
