/** app/components/articleCard.tsx: a card linking to an article, with its
    description cut to at most 150 characters plus an ellipsis. */
module ArticleCard {
  import opened TextUtil

  const MaxDescription: nat := 150
  const Ellipsis: string := "..."

  /** The description as the card shows it. */
  function Truncate(description: string): (r: string)
    ensures |description| <= MaxDescription ==> r == description
    ensures |description| > MaxDescription ==> r == description[..MaxDescription] + Ellipsis
  {
    if |description| > MaxDescription then description[..MaxDescription] + Ellipsis else description
  }

  function Min(a: nat, b: nat): nat {
    if a <= b then a else b
  }

  /** What the card shows: never more than 153 characters, always opening with
      the first min(150, length) characters of the description. */
  lemma TruncateBounds(description: string)
    ensures |Truncate(description)| <= MaxDescription + |Ellipsis|
    ensures StartsWith(Truncate(description), description[..Min(|description|, MaxDescription)])
  {
  }

  /** A shown description is shown unchanged a second time: cutting an
      already cut description gives it back. */
  lemma {:induction false} TruncateIdempotent(description: string)
    ensures Truncate(Truncate(description)) == Truncate(description)
  {
    if |description| > MaxDescription {
      var t := description[..MaxDescription] + Ellipsis;
      assert t[..MaxDescription] == description[..MaxDescription];
    }
  }

  datatype CardProps = CardProps(
    title: string, description: string, image: string, date: string, author: string, path: string)

  /** The rendered card: the link target, the image, the title, the byline and
      the description text. */
  datatype Card = Card(
    link: string, imageSrc: string, imageAlt: string, title: string, byline: string, text: string)

  function RenderCard(p: CardProps): (r: Card)
    ensures r.link == p.path
    ensures r.imageSrc == p.image && r.imageAlt == p.title && r.title == p.title
    ensures r.byline == p.author + " • " + p.date
    ensures r.text == Truncate(p.description)
  {
    Card(p.path, p.image, p.title, p.title, p.author + " • " + p.date, Truncate(p.description))
  }

  /** The props as a caller may pass them: JSX leaves out any prop it is not
      given, which the component then reads as `undefined`. */
  datatype GivenProps = GivenProps(
    title: Option<string>, description: Option<string>, image: Option<string>,
    date: Option<string>, author: Option<string>, path: Option<string>)

  /** Rendering either produces the card or stops with a TypeError. */
  datatype Rendered = Rendered(card: Card) | TypeError

  /** An absent text prop renders as nothing. */
  function Shown(v: Option<string>): string {
    if v.Some? then v.value else ""
  }

  /** ArticleCard on the props it is given: reading `description.length` throws
      when there is no description; every other absent prop only renders empty. */
  function RenderGiven(p: GivenProps): (r: Rendered)
    ensures r.TypeError? <==> p.description.None?
    ensures p.description.Some? ==>
              r.card.text == Truncate(p.description.value) && r.card.link == Shown(p.path) &&
              r.card.title == Shown(p.title)
  {
    if p.description.None? then TypeError
    else Rendered(Card(Shown(p.path), Shown(p.image), Shown(p.title), Shown(p.title),
                       Shown(p.author) + " • " + Shown(p.date), Truncate(p.description.value)))
  }

  /** The props of a caller that passes every one of them. */
  function AllGiven(p: CardProps): GivenProps {
    GivenProps(Some(p.title), Some(p.description), Some(p.image), Some(p.date), Some(p.author), Some(p.path))
  }

  /** With every prop passed, the card renders exactly as RenderCard says, and
      never throws. */
  lemma RenderGivenComplete(p: CardProps)
    ensures RenderGiven(AllGiven(p)) == Rendered(RenderCard(p))
  {
  }

  /** Two cards for the same article link to the same place and show the same
      text, whatever else their props say. */
  lemma CardDependsOnlyOnPathAndDescription(p: CardProps, q: CardProps)
    requires p.path == q.path && p.description[..Min(|p.description|, MaxDescription)] == q.description[..Min(|q.description|, MaxDescription)]
    requires (|p.description| > MaxDescription) == (|q.description| > MaxDescription)
    ensures RenderCard(p).link == RenderCard(q).link
    ensures RenderCard(p).text == RenderCard(q).text
  {
  }
}
