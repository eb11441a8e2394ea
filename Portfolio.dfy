/**
 * The logic of the portfolio carousel (components/PortfolioSection.tsx):
 * the cache-busting display URL of a card's image, the doubled item list
 * that lets the carousel wrap around, and the placeholder shown for an
 * empty portfolio. Scrolling and dragging are not modelled.
 */
module Portfolio {
  import opened Strings
  import opened ProjectList

  /** Host name that marks an image as served by Firebase Storage. */
  const FirebaseStorageHost := "firebasestorage.googleapis.com"

  /**
   * Joins the cache-busting parameter onto a download URL. It is `&`, not
   * `?`, because such a URL already carries its access token as a query
   * parameter.
   */
  const CacheBustSeparator := "&v="

  /** `image && image.includes('firebasestorage.googleapis.com')` */
  predicate IsFirebaseImage(image: string) {
    image != "" && Includes(image, FirebaseStorageHost)
  }

  /**
   * The `src` of a card's image. `getTime` stands for
   * `new Date(updatedAt).getTime()`, the timestamp in milliseconds.
   */
  function DisplayUrl(image: string, updatedAt: string, getTime: string -> int): (url: string)
    ensures StartsWith(url, image)
    ensures !(IsFirebaseImage(image) && updatedAt != "") ==> url == image
    ensures IsFirebaseImage(image) && updatedAt != "" ==>
      && |url| > |image| + |CacheBustSeparator|
      && url[|image|..|image| + |CacheBustSeparator|] == CacheBustSeparator
      && IsIntLiteral(url[|image| + |CacheBustSeparator|..])
      && ParseInt(url[|image| + |CacheBustSeparator|..]) == getTime(updatedAt)
  {
    if IsFirebaseImage(image) && updatedAt != "" then
      var stamp := IntToString(getTime(updatedAt));
      var url := image + CacheBustSeparator + stamp;
      IntToStringRoundTrip(getTime(updatedAt));
      assert url[|image|..|image| + |CacheBustSeparator|] == CacheBustSeparator;
      assert url[|image| + |CacheBustSeparator|..] == stamp;
      url
    else
      image
  }

  /**
   * The cache-busting suffix never contains a `?`, so the query string of the
   * original URL, with its download token, is left exactly as it was.
   */
  lemma DisplayUrlAddsNoQuestionMark(image: string, updatedAt: string, getTime: string -> int)
    ensures var url := DisplayUrl(image, updatedAt, getTime);
      forall i :: |image| <= i < |url| ==> url[i] != '?'
  {
  }

  /**
   * For the same Firebase image, two timestamps give the same URL exactly when
   * they denote the same instant: an update that changes the time changes the
   * URL, and so defeats a cached copy.
   */
  lemma DisplayUrlTracksTimestamp(image: string, a: string, b: string, getTime: string -> int)
    requires IsFirebaseImage(image) && a != "" && b != ""
    ensures DisplayUrl(image, a, getTime) == DisplayUrl(image, b, getTime) <==> getTime(a) == getTime(b)
  {
  }

  /** `projects.length > 0 ? [...projects, ...projects] : []` */
  function DuplicatedItems<T>(ps: seq<T>): (r: seq<T>)
    ensures |r| == 2 * |ps|
    ensures forall i :: 0 <= i < |ps| ==> r[i] == ps[i] && r[i + |ps|] == ps[i]
  {
    if |ps| > 0 then ps + ps else []
  }

  /** One carousel card: the alt text and caption, the image source and the link target. */
  datatype Card = Card(name: string, src: string, link: string)

  /** What the portfolio section shows. */
  datatype PortfolioView = Placeholder | Carousel(cards: seq<Card>)

  /** A card shows the project's name and link, and its display URL as the image source. */
  function CardOf(p: Project, getTime: string -> int): Card {
    Card(p.name, DisplayUrl(p.image, p.updatedAt, getTime), p.link)
  }

  function Cards(ps: seq<Project>, getTime: string -> int): (r: seq<Card>)
    ensures |r| == |ps|
    ensures forall i :: 0 <= i < |ps| ==> r[i] == CardOf(ps[i], getTime)
  {
    if ps == [] then [] else [CardOf(ps[0], getTime)] + Cards(ps[1..], getTime)
  }

  /** The section: a placeholder for no projects, otherwise a card per doubled item. */
  function RenderPortfolio(ps: seq<Project>, getTime: string -> int): (v: PortfolioView)
    ensures v.Placeholder? <==> ps == []
    ensures v.Carousel? ==> |v.cards| == 2 * |ps|
    ensures v.Carousel? ==> forall i :: 0 <= i < |ps| ==>
      v.cards[i] == CardOf(ps[i], getTime) && v.cards[i + |ps|] == CardOf(ps[i], getTime)
  {
    if ps == [] then Placeholder else Carousel(Cards(DuplicatedItems(ps), getTime))
  }
}
