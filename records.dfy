/**
 * Turning the announcement items of the portal page into notification
 * records (`FITScraper.get_notifications`).  The HTML itself is not
 * modelled: an `Item` holds, for one `ul.newslist li` element, what the
 * CSS selectors found in it.
 */
module Records {

  import opened Wrappers
  import opened Text
  import opened Subsequences

  /** The `a.linkButton` element: its text and its `href` attribute, if any. */
  datatype Anchor = Anchor(text: string, href: Option<string>)

  /**
   * One announcement item: each field is the raw text of the element the
   * selector found (`None` when it found none).
   */
  datatype Item = Item(
    title: Option<Anchor>,         // a.linkButton
    date: Option<string>,          // span#lblDatum
    subject: Option<string>,       // span#lblPredmet
    author: Option<string>,        // a.meta[href^="mailto:"]
    abstractText: Option<string>)  // div.abstract

  /** One notification record; only `id` is ever persisted. */
  datatype Notification = Notification(
    title: string,
    date: string,
    subject: string,
    author: string,
    abstractText: string,
    link: string,
    id: string)

  const BaseUrl: string := "https://www.fit.ba/student"

  /**
   * `elem.text.strip() if elem else ''`: a missing element gives the empty
   * string, a present one its text without the surrounding whitespace.
   */
  function TextOr(elem: Option<string>): (r: string)
    ensures elem.None? ==> r == ""
    ensures elem.Some? ==> exists i, j :: SpaceOutside(elem.value, i, j) && r == elem.value[i..j]
    ensures IsStripped(r)
  {
    match elem
    case None => ""
    case Some(text) => Strip(text)
  }

  predicate HasTitle(item: Item) {
    item.title.Some?
  }

  /**
   * The record an item yields, if any.  A bs4 element is truthy whenever it
   * exists, so a title or date element counts as present even with empty
   * text; `get('href')` is falsy both when the attribute is missing and when
   * it is empty.
   */
  function Build(item: Item): (r: Option<Notification>)
    ensures r.Some? <==> HasTitle(item)
    ensures r.Some? ==> r.value.title == Strip(item.title.value.text)
    ensures r.Some? ==> r.value.id == if item.date.Some? then r.value.title + "_" + r.value.date else r.value.title
    ensures r.Some? ==> item.date.None? ==> r.value.date == ""
    ensures r.Some? ==> item.subject.None? ==> r.value.subject == ""
    ensures r.Some? ==> item.author.None? ==> r.value.author == ""
    ensures r.Some? ==> item.abstractText.None? ==> r.value.abstractText == ""
    ensures r.Some? && item.date.Some? ==> r.value.date == Strip(item.date.value)
    ensures r.Some? && item.subject.Some? ==> r.value.subject == Strip(item.subject.value)
    ensures r.Some? && item.author.Some? ==> r.value.author == Strip(item.author.value)
    ensures r.Some? && item.abstractText.Some? ==> r.value.abstractText == Strip(item.abstractText.value)
    ensures r.Some? ==> (r.value.link == "" <==> item.title.value.href in {None, Some("")})
    ensures r.Some? && r.value.link != "" ==> r.value.link == BaseUrl + "/" + item.title.value.href.value
    ensures r.Some? ==> IsStripped(r.value.title) && IsStripped(r.value.date) && IsStripped(r.value.subject)
                        && IsStripped(r.value.author) && IsStripped(r.value.abstractText)
  {
    match item.title
    case None => None
    case Some(anchor) =>
      var title := Strip(anchor.text);
      var date := TextOr(item.date);
      Some(Notification(
        title,
        date,
        TextOr(item.subject),
        TextOr(item.author),
        TextOr(item.abstractText),
        if anchor.href.Some? && anchor.href.value != "" then BaseUrl + "/" + anchor.href.value else "",
        if item.date.Some? then title + "_" + date else title))
  }

  /** The records of `items`, in page order: the specification of the loop in `GetNotifications`. */
  function Extract(items: seq<Item>): (r: seq<Notification>)
    ensures |r| <= |items|
    ensures forall n :: n in r ==> exists i :: 0 <= i < |items| && Build(items[i]) == Some(n)
    ensures forall i :: 0 <= i < |items| && HasTitle(items[i]) ==> Build(items[i]).value in r
  {
    FilterMap(items, Build)
  }

  /** The loop of `get_notifications` over the items already selected from the page. */
  method GetNotifications(items: seq<Item>) returns (notifications: seq<Notification>)
    ensures notifications == Extract(items)
  {
    notifications := [];
    for i := 0 to |items|
      invariant notifications == Extract(items[..i])
    {
      assert items[..i + 1][..i] == items[..i];
      match Build(items[i])
      case None =>
      case Some(n) =>
        notifications := notifications + [n];
    }
    assert items[..|items|] == items;
  }

  /**
   * The records are exactly one per item that has a title, in the items'
   * order: the k-th record is built from the k-th titled item.
   */
  lemma ExtractSelectsTitled(items: seq<Item>)
    ensures |Extract(items)| == |Positions(items, HasTitle)|
    ensures forall k :: 0 <= k < |Positions(items, HasTitle)| ==>
              Build(items[Positions(items, HasTitle)[k]]) == Some(Extract(items)[k])
  {
    FilterMapSelects(items, Build, HasTitle);
  }

  /** A page with no titled item yields no record. */
  lemma {:induction false} NoTitleNoRecords(items: seq<Item>)
    requires forall i :: 0 <= i < |items| ==> items[i].title.None?
    ensures Extract(items) == []
  {
    if items != [] {
      NoTitleNoRecords(items[..|items| - 1]);
    }
  }

  /** Two items with the same title text and date text get the same id. */
  lemma SameTitleAndDateSameId(a: Item, b: Item)
    requires HasTitle(a) && HasTitle(b)
    requires a.title.value.text == b.title.value.text && a.date == b.date
    ensures Build(a).value.id == Build(b).value.id
  {
  }

  /** A date element that is present but empty still contributes the separator. */
  lemma EmptyDateKeepsSeparator(title: string, href: Option<string>)
    ensures Build(Item(Some(Anchor(title, href)), Some(""), None, None, None)).value.id == Strip(title) + "_"
  {
  }

  /**
   * The id scheme is not injective: an undated item whose title is
   * `t + "_" + d` collides with a dated item of title `t` and date `d`.
   */
  lemma UndatedAndDatedIdsCanCollide(t: string, d: string, href: Option<string>)
    requires t != [] && d != [] && IsStripped(t) && IsStripped(d)
    ensures var undated := Item(Some(Anchor(t + "_" + d, href)), None, None, None, None);
            var dated := Item(Some(Anchor(t, href)), Some(d), None, None, None);
            undated != dated && Build(undated).value.id == Build(dated).value.id
  {
    var joined := t + "_" + d;
    assert joined[0] == t[0] && joined[|joined| - 1] == d[|d| - 1];
    StripOfStripped(joined);
    StripOfStripped(t);
    StripOfStripped(d);
  }
}
