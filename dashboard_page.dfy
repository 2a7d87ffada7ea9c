/**
 * The document list (frontend/src/app/components/DashboardPage.tsx): its own
 * fetch of the list, the count in the header, the loading / empty / grid
 * choice, and each card's preview and buttons.
 */
module DashboardPage {
  import opened Wrappers
  import opened Text
  import opened Docs

  /** How many characters of a document's content a card previews. */
  const PreviewLength: nat := 120

  /** How many placeholder cards show while loading. */
  const SkeletonCount: nat := 6

  /** One card of the grid. */
  datatype CardView = CardView(id: int, title: string, preview: string)

  /** The main area of the page. */
  datatype MainArea = SkeletonGrid(count: nat) | EmptyState | Grid(cards: seq<CardView>)

  /** The three clickable parts of a card. */
  datatype CardControl = CardBody | EditButton | AskButton

  /** What a card reports to the root component. */
  datatype Intent = SelectDocument(id: int) | AskAbout(id: int)

  /** The header subtitle for `n` documents: "1 document", otherwise "<n> documents". */
  function Subtitle(n: nat): (r: string)
    ensures n == 1 ==> r == "1 document"
    ensures n != 1 ==> r == DecimalString(n) + " documents"
  {
    DecimalString(n) + " document" + (if n != 1 then "s" else "")
  }

  /** The subtitle starts with the count's numeral, followed by a space. */
  lemma NumeralThenSpace(n: nat)
    ensures |DecimalString(n)| < |Subtitle(n)|
    ensures Subtitle(n)[..|DecimalString(n)|] == DecimalString(n)
    ensures Subtitle(n)[|DecimalString(n)|] == ' '
    ensures forall i :: 0 <= i < |DecimalString(n)| ==> IsDigit(Subtitle(n)[i])
  {
  }

  /** Different counts give different subtitles: the count can be read back from the header. */
  lemma SubtitleInjective(m: nat, n: nat)
    requires Subtitle(m) == Subtitle(n)
    ensures m == n
  {
    NumeralThenSpace(m);
    NumeralThenSpace(n);
    var a, b := DecimalString(m), DecimalString(n);
    // The numeral ends at the first space, so equal subtitles have equal numerals.
    if |a| < |b| {
      assert false;
    } else if |b| < |a| {
      assert false;
    }
    assert a == b;
    DecimalStringInjective(m, n);
  }

  /** `content.slice(0, 120) + "..."`: the ellipsis is appended even to short content. */
  function Preview(content: string): (r: string)
    ensures |r| == (if |content| < PreviewLength then |content| else PreviewLength) + 3
    ensures r[..|r| - 3] <= content && r[|r| - 3..] == "..."
    ensures |content| <= PreviewLength ==> r == content + "..."
  {
    (if |content| < PreviewLength then content else content[..PreviewLength]) + "..."
  }

  /** The card for one document. */
  function Card(doc: Document): (c: CardView)
    ensures c.id == doc.id && c.title == doc.title
    ensures c.preview == Preview(doc.content)
  {
    CardView(doc.id, doc.title, Preview(doc.content))
  }

  /**
   * The main area: the skeleton grid while loading (whatever the list
   * holds), the empty state once loaded with no documents, otherwise one
   * card per document in list order.
   */
  function MainAreaFor(isLoading: bool, documents: seq<Document>): (r: MainArea)
    ensures isLoading ==> r == SkeletonGrid(SkeletonCount)
    ensures r == EmptyState <==> !isLoading && documents == []
    ensures r.Grid? <==> !isLoading && documents != []
    ensures r.Grid? ==> |r.cards| == |documents|
                        && forall i :: 0 <= i < |documents| ==> r.cards[i] == Card(documents[i])
  {
    if isLoading then SkeletonGrid(SkeletonCount)
    else if |documents| == 0 then EmptyState
    else Grid(seq(|documents|, i requires 0 <= i < |documents| => Card(documents[i])))
  }

  /** A click on the card or its Edit button selects the document; Ask AI asks about it. */
  function CardIntent(doc: Document, control: CardControl): (r: Intent)
    ensures r.id == doc.id
    ensures r.AskAbout? <==> control == AskButton
  {
    match control
    case CardBody => SelectDocument(doc.id)
    case EditButton => SelectDocument(doc.id)
    case AskButton => AskAbout(doc.id)
  }

  /** The page's own copy of the list and its loading flag. */
  class Dashboard {
    var documents: seq<Document>
    var isLoading: bool

    /** Mounting: loading, with an empty list, until the fetch settles. */
    constructor ()
      ensures documents == [] && isLoading
    {
      documents, isLoading := [], true;
    }

    /**
     * The mount effect's fetch settling: a resolved fetch replaces the list
     * with the fetched data; loading ends either way.
     */
    method SettleFetch(reply: Settled<seq<Document>>)
      modifies this
      ensures !isLoading
      ensures documents == if reply.Resolved? then reply.value else old(documents)
    {
      if reply.Resolved? {
        documents := reply.value;
      }
      isLoading := false;
    }

    /** The header subtitle as rendered. */
    function Header(): string
      reads this
    {
      Subtitle(|documents|)
    }

    /** The main area as rendered. */
    function Main(): MainArea
      reads this
    {
      MainAreaFor(isLoading, documents)
    }
  }
}
