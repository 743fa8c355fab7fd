/** The updates page: the list of posts loaded from the updates document, shown
    newest first, one card per post, with the content split into paragraphs. */
module Updates {
  import opened Wrappers
  import opened Sorting
  import opened Strings

  /** One post. `date` is its timestamp, already parsed. */
  datatype Update = Update(title: string, date: int, content: string)

  /** The updates document; its `updates` field is optional. */
  datatype UpdatesDoc = UpdatesDoc(updates: Option<seq<Update>>)

  /** One rendered card: the escaped title, the date it shows, and the formatted content. */
  datatype Card = Card(title: string, date: int, content: string)

  /** What the updates container shows. */
  datatype View = Blank | Placeholder | Cards(cards: seq<Card>) | ErrorBox(message: string)

  const ParagraphBreak := "\n\n"
  const InitError := "Failed to load updates"

  /** The comparator `new Date(b.date) - new Date(a.date)` orders ascending by this key. */
  function DateKey(u: Update): int
  {
    -u.date
  }

  /** The posts sorted newest first; posts with the same date keep their order. */
  function NewestFirst(us: seq<Update>): (r: seq<Update>)
    ensures |r| == |us|
  {
    SortBySortedPermutation(us, DateKey);
    SortBy(us, DateKey)
  }

  /** The sorted copy holds the same posts, newest first, stably. */
  lemma NewestFirstOrder(us: seq<Update>)
    ensures |NewestFirst(us)| == |us|
    ensures multiset(NewestFirst(us)) == multiset(us)
    ensures forall i, j | 0 <= i < j < |NewestFirst(us)| :: NewestFirst(us)[i].date >= NewestFirst(us)[j].date
    ensures forall k :: WithKey(NewestFirst(us), DateKey, k) == WithKey(us, DateKey, k)
  {
    SortBySortedPermutation(us, DateKey);
    var r := NewestFirst(us);
    forall i, j | 0 <= i < j < |r| ensures r[i].date >= r[j].date {
      assert DateKey(r[i]) <= DateKey(r[j]);
    }
    forall k ensures WithKey(r, DateKey, k) == WithKey(us, DateKey, k) {
      SortByStable(us, DateKey, k);
    }
  }

  /** One paragraph: the escaped piece wrapped in `<p>` and `</p>`. */
  function Paragraph(piece: string, escape: string -> string): string
  {
    "<p>" + escape(piece) + "</p>"
  }

  /** The paragraphs of a post's content, one per piece between `\n\n` breaks. */
  function Paragraphs(content: string, escape: string -> string): seq<string>
  {
    var pieces := Split(content, ParagraphBreak);
    seq(|pieces|, i requires 0 <= i < |pieces| => Paragraph(pieces[i], escape))
  }

  /** The content markup: the paragraphs concatenated in order. */
  function FormatContent(content: string, escape: string -> string): (r: string)
    ensures var first := Paragraph(Split(content, ParagraphBreak)[0], escape);
      |first| <= |r| && r[..|first|] == first
    ensures forall i | 0 <= i < |Paragraphs(content, escape)| ::
              PieceAt(r, Paragraphs(content, escape)[i], Offset(Paragraphs(content, escape), "", i))
    ensures |r| == Offset(Paragraphs(content, escape), "", |Paragraphs(content, escape)|)
  {
    JoinLayout(Paragraphs(content, escape), "");
    Join(Paragraphs(content, escape), "")
  }

  /** One paragraph per piece, in order; the pieces rebuild the content when rejoined with
      `\n\n` and contain no break themselves; content with no break is one paragraph. */
  lemma FormatContentPieces(content: string, escape: string -> string)
    ensures var pieces := Split(content, ParagraphBreak);
      && |Paragraphs(content, escape)| == |pieces| >= 1
      && (forall i | 0 <= i < |pieces| :: Paragraphs(content, escape)[i] == Paragraph(pieces[i], escape))
      && Join(pieces, ParagraphBreak) == content
      && (forall i | 0 <= i < |pieces| :: Free(pieces[i], ParagraphBreak))
    ensures Free(content, ParagraphBreak) <==> Paragraphs(content, escape) == [Paragraph(content, escape)]
    ensures Free(content, ParagraphBreak) ==> FormatContent(content, escape) == Paragraph(content, escape)
  {
    JoinSplit(content, ParagraphBreak);
    SplitPiecesFree(content, ParagraphBreak);
    SplitSingle(content, ParagraphBreak);
    var pieces := Split(content, ParagraphBreak);
    if Paragraphs(content, escape) == [Paragraph(content, escape)] {
      assert |pieces| == 1;
      assert pieces == [pieces[0]];
      assert Free(pieces[0], ParagraphBreak);
      assert Join(pieces, ParagraphBreak) == pieces[0];
    }
  }

  /** The card of one post. */
  function CardFor(u: Update, escape: string -> string): (c: Card)
    ensures c.title == escape(u.title) && c.date == u.date
    ensures c.content == FormatContent(u.content, escape)
  {
    Card(escape(u.title), u.date, FormatContent(u.content, escape))
  }

  /** Cards made one per post of the sorted copy are exactly the posts' cards:
      every post has its card among them and every card is some post's. */
  lemma CardsCoverPosts(us: seq<Update>, cards: seq<Card>, escape: string -> string)
    requires |cards| == |NewestFirst(us)|
    requires forall k | 0 <= k < |cards| :: cards[k] == CardFor(NewestFirst(us)[k], escape)
    ensures forall u | u in us :: CardFor(u, escape) in cards
    ensures forall c | c in cards :: exists u | u in us :: c == CardFor(u, escape)
  {
    var sorted := NewestFirst(us);
    NewestFirstOrder(us);
    forall u | u in us ensures CardFor(u, escape) in cards {
      assert u in multiset(sorted);
      var k :| 0 <= k < |sorted| && sorted[k] == u;
      assert cards[k] == CardFor(u, escape);
    }
    forall c | c in cards ensures exists u | u in us :: c == CardFor(u, escape) {
      var k :| 0 <= k < |cards| && cards[k] == c;
      assert sorted[k] in multiset(us);
    }
  }

  class Page {
    var updates: seq<Update>
    var view: View

    constructor ()
      ensures updates == [] && view == Blank
    {
      updates := [];
      view := Blank;
    }

    /** Loads the document; an absent `updates` field gives the empty list, and a
        failed response throws and leaves `updates` as it was. */
    method LoadUpdates(response: Response<UpdatesDoc>) returns (outcome: Outcome<LoadError>)
      modifies this`updates
      ensures response.Ok? ==> outcome == Pass
      ensures response.Ok? && response.body.updates.Some? ==> updates == response.body.updates.value
      ensures response.Ok? && response.body.updates.None? ==> updates == []
      ensures response.NotOk? ==> outcome == Fail(Failed("Failed to load updates")) && updates == old(updates)
      ensures response.NetworkError? ==> outcome == Fail(Network) && updates == old(updates)
    {
      match response
      case Ok(data) =>
        updates := if data.updates.Some? then data.updates.value else [];
        outcome := Pass;
      case NotOk =>
        outcome := Fail(Failed("Failed to load updates"));
      case NetworkError =>
        outcome := Fail(Network);
    }

    /** The placeholder alone for no posts; otherwise one card per post, newest first,
        built from a sorted copy (the stored list is not reordered: nothing is modified). */
    method Render(escape: string -> string) returns (v: View)
      ensures updates == [] <==> v == Placeholder
      ensures updates != [] ==> v.Cards? && |v.cards| == |updates|
      ensures updates != [] ==> forall i | 0 <= i < |v.cards| :: v.cards[i] == CardFor(NewestFirst(updates)[i], escape)
      ensures updates != [] ==> forall i, j | 0 <= i < j < |v.cards| :: v.cards[i].date >= v.cards[j].date
      ensures updates != [] ==> forall u | u in updates :: CardFor(u, escape) in v.cards
      ensures updates != [] ==> forall c | c in v.cards :: exists u | u in updates :: c == CardFor(u, escape)
    {
      if |updates| == 0 {
        v := Placeholder;
        return;
      }
      var sortedUpdates := NewestFirst(updates);
      var cards: seq<Card> := [];
      for i := 0 to |sortedUpdates|
        invariant |cards| == i
        invariant forall k | 0 <= k < i :: cards[k] == CardFor(sortedUpdates[k], escape)
      {
        cards := cards + [CardFor(sortedUpdates[i], escape)];
      }
      v := Cards(cards);
      NewestFirstOrder(updates);
      CardsCoverPosts(updates, cards, escape);
    }

    /** Loads the posts and renders them; a failed load shows the error message instead. */
    method Init(response: Response<UpdatesDoc>, escape: string -> string)
      modifies this
      ensures response.Ok? ==> view != ErrorBox(InitError) && (view == Placeholder <==> updates == [])
      ensures response.Ok? ==> updates == (if response.body.updates.Some? then response.body.updates.value else [])
      ensures response.Ok? && updates != [] ==> view.Cards? && |view.cards| == |updates|
      ensures response.Ok? && updates != [] ==>
        forall i | 0 <= i < |view.cards| :: view.cards[i] == CardFor(NewestFirst(updates)[i], escape)
      ensures !response.Ok? ==> view == ErrorBox(InitError) && updates == old(updates)
    {
      var outcome := LoadUpdates(response);
      if outcome.Fail? {
        view := ErrorBox(InitError);
        return;
      }
      view := Render(escape);
    }
  }
}
