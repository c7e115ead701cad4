/**
 The message browser: a three-part filter (text search, emotion tag,
 channel), fixed pages of ten, a Previous/Next pager, and the score badge.
 The browser's state is the current query and page number; `Step` is how
 that state answers the user's events.
 */
module MessageViewer {
  import opened Seqs
  import opened Text
  import opened Messages

  const MessagesPerPage := 10

  /** The select value that switches the emotion or channel filter off. */
  const All := "all"

  datatype Query = Query(search: string, emotion: string, channel: string)

  /** What the browser starts with: empty search, every emotion, every channel. */
  const DefaultQuery := Query("", All, All)

  // ---------------------------------------------------------------------------
  // Filtering
  // ---------------------------------------------------------------------------

  /**
   Case-insensitive search: the lower-cased term occurs in the lower-cased
   content. The empty term matches every content.
   */
  function SearchMatches(content: string, term: string): (r: bool)
    ensures r <==> OccursIn(Lower(term), Lower(content))
    ensures |term| == 0 ==> r
  {
    IncludesIsOccurrence(Lower(content), Lower(term));
    Includes(Lower(content), Lower(term))
  }

  /** Lower-casing the content or the term beforehand never changes the search outcome. */
  lemma SearchIgnoresCase(content: string, term: string)
    ensures SearchMatches(Lower(content), Lower(term)) == SearchMatches(content, term)
  {
    LowerIdempotent(content);
    LowerIdempotent(term);
  }

  /** Content or term written with different ASCII case give the same search outcome. */
  lemma SearchUpToCase(content: string, content': string, term: string, term': string)
    requires SameUpToCase(content, content') && SameUpToCase(term, term')
    ensures SearchMatches(content, term) == SearchMatches(content', term')
  {
    LowerIdentifiesCase(content, content');
    LowerIdentifiesCase(term, term');
  }

  predicate EmotionMatches(m: Message, emotion: string)
  {
    emotion == All || emotion in m.emotion
  }

  predicate ChannelMatches(m: Message, channel: string)
  {
    channel == All || m.channel == channel
  }

  /**
   A message is shown when the lower-cased term occurs in its lower-cased
   content, it carries the picked emotion tag (or the emotion is "all") and
   it came in on the picked channel (or the channel is "all").
   */
  function Matches(m: Message, q: Query): (r: bool)
    ensures r <==> (OccursIn(Lower(q.search), Lower(m.content))
                    && (q.emotion == All || q.emotion in m.emotion)
                    && (q.channel == All || m.channel == q.channel))
  {
    SearchMatches(m.content, q.search) && EmotionMatches(m, q.emotion) && ChannelMatches(m, q.channel)
  }

  function Keeps(q: Query): Message -> bool
  {
    m => Matches(m, q)
  }

  /** The messages the query lets through, in the order they arrived in. */
  function FilteredMessages(ms: seq<Message>, q: Query): (r: seq<Message>)
    ensures |r| <= |ms|
    ensures forall k :: 0 <= k < |r| ==> Matches(r[k], q) && r[k] in ms
    ensures forall j :: 0 <= j < |ms| && Matches(ms[j], q) ==> ms[j] in r
  {
    Filter(ms, Keeps(q))
  }

  /**
   The filtered list is an order-preserving subsequence of the messages, and
   position `j` is kept exactly when message `j` matches the query.
   */
  lemma FilteredIsOrderedSubsequence(ms: seq<Message>, q: Query)
    ensures Picks(FilteredMessages(ms, q), ms, Positions(ms, Keeps(q)))
    ensures forall j :: 0 <= j < |ms| ==> (Matches(ms[j], q) <==> j in Positions(ms, Keeps(q)))
  {
    FilterIsOrderedSubsequence(ms, Keeps(q));
  }

  /** With both selects on "all", only the search decides; a message with several tags passes for each one. */
  lemma FilterSelectsSemantics(m: Message, term: string, k: int)
    requires 0 <= k < |m.emotion|
    ensures Matches(m, Query(term, All, All)) <==> SearchMatches(m.content, term)
    ensures Matches(m, Query(term, m.emotion[k], All)) <==> SearchMatches(m.content, term)
    ensures Matches(m, Query(term, All, m.channel)) <==> SearchMatches(m.content, term)
  {
  }

  /** A query no message matches shows nothing. */
  lemma NothingMatches(ms: seq<Message>, q: Query)
    requires forall k :: 0 <= k < |ms| ==> !Matches(ms[k], q)
    ensures FilteredMessages(ms, q) == []
  {
    FilterDropsAll(ms, Keeps(q));
  }

  /** The initial query shows every message, in order. */
  lemma DefaultQueryShowsEverything(ms: seq<Message>)
    ensures FilteredMessages(ms, DefaultQuery) == ms
  {
    FilterKeepsAll(ms, Keeps(DefaultQuery));
  }

  // ---------------------------------------------------------------------------
  // Pagination
  // ---------------------------------------------------------------------------

  /** The page count: the fewest pages of ten that hold `n` messages. */
  function TotalPages(n: nat): (r: nat)
    ensures n <= r * MessagesPerPage
    ensures r > 0 ==> (r - 1) * MessagesPerPage < n
  {
    (n + MessagesPerPage - 1) / MessagesPerPage
  }

  function StartIndex(page: int): int
  {
    (page - 1) * MessagesPerPage
  }

  /**
   The messages on page `page`: at most ten, the contiguous run of the
   filtered list that starts at `(page - 1) * 10`, and never empty for a page
   between 1 and the page count.
   */
  function PageOf(filtered: seq<Message>, page: int): (r: seq<Message>)
    ensures |r| <= MessagesPerPage
    ensures 1 <= page ==> |r| == Max(0, Min(page * MessagesPerPage, |filtered|) - StartIndex(page))
    ensures 1 <= page ==> forall k :: 0 <= k < |r| ==> r[k] == filtered[StartIndex(page) + k]
    ensures 1 <= page <= TotalPages(|filtered|) ==> |r| > 0
  {
    Slice(filtered, StartIndex(page), StartIndex(page) + MessagesPerPage)
  }

  /** Pages `1..k` laid end to end. */
  function ConcatPages(filtered: seq<Message>, k: nat): seq<Message>
  {
    if k == 0 then [] else ConcatPages(filtered, k - 1) + PageOf(filtered, k)
  }

  lemma {:induction false} ConcatPagesIsPrefix(filtered: seq<Message>, k: nat)
    ensures ConcatPages(filtered, k) == filtered[..Min(k * MessagesPerPage, |filtered|)]
  {
    if k > 0 {
      ConcatPagesIsPrefix(filtered, k - 1);
      var before := filtered[..Min((k - 1) * MessagesPerPage, |filtered|)];
      var page := PageOf(filtered, k);
      var whole := filtered[..Min(k * MessagesPerPage, |filtered|)];
      assert |before + page| == |whole|;
      forall i | 0 <= i < |whole|
        ensures (before + page)[i] == whole[i]
      {
        if i >= |before| {
          assert page[i - |before|] == filtered[StartIndex(k) + (i - |before|)];
        }
      }
    }
  }

  /** Concatenating pages 1 to the page count gives back the filtered list exactly. */
  lemma PagesReassemble(filtered: seq<Message>)
    ensures ConcatPages(filtered, TotalPages(|filtered|)) == filtered
  {
    ConcatPagesIsPrefix(filtered, TotalPages(|filtered|));
  }

  /** Message `i` of the filtered list is entry `i % 10` of page `i / 10 + 1`, which exists. */
  lemma EveryMessageHasAPage(filtered: seq<Message>, i: int)
    requires 0 <= i < |filtered|
    ensures 1 <= i / MessagesPerPage + 1 <= TotalPages(|filtered|)
    ensures i % MessagesPerPage < |PageOf(filtered, i / MessagesPerPage + 1)|
    ensures PageOf(filtered, i / MessagesPerPage + 1)[i % MessagesPerPage] == filtered[i]
  {
    var page := i / MessagesPerPage + 1;
    assert StartIndex(page) + i % MessagesPerPage == i;
  }

  // ---------------------------------------------------------------------------
  // Pager buttons
  // ---------------------------------------------------------------------------

  /** The pager is rendered only when there is more than one page. */
  predicate PagerShown(totalPages: int) { totalPages > 1 }

  predicate PreviousDisabled(page: int) { page == 1 }

  predicate NextDisabled(page: int, totalPages: int) { page == totalPages }

  /** Previous: one page back, never below page 1. */
  function PreviousPage(page: int): (r: int)
    ensures 1 <= r
    ensures 1 < page ==> r == page - 1
    ensures page <= 1 ==> r == 1
  {
    Max(1, page - 1)
  }

  /** Next: one page on, never beyond the last page. */
  function NextPage(page: int, totalPages: int): (r: int)
    ensures r <= totalPages
    ensures page < totalPages ==> r == page + 1
    ensures totalPages <= page ==> r == totalPages
  {
    Min(totalPages, page + 1)
  }

  /** While the pager is shown and the page is in range, both buttons keep it in range, and each is disabled exactly where it could not move. */
  lemma PagerStaysInRange(page: int, totalPages: int)
    requires PagerShown(totalPages) && 1 <= page <= totalPages
    ensures 1 <= PreviousPage(page) <= totalPages
    ensures 1 <= NextPage(page, totalPages) <= totalPages
    ensures PreviousDisabled(page) <==> PreviousPage(page) == page
    ensures NextDisabled(page, totalPages) <==> NextPage(page, totalPages) == page
  {
  }

  // ---------------------------------------------------------------------------
  // Score badge
  // ---------------------------------------------------------------------------

  /** The score badge splits the integers into four disjoint bands covering all of them. */
  function ScoreColor(score: int): (r: string)
    ensures r == Green <==> score > 5
    ensures r == Blue <==> 1 <= score <= 5
    ensures r == Yellow <==> -4 <= score <= 0
    ensures r == Red <==> score <= -5
  {
    if score > 5 then Green
    else if score > 0 then Blue
    else if score > -5 then Yellow
    else Red
  }

  // ---------------------------------------------------------------------------
  // Browser state
  // ---------------------------------------------------------------------------

  datatype Viewer = Viewer(query: Query, page: int)

  const InitialViewer := Viewer(DefaultQuery, 1)

  datatype ViewerEvent =
    | TypeSearch(term: string)
    | PickEmotion(emotion: string)
    | PickChannel(channel: string)
    | ClickPrevious
    | ClickNext

  function PageCount(ms: seq<Message>, v: Viewer): nat
  {
    TotalPages(|FilteredMessages(ms, v.query)|)
  }

  /** The messages on screen. */
  function Visible(ms: seq<Message>, v: Viewer): seq<Message>
  {
    PageOf(FilteredMessages(ms, v.query), v.page)
  }

  /** The page is a real one: at least 1 and at most the page count (page 1 when there is nothing). */
  predicate PageInRange(ms: seq<Message>, v: Viewer)
  {
    1 <= v.page <= Max(1, PageCount(ms, v))
  }

  /**
   A click on Previous or Next: with the pager shown and the button enabled
   it moves one page back or on; a hidden pager or a disabled button leaves
   the state as it was.
   */
  function Click(ms: seq<Message>, v: Viewer, next: bool): (r: Viewer)
    ensures r.query == v.query
    ensures 1 <= v.page ==> 1 <= r.page
    ensures PageInRange(ms, v) ==> PageInRange(ms, r)
    ensures PagerShown(PageCount(ms, v)) && !next && !PreviousDisabled(v.page) ==>
      r == v.(page := PreviousPage(v.page))
    ensures PagerShown(PageCount(ms, v)) && next && !NextDisabled(v.page, PageCount(ms, v)) ==>
      r == v.(page := NextPage(v.page, PageCount(ms, v)))
    ensures (!PagerShown(PageCount(ms, v))
             || (!next && PreviousDisabled(v.page))
             || (next && NextDisabled(v.page, PageCount(ms, v)))) ==> r == v
  {
    var total := PageCount(ms, v);
    if !PagerShown(total) then v
    else if !next then (if PreviousDisabled(v.page) then v else v.(page := PreviousPage(v.page)))
    else if NextDisabled(v.page, total) then v
    else v.(page := NextPage(v.page, total))
  }

  /**
   The browser as written: changing the search or a select keeps the current
   page number. The page never drops below 1, but it can end up beyond the
   new page count (see `StalePageHidesTheOnlyMatch`).
   */
  function StepAsWritten(ms: seq<Message>, v: Viewer, ev: ViewerEvent): (r: Viewer)
    ensures 1 <= v.page ==> 1 <= r.page
    ensures ev.TypeSearch? ==> r.query == v.query.(search := ev.term)
    ensures ev.PickEmotion? ==> r.query == v.query.(emotion := ev.emotion)
    ensures ev.PickChannel? ==> r.query == v.query.(channel := ev.channel)
    ensures !(ev.ClickPrevious? || ev.ClickNext?) ==> r.page == v.page
    ensures ev.ClickPrevious? || ev.ClickNext? ==> r == Click(ms, v, ev.ClickNext?)
  {
    match ev
    case TypeSearch(t) => v.(query := v.query.(search := t))
    case PickEmotion(e) => v.(query := v.query.(emotion := e))
    case PickChannel(c) => v.(query := v.query.(channel := c))
    case ClickPrevious => Click(ms, v, false)
    case ClickNext => Click(ms, v, true)
  }

  /**
   The browser with the page reset to 1 whenever the query changes; the page
   then always stays in range.
   */
  function Step(ms: seq<Message>, v: Viewer, ev: ViewerEvent): (r: Viewer)
    ensures PageInRange(ms, v) ==> PageInRange(ms, r)
    ensures ev.TypeSearch? ==> r.query == v.query.(search := ev.term)
    ensures ev.PickEmotion? ==> r.query == v.query.(emotion := ev.emotion)
    ensures ev.PickChannel? ==> r.query == v.query.(channel := ev.channel)
    ensures !(ev.ClickPrevious? || ev.ClickNext?) ==> r.page == 1
    ensures ev.ClickPrevious? || ev.ClickNext? ==> r == Click(ms, v, ev.ClickNext?)
  {
    match ev
    case TypeSearch(t) => Viewer(v.query.(search := t), 1)
    case PickEmotion(e) => Viewer(v.query.(emotion := e), 1)
    case PickChannel(c) => Viewer(v.query.(channel := c), 1)
    case ClickPrevious => Click(ms, v, false)
    case ClickNext => Click(ms, v, true)
  }

  /** With the page in range, something is on screen whenever something matches. */
  lemma InRangePageShowsMatches(ms: seq<Message>, v: Viewer)
    requires PageInRange(ms, v)
    requires |FilteredMessages(ms, v.query)| > 0
    ensures 0 < |Visible(ms, v)| <= MessagesPerPage
  {
  }

  /** From any in-range state, every sequence of events keeps the page in range and leaves matches visible. */
  lemma {:induction false} StepsKeepPageInRange(ms: seq<Message>, v: Viewer, evs: seq<ViewerEvent>)
    requires PageInRange(ms, v)
    ensures PageInRange(ms, Run(ms, v, evs))
    ensures |FilteredMessages(ms, Run(ms, v, evs).query)| > 0 ==> |Visible(ms, Run(ms, v, evs))| > 0
    decreases |evs|
  {
    if |evs| > 0 {
      StepsKeepPageInRange(ms, Step(ms, v, evs[0]), evs[1..]);
    } else if |FilteredMessages(ms, v.query)| > 0 {
      InRangePageShowsMatches(ms, v);
    }
  }

  function Run(ms: seq<Message>, v: Viewer, evs: seq<ViewerEvent>): Viewer
    decreases |evs|
  {
    if |evs| == 0 then v else Run(ms, Step(ms, v, evs[0]), evs[1..])
  }

  /** The browser opens on page 1, which is always in range. */
  lemma InitialViewerInRange(ms: seq<Message>)
    ensures PageInRange(ms, InitialViewer)
  {
  }

  /**
   From the opening state, whatever the user types, picks or clicks, the page
   stays in range and a query with matches always has something on screen.
   */
  lemma SessionsKeepPageInRange(ms: seq<Message>, evs: seq<ViewerEvent>)
    ensures PageInRange(ms, Run(ms, InitialViewer, evs))
    ensures |FilteredMessages(ms, Run(ms, InitialViewer, evs).query)| > 0 ==> |Visible(ms, Run(ms, InitialViewer, evs))| > 0
  {
    InitialViewerInRange(ms);
    StepsKeepPageInRange(ms, InitialViewer, evs);
  }

  // ---------------------------------------------------------------------------
  // The stale page, as written
  // ---------------------------------------------------------------------------

  const EmailMessage := Message("1", "Refund please", ["angry"], -6, "email", 0)
  const ChatMessage := Message("2", "Thanks", ["happy"], 4, "chat", 0)

  /** Eleven messages: one email, then ten chats. */
  const ElevenMessages: seq<Message> := [EmailMessage] + seq(10, _ => ChatMessage)

  /**
   As written: on page 2 of eleven messages, picking the "email" channel
   leaves one match, yet page 2 shows nothing, the pager is hidden, and
   neither button can bring the match back. Resetting the page shows it.
   */
  lemma StalePageHidesTheOnlyMatch()
    ensures PageInRange(ElevenMessages, Viewer(DefaultQuery, 2))
    ensures var v := StepAsWritten(ElevenMessages, Viewer(DefaultQuery, 2), PickChannel("email"));
      && FilteredMessages(ElevenMessages, v.query) == [EmailMessage]
      && Visible(ElevenMessages, v) == []
      && !PagerShown(PageCount(ElevenMessages, v))
      && StepAsWritten(ElevenMessages, v, ClickPrevious) == v
      && StepAsWritten(ElevenMessages, v, ClickNext) == v
      && !PageInRange(ElevenMessages, v)
    ensures Visible(ElevenMessages, Step(ElevenMessages, Viewer(DefaultQuery, 2), PickChannel("email"))) == [EmailMessage]
  {
    DefaultQueryShowsEverything(ElevenMessages);
    var q := Query("", All, "email");
    var rest := ElevenMessages[1..];
    assert forall k :: 0 <= k < |rest| ==> rest[k] == ChatMessage;
    NothingMatches(rest, q);
    assert SearchMatches(EmailMessage.content, "");
    assert FilteredMessages(ElevenMessages, q) == [EmailMessage] + Filter(rest, Keeps(q));
  }
}
