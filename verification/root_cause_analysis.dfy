/**
 Root-cause analysis: which messages are sent for analysis, which are shown
 as examples, when the analysis can be started, and the fixed lists the
 result carries. The summary text itself comes from the backend and is a
 parameter here.
 */
module RootCauseAnalysis {
  import opened Seqs
  import opened Messages

  /** A value or its absence (the `null` the page posts or holds). */
  datatype Option<T> = None | Some(value: T)

  const ExampleCount := 3

  const TopIssues: seq<string> := [
    "Slow response times",
    "Confusing UI elements",
    "Billing concerns",
    "Feature accessibility"]

  const AffectedChannels: seq<string> := ["chat", "email"]

  const RecommendedActions: seq<string> := [
    "Implement automated chat responses for common queries",
    "Review and simplify checkout process",
    "Create better onboarding tutorials",
    "Expand support team capacity during peak hours"]

  /** The body posted for analysis: the contents, and no emotion filter (`null`). */
  datatype RootCauseRequest = RootCauseRequest(messages: seq<string>, emotionFilter: Option<string>)

  datatype Analysis = Analysis(
    summary: string,
    topIssues: seq<string>,
    affectedChannels: seq<string>,
    recommendedActions: seq<string>,
    exampleMessages: seq<Message>)

  /** The messages with a negative score, in their original order. */
  function NegativeMessages(ms: seq<Message>): (r: seq<Message>)
    ensures |r| <= |ms|
    ensures forall k :: 0 <= k < |r| ==> r[k].score < 0 && r[k] in ms
    ensures forall j :: 0 <= j < |ms| && ms[j].score < 0 ==> ms[j] in r
  {
    Filter(ms, IsNegative)
  }

  /**
   The negative messages are the order-preserving subsequence of exactly the
   positions with a score below zero, and there are as many as such positions.
   */
  lemma NegativeIsOrderedSubsequence(ms: seq<Message>)
    ensures Picks(NegativeMessages(ms), ms, Positions(ms, IsNegative))
    ensures forall j :: 0 <= j < |ms| ==> (ms[j].score < 0 <==> j in Positions(ms, IsNegative))
    ensures |NegativeMessages(ms)| == Count(ms, IsNegative)
  {
    FilterIsOrderedSubsequence(ms, IsNegative);
    FilterLength(ms, IsNegative);
  }

  /** The contents of the negative messages: same length and order, element `i` is the content of message `i`. */
  function MessageContents(negative: seq<Message>): (r: seq<string>)
    ensures |r| == |negative|
    ensures forall i :: 0 <= i < |r| ==> r[i] == negative[i].content
  {
    seq(|negative|, i requires 0 <= i < |negative| => negative[i].content)
  }

  /** The body posted for analysis: one content per negative message, in order, and no emotion filter. */
  function Request(ms: seq<Message>): (r: RootCauseRequest)
    ensures |r.messages| == |NegativeMessages(ms)| == Count(ms, IsNegative)
    ensures forall i :: 0 <= i < |r.messages| ==> r.messages[i] == NegativeMessages(ms)[i].content
    ensures r.emotionFilter == None
  {
    FilterLength(ms, IsNegative);
    RootCauseRequest(MessageContents(NegativeMessages(ms)), None)
  }

  /**
   The request carries one content per negative message, in order, each the
   content of a message of the input whose score is below zero.
   */
  lemma RequestCarriesNegativeContents(ms: seq<Message>)
    ensures |Request(ms).messages| == Count(ms, IsNegative)
    ensures forall i :: 0 <= i < |Request(ms).messages| ==>
      exists j :: 0 <= j < |ms| && ms[j].score < 0 && ms[j].content == Request(ms).messages[i]
    ensures Request(ms).emotionFilter == None
  {
    var negative := NegativeMessages(ms);
    var req := Request(ms);
    forall i | 0 <= i < |req.messages|
      ensures exists j :: 0 <= j < |ms| && ms[j].score < 0 && ms[j].content == req.messages[i]
    {
      assert negative[i] in ms && negative[i].score < 0;
      var j :| 0 <= j < |ms| && ms[j] == negative[i];
    }
  }

  /** The examples shown with an analysis: the first three negative messages, or all when fewer. */
  function ExampleMessages(negative: seq<Message>): (r: seq<Message>)
    ensures |r| == Min(ExampleCount, |negative|)
    ensures r == negative[..|r|]
  {
    Take(negative, ExampleCount)
  }

  /**
   The examples are the first `min(3, n)` negative messages, so every example
   has a negative score and is one of the input messages.
   */
  lemma ExamplesAreFirstNegatives(ms: seq<Message>)
    ensures |ExampleMessages(NegativeMessages(ms))| == Min(ExampleCount, Count(ms, IsNegative))
    ensures ExampleMessages(NegativeMessages(ms)) == NegativeMessages(ms)[..|ExampleMessages(NegativeMessages(ms))|]
    ensures forall k :: 0 <= k < |ExampleMessages(NegativeMessages(ms))| ==>
      ExampleMessages(NegativeMessages(ms))[k].score < 0 && ExampleMessages(NegativeMessages(ms))[k] in ms
  {
    FilterLength(ms, IsNegative);
    var negative := NegativeMessages(ms);
    var examples := ExampleMessages(negative);
    assert forall k :: 0 <= k < |examples| ==> examples[k] == negative[k];
  }

  /** No message is negative exactly when the list of negative messages is empty. */
  lemma NoNegativesIffEmpty(ms: seq<Message>)
    ensures |NegativeMessages(ms)| == 0 <==> forall j :: 0 <= j < |ms| ==> ms[j].score >= 0
  {
    var negative := NegativeMessages(ms);
    if |negative| > 0 {
      assert negative[0] in ms;
    }
  }

  /** The Start Analysis button: disabled exactly while an analysis runs or when no message has a negative score. */
  function AnalyzeDisabled(ms: seq<Message>, isAnalyzing: bool): (r: bool)
    ensures r <==> isAnalyzing || forall j :: 0 <= j < |ms| ==> ms[j].score >= 0
  {
    NoNegativesIffEmpty(ms);
    isAnalyzing || |NegativeMessages(ms)| == 0
  }

  /** The result shown after the backend answers with `summary`; the lists besides the examples are fixed. */
  function Analyze(ms: seq<Message>, summary: string): (r: Analysis)
    ensures r.summary == summary
    ensures r.topIssues == TopIssues && r.affectedChannels == AffectedChannels
    ensures r.recommendedActions == RecommendedActions
    ensures |r.exampleMessages| == Min(ExampleCount, |NegativeMessages(ms)|)
    ensures r.exampleMessages == NegativeMessages(ms)[..|r.exampleMessages|]
    ensures |r.exampleMessages| == Min(ExampleCount, Count(ms, IsNegative))
    ensures forall k :: 0 <= k < |r.exampleMessages| ==> r.exampleMessages[k].score < 0
  {
    FilterLength(ms, IsNegative);
    Analysis(summary, TopIssues, AffectedChannels, RecommendedActions, ExampleMessages(NegativeMessages(ms)))
  }

  /**
   A click on Start Analysis: nothing happens while the button is disabled;
   otherwise the analysis is produced, and then there was at least one
   negative message and at least one example.
   */
  function ClickAnalyze(ms: seq<Message>, isAnalyzing: bool, summary: string): (r: Option<Analysis>)
    ensures r.Some? <==> !isAnalyzing && Count(ms, IsNegative) > 0
    ensures r.Some? ==> r.value == Analyze(ms, summary)
    ensures r.Some? ==> r.value.summary == summary && 0 < |r.value.exampleMessages| <= ExampleCount
  {
    FilterLength(ms, IsNegative);
    if AnalyzeDisabled(ms, isAnalyzing) then None else Some(Analyze(ms, summary))
  }

  /** The fixed lists do not depend on the messages or the summary. */
  lemma FixedListsIgnoreInput(ms1: seq<Message>, ms2: seq<Message>, s1: string, s2: string)
    ensures Analyze(ms1, s1).topIssues == Analyze(ms2, s2).topIssues
    ensures Analyze(ms1, s1).affectedChannels == Analyze(ms2, s2).affectedChannels
    ensures Analyze(ms1, s1).recommendedActions == Analyze(ms2, s2).recommendedActions
  {
  }
}
