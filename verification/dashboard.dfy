/**
 The dashboard's derived lists: messages per channel, the chart entries with
 their colours, the sign buckets of one day, and the five most recent
 messages.
 */
module Dashboard {
  import opened Seqs
  import opened Messages

  /**
   One key of a plain-object histogram and its count. Entries are kept in
   insertion order, which is the order a plain object lists ordinary string
   keys in (see `ChannelDataKeyOrder`).
   */
  datatype Entry = Entry(key: string, count: int)

  /** One bar or slice of a chart. */
  datatype ChartEntry = ChartEntry(name: string, count: int, color: string)

  // ---------------------------------------------------------------------------
  // Messages per channel
  // ---------------------------------------------------------------------------

  /** The count recorded for `key`, or 0 when it has none. */
  function Lookup(acc: seq<Entry>, key: string): int
  {
    if |acc| == 0 then 0
    else if acc[0].key == key then acc[0].count
    else Lookup(acc[1..], key)
  }

  function Keys(acc: seq<Entry>): set<string>
  {
    set e | e in acc :: e.key
  }

  /** No key is recorded twice. */
  predicate DistinctKeys(acc: seq<Entry>)
  {
    |acc| == 0 || (acc[0].key !in Keys(acc[1..]) && DistinctKeys(acc[1..]))
  }

  function Sum(acc: seq<Entry>): int
  {
    if |acc| == 0 then 0 else acc[0].count + Sum(acc[1..])
  }

  lemma KeysCons(e: Entry, t: seq<Entry>)
    ensures Keys([e] + t) == {e.key} + Keys(t)
  {
    assert forall x :: x in [e] + t <==> x == e || x in t;
  }

  /**
   One step of the channel count: an existing key is incremented in place, a
   new one is appended with count 1. Exactly the count of `key` goes up by
   one, so the total goes up by one.
   */
  function Bump(acc: seq<Entry>, key: string): (r: seq<Entry>)
    ensures Sum(r) == Sum(acc) + 1
    ensures forall k :: Lookup(r, k) == Lookup(acc, k) + (if k == key then 1 else 0)
    decreases |acc|
  {
    if |acc| == 0 then [Entry(key, 1)]
    else if acc[0].key == key then [Entry(key, acc[0].count + 1)] + acc[1..]
    else [acc[0]] + Bump(acc[1..], key)
  }

  /** Bumping adds `key` to the keys and nothing else, and keeps keys distinct. */
  lemma {:induction false} BumpKeys(acc: seq<Entry>, key: string)
    ensures Keys(Bump(acc, key)) == Keys(acc) + {key}
    ensures DistinctKeys(acc) ==> DistinctKeys(Bump(acc, key))
    decreases |acc|
  {
    if |acc| == 0 {
      KeysCons(Entry(key, 1), []);
    } else {
      assert acc == [acc[0]] + acc[1..];
      KeysCons(acc[0], acc[1..]);
      if acc[0].key == key {
        KeysCons(Entry(key, acc[0].count + 1), acc[1..]);
        assert ([Entry(key, acc[0].count + 1)] + acc[1..])[1..] == acc[1..];
      } else {
        BumpKeys(acc[1..], key);
        KeysCons(acc[0], Bump(acc[1..], key));
        assert ([acc[0]] + Bump(acc[1..], key))[1..] == Bump(acc[1..], key);
      }
    }
  }

  /** The keys in the order the histogram lists them. */
  function KeyOrder(acc: seq<Entry>): (r: seq<string>)
    ensures |r| == |acc|
    ensures forall i :: 0 <= i < |r| ==> r[i] == acc[i].key
  {
    seq(|acc|, i requires 0 <= i < |acc| => acc[i].key)
  }

  lemma KeyOrderCons(e: Entry, t: seq<Entry>)
    ensures KeyOrder([e] + t) == [e.key] + KeyOrder(t)
  {
  }

  /** Bumping keeps the keys in place and appends a new key at the end. */
  lemma {:induction false} BumpKeyOrder(acc: seq<Entry>, key: string)
    ensures KeyOrder(Bump(acc, key)) == KeyOrder(acc) + (if key in Keys(acc) then [] else [key])
    decreases |acc|
  {
    if |acc| > 0 {
      var head, rest := acc[0], acc[1..];
      assert acc == [head] + rest;
      KeysCons(head, rest);
      KeyOrderCons(head, rest);
      if head.key != key {
        BumpKeyOrder(rest, key);
        var tail := Bump(rest, key);
        assert Bump(acc, key) == [head] + tail;
        KeyOrderCons(head, tail);
        assert (key in Keys(acc)) == (key in Keys(rest));
      } else {
        var bumped := Entry(key, head.count + 1);
        assert Bump(acc, key) == [bumped] + rest;
        KeyOrderCons(bumped, rest);
        assert key in Keys(acc);
      }
    }
  }

  function HasChannel(channel: string): Message -> bool
  {
    (m: Message) => m.channel == channel
  }

  function Channels(ms: seq<Message>): set<string>
  {
    set m | m in ms :: m.channel
  }

  /**
   The per-channel histogram, folded over the messages from first to last:
   its counts add up to the number of messages.
   */
  function ChannelData(ms: seq<Message>): (r: seq<Entry>)
    ensures Sum(r) == |ms|
  {
    if |ms| == 0 then [] else Bump(ChannelData(ms[..|ms| - 1]), ms[|ms| - 1].channel)
  }

  /** The histogram's keys are exactly the channels that occur, each once. */
  lemma {:induction false} ChannelDataKeys(ms: seq<Message>)
    ensures DistinctKeys(ChannelData(ms))
    ensures Keys(ChannelData(ms)) == Channels(ms)
    decreases |ms|
  {
    if |ms| > 0 {
      var init := ms[..|ms| - 1];
      var last := ms[|ms| - 1];
      ChannelDataKeys(init);
      BumpKeys(ChannelData(init), last.channel);
      assert ms == init + [last];
      assert Channels(ms) == Channels(init) + {last.channel};
    }
  }

  /**
   The channels are listed in the order they first occur: a further message
   leaves the listed channels as they were and appends its channel if it is
   new.
   */
  lemma ChannelDataKeyOrder(ms: seq<Message>, m: Message)
    ensures KeyOrder(ChannelData(ms + [m])) ==
      KeyOrder(ChannelData(ms)) + (if m.channel in Channels(ms) then [] else [m.channel])
  {
    assert (ms + [m])[..|ms|] == ms;
    ChannelDataKeys(ms);
    BumpKeyOrder(ChannelData(ms), m.channel);
  }

  /** Each channel's count is the number of messages on that channel. */
  lemma {:induction false} ChannelDataLookup(ms: seq<Message>, c: string)
    ensures Lookup(ChannelData(ms), c) == Count(ms, HasChannel(c))
    decreases |ms|
  {
    if |ms| > 0 {
      var init := ms[..|ms| - 1];
      var last := ms[|ms| - 1];
      ChannelDataLookup(init, c);
      assert ms == init + [last];
      CountSnoc(init, last, HasChannel(c));
    }
  }

  /**
   Every channel that occurs gets exactly one key and no other key appears;
   each key counts the messages on that channel; the counts add up to the
   number of messages.
   */
  lemma ChannelDataCounts(ms: seq<Message>)
    ensures DistinctKeys(ChannelData(ms))
    ensures Keys(ChannelData(ms)) == Channels(ms)
    ensures forall c :: Lookup(ChannelData(ms), c) == Count(ms, HasChannel(c))
    ensures Sum(ChannelData(ms)) == |ms|
  {
    ChannelDataKeys(ms);
    forall c
      ensures Lookup(ChannelData(ms), c) == Count(ms, HasChannel(c))
    {
      ChannelDataLookup(ms, c);
    }
  }

  // ---------------------------------------------------------------------------
  // Chart colours
  // ---------------------------------------------------------------------------

  const FallbackColor := "#6b7280"

  const EmotionColors: map<string, string> := map[
    "happy" := "#22c55e",
    "neutral" := "#6b7280",
    "frustrated" := "#f97316",
    "angry" := "#ef4444",
    "confused" := "#eab308"]

  const ChannelColors: map<string, string> := map[
    "chat" := "#3b82f6",
    "email" := "#8b5cf6",
    "ticket" := "#f59e0b"]

  /**
   The colour of a key: its table colour, or the fallback gray when the key
   is not in the table or its colour is empty.
   */
  function PaletteColor(palette: map<string, string>, key: string): (r: string)
    ensures key in palette && palette[key] != "" ==> r == palette[key]
    ensures key in palette && palette[key] == "" ==> r == FallbackColor
    ensures key !in palette ==> r == FallbackColor
  {
    if key in palette && palette[key] != "" then palette[key] else FallbackColor
  }

  /**
   The chart entries of a histogram: one per key, in order, with the key and
   the count copied unchanged and the colour looked up.
   */
  function ChartData(entries: seq<Entry>, palette: map<string, string>): (r: seq<ChartEntry>)
    ensures |r| == |entries|
    ensures forall i :: 0 <= i < |r| ==> r[i].name == entries[i].key && r[i].count == entries[i].count
    ensures forall i :: 0 <= i < |r| ==> r[i].color == PaletteColor(palette, entries[i].key)
  {
    seq(|entries|, i requires 0 <= i < |entries| => ChartEntry(entries[i].key, entries[i].count, PaletteColor(palette, entries[i].key)))
  }

  function ChartTotal(entries: seq<ChartEntry>): int
  {
    if |entries| == 0 then 0 else entries[0].count + ChartTotal(entries[1..])
  }

  /**
   The emotion chart: one entry per emotion of the backend's distribution, in
   its order, with its count, in the emotion's table colour or gray.
   */
  function EmotionData(distribution: seq<Entry>): (r: seq<ChartEntry>)
    ensures |r| == |distribution|
    ensures forall i :: 0 <= i < |r| ==> r[i].name == distribution[i].key && r[i].count == distribution[i].count
    ensures forall i :: 0 <= i < |r| && distribution[i].key in EmotionColors ==> r[i].color == EmotionColors[distribution[i].key]
    ensures forall i :: 0 <= i < |r| && distribution[i].key !in EmotionColors ==> r[i].color == FallbackColor
    ensures ChartTotal(r) == Sum(distribution)
  {
    ChartDataKeepsTotal(distribution, EmotionColors);
    ChartData(distribution, EmotionColors)
  }

  /**
   The channel chart: one bar per channel that occurs, named after it and
   counting the messages on it; the bars add up to the number of messages.
   */
  function ChannelChartData(ms: seq<Message>): (r: seq<ChartEntry>)
    ensures |r| == |Channels(ms)|
    ensures forall i :: 0 <= i < |r| ==> r[i].name in Channels(ms) && r[i].count == Count(ms, HasChannel(r[i].name))
    ensures forall i, j :: 0 <= i < j < |r| ==> r[i].name != r[j].name
    ensures forall i :: 0 <= i < |r| ==> r[i].color == PaletteColor(ChannelColors, r[i].name)
    ensures ChartTotal(r) == |ms|
  {
    ChannelBarsCount(ms);
    ChannelDataKeys(ms);
    DistinctKeysIndices(ChannelData(ms));
    DistinctKeysCardinality(ChannelData(ms));
    ChartDataKeepsTotal(ChannelData(ms), ChannelColors);
    ChartData(ChannelData(ms), ChannelColors)
  }

  /** Distinct keys: no two positions of the histogram hold the same key. */
  lemma {:induction false} DistinctKeysIndices(acc: seq<Entry>)
    requires DistinctKeys(acc)
    ensures forall i, j :: 0 <= i < j < |acc| ==> acc[i].key != acc[j].key
    decreases |acc|
  {
    if |acc| > 0 {
      DistinctKeysIndices(acc[1..]);
      forall j | 0 < j < |acc|
        ensures acc[0].key != acc[j].key
      {
        assert acc[j] == acc[1..][j - 1];
        assert acc[1..][j - 1] in acc[1..];
      }
      forall i, j | 0 < i < j < |acc|
        ensures acc[i].key != acc[j].key
      {
        assert acc[i] == acc[1..][i - 1] && acc[j] == acc[1..][j - 1];
      }
    }
  }

  /** With distinct keys, looking up the key of an entry finds that entry's count. */
  lemma {:induction false} LookupFindsEntry(acc: seq<Entry>, i: int)
    requires DistinctKeys(acc) && 0 <= i < |acc|
    ensures Lookup(acc, acc[i].key) == acc[i].count
    decreases |acc|
  {
    if i > 0 {
      LookupFindsEntry(acc[1..], i - 1);
      assert acc[1..][i - 1] in acc[1..];
    }
  }

  /** Each entry of the channel histogram is an occurring channel with the number of messages on it. */
  lemma ChannelBarsCount(ms: seq<Message>)
    ensures forall i :: 0 <= i < |ChannelData(ms)| ==>
      ChannelData(ms)[i].key in Channels(ms) && ChannelData(ms)[i].count == Count(ms, HasChannel(ChannelData(ms)[i].key))
  {
    var acc := ChannelData(ms);
    ChannelDataKeys(ms);
    forall i | 0 <= i < |acc|
      ensures acc[i].key in Channels(ms) && acc[i].count == Count(ms, HasChannel(acc[i].key))
    {
      assert acc[i] in acc;
      LookupFindsEntry(acc, i);
      ChannelDataLookup(ms, acc[i].key);
    }
  }

  lemma {:induction false} ChartDataKeepsTotal(entries: seq<Entry>, palette: map<string, string>)
    ensures ChartTotal(ChartData(entries, palette)) == Sum(entries)
    decreases |entries|
  {
    if |entries| > 0 {
      ChartDataKeepsTotal(entries[1..], palette);
      assert ChartData(entries, palette)[1..] == ChartData(entries[1..], palette);
    }
  }

  lemma {:induction false} DistinctKeysCardinality(acc: seq<Entry>)
    requires DistinctKeys(acc)
    ensures |Keys(acc)| == |acc|
    decreases |acc|
  {
    if |acc| > 0 {
      DistinctKeysCardinality(acc[1..]);
      assert acc == [acc[0]] + acc[1..];
      KeysCons(acc[0], acc[1..]);
    }
  }

  /** Emotions and channels outside the tables are drawn in the fallback gray; `neutral` is gray by the table itself. */
  lemma ChartColorFallback(emotion: string, channel: string)
    ensures emotion !in EmotionColors ==> PaletteColor(EmotionColors, emotion) == FallbackColor
    ensures channel !in {"chat", "email", "ticket"} ==> PaletteColor(ChannelColors, channel) == FallbackColor
    ensures PaletteColor(EmotionColors, "neutral") == FallbackColor
    ensures PaletteColor(ChannelColors, "email") == "#8b5cf6"
  {
  }

  // ---------------------------------------------------------------------------
  // Sign buckets of one day
  // ---------------------------------------------------------------------------

  /**
   One bucket bar: the exact number of messages, or, when that number is 0,
   the estimate: `tenths` tenths of `base`, rounded down. The source computes
   it in floating point, which this model does not evaluate.
   */
  datatype Bar = Exact(n: nat) | Estimate(base: nat, tenths: nat)

  datatype DayBars = DayBars(count: nat, positive: Bar, negative: Bar, neutral: Bar)

  /** A non-zero exact count is shown as is; a zero count falls back to the estimate. */
  function BarOf(exact: nat, base: nat, tenths: nat): (r: Bar)
    ensures r.Exact? <==> exact > 0
    ensures r.Exact? ==> r.n == exact
    ensures r.Estimate? ==> r.base == base && r.tenths == tenths
  {
    if exact > 0 then Exact(exact) else Estimate(base, tenths)
  }

  /**
   The bars for one day's messages. `filler` stands for the random count used
   when the day has no messages at all. Each bar is the exact count of its
   sign when that is non-zero, and otherwise an estimate from the day's count
   with four tenths for the positive bar and three tenths for the others.
   */
  function DayBuckets(day: seq<Message>, filler: nat): (r: DayBars)
    ensures |day| > 0 ==> r.count == |day|
    ensures |day| == 0 ==> r.count == filler && r.positive.Estimate? && r.negative.Estimate? && r.neutral.Estimate?
    ensures r.positive.Exact? ==> r.positive.n == Count(day, IsPositive)
    ensures r.negative.Exact? ==> r.negative.n == Count(day, IsNegative)
    ensures r.neutral.Exact? ==> r.neutral.n == Count(day, IsNeutralScore)
    ensures r.positive.Exact? <==> Count(day, IsPositive) > 0
    ensures r.negative.Exact? <==> Count(day, IsNegative) > 0
    ensures r.neutral.Exact? <==> Count(day, IsNeutralScore) > 0
    ensures r.positive.Estimate? ==> r.positive == Estimate(r.count, 4)
    ensures r.negative.Estimate? ==> r.negative == Estimate(r.count, 3)
    ensures r.neutral.Estimate? ==> r.neutral == Estimate(r.count, 3)
  {
    var count := if |day| > 0 then |day| else filler;
    DayBars(
      count,
      BarOf(Count(day, IsPositive), count, 4),
      BarOf(Count(day, IsNegative), count, 3),
      BarOf(Count(day, IsNeutralScore), count, 3))
  }

  /** Every message has exactly one sign, so the three exact counts add up to the day's count. */
  lemma {:induction false} SignCountsPartition(day: seq<Message>)
    ensures Count(day, IsPositive) + Count(day, IsNegative) + Count(day, IsNeutralScore) == |day|
    decreases |day|
  {
    if |day| > 0 {
      SignCountsPartition(day[1..]);
    }
  }

  function ExactTotal(b: DayBars): nat
  {
    (if b.positive.Exact? then b.positive.n else 0)
    + (if b.negative.Exact? then b.negative.n else 0)
    + (if b.neutral.Exact? then b.neutral.n else 0)
  }

  /**
   For a day with messages, the bars that show exact counts add up to the
   day's message count, and at least one bar is exact.
   */
  lemma DayBarsAccountForEveryMessage(day: seq<Message>, filler: nat)
    requires |day| > 0
    ensures ExactTotal(DayBuckets(day, filler)) == DayBuckets(day, filler).count
    ensures DayBuckets(day, filler).positive.Exact?
      || DayBuckets(day, filler).negative.Exact?
      || DayBuckets(day, filler).neutral.Exact?
  {
    SignCountsPartition(day);
  }

  // ---------------------------------------------------------------------------
  // Recent messages
  // ---------------------------------------------------------------------------

  /** The five most recent messages as listed: the first `min(5, n)`, in order. */
  function RecentMessages(ms: seq<Message>): (r: seq<Message>)
    ensures |r| == Min(5, |ms|)
    ensures r == ms[..|r|]
  {
    Take(ms, 5)
  }

  /** The score badge of a recent message: green above 0, red below, gray at 0. */
  function RecentScoreColor(score: int): (r: string)
    ensures r == Green <==> score > 0
    ensures r == Red <==> score < 0
    ensures r == Gray <==> score == 0
  {
    if score > 0 then Green else if score < 0 then Red else Gray
  }
}
