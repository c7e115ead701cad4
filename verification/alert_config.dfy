/**
 The alert-rule editor: the list of rules held by the page, the three local
 edits (add, update one field, remove), and the renaming between the
 backend's field names and the page's.
 */
module AlertConfig {
  import opened Messages

  /** A rule as the page holds it. */
  datatype AlertRule = AlertRule(emotion: string, threshold: int, timeWindow: int, enabled: bool)

  /** A rule as the backend sends it and as the page posts it back (`emotion_type`, `time_window`). */
  datatype WireConfig = WireConfig(emotionType: string, threshold: int, timeWindow: int, enabled: bool)

  /** The rule "Add New Alert Rule" appends. */
  const DefaultRule := AlertRule("neutral", 5, 15, true)

  // ---------------------------------------------------------------------------
  // Backend shape <-> page shape
  // ---------------------------------------------------------------------------

  /** One backend config read into the page's shape. */
  function FromWire(c: WireConfig): (r: AlertRule)
    ensures r.emotion == c.emotionType && r.timeWindow == c.timeWindow
    ensures r.threshold == c.threshold && r.enabled == c.enabled
  {
    AlertRule(c.emotionType, c.threshold, c.timeWindow, c.enabled)
  }

  /** The JSON body posted when a rule is saved; reading it back gives the same rule. */
  function ToRequestBody(rule: AlertRule): (b: WireConfig)
    ensures FromWire(b) == rule
  {
    WireConfig(rule.emotion, rule.threshold, rule.timeWindow, rule.enabled)
  }

  /** Saving a rule that came from the backend posts the backend's config back unchanged. */
  lemma WireRoundTrip(c: WireConfig)
    ensures ToRequestBody(FromWire(c)) == c
  {
  }

  /** The fetched list read into page rules, one for one and in order; each posts back as its source config. */
  function LoadConfigs(configs: seq<WireConfig>): (r: seq<AlertRule>)
    ensures |r| == |configs|
    ensures forall i :: 0 <= i < |r| ==> ToRequestBody(r[i]) == configs[i]
  {
    seq(|configs|, i requires 0 <= i < |configs| => FromWire(configs[i]))
  }

  // ---------------------------------------------------------------------------
  // Local edits
  // ---------------------------------------------------------------------------

  /** Appends exactly one default rule at the end; every earlier rule is kept as it was. */
  function AddAlert(rules: seq<AlertRule>): (r: seq<AlertRule>)
    ensures |r| == |rules| + 1
    ensures r[..|rules|] == rules
    ensures r[|rules|] == DefaultRule
  {
    rules + [DefaultRule]
  }

  datatype Field = EmotionField | ThresholdField | TimeWindowField | EnabledField

  /** One field edit from the rule card: the emotion select, a number input, or the switch. */
  datatype FieldUpdate =
    | SetEmotion(emotion: string)
    | SetThreshold(threshold: int)
    | SetTimeWindow(timeWindow: int)
    | SetEnabled(enabled: bool)

  function FieldOf(u: FieldUpdate): Field
  {
    match u
    case SetEmotion(_) => EmotionField
    case SetThreshold(_) => ThresholdField
    case SetTimeWindow(_) => TimeWindowField
    case SetEnabled(_) => EnabledField
  }

  /** The two rules hold the same value in field `f`. */
  predicate SameField(a: AlertRule, b: AlertRule, f: Field)
  {
    match f
    case EmotionField => a.emotion == b.emotion
    case ThresholdField => a.threshold == b.threshold
    case TimeWindowField => a.timeWindow == b.timeWindow
    case EnabledField => a.enabled == b.enabled
  }

  /** The rule now holds the value the update carries. */
  predicate Holds(rule: AlertRule, u: FieldUpdate)
  {
    match u
    case SetEmotion(e) => rule.emotion == e
    case SetThreshold(n) => rule.threshold == n
    case SetTimeWindow(n) => rule.timeWindow == n
    case SetEnabled(b) => rule.enabled == b
  }

  /** A copy of the rule with one field replaced: that field takes the new value, every other field is kept. */
  function Apply(rule: AlertRule, u: FieldUpdate): (r: AlertRule)
    ensures Holds(r, u)
    ensures forall f :: f != FieldOf(u) ==> SameField(r, rule, f)
  {
    match u
    case SetEmotion(e) => rule.(emotion := e)
    case SetThreshold(n) => rule.(threshold := n)
    case SetTimeWindow(n) => rule.(timeWindow := n)
    case SetEnabled(b) => rule.(enabled := b)
  }

  /**
   The local list update of `updateAlert`: same length, the rule at `index`
   takes the new value in the one field edited, and every other rule and
   every other field stays as it was.
   */
  function UpdateAlert(rules: seq<AlertRule>, index: int, u: FieldUpdate): (r: seq<AlertRule>)
    requires 0 <= index < |rules|
    ensures |r| == |rules|
    ensures Holds(r[index], u)
    ensures forall f :: f != FieldOf(u) ==> SameField(r[index], rules[index], f)
    ensures forall j :: 0 <= j < |r| && j != index ==> r[j] == rules[j]
  {
    rules[index := Apply(rules[index], u)]
  }

  /** What `updateAlert` posts: the updated rule, in the backend's shape. */
  function SavedConfig(rules: seq<AlertRule>, index: int, u: FieldUpdate): (b: WireConfig)
    requires 0 <= index < |rules|
    ensures FromWire(b) == UpdateAlert(rules, index, u)[index]
    ensures Holds(FromWire(b), u)
  {
    ToRequestBody(UpdateAlert(rules, index, u)[index])
  }

  /** Two edits of the same field: the later one wins. */
  lemma UpdateSameFieldTwice(rules: seq<AlertRule>, index: int, u: FieldUpdate, w: FieldUpdate)
    requires 0 <= index < |rules|
    requires FieldOf(u) == FieldOf(w)
    ensures UpdateAlert(UpdateAlert(rules, index, u), index, w) == UpdateAlert(rules, index, w)
  {
  }

  /** Edits of two different fields, or of two different rules, commute. */
  lemma UpdatesCommute(rules: seq<AlertRule>, i: int, u: FieldUpdate, j: int, w: FieldUpdate)
    requires 0 <= i < |rules| && 0 <= j < |rules|
    requires i != j || FieldOf(u) != FieldOf(w)
    ensures UpdateAlert(UpdateAlert(rules, i, u), j, w) == UpdateAlert(UpdateAlert(rules, j, w), i, u)
  {
  }

  /**
   Dropping the rule at a position: with a valid index exactly that rule is
   gone and the others keep their order; any other index leaves the list as
   it was.
   */
  function RemoveAlert(rules: seq<AlertRule>, index: int): (r: seq<AlertRule>)
    ensures 0 <= index < |rules| ==> |r| == |rules| - 1 && r == rules[..index] + rules[index + 1..]
    ensures !(0 <= index < |rules|) ==> r == rules
    decreases |rules|
  {
    if |rules| == 0 then []
    else (if index == 0 then [] else [rules[0]]) + RemoveAlert(rules[1..], index - 1)
  }

  /** Removing the rule just added gives back the list from before. */
  lemma RemoveUndoesAdd(rules: seq<AlertRule>)
    ensures RemoveAlert(AddAlert(rules), |rules|) == rules
  {
    assert AddAlert(rules)[..|rules|] == rules;
  }

  /** The emotion badge of a rule card: same palette as the message browser. */
  function RuleBadge(rule: AlertRule): (r: string)
    ensures r == Green <==> rule.emotion == "happy"
    ensures r == Red <==> rule.emotion == "angry"
    ensures r == Orange <==> rule.emotion == "frustrated"
    ensures r == Yellow <==> rule.emotion == "confused"
    ensures r == Gray <==> rule.emotion !in ColouredEmotions
    ensures rule.emotion == "neutral" ==> r == Gray
  {
    EmotionColor(rule.emotion)
  }
}
