/**
 The customer message as the components receive it, and the badge classes
 shared by every view that colours an emotion or a score.
 */
module Messages {

  /**
   One customer message. `emotion` is the classifier's list of tags (there may
   be several), `score` the signed sentiment, `timestamp` an opaque instant.
   */
  datatype Message = Message(
    id: string,
    content: string,
    emotion: seq<string>,
    score: int,
    channel: string,
    timestamp: int)

  predicate IsPositive(m: Message) { m.score > 0 }

  predicate IsNegative(m: Message) { m.score < 0 }

  predicate IsNeutralScore(m: Message) { m.score == 0 }

  const Green := "bg-green-100 text-green-800"
  const Blue := "bg-blue-100 text-blue-800"
  const Yellow := "bg-yellow-100 text-yellow-800"
  const Orange := "bg-orange-100 text-orange-800"
  const Red := "bg-red-100 text-red-800"
  const Gray := "bg-gray-100 text-gray-800"

  /** The named emotions that get a colour of their own; everything else is gray. */
  const ColouredEmotions: set<string> := {"happy", "angry", "frustrated", "confused"}

  /**
   Badge class for an emotion tag. Each of the four coloured emotions gets its
   own class and nothing else gets it; every other tag, `neutral` included,
   gets the gray default.
   */
  function EmotionColor(emotion: string): (r: string)
    ensures r == Green <==> emotion == "happy"
    ensures r == Red <==> emotion == "angry"
    ensures r == Orange <==> emotion == "frustrated"
    ensures r == Yellow <==> emotion == "confused"
    ensures r == Gray <==> emotion !in ColouredEmotions
  {
    assert Yellow[3] != Orange[3];
    match emotion
    case "angry" => Red
    case "frustrated" => Orange
    case "confused" => Yellow
    case "happy" => Green
    case _ => Gray
  }
}
