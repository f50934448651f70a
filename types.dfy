/** The value types shared by the root app's scenario, scoring and
    retrieval code. */
module Types {
  import opened JsText

  /** The personas of the root app; `Gopnik` has a voice in the scenario
      engine although the type declaration does not list it. */
  datatype Persona = Calm | Anxious | Aggressive | Slangy | Elderly | Corporate | Impatient | Zoomer | Gopnik

  datatype Difficulty = Simple | Hard | Intolerant

  datatype ScenarioArchetype = ScenarioArchetype(
    id: string, title: string, summary: string, topics: seq<string>,
    sampleQuestions: seq<string>, gotchas: seq<string>, outcomes: seq<string>,
    warmup: Option<string>)

  /** A scenario plan; `goal` is `None` where `randomFrom` picked from an
      archetype without outcomes and left it `undefined`. */
  datatype ScenarioPlan = ScenarioPlan(
    archetypeId: string, persona: Persona, difficulty: Difficulty, facts: seq<string>,
    opener: string, goal: Option<string>, escalationTriggers: seq<string>, pitfalls: seq<string>)

  /** A retrieved knowledge chunk with its relevance score. */
  datatype RetrievalItem = RetrievalItem(
    docId: int, chunkId: int, text: string, score: real,
    title: Option<string>, source: Option<string>)

  /** `randomFrom(items)`: `items[Math.floor(Math.random() * items.length)]`.
      The random draw is the caller's `pick`, an index of the list; an empty
      list yields `undefined`, here `None`. */
  function RandomFrom<T>(items: seq<T>, pick: nat): (r: Option<T>)
    requires pick < |items| || |items| == 0
    ensures r.Some? <==> |items| > 0
    ensures r.Some? ==> r.value in items
  {
    if |items| == 0 then None else Some(items[pick])
  }

  /** The text a template literal makes of a picked string. */
  function Shown(x: Option<string>): string
  {
    match x
    case Some(s) => s
    case None => "undefined"
  }
}
