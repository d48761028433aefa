/**
 * The built-in speaker functions of the group chat. Each one decides, from
 * the conversation so far (`history`, oldest entry first) and one agent,
 * whether that agent may speak in the coming turn. Every one of them lets
 * everybody speak when the history is empty, so that a conversation can
 * start.
 */
module Speakers {
  import opened Text

  /** The three attributes of an agent that the speaker functions read. */
  datatype Agent = Agent(name: string, description: string, systemPrompt: string)

  /** `length_based`: an entry longer than this many characters is long. */
  const LongMessage := 100

  const PositiveWords := ["good", "great", "excellent", "happy", "positive"]
  const NegativeWords := ["bad", "poor", "terrible", "unhappy", "negative"]
  const QuestionIndicators := ["?", "what", "how", "why", "when", "where", "who"]

  function Last(history: seq<string>): string
    requires history != []
  {
    history[|history| - 1]
  }

  /** `history[-3:]`: the last (at most) three entries. */
  function Recent(history: seq<string>): (r: seq<string>)
    ensures |r| == (if |history| < 3 then |history| else 3)
    ensures r == history[|history| - |r|..]
  {
    if |history| >= 3 then history[|history| - 3..] else history
  }

  /** `round_robin`: every agent speaks in every turn. */
  function RoundRobin(history: seq<string>, agent: Agent): (r: bool)
    ensures r
  {
    true
  }

  /** `expertise_based`: the agent's system prompt occurs, ignoring case, in the last entry. */
  function ExpertiseBased(history: seq<string>, agent: Agent): (r: bool)
    ensures history == [] ==> r
    ensures history != [] ==>
              (r <==> exists i :: OccursAt(Lower(Last(history)), Lower(agent.systemPrompt), i))
  {
    history == [] || Contains(Lower(Last(history)), Lower(agent.systemPrompt))
  }

  /**
   * `custom_speaker`: a word of the description occurs in the last entry, or
   * the agent is named there (ignoring case), or the agent's name occurs in
   * none of the last three entries (with case).
   */
  function CustomSpeaker(history: seq<string>, agent: Agent): (r: bool)
    ensures history == [] ==> r
    ensures history != [] ==>
              (r <==>
                 (exists w :: w in Words(Lower(agent.description)) && Contains(Lower(Last(history)), w))
                 || Contains(Lower(Last(history)), Lower(agent.name))
                 || (forall m :: m in Recent(history) ==> !Contains(m, agent.name)))
  {
    if history == [] then true
    else
      var lastMessage := Lower(Last(history));
      var expertiseRelevant := ContainsAny(lastMessage, Words(Lower(agent.description)));
      var mentioned := Contains(lastMessage, Lower(agent.name));
      var notRecentSpeaker := !AnyContains(Recent(history), agent.name);
      expertiseRelevant || mentioned || notRecentSpeaker
  }

  /** `most_recent`: the agent's name is the speaker prefix (before the first colon) of the last entry. */
  function MostRecent(history: seq<string>, agent: Agent): (r: bool)
    ensures history == [] ==> r
    ensures history != [] && r ==> ':' !in agent.name && Contains(Last(history), agent.name)
  {
    if history == [] then true
    else
      var speaker := Strip(BeforeColon(Last(history)));
      StripWithin(BeforeColon(Last(history)));
      ContainsInPrefix(BeforeColon(Last(history)), Last(history), speaker);
      agent.name == speaker
  }

  /**
   * `sentiment_based`: an agent whose description mentions "positive" speaks
   * after an entry holding a positive keyword, any other agent after an entry
   * holding a negative keyword (keywords matched as substrings, ignoring case).
   */
  function SentimentBased(history: seq<string>, agent: Agent): (r: bool)
    ensures history == [] ==> r
    ensures history != [] && Contains(Lower(agent.description), "positive") ==>
              (r <==> exists w :: w in PositiveWords && Contains(Lower(Last(history)), w))
    ensures history != [] && !Contains(Lower(agent.description), "positive") ==>
              (r <==> exists w :: w in NegativeWords && Contains(Lower(Last(history)), w))
  {
    if history == [] then true
    else
      var lastMessage := Lower(Last(history));
      var isPositive := ContainsAny(lastMessage, PositiveWords);
      var isNegative := ContainsAny(lastMessage, NegativeWords);
      var agentIsPositive := Contains(Lower(agent.description), "positive");
      if agentIsPositive then isPositive else isNegative
  }

  /**
   * `length_based`: an agent whose description mentions "detailed" speaks
   * after a long entry, any other agent after a short one.
   */
  function LengthBased(history: seq<string>, agent: Agent): (r: bool)
    ensures history == [] ==> r
    ensures history != [] ==>
              (r <==> (|Last(history)| > LongMessage <==> Contains(Lower(agent.description), "detailed")))
  {
    if history == [] then true
    else
      var prefersLong := Contains(Lower(agent.description), "detailed");
      var messageIsLong := |Last(history)| > LongMessage;
      if prefersLong then messageIsLong else !messageIsLong
  }

  /** `question_based`: the last entry holds "?" or a question word (ignoring case). */
  function QuestionBased(history: seq<string>, agent: Agent): (r: bool)
    ensures history == [] ==> r
    ensures history != [] ==>
              (r <==> exists q :: q in QuestionIndicators && Contains(Lower(Last(history)), q))
  {
    history == [] || ContainsAny(Lower(Last(history)), QuestionIndicators)
  }

  /** The lower-cased words longer than four characters among `words`. */
  function LongWords(words: seq<string>): (ts: seq<string>)
    ensures forall t :: t in ts ==> exists w :: w in words && |w| > 4 && t == Lower(w)
    ensures forall w :: w in words && |w| > 4 ==> Lower(w) in ts
  {
    if words == [] then []
    else (if |words[0]| > 4 then [Lower(words[0])] else []) + LongWords(words[1..])
  }

  /** The expertise topics of a description: its words longer than four characters, lower-cased. */
  function Topics(description: string): seq<string> {
    LongWords(Words(description))
  }

  function LowerEach(messages: seq<string>): seq<string> {
    seq(|messages|, i requires 0 <= i < |messages| => Lower(messages[i]))
  }

  /**
   * `topic_based`: some topic of the agent's description occurs in the last
   * three entries, lower-cased and joined with single spaces.
   */
  function TopicBased(history: seq<string>, agent: Agent): (r: bool)
    ensures history == [] ==> r
    ensures history != [] ==>
              (r <==> exists w :: w in Words(agent.description) && |w| > 4
                                  && Contains(Join(" ", LowerEach(Recent(history))), Lower(w)))
  {
    if history == [] then true
    else
      var combinedText := Join(" ", LowerEach(Recent(history)));
      ContainsAny(combinedText, Topics(agent.description))
  }

  /**
   * With entries rendered as "name: ...", `most_recent` lets exactly the
   * agent whose name precedes the first colon speak.
   */
  lemma MostRecentSelectsLastSpeaker(history: seq<string>, speaker: string, body: string, agent: Agent)
    requires history != [] && Last(history) == speaker + ":" + body
    requires ':' !in speaker
    requires speaker == [] || (!IsSpace(speaker[0]) && !IsSpace(speaker[|speaker| - 1]))
    ensures MostRecent(history, agent) <==> agent.name == speaker
  {
    BeforeColonOfSpeaker(speaker, body);
  }

  /**
   * "unhappy" contains "happy": after an entry saying "unhappy" a
   * positive-leaning agent speaks as well as a negative-leaning one.
   */
  lemma UnhappyReadsBothWays(history: seq<string>, agent: Agent)
    requires history == ["unhappy"]
    ensures SentimentBased(history, agent)
  {
    var last := Lower(Last(history));
    assert last == "unhappy";
    assert OccursAt(last, "happy", 2);
    assert OccursAt(last, "unhappy", 0);
    assert "happy" in PositiveWords && "unhappy" in NegativeWords;
  }

  /** A "?" anywhere in the last entry makes every agent eligible under `question_based`. */
  lemma QuestionMarkMakesEligible(history: seq<string>, agent: Agent)
    requires history != [] && '?' in Last(history)
    ensures QuestionBased(history, agent)
  {
    var last := Last(history);
    var i :| 0 <= i < |last| && last[i] == '?';
    assert Lower(last)[i..i + 1] == "?";
    assert OccursAt(Lower(last), "?", i);
    assert "?" in QuestionIndicators;
  }

  /**
   * `expertise_based` matches the system prompt: after "Discuss tax" an
   * agent prompted "tax" speaks and one prompted "marketing" does not.
   */
  lemma ExpertiseMatchesSystemPrompt(history: seq<string>, tax: Agent, marketing: Agent)
    requires history == ["Discuss tax"]
    requires tax.systemPrompt == "tax" && marketing.systemPrompt == "marketing"
    ensures ExpertiseBased(history, tax)
    ensures !ExpertiseBased(history, marketing)
  {
    var last := Last(history);
    assert Lower(last)[8..11] == "tax";
    assert OccursAt(Lower(last), Lower("tax"), 8);
    assert Lower("marketing") == "marketing";
    LowerMissing(last, 'k');
    MissingCharacter(Lower(last), "marketing", 3);
  }

  /**
   * The "has not spoken recently" test of `custom_speaker` is case-sensitive:
   * "Bob" counts as silent after "BOB: hi", although the lower-cased name
   * occurs in that entry.
   */
  lemma CustomSpeakerRecencyIsCaseSensitive(history: seq<string>, agent: Agent)
    requires history == ["BOB: hi", "Ann: ok"] && agent.name == "Bob"
    ensures Contains(Lower(history[0]), Lower(agent.name))
    ensures CustomSpeaker(history, agent)
  {
    assert Lower("Bob") == "bob";
    assert Lower(history[0])[0..3] == "bob";
    assert OccursAt(Lower(history[0]), "bob", 0);
    MissingCharacter(history[0], agent.name, 1);
    MissingCharacter(history[1], agent.name, 0);
    assert Recent(history) == history;
  }
}
