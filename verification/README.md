# GroupChat turn-taking, modelled in Dafny

This project models `swarms/structs/groupchat.py`, the group chat of the swarms
framework. A `GroupChat` holds a fixed list of agents, a speaker function and a
turn budget (`max_loops`). `run(task)` appends a system message and the task to
the chat's conversation store. It then runs turns: in each turn the speaker
function picks the agents that may speak, in list order. Each picked agent is
prompted with the whole conversation, and any non-blank reply is appended under
the agent's name. The loop stops when the budget is spent, after two silent
turns in a row, or when the last three entries of the turn's starting snapshot
all say "conclusion". `batched_run` runs several tasks, one after another, on
the same instance.

Files:

- `wrappers.dfy`: the `Option` and `Result` datatypes.
- `text.dfy`: the Python string operations the speaker functions use. These are
  `lower`, the substring test `in`, `split()`, `strip()`, `split(":")[0]`,
  `isspace` and `join`. The substring test is proved against an index-based
  definition (`OccursAt`).
- `speakers.dfy`: the eight deterministic speaker functions, each with a
  contract that states its decision rule, plus lemmas on concrete cases.
- `session.dfy`: the meaning of `run` and `batched_run` as pure functions.
  `Eligible` is the speaker list comprehension. `Speak`/`SpeakAll` cover the
  agents of one turn. `Loop` is the `while` loop, `RunSpec` is `run`, and
  `RunEach`/`BatchSpec` are `batched_run`. Lemmas cover the turn budget,
  termination, silence, conclusion and accumulation.
- `groupchat.dfy`: the class `GroupChat`, with its configuration check. It has
  `Run` and `BatchedRun` methods whose loops mirror the source. The turn loop
  of `run` is the method `Converse`, and its per-agent loop is `SpeakInTurn`. Each method is
  proved to leave exactly the state, and return exactly the value, that
  `RunSpec`/`BatchSpec` give.

Modelling choices:

- An agent is its three strings: `agent_name`, `description` and `system_prompt`.
- `Agent.run` is an oracle `reply(agent, prompt, n)` that returns `Fail` (the
  call raised) or `Reply(text)`. Here `n` numbers the calls made on the
  instance, kept in the log `invoked`, so repeated calls to one agent can get
  different results. The prompt is built exactly as the source builds it.
- The conversation store is the sequence of `(role, content)` messages.
  `return_messages_as_list` and `return_history_as_string` live in
  `swarms/structs/conversation.py`, which is not part of this model, so they
  are arbitrary functions of that sequence (`TranscriptView`).
- A speaker function is a built-in, or a caller's function that may raise
  (`UserDefined`, returning `None` for a raise).

Notes on the code's behaviour:

- `expertise_based` matches the agent's `system_prompt`, not its description.
- An exception from the speaker function is not caught per agent. It escapes
  the list comprehension and the outer handler re-raises it, so `run` ends with
  `SpeakerFnRaised` and keeps whatever it had appended (`RunSpec`,
  `RaiseInSecondTurnFails`).
- The conclusion test reads `context`, the snapshot taken at the start of the
  turn. It does not read the transcript that includes that turn's replies
  (`ConclusionReadsSnapshot`, `LoopConclusion`).
- An exception from `Agent.run` is caught per agent: that agent adds nothing
  and the others still speak, each reply that is not blank being appended with
  its text (`Speak`, `EachReplyKept`, `TwoSpeakers`). With a built-in
  speaker function, `run` on a non-empty task therefore always returns
  (`RunSpec`).
- The model's speaker functions depend only on their arguments, and a silent
  turn changes nothing. So the first silent turn always leads to a second one,
  and that ends the loop (`SilentTurnEndsLoop`).

## Model

| member | source | states |
|---|---|---|
| `Text.Contains` | swarms/structs/groupchat.py:38 | Python `needle in hay` holds exactly when `needle` occurs at some index of `hay` |
| `Text.Words` | swarms/structs/groupchat.py:74 | `str.split()` gives non-empty words without whitespace whose concatenation is `s` less its whitespace |
| `Text.Strip` | swarms/structs/groupchat.py:94 | `strip()` is a slice of `s` with only whitespace cut on both sides, and it neither starts nor ends with whitespace |
| `Text.BeforeColon` | swarms/structs/groupchat.py:94 | `split(":")[0]` is the prefix of `s` before its first colon, or all of `s` |
| `Text.Blank` | swarms/structs/groupchat.py:343 | `not s or s.isspace()` holds exactly when every character of `s` is whitespace, so the empty reply is blank |
| `Text.LowerMaps` | swarms/structs/groupchat.py:38 | `str.lower()` keeps the length, turns each ASCII capital into its lower-case letter and leaves every other character alone; the result holds no ASCII capital, and lower-casing it again changes nothing |
| `Text.ContainsAny` | swarms/structs/groupchat.py:124 | `any(word in hay for word in words)` holds exactly when some word of the list occurs in `hay` |
| `Text.AnyContains` | swarms/structs/groupchat.py:81 | `any(needle in msg for msg in msgs)` holds exactly when `needle` occurs in some text of the list |
| `Text.AllContain` | swarms/structs/groupchat.py:370-371 | `all(needle in msg for msg in msgs)` holds exactly when `needle` occurs in every text of the list, so it holds on the empty list |
| `Text.JoinContainsParts` | swarms/structs/groupchat.py:284 | `sep.join(parts)` starts with the first part, and every part occurs in it |
| `Speakers.RoundRobin` | swarms/structs/groupchat.py:24-29 | always true |
| `Speakers.ExpertiseBased` | swarms/structs/groupchat.py:32-41 | true on empty history; otherwise true iff the lower-cased system prompt occurs in the lower-cased last entry |
| `Speakers.CustomSpeaker` | swarms/structs/groupchat.py:54-85 | true on empty history; otherwise true iff a description word occurs in the last entry, or the name occurs there (both ignoring case), or the name occurs (with case) in none of the last three entries |
| `Speakers.MostRecent` | swarms/structs/groupchat.py:88-97 | true on empty history; a yes implies the name has no colon and occurs in the last entry |
| `Speakers.SentimentBased` | swarms/structs/groupchat.py:100-130 | true on empty history; otherwise true iff the last entry holds a positive keyword (description mentions "positive") or a negative keyword (otherwise) |
| `Speakers.LengthBased` | swarms/structs/groupchat.py:133-148 | true on empty history; otherwise true iff "the last entry is over 100 characters" agrees with "the description mentions detailed" |
| `Speakers.QuestionBased` | swarms/structs/groupchat.py:151-173 | true on empty history; otherwise true iff the lower-cased last entry holds "?" or one of the six question words |
| `Speakers.LongWords` | swarms/structs/groupchat.py:189-193 | the topics are exactly the lower-cased description words longer than four characters |
| `Speakers.TopicBased` | swarms/structs/groupchat.py:176-195 | true on empty history; otherwise true iff some description word longer than four characters occurs, lower-cased, in the last three entries lower-cased and joined by spaces |
| `Speakers.MostRecentSelectsLastSpeaker` | swarms/structs/groupchat.py:93-97 | for a last entry "name:..." with a trimmed, colon-free name, exactly the agent of that name is eligible |
| `Speakers.UnhappyReadsBothWays` | swarms/structs/groupchat.py:109-130 | after "unhappy", positive-leaning and negative-leaning agents are both eligible, because "happy" is a substring of it |
| `Speakers.QuestionMarkMakesEligible` | swarms/structs/groupchat.py:159-173 | a "?" anywhere in the last entry makes every agent eligible |
| `Speakers.ExpertiseMatchesSystemPrompt` | swarms/structs/groupchat.py:32-41 | after "Discuss tax", an agent prompted "tax" is eligible and one prompted "marketing" is not |
| `Speakers.CustomSpeakerRecencyIsCaseSensitive` | swarms/structs/groupchat.py:78-85 | "Bob" counts as not recent after "BOB: hi", although the lower-cased name occurs in that entry |
| `Session.Evaluate` | swarms/structs/groupchat.py:301-305 | built-in speaker functions never raise, and all of them return true on an empty history |
| `Session.Eligible` | swarms/structs/groupchat.py:301-305 | fails iff the speaker function raises for some agent; otherwise returns, as a subsequence of the agent list, exactly the agents it says yes to |
| `Session.FramingRenders` | swarms/structs/groupchat.py:284-286 | a run opens with two messages: a "system" message that starts with "Group Chat Name: " and the chat's name and carries its description, its rules and every agent's name, then the task under the role "User" |
| `Session.PromptRenders` | swarms/structs/groupchat.py:324-330 | an agent's prompt starts with "You're " and its name, carries the chat's description, the task and the whole rendered history, and ends with "As <name>, please provide your response:" |
| `Session.EligibleCounts` | swarms/structs/groupchat.py:301-305 | each agent occurs among the eligible as often as in the agent list when the speaker function says yes to it, and not at all otherwise |
| `Session.Speak` | swarms/structs/groupchat.py:322-362 | the agent is called once; the transcript gains a message iff the call returned non-blank text, and that message is the text under the agent's name |
| `Session.SpeakAll` | swarms/structs/groupchat.py:321-362 | every eligible agent is called exactly once, in order, whatever the other calls did; the transcript only grows, by at most one non-blank message per agent, and the roles follow the agents' order |
| `Session.SpeakAllAppend` | swarms/structs/groupchat.py:321 | a turn over `xs + ys` is a turn over `xs` followed by a turn over `ys` on the state it left |
| `Session.EachReplyKept` | swarms/structs/groupchat.py:321-362 | the `j`-th speaker is called on the transcript its predecessors left, exactly its non-blank reply is appended there under its name (nothing when it raised or was blank), and the later speakers only append after it |
| `Session.SpeakAllAnswers` | swarms/structs/groupchat.py:321-351 | when every call returns non-blank text, the turn adds exactly one message per speaker, in list order, each under the speaker's name and with the text of its reply |
| `Session.SpeakAllSilent` | swarms/structs/groupchat.py:321-359 | when every call raises or returns blank text, the turn adds nothing |
| `Session.Loop` | swarms/structs/groupchat.py:293-377 | the loop never removes anything: the transcript and the call log only grow |
| `Session.LoopExtends` | swarms/structs/groupchat.py:293-377 | every message the loop adds is a non-blank reply of one of the chat's agents, and the loop calls no other agent |
| `Session.RunSpec` | swarms/structs/groupchat.py:280-383 | an empty task is refused with nothing changed; otherwise the transcript is the old one, then the system and User messages, then agents' non-blank messages; the result is the rendered final history; it fails only when the speaker function raised for some agent on the final transcript, so with a built-in speaker function a non-empty task always succeeds; when the speaker function raises at the first turn, the run fails with just the system and User messages added |
| `Session.RunEach` | swarms/structs/groupchat.py:406 | the shared transcript only grows; a successful batch gives one history per task; a failure is an empty task of the list, or a caller's speaker function that raised |
| `Session.BatchSpec` | swarms/structs/groupchat.py:402-406 | an empty task list is refused with nothing changed; a successful batch gives one history per task; with a built-in speaker function a list of non-empty tasks always succeeds, and otherwise the failure is an empty task or a raising speaker function |
| `Session.RunEachRendersPrefixes` | swarms/structs/groupchat.py:263-406 | in a successful batch, run `i` starts where run `i - 1` ended, its User message is the second message from there, it adds at least those two messages, its result renders the transcript up to where it ended, and the last run ends at the end of the transcript |
| `Session.LoopTurnBudget` | swarms/structs/groupchat.py:297-364 | the turn count never exceeds `max_loops` |
| `Session.LoopBudgetStop` | swarms/structs/groupchat.py:297 | the loop stops for budget only when the turn count has reached `max_loops` |
| `Session.LoopIterationBound` | swarms/structs/groupchat.py:293-318 | the loop body runs at most `2 * turns + 2` times |
| `Session.LoopSilence` | swarms/structs/groupchat.py:307-313 | a loop that stops in silence leaves a transcript in which nobody is eligible |
| `Session.LoopRaised` | swarms/structs/groupchat.py:299-382 | a loop that stops on an exception leaves a transcript on which the speaker function raises |
| `Session.SilentTurnEndsLoop` | swarms/structs/groupchat.py:307-314 | a silent turn ends the loop after the second silent evaluation, with state and turn count unchanged |
| `Session.Concluded` | swarms/structs/groupchat.py:366-373 | the conversation has reached its natural conclusion exactly when each of its last three entries (all of them, when there are fewer) contains "conclusion" once lower-cased |
| `Session.ConclusionReadsSnapshot` | swarms/structs/groupchat.py:366-377 | after a turn in which some agent was eligible, if the start-of-turn snapshot is not concluded and budget for another turn remains, the loop runs another iteration, whatever the turn's replies say |
| `Session.LoopConclusion` | swarms/structs/groupchat.py:366-377 | a stop at a conclusion comes after a non-silent turn, and some prefix of the final transcript has "conclusion" in each of its last three entries |
| `Session.EligibleEveryone` | swarms/structs/groupchat.py:301-305 | when the speaker function says yes to everyone, every agent is eligible, in list order |
| `Session.RunTurnBudget` | swarms/structs/groupchat.py:293-364 | in one run, non-silent turns are at most `max_loops`, and loop iterations are at most `2 * max_loops + 2` |
| `Session.TurnOutline` | swarms/structs/groupchat.py:321-362 | every speaker is called once, in order; the transcript keeps its old messages and gains at most one per speaker, with roles in the speakers' order: one per speaker when every call answers, none when no call does |
| `Session.TwoSpeakers` | swarms/structs/groupchat.py:321-362 | a turn of two speakers calls both in order and appends exactly the first one's non-blank reply, then the second one's, whichever calls fail |
| `Session.RaiseInSecondTurnFails` | swarms/structs/groupchat.py:299-383 | when the speaker function raises in the second turn, the run fails and keeps what the first turn appended |
| `Session.SingleTurnRun` | swarms/structs/groupchat.py:283-379 | with one loop and every agent eligible at the start, a run is one turn of all agents, and it returns the rendered transcript |
| `Session.RoundRobinSingleLoop` | swarms/structs/groupchat.py:283-364 | two agents, `round_robin`, one loop, task "hello": after the framing, both agents are called once in order, and each adds at most one message; if every call answers, exactly two messages are added, in list order; if none does, nothing is added; in every case the transcript gains exactly the first agent's non-blank reply, then the second's |
| `Chat.ReliabilityCheck` | swarms/structs/groupchat.py:244-256 | fails iff there are fewer than two agents, no speaker function, or `max_loops <= 0`, with the first of these reported |
| `Chat.GroupChat.constructor` | swarms/structs/groupchat.py:225-242 | a checked configuration gives an instance with those settings and an empty conversation |
| `Chat.GroupChat.Create` | swarms/structs/groupchat.py:225-261 | construction fails with exactly the fault the check reports; otherwise it gives a fresh instance with the given settings and an empty conversation |
| `Chat.GroupChat.Run` | swarms/structs/groupchat.py:263-383 | the new conversation, the call log and the returned value are exactly those of `RunSpec` on the old state |
| `Chat.GroupChat.Converse` | swarms/structs/groupchat.py:288-383 | the instance's conversation and call log end exactly as `Loop` leaves them from a fresh start, and it reports a raise exactly when `Loop` stops with the speaker function raising |
| `Chat.GroupChat.SpeakInTurn` | swarms/structs/groupchat.py:321-362 | the instance's conversation and call log end exactly as `SpeakAll` leaves them for the eligible agents |
| `Chat.GroupChat.BatchedRun` | swarms/structs/groupchat.py:385-406 | the new conversation, the call log and the returned value are exactly those of `BatchSpec` on the old state |

## Left out

- `random_selection` (lines 44-51) is not modelled. The model's speaker functions depend only on their arguments. A caller's function (`UserDefined`) may raise, but it cannot be random.
- `concurrent_run` (lines 408-443) is not modelled. It is thread-pool plumbing around `run`, and its threads share one conversation.
- The language-model call inside `Agent.run` is an oracle, not a model. The `img`, `*args` and `**kwargs` that `run` passes through are not modelled.
- `swarms/structs/conversation.py` is not part of this model. Its rendering format and its timestamps (`time_enabled=True`) are not modelled, and its two accessors are arbitrary functions.
- The `AgentResponse` model (lines 12-18) is not modelled: nothing uses it.
- Logging and the `print` calls are not modelled. They do not affect behaviour.
- The `isinstance` checks on agents, tasks and task lists are not modelled. Dafny's types make them always pass.
- The default argument values of `__init__` are not modelled. Callers of `GroupChat.Create` pass every setting.
- `str.lower()` is modelled for ASCII letters only. `isspace` is modelled for whitespace up to U+00FF only, and so are `split()` and `strip()`, which cut at the same whitespace.
- Text.Words: the contract does not say where one word ends and the next begins. It gives the words' content and their concatenation, not their boundaries.
- Speakers.MostRecent: the contract gives only necessary conditions for a yes. The exact rule, for entries of the form "name:...", is `Speakers.MostRecentSelectsLastSpeaker`.
- The commented-out `__main__` example (lines 446-505) is not modelled.
