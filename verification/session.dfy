/**
 * The meaning of `GroupChat.run` and `GroupChat.batched_run` as pure
 * functions: the turn loop over an append-only transcript, driven by a
 * speaker function, with the agents' language-model calls supplied by an
 * oracle. The class in groupchat.dfy is proved to compute exactly these.
 */
module Session {
  import opened Wrappers
  import opened Text
  import Speakers

  type Agent = Speakers.Agent

  /**
   * The speaker function of a group chat: one of the built-ins, or one
   * supplied by the caller. A caller's function may raise, which is `None`.
   */
  datatype SpeakerFn =
    | RoundRobin | ExpertiseBased | CustomSpeaker | MostRecent
    | SentimentBased | LengthBased | QuestionBased | TopicBased
    | UserDefined(decide: (seq<string>, Agent) -> Option<bool>)

  /** `speaker_fn(history, agent)`; the built-ins never raise and let everyone speak first. */
  function Evaluate(fn: SpeakerFn, history: seq<string>, agent: Agent): (r: Option<bool>)
    ensures !fn.UserDefined? ==> r.Some? && (history == [] ==> r.value)
  {
    match fn
    case RoundRobin => Some(Speakers.RoundRobin(history, agent))
    case ExpertiseBased => Some(Speakers.ExpertiseBased(history, agent))
    case CustomSpeaker => Some(Speakers.CustomSpeaker(history, agent))
    case MostRecent => Some(Speakers.MostRecent(history, agent))
    case SentimentBased => Some(Speakers.SentimentBased(history, agent))
    case LengthBased => Some(Speakers.LengthBased(history, agent))
    case QuestionBased => Some(Speakers.QuestionBased(history, agent))
    case TopicBased => Some(Speakers.TopicBased(history, agent))
    case UserDefined(decide) => decide(history, agent)
  }

  /** One entry of the conversation store; its timestamp is not modelled. */
  datatype Message = Message(role: string, content: string)

  /**
   * The two read accessors of the conversation store, `return_messages_as_list`
   * and `return_history_as_string`. How they render messages is not part of
   * this model: they are arbitrary functions of the message sequence.
   */
  datatype TranscriptView = TranscriptView(
    messagesAsList: seq<Message> -> seq<string>,
    historyAsString: seq<Message> -> string)

  /** What one call of `Agent.run` does: raise, or return some text. */
  datatype Outcome = Fail | Reply(text: string)

  /** The agents' language-model calls: the outcome for an agent, its prompt and the call's number. */
  type Responder = (Agent, string, nat) -> Outcome

  /** The settings fixed at construction. */
  datatype Config = Config(
    name: string, description: string, agents: seq<Agent>,
    speakerFn: SpeakerFn, maxLoops: int, rules: string)

  /** The conversation store, and the log of `Agent.run` calls made so far. */
  datatype State = State(conversation: seq<Message>, invoked: seq<Agent>)

  /** The `ValueError`s of `run` and `batched_run`, and an exception escaping the speaker function. */
  datatype RunError = EmptyTask | EmptyTaskList | SpeakerFnRaised

  ghost predicate Subsequence<T>(xs: seq<T>, ys: seq<T>)
    decreases |ys|
  {
    xs == [] ||
    (ys != [] && ((xs[0] == ys[0] && Subsequence(xs[1..], ys[1..])) || Subsequence(xs, ys[1..])))
  }

  function Names(agents: seq<Agent>): seq<string> {
    seq(|agents|, i requires 0 <= i < |agents| => agents[i].name)
  }

  function Roles(messages: seq<Message>): seq<string> {
    seq(|messages|, i requires 0 <= i < |messages| => messages[i].role)
  }

  lemma NamesCons(agents: seq<Agent>)
    requires agents != []
    ensures Names(agents) == [agents[0].name] + Names(agents[1..])
  {
  }

  lemma RolesCons(m: Message, messages: seq<Message>)
    ensures Roles([m] + messages) == [m.role] + Roles(messages)
  {
  }

  /** The agents for whom the speaker function says yes, in list order; `None` when it raises. */
  function Eligible(fn: SpeakerFn, context: seq<string>, agents: seq<Agent>): (r: Option<seq<Agent>>)
    ensures r.Some? <==> forall a :: a in agents ==> Evaluate(fn, context, a).Some?
    ensures r.Some? ==> Subsequence(r.value, agents)
    ensures r.Some? ==> forall a :: a in r.value ==> a in agents
    ensures r.Some? ==> forall a :: a in agents ==> (a in r.value <==> Evaluate(fn, context, a) == Some(true))
  {
    if agents == [] then Some([])
    else
      assert forall a :: a in agents <==> a == agents[0] || a in agents[1..];
      match Evaluate(fn, context, agents[0])
      case None => None
      case Some(speaks) =>
        match Eligible(fn, context, agents[1..])
        case None => None
        case Some(rest) =>
          if speaks then
            assert ([agents[0]] + rest)[1..] == rest;
            Some([agents[0]] + rest)
          else Some(rest)
  }

  /**
   * Eligibility keeps multiplicity: an agent listed several times is
   * eligible as many times as it is listed, or not at all.
   */
  lemma {:induction false} EligibleCounts(fn: SpeakerFn, context: seq<string>, agents: seq<Agent>)
    ensures var r := Eligible(fn, context, agents);
            r.Some? ==> forall a :: multiset(r.value)[a]
                                    == if Evaluate(fn, context, a) == Some(true) then multiset(agents)[a] else 0
  {
    var r := Eligible(fn, context, agents);
    if agents != [] && r.Some? {
      var rest := Eligible(fn, context, agents[1..]);
      EligibleCounts(fn, context, agents[1..]);
      assert multiset(agents) == multiset{agents[0]} + multiset(agents[1..]) by {
        assert agents == [agents[0]] + agents[1..];
      }
      if Evaluate(fn, context, agents[0]) == Some(true) {
        assert r.value == [agents[0]] + rest.value;
        assert multiset(r.value) == multiset{agents[0]} + multiset(rest.value);
      } else {
        assert r.value == rest.value;
      }
    }
  }

  /** The system message that opens every run. */
  function SystemContext(cfg: Config): string {
    "Group Chat Name: " + cfg.name + "\nGroup Chat Description: " + cfg.description
    + "\nRules: " + cfg.rules + "\n Other agents: " + Join(", ", Names(cfg.agents))
  }

  /** The two messages `run` adds before its loop. */
  function Framing(cfg: Config, task: string): seq<Message> {
    [Message("system", SystemContext(cfg)), Message("User", task)]
  }

  /** The prompt an agent is given, with the rendered conversation at that moment. */
  function Prompt(cfg: Config, agent: Agent, task: string, history: string): string {
    "You're " + agent.name + " participating in a group chat.\n"
    + ("Chat Purpose: " + cfg.description + "\n")
    + ("Current Discussion: " + task + "\n")
    + ("Chat History:\n" + history + "\n")
    + ("As " + agent.name + ", please provide your response:")
  }

  /**
   * The opening messages of a run: a system message that begins with the
   * chat's name and carries its description, its rules and the name of every
   * agent, then the task under the role "User".
   */
  lemma FramingRenders(cfg: Config, task: string)
    ensures var f := Framing(cfg, task);
            |f| == 2 && f[0].role == "system" && f[1] == Message("User", task)
            && "Group Chat Name: " + cfg.name <= f[0].content
            && Contains(f[0].content, cfg.description) && Contains(f[0].content, cfg.rules)
            && forall a :: a in cfg.agents ==> Contains(f[0].content, a.name)
  {
    var text := SystemContext(cfg);
    var names := Join(", ", Names(cfg.agents));
    var withDescription := "Group Chat Name: " + cfg.name + "\nGroup Chat Description: " + cfg.description;
    var withRules := withDescription + "\nRules: " + cfg.rules;
    var beforeNames := withRules + "\n Other agents: ";
    assert text == beforeNames + names;
    ContainsSelf(cfg.description);
    ContainsInSuffix("Group Chat Name: " + cfg.name + "\nGroup Chat Description: ", cfg.description, cfg.description);
    ContainsInPrefix(withDescription, text, cfg.description);
    ContainsSelf(cfg.rules);
    ContainsInSuffix(withDescription + "\nRules: ", cfg.rules, cfg.rules);
    ContainsInPrefix(withRules, text, cfg.rules);
    JoinContainsParts(", ", Names(cfg.agents));
    forall a | a in cfg.agents
      ensures Contains(text, a.name)
    {
      var i :| 0 <= i < |cfg.agents| && cfg.agents[i] == a;
      assert Names(cfg.agents)[i] == a.name;
      ContainsInSuffix(beforeNames, names, a.name);
    }
  }

  /**
   * An agent's prompt addresses the agent by name, carries the chat's
   * purpose, the task and the whole rendered history, and ends by asking the
   * agent, by name, for its response.
   */
  lemma PromptRenders(cfg: Config, agent: Agent, task: string, history: string)
    ensures var p := Prompt(cfg, agent, task, history);
            var ask := "As " + agent.name + ", please provide your response:";
            "You're " + agent.name <= p && |ask| <= |p| && p[|p| - |ask|..] == ask
            && Contains(p, cfg.description) && Contains(p, task) && Contains(p, history)
  {
    var greeting := "You're " + agent.name + " participating in a group chat.\n";
    var purpose := "Chat Purpose: " + cfg.description + "\n";
    var discussion := "Current Discussion: " + task + "\n";
    var chat := "Chat History:\n" + history + "\n";
    var ask := "As " + agent.name + ", please provide your response:";
    var p := greeting + purpose + discussion + chat + ask;
    assert p == Prompt(cfg, agent, task, history);
    PrefixExtends("You're " + agent.name, greeting, purpose);
    PrefixExtends("You're " + agent.name, greeting + purpose, discussion);
    PrefixExtends("You're " + agent.name, greeting + purpose + discussion, chat);
    PrefixExtends("You're " + agent.name, greeting + purpose + discussion + chat, ask);
    assert p[|p| - |ask|..] == ask;
    ContainsMiddle("Chat Purpose: ", cfg.description, "\n");
    ContainsInSuffix(greeting, purpose, cfg.description);
    ContainsExtends(greeting + purpose, discussion, cfg.description);
    ContainsMiddle("Current Discussion: ", task, "\n");
    ContainsInSuffix(greeting + purpose, discussion, task);
    ContainsMiddle("Chat History:\n", history, "\n");
    ContainsInSuffix(greeting + purpose + discussion, chat, history);
    ContainsExtends(greeting + purpose + discussion, chat, task);
    ContainsExtends(greeting + purpose + discussion, chat, cfg.description);
    ContainsExtends(greeting + purpose + discussion + chat, ask, cfg.description);
    ContainsExtends(greeting + purpose + discussion + chat, ask, task);
    ContainsExtends(greeting + purpose + discussion + chat, ask, history);
  }

  /** The outcome of `agent`'s next call in state `st`. */
  function NextOutcome(cfg: Config, view: TranscriptView, reply: Responder, task: string,
                       st: State, agent: Agent): Outcome
  {
    reply(agent, Prompt(cfg, agent, task, view.historyAsString(st.conversation)), |st.invoked|)
  }

  /** A message an agent of `agents` added: its role is that agent's name and it is not blank. */
  ghost predicate SpokenBy(agents: seq<Agent>, m: Message) {
    (exists a :: a in agents && a.name == m.role) && !Blank(m.content)
  }

  /**
   * One agent's part of a turn: it is called once; a call that raises, or
   * returns blank text, adds nothing; any other reply is appended under the
   * agent's name.
   */
  function Speak(cfg: Config, view: TranscriptView, reply: Responder, task: string,
                 st: State, agent: Agent): (t: State)
    ensures t.invoked == st.invoked + [agent]
    ensures st.conversation <= t.conversation && |t.conversation| <= |st.conversation| + 1
    ensures |t.conversation| > |st.conversation| <==>
              NextOutcome(cfg, view, reply, task, st, agent).Reply?
              && !Blank(NextOutcome(cfg, view, reply, task, st, agent).text)
    ensures |t.conversation| > |st.conversation| ==>
              t.conversation[|st.conversation|]
              == Message(agent.name, NextOutcome(cfg, view, reply, task, st, agent).text)
  {
    var invoked := st.invoked + [agent];
    match NextOutcome(cfg, view, reply, task, st, agent)
    case Fail => State(st.conversation, invoked)
    case Reply(message) =>
      if Blank(message) then State(st.conversation, invoked)
      else State(st.conversation + [Message(agent.name, message)], invoked)
  }

  /**
   * The agents of a non-silent turn speak one after the other, in order:
   * every one of them is called exactly once, whatever the others' calls
   * did, and each adds at most one non-blank message, in the same order.
   */
  function SpeakAll(cfg: Config, view: TranscriptView, reply: Responder, task: string,
                    st: State, speakers: seq<Agent>): (t: State)
    ensures t.invoked == st.invoked + speakers
    ensures st.conversation <= t.conversation
    ensures |t.conversation| <= |st.conversation| + |speakers|
    ensures forall m :: m in t.conversation[|st.conversation|..] ==> SpokenBy(speakers, m)
    ensures Subsequence(Roles(t.conversation[|st.conversation|..]), Names(speakers))
    decreases |speakers|
  {
    if speakers == [] then
      assert st.conversation[|st.conversation|..] == [];
      st
    else
      var mid := Speak(cfg, view, reply, task, st, speakers[0]);
      var t := SpeakAll(cfg, view, reply, task, mid, speakers[1..]);
      assert t.invoked == st.invoked + speakers by {
        assert [speakers[0]] + speakers[1..] == speakers;
      }
      SpokenInOrder(speakers, st.conversation, mid.conversation, t.conversation);
      t
  }

  /**
   * One agent's message (if any) followed by messages of the agents after
   * it: every added message is spoken by one of the agents, and the roles
   * follow the agents' order.
   */
  lemma SpokenInOrder(speakers: seq<Agent>, before: seq<Message>, mid: seq<Message>, after: seq<Message>)
    requires speakers != [] && before <= mid <= after && |mid| <= |before| + 1
    requires |mid| > |before| ==> mid[|before|].role == speakers[0].name && !Blank(mid[|before|].content)
    requires forall m :: m in after[|mid|..] ==> SpokenBy(speakers[1..], m)
    requires Subsequence(Roles(after[|mid|..]), Names(speakers[1..]))
    ensures forall m :: m in after[|before|..] ==> SpokenBy(speakers, m)
    ensures Subsequence(Roles(after[|before|..]), Names(speakers))
  {
    var n, added := |before|, after[|mid|..];
    assert after[n..] == mid[n..] + added;
    assert forall a :: a in speakers[1..] ==> a in speakers;
    NamesCons(speakers);
    if |mid| > n {
      var first := mid[n];
      assert mid[n..] == [first];
      assert Roles(after[n..]) == [speakers[0].name] + Roles(added);
      assert SpokenBy(speakers, first) by {
        assert speakers[0] in speakers;
      }
    } else {
      assert after[n..] == added;
      SubsequenceOfTail(Roles(added), Names(speakers));
    }
  }

  lemma SubsequenceOfTail<T>(xs: seq<T>, ys: seq<T>)
    requires ys != [] && Subsequence(xs, ys[1..])
    ensures Subsequence(xs, ys)
  {
  }

  /** Every call of every agent returns non-blank text. */
  ghost predicate AlwaysAnswers(reply: Responder) {
    forall a, prompt, n :: reply(a, prompt, n).Reply? && !Blank(reply(a, prompt, n).text)
  }

  /** Every call of every agent raises or returns blank text. */
  ghost predicate NeverAnswers(reply: Responder) {
    forall a, prompt, n :: reply(a, prompt, n).Fail? || Blank(reply(a, prompt, n).text)
  }

  /** A turn of `xs + ys` is a turn of `xs` followed by a turn of `ys`. */
  lemma {:induction false} SpeakAllAppend(cfg: Config, view: TranscriptView, reply: Responder,
                                          task: string, st: State, xs: seq<Agent>, ys: seq<Agent>)
    ensures SpeakAll(cfg, view, reply, task, st, xs + ys)
            == SpeakAll(cfg, view, reply, task, SpeakAll(cfg, view, reply, task, st, xs), ys)
    decreases |xs|
  {
    if xs == [] {
      assert xs + ys == ys;
    } else {
      var mid := Speak(cfg, view, reply, task, st, xs[0]);
      assert (xs + ys)[0] == xs[0];
      assert (xs + ys)[1..] == xs[1..] + ys;
      SpeakAllAppend(cfg, view, reply, task, mid, xs[1..], ys);
    }
  }

  /** The message an outcome adds under `agent`'s name: the reply's text, unless the call raised or the text is blank. */
  ghost function Said(agent: Agent, o: Outcome): seq<Message> {
    if o.Reply? && !Blank(o.text) then [Message(agent.name, o.text)] else []
  }

  /**
   * The `j`-th speaker of a turn is called on the transcript its predecessors
   * left, and exactly what it said is appended there; the later speakers only
   * append after it, whatever their own calls do.
   */
  lemma EachReplyKept(cfg: Config, view: TranscriptView, reply: Responder, task: string,
                      st: State, speakers: seq<Agent>, j: nat)
    requires j < |speakers|
    ensures var pre := SpeakAll(cfg, view, reply, task, st, speakers[..j]);
            var post := SpeakAll(cfg, view, reply, task, st, speakers[..j + 1]);
            var o := NextOutcome(cfg, view, reply, task, pre, speakers[j]);
            && post.conversation == pre.conversation + Said(speakers[j], o)
            && post.conversation <= SpeakAll(cfg, view, reply, task, st, speakers).conversation
  {
    var pre := SpeakAll(cfg, view, reply, task, st, speakers[..j]);
    var mid := Speak(cfg, view, reply, task, pre, speakers[j]);
    SpeakAllAppend(cfg, view, reply, task, st, speakers[..j], [speakers[j]]);
    assert speakers[..j] + [speakers[j]] == speakers[..j + 1];
    assert [speakers[j]][1..] == [];
    assert SpeakAll(cfg, view, reply, task, pre, [speakers[j]]) == mid;
    SpeakAllAppend(cfg, view, reply, task, st, speakers[..j + 1], speakers[j + 1..]);
    assert speakers[..j + 1] + speakers[j + 1..] == speakers;
  }

  /**
   * When every call answers, each speaker adds exactly one message, in list
   * order: under its own name, with the text of its reply to the transcript
   * its predecessors left.
   */
  lemma {:induction false} SpeakAllAnswers(cfg: Config, view: TranscriptView, reply: Responder,
                                           task: string, st: State, speakers: seq<Agent>)
    requires AlwaysAnswers(reply)
    ensures var t := SpeakAll(cfg, view, reply, task, st, speakers);
            Roles(t.conversation[|st.conversation|..]) == Names(speakers)
    ensures var t := SpeakAll(cfg, view, reply, task, st, speakers);
            |t.conversation| == |st.conversation| + |speakers|
            && forall i :: 0 <= i < |speakers| ==>
                 var pre := SpeakAll(cfg, view, reply, task, st, speakers[..i]);
                 t.conversation[|st.conversation| + i]
                 == Message(speakers[i].name, NextOutcome(cfg, view, reply, task, pre, speakers[i]).text)
    decreases |speakers|
  {
    SpeakAllAnswersRoles(cfg, view, reply, task, st, speakers);
    var t := SpeakAll(cfg, view, reply, task, st, speakers);
    var n := |st.conversation|;
    assert |t.conversation[n..]| == |Names(speakers)|;
    forall i | 0 <= i < |speakers|
      ensures var pre := SpeakAll(cfg, view, reply, task, st, speakers[..i]);
              t.conversation[n + i]
              == Message(speakers[i].name, NextOutcome(cfg, view, reply, task, pre, speakers[i]).text)
    {
      var pre := SpeakAll(cfg, view, reply, task, st, speakers[..i]);
      SpeakAllAnswers(cfg, view, reply, task, st, speakers[..i]);
      assert |pre.conversation[n..]| == |Names(speakers[..i])|;
      EachReplyKept(cfg, view, reply, task, st, speakers, i);
      var o := NextOutcome(cfg, view, reply, task, pre, speakers[i]);
      assert o.Reply? && !Blank(o.text);
      var post := SpeakAll(cfg, view, reply, task, st, speakers[..i + 1]);
      assert post.conversation[n + i] == Message(speakers[i].name, o.text);
    }
  }

  /** The roles half of `SpeakAllAnswers`, by induction on the speakers. */
  lemma {:induction false} SpeakAllAnswersRoles(cfg: Config, view: TranscriptView, reply: Responder,
                                                task: string, st: State, speakers: seq<Agent>)
    requires AlwaysAnswers(reply)
    ensures var t := SpeakAll(cfg, view, reply, task, st, speakers);
            Roles(t.conversation[|st.conversation|..]) == Names(speakers)
    decreases |speakers|
  {
    var t := SpeakAll(cfg, view, reply, task, st, speakers);
    var n := |st.conversation|;
    if speakers == [] {
      assert t.conversation[n..] == [];
    } else {
      var mid := Speak(cfg, view, reply, task, st, speakers[0]);
      var outcome := NextOutcome(cfg, view, reply, task, st, speakers[0]);
      assert outcome.Reply? && !Blank(outcome.text);
      SpeakAllAnswersRoles(cfg, view, reply, task, mid, speakers[1..]);
      var added := t.conversation[n + 1..];
      assert t.conversation[n..] == [mid.conversation[n]] + added;
      RolesCons(mid.conversation[n], added);
      NamesCons(speakers);
    }
  }

  /** When no call answers, a turn adds nothing to the transcript. */
  lemma {:induction false} SpeakAllSilent(cfg: Config, view: TranscriptView, reply: Responder,
                                          task: string, st: State, speakers: seq<Agent>)
    requires NeverAnswers(reply)
    ensures SpeakAll(cfg, view, reply, task, st, speakers).conversation == st.conversation
    decreases |speakers|
  {
    if speakers != [] {
      var mid := Speak(cfg, view, reply, task, st, speakers[0]);
      var outcome := NextOutcome(cfg, view, reply, task, st, speakers[0]);
      assert outcome.Fail? || Blank(outcome.text);
      SpeakAllSilent(cfg, view, reply, task, mid, speakers[1..]);
    }
  }

  /**
   * `after` continues `before`: both the transcript and the call log only
   * grew, and every added message was spoken by one of `agents`.
   */
  ghost predicate Extends(before: State, after: State, agents: seq<Agent>) {
    before.conversation <= after.conversation && before.invoked <= after.invoked
    && (forall m :: m in after.conversation[|before.conversation|..] ==> SpokenBy(agents, m))
    && (forall a :: a in after.invoked[|before.invoked|..] ==> a in agents)
  }

  lemma ExtendsTransitive(a: State, b: State, c: State, agents: seq<Agent>)
    requires Extends(a, b, agents) && Extends(b, c, agents)
    ensures Extends(a, c, agents)
  {
    assert c.conversation[|a.conversation|..]
        == b.conversation[|a.conversation|..] + c.conversation[|b.conversation|..];
    assert c.invoked[|a.invoked|..] == b.invoked[|a.invoked|..] + c.invoked[|b.invoked|..];
  }

  /** The end of the turn loop: the latest state, the final `turn`, the loop iterations run, and why it stopped. */
  datatype LoopEnd = LoopEnd(state: State, turns: nat, iterations: nat, stop: Stop)

  datatype Stop = Budget | Silence | Conclusion | Raised

  /** The natural-conclusion test: each of the last three entries says "conclusion", in any case. */
  function Concluded(context: seq<string>): (r: bool)
    ensures r <==> forall m :: m in Speakers.Recent(context) ==> Contains(Lower(m), "conclusion")
  {
    AllLowerContain(Speakers.Recent(context), "conclusion");
    AllContain(Speakers.LowerEach(Speakers.Recent(context)), "conclusion")
  }

  /** The lower-cased messages all contain `needle` exactly when each message does once lower-cased. */
  lemma AllLowerContain(messages: seq<string>, needle: string)
    ensures AllContain(Speakers.LowerEach(messages), needle)
            <==> forall m :: m in messages ==> Contains(Lower(m), needle)
  {
    var lowered := Speakers.LowerEach(messages);
    if forall m :: m in messages ==> Contains(Lower(m), needle) {
      forall h | h in lowered
        ensures Contains(h, needle)
      {
        var i :| 0 <= i < |lowered| && lowered[i] == h;
        assert messages[i] in messages;
      }
    }
    if AllContain(lowered, needle) {
      forall m | m in messages
        ensures Contains(Lower(m), needle)
      {
        var i :| 0 <= i < |messages| && messages[i] == m;
        assert lowered[i] in lowered;
      }
    }
  }

  /**
   * The `while turn < self.max_loops` loop of `run`, from a state with the
   * given `turn` and `consecutive_silent_turns`.
   */
  function Loop(cfg: Config, view: TranscriptView, reply: Responder, task: string,
                st: State, turn: nat, silent: nat): (e: LoopEnd)
    requires silent <= 1
    ensures st.conversation <= e.state.conversation && st.invoked <= e.state.invoked
    decreases cfg.maxLoops - turn, 1 - silent
  {
    if turn >= cfg.maxLoops then LoopEnd(st, turn, 0, Budget)
    else
      var context := view.messagesAsList(st.conversation);
      match Eligible(cfg.speakerFn, context, cfg.agents)
      case None => LoopEnd(st, turn, 1, Raised)
      case Some(speaking) =>
        if speaking == [] then
          if silent + 1 >= 2 then LoopEnd(st, turn, 1, Silence)
          else
            var e := Loop(cfg, view, reply, task, st, turn, silent + 1);
            LoopEnd(e.state, e.turns, e.iterations + 1, e.stop)
        else
          var next := SpeakAll(cfg, view, reply, task, st, speaking);
          if Concluded(context) then LoopEnd(next, turn + 1, 1, Conclusion)
          else
            var e := Loop(cfg, view, reply, task, next, turn + 1, 0);
            LoopEnd(e.state, e.turns, e.iterations + 1, e.stop)
  }

  /**
   * The loop only appends: every message it adds is a non-blank reply of one
   * of the chat's agents, and it calls nobody else.
   */
  lemma {:induction false} LoopExtends(cfg: Config, view: TranscriptView, reply: Responder,
                                       task: string, st: State, turn: nat, silent: nat)
    requires silent <= 1
    ensures Extends(st, Loop(cfg, view, reply, task, st, turn, silent).state, cfg.agents)
    decreases cfg.maxLoops - turn, 1 - silent
  {
    var e := Loop(cfg, view, reply, task, st, turn, silent);
    if turn < cfg.maxLoops {
      var context := view.messagesAsList(st.conversation);
      var speaking := Eligible(cfg.speakerFn, context, cfg.agents);
      if speaking.None? || (speaking.value == [] && silent == 1) {
        assert e.state == st;
        assert st.conversation[|st.conversation|..] == [];
        assert st.invoked[|st.invoked|..] == [];
      } else if speaking.value == [] {
        LoopExtends(cfg, view, reply, task, st, turn, 1);
        assert e.state == Loop(cfg, view, reply, task, st, turn, 1).state;
      } else {
        var next := SpeakAll(cfg, view, reply, task, st, speaking.value);
        assert Extends(st, next, cfg.agents) by {
          forall m | m in next.conversation[|st.conversation|..]
            ensures SpokenBy(cfg.agents, m)
          {
            var a :| a in speaking.value && a.name == m.role;
          }
        }
        if Concluded(context) {
          assert e.state == next;
        } else {
          LoopExtends(cfg, view, reply, task, next, turn + 1, 0);
          assert e.state == Loop(cfg, view, reply, task, next, turn + 1, 0).state;
          ExtendsTransitive(st, next, e.state, cfg.agents);
        }
      }
    } else {
      assert e.state == st;
      assert st.conversation[|st.conversation|..] == [];
      assert st.invoked[|st.invoked|..] == [];
    }
  }

  /**
   * `turn` grows only after a turn in which some agent was eligible, and never
   * beyond `max_loops`. Dafny's automatic induction finds this proof by itself;
   * the recursive calls spell out its steps, one per recursion of `Loop`.
   */
  lemma LoopTurnBudget(cfg: Config, view: TranscriptView, reply: Responder,
                       task: string, st: State, turn: nat, silent: nat)
    requires silent <= 1 && turn <= cfg.maxLoops
    ensures Loop(cfg, view, reply, task, st, turn, silent).turns <= cfg.maxLoops
    decreases cfg.maxLoops - turn, 1 - silent
  {
    if turn < cfg.maxLoops {
      var speaking := Eligible(cfg.speakerFn, view.messagesAsList(st.conversation), cfg.agents);
      if speaking.Some? && speaking.value == [] && silent == 0 {
        LoopTurnBudget(cfg, view, reply, task, st, turn, 1);
      } else if speaking.Some? && speaking.value != [] {
        var next := SpeakAll(cfg, view, reply, task, st, speaking.value);
        LoopTurnBudget(cfg, view, reply, task, next, turn + 1, 0);
      }
    }
  }

  /** The loop runs out of budget only once `turn` has reached `max_loops`. */
  lemma {:induction false} LoopBudgetStop(cfg: Config, view: TranscriptView, reply: Responder,
                                          task: string, st: State, turn: nat, silent: nat)
    requires silent <= 1 && turn <= cfg.maxLoops
    ensures var e := Loop(cfg, view, reply, task, st, turn, silent);
            e.stop == Budget ==> e.turns == cfg.maxLoops
    decreases cfg.maxLoops - turn, 1 - silent
  {
    var e := Loop(cfg, view, reply, task, st, turn, silent);
    if turn < cfg.maxLoops {
      var context := view.messagesAsList(st.conversation);
      var speaking := Eligible(cfg.speakerFn, context, cfg.agents);
      if speaking.None? {
        assert e.stop == Raised;
      } else if speaking.value == [] {
        if silent == 0 {
          LoopBudgetStop(cfg, view, reply, task, st, turn, 1);
          assert e == Loop(cfg, view, reply, task, st, turn, 1).(iterations := e.iterations);
        } else {
          assert e.stop == Silence;
        }
      } else {
        var next := SpeakAll(cfg, view, reply, task, st, speaking.value);
        if Concluded(context) {
          assert e.stop == Conclusion;
        } else {
          LoopBudgetStop(cfg, view, reply, task, next, turn + 1, 0);
          assert e == Loop(cfg, view, reply, task, next, turn + 1, 0).(iterations := e.iterations);
        }
      }
    }
  }

  /**
   * Each loop iteration is a silent turn or advances `turn`, and two silent
   * turns in a row end the loop: from a fresh start the loop body runs at
   * most `2 * turns + 2` times.
   */
  lemma {:induction false} LoopIterationBound(cfg: Config, view: TranscriptView, reply: Responder,
                                              task: string, st: State, turn: nat, silent: nat)
    requires silent <= 1
    ensures var e := Loop(cfg, view, reply, task, st, turn, silent);
            e.iterations + 2 * turn + silent <= 2 * e.turns + 2
    decreases cfg.maxLoops - turn, 1 - silent
  {
    var e := Loop(cfg, view, reply, task, st, turn, silent);
    if turn < cfg.maxLoops {
      var context := view.messagesAsList(st.conversation);
      var speaking := Eligible(cfg.speakerFn, context, cfg.agents);
      if speaking.None? {
        assert e == LoopEnd(st, turn, 1, Raised);
      } else if speaking.value == [] {
        if silent == 0 {
          var e1 := Loop(cfg, view, reply, task, st, turn, 1);
          LoopIterationBound(cfg, view, reply, task, st, turn, 1);
          assert e == LoopEnd(e1.state, e1.turns, e1.iterations + 1, e1.stop);
        } else {
          assert e == LoopEnd(st, turn, 1, Silence);
        }
      } else {
        var next := SpeakAll(cfg, view, reply, task, st, speaking.value);
        if Concluded(context) {
          assert e == LoopEnd(next, turn + 1, 1, Conclusion);
        } else {
          var e1 := Loop(cfg, view, reply, task, next, turn + 1, 0);
          LoopIterationBound(cfg, view, reply, task, next, turn + 1, 0);
          assert e == LoopEnd(e1.state, e1.turns, e1.iterations + 1, e1.stop);
        }
      }
    } else {
      assert e == LoopEnd(st, turn, 0, Budget);
    }
  }

  /** When the loop ends in silence, nobody is eligible in the transcript it leaves. */
  lemma {:induction false} LoopSilence(cfg: Config, view: TranscriptView, reply: Responder,
                                       task: string, st: State, turn: nat, silent: nat)
    requires silent <= 1
    ensures var e := Loop(cfg, view, reply, task, st, turn, silent);
            e.stop == Silence ==>
              Eligible(cfg.speakerFn, view.messagesAsList(e.state.conversation), cfg.agents) == Some([])
    decreases cfg.maxLoops - turn, 1 - silent
  {
    if turn < cfg.maxLoops {
      var context := view.messagesAsList(st.conversation);
      var speaking := Eligible(cfg.speakerFn, context, cfg.agents);
      if speaking.Some? && speaking.value == [] && silent == 0 {
        LoopSilence(cfg, view, reply, task, st, turn, 1);
      } else if speaking.Some? && speaking.value != [] && !Concluded(context) {
        var next := SpeakAll(cfg, view, reply, task, st, speaking.value);
        LoopSilence(cfg, view, reply, task, next, turn + 1, 0);
      }
    }
  }

  /**
   * The loop stops on an exception only when the speaker function raised on
   * the transcript the loop leaves, which the raising turn did not change.
   */
  lemma {:induction false} LoopRaised(cfg: Config, view: TranscriptView, reply: Responder,
                                      task: string, st: State, turn: nat, silent: nat)
    requires silent <= 1
    ensures var e := Loop(cfg, view, reply, task, st, turn, silent);
            e.stop == Raised ==>
              Eligible(cfg.speakerFn, view.messagesAsList(e.state.conversation), cfg.agents).None?
    decreases cfg.maxLoops - turn, 1 - silent
  {
    if turn < cfg.maxLoops {
      var context := view.messagesAsList(st.conversation);
      var speaking := Eligible(cfg.speakerFn, context, cfg.agents);
      if speaking.Some? && speaking.value == [] && silent == 0 {
        LoopRaised(cfg, view, reply, task, st, turn, 1);
      } else if speaking.Some? && speaking.value != [] && !Concluded(context) {
        var next := SpeakAll(cfg, view, reply, task, st, speaking.value);
        LoopRaised(cfg, view, reply, task, next, turn + 1, 0);
      }
    }
  }

  /**
   * A silent turn leaves the transcript as it was, so with a speaker
   * function that depends only on its arguments the next turn is silent
   * too: the first silent turn already ends the loop, without changing the
   * state or the turn count.
   */
  lemma SilentTurnEndsLoop(cfg: Config, view: TranscriptView, reply: Responder,
                           task: string, st: State, turn: nat, silent: nat)
    requires silent <= 1 && turn < cfg.maxLoops
    requires Eligible(cfg.speakerFn, view.messagesAsList(st.conversation), cfg.agents) == Some([])
    ensures Loop(cfg, view, reply, task, st, turn, silent) == LoopEnd(st, turn, 2 - silent, Silence)
  {
    if silent == 0 {
      assert Loop(cfg, view, reply, task, st, turn, 1) == LoopEnd(st, turn, 1, Silence);
    }
  }

  /** A first silent turn hands over to the second evaluation of the same transcript. */
  lemma LoopAfterSilentTurn(cfg: Config, view: TranscriptView, reply: Responder,
                            task: string, st: State, turn: nat)
    requires turn < cfg.maxLoops
    requires Eligible(cfg.speakerFn, view.messagesAsList(st.conversation), cfg.agents) == Some([])
    ensures var e := Loop(cfg, view, reply, task, st, turn, 0);
            var e1 := Loop(cfg, view, reply, task, st, turn, 1);
            e.state == e1.state && e.stop == e1.stop
  {
  }

  /**
   * A turn in which somebody is eligible: the eligible agents speak, and the
   * loop stops at a conclusion of the start-of-turn snapshot or goes on from
   * the new state with the turn counted and the silence count reset.
   */
  lemma LoopAfterTurn(cfg: Config, view: TranscriptView, reply: Responder,
                      task: string, st: State, turn: nat, silent: nat)
    requires silent <= 1 && turn < cfg.maxLoops
    requires var speaking := Eligible(cfg.speakerFn, view.messagesAsList(st.conversation), cfg.agents);
             speaking.Some? && speaking.value != []
    ensures var context := view.messagesAsList(st.conversation);
            var next := SpeakAll(cfg, view, reply, task, st, Eligible(cfg.speakerFn, context, cfg.agents).value);
            var e := Loop(cfg, view, reply, task, st, turn, silent);
            if Concluded(context) then e.state == next && e.stop == Conclusion
            else
              var e1 := Loop(cfg, view, reply, task, next, turn + 1, 0);
              e.state == e1.state && e.stop == e1.stop
  {
  }

  /**
   * The conclusion test reads the snapshot taken at the start of the turn:
   * when it fails, the loop goes on to another iteration whatever the
   * turn's own replies say.
   */
  lemma ConclusionReadsSnapshot(cfg: Config, view: TranscriptView, reply: Responder,
                                task: string, st: State, turn: nat, silent: nat)
    requires silent <= 1 && turn + 1 < cfg.maxLoops
    requires var speaking := Eligible(cfg.speakerFn, view.messagesAsList(st.conversation), cfg.agents);
             speaking.Some? && speaking.value != []
    requires !Concluded(view.messagesAsList(st.conversation))
    ensures Loop(cfg, view, reply, task, st, turn, silent).iterations >= 2
  {
    var e := Loop(cfg, view, reply, task, st, turn, silent);
    var context := view.messagesAsList(st.conversation);
    var speaking := Eligible(cfg.speakerFn, context, cfg.agents);
    var next := SpeakAll(cfg, view, reply, task, st, speaking.value);
    var e1 := Loop(cfg, view, reply, task, next, turn + 1, 0);
    assert e == LoopEnd(e1.state, e1.turns, e1.iterations + 1, e1.stop);
    LoopRunsOnce(cfg, view, reply, task, next, turn + 1);
  }

  /** A fresh iteration below the budget runs the loop body at least once. */
  lemma LoopRunsOnce(cfg: Config, view: TranscriptView, reply: Responder,
                     task: string, st: State, turn: nat)
    requires turn < cfg.maxLoops
    ensures Loop(cfg, view, reply, task, st, turn, 0).iterations >= 1
  {
    var e := Loop(cfg, view, reply, task, st, turn, 0);
    var context := view.messagesAsList(st.conversation);
    var speaking := Eligible(cfg.speakerFn, context, cfg.agents);
    if speaking.None? {
      assert e == LoopEnd(st, turn, 1, Raised);
    } else if speaking.value == [] {
      var e1 := Loop(cfg, view, reply, task, st, turn, 1);
      assert e == LoopEnd(e1.state, e1.turns, e1.iterations + 1, e1.stop);
    } else {
      var next := SpeakAll(cfg, view, reply, task, st, speaking.value);
      if Concluded(context) {
        assert e == LoopEnd(next, turn + 1, 1, Conclusion);
      } else {
        var e1 := Loop(cfg, view, reply, task, next, turn + 1, 0);
        assert e == LoopEnd(e1.state, e1.turns, e1.iterations + 1, e1.stop);
      }
    }
  }

  /** The first `k` messages of `conversation` pass the natural-conclusion test. */
  ghost predicate ConcludedAt(view: TranscriptView, conversation: seq<Message>, k: int) {
    0 <= k <= |conversation| && Concluded(view.messagesAsList(conversation[..k]))
  }

  /**
   * When the loop stops at a conclusion, some transcript it passed through
   * (the snapshot of the last turn) had "conclusion" in each of its last
   * three entries.
   */
  lemma LoopConclusion(cfg: Config, view: TranscriptView, reply: Responder,
                       task: string, st: State, turn: nat, silent: nat)
    requires silent <= 1
    ensures var e := Loop(cfg, view, reply, task, st, turn, silent);
            e.stop == Conclusion ==>
              e.turns > turn
              && exists k :: |st.conversation| <= k && ConcludedAt(view, e.state.conversation, k)
    decreases cfg.maxLoops - turn, 1 - silent
  {
    var e := Loop(cfg, view, reply, task, st, turn, silent);
    if turn < cfg.maxLoops {
      var context := view.messagesAsList(st.conversation);
      var speaking := Eligible(cfg.speakerFn, context, cfg.agents);
      if speaking.Some? && speaking.value == [] && silent == 0 {
        var e1 := Loop(cfg, view, reply, task, st, turn, 1);
        LoopConclusion(cfg, view, reply, task, st, turn, 1);
        assert e.state == e1.state && e.turns == e1.turns && e.stop == e1.stop;
      } else if speaking.Some? && speaking.value != [] {
        var next := SpeakAll(cfg, view, reply, task, st, speaking.value);
        if Concluded(context) {
          assert e == LoopEnd(next, turn + 1, 1, Conclusion);
          PrefixView(view, st.conversation, next.conversation);
          assert ConcludedAt(view, e.state.conversation, |st.conversation|);
        } else {
          var e1 := Loop(cfg, view, reply, task, next, turn + 1, 0);
          LoopConclusion(cfg, view, reply, task, next, turn + 1, 0);
          assert e.state == e1.state && e.turns == e1.turns && e.stop == e1.stop;
          assert |st.conversation| <= |next.conversation|;
        }
      }
    }
  }

  lemma PrefixView(view: TranscriptView, before: seq<Message>, after: seq<Message>)
    requires before <= after
    ensures view.messagesAsList(after[..|before|]) == view.messagesAsList(before)
  {
    assert after[..|before|] == before;
  }

  /** The speaker function says yes to every agent: all of them are eligible, in order. */
  lemma {:induction false} EligibleEveryone(fn: SpeakerFn, context: seq<string>, agents: seq<Agent>)
    requires forall a :: a in agents ==> Evaluate(fn, context, a) == Some(true)
    ensures Eligible(fn, context, agents) == Some(agents)
  {
    if agents != [] {
      assert Evaluate(fn, context, agents[0]) == Some(true);
      assert forall a :: a in agents[1..] ==> a in agents;
      EligibleEveryone(fn, context, agents[1..]);
      assert [agents[0]] + agents[1..] == agents;
    }
  }

  /** What a run leaves behind: the state, and the rendered history or the error raised. */
  datatype RunEnd = RunEnd(state: State, result: Result<string, RunError>)

  /**
   * `run(task)`: an empty task is refused before anything changes; otherwise
   * the system and User messages are appended, the loop runs, and the whole
   * history is returned rendered, unless the speaker function raised.
   */
  function RunSpec(cfg: Config, view: TranscriptView, reply: Responder, task: string,
                   st: State): (r: RunEnd)
    ensures task == [] ==> r == RunEnd(st, Failure(EmptyTask))
    ensures task != [] ==>
              Extends(State(st.conversation + Framing(cfg, task), st.invoked), r.state, cfg.agents)
    ensures task != [] && r.result.Failure? ==>
              r.result.error == SpeakerFnRaised
              && exists a :: a in cfg.agents
                             && Evaluate(cfg.speakerFn, view.messagesAsList(r.state.conversation), a).None?
    ensures task != [] && !cfg.speakerFn.UserDefined? ==> r.result.Success?
    ensures task != [] && cfg.maxLoops > 0
            && Eligible(cfg.speakerFn, view.messagesAsList(st.conversation + Framing(cfg, task)), cfg.agents).None?
            ==> r == RunEnd(State(st.conversation + Framing(cfg, task), st.invoked), Failure(SpeakerFnRaised))
    ensures r.result.Success? ==> r.result.value == view.historyAsString(r.state.conversation)
  {
    if task == [] then RunEnd(st, Failure(EmptyTask))
    else
      var framed := State(st.conversation + Framing(cfg, task), st.invoked);
      var e := Loop(cfg, view, reply, task, framed, 0, 0);
      LoopExtends(cfg, view, reply, task, framed, 0, 0);
      LoopRaised(cfg, view, reply, task, framed, 0, 0);
      if e.stop == Raised then RunEnd(e.state, Failure(SpeakerFnRaised))
      else RunEnd(e.state, Success(view.historyAsString(e.state.conversation)))
  }

  /** What a batch leaves behind: the state, and the rendered histories or the error raised. */
  datatype BatchEnd = BatchEnd(state: State, result: Result<seq<string>, RunError>)

  /**
   * `[self.run(task) for task in tasks]` on one session: the runs share and
   * extend one transcript; the first run that raises ends the batch.
   */
  function RunEach(cfg: Config, view: TranscriptView, reply: Responder, tasks: seq<string>,
                   st: State): (b: BatchEnd)
    ensures st.conversation <= b.state.conversation
    ensures b.result.Success? ==> |b.result.value| == |tasks|
    ensures b.result.Failure? ==>
              (b.result.error == EmptyTask && exists i :: 0 <= i < |tasks| && tasks[i] == [])
              || (b.result.error == SpeakerFnRaised && cfg.speakerFn.UserDefined?)
    decreases |tasks|
  {
    if tasks == [] then BatchEnd(st, Success([]))
    else
      var first := RunSpec(cfg, view, reply, tasks[0], st);
      match first.result
      case Failure(err) => BatchEnd(first.state, Failure(err))
      case Success(history) =>
        var rest := RunEach(cfg, view, reply, tasks[1..], first.state);
        match rest.result
        case Failure(err) =>
          assert forall i :: 0 <= i < |tasks[1..]| ==> tasks[1..][i] == tasks[i + 1];
          BatchEnd(rest.state, Failure(err))
        case Success(histories) => BatchEnd(rest.state, Success([history] + histories))
  }

  /** The length of the shared transcript after each run of a batch, in task order. */
  ghost function Checkpoints(cfg: Config, view: TranscriptView, reply: Responder, tasks: seq<string>,
                             st: State): seq<nat>
    decreases |tasks|
  {
    if tasks == [] then []
    else
      var first := RunSpec(cfg, view, reply, tasks[0], st);
      [|first.state.conversation|] + Checkpoints(cfg, view, reply, tasks[1..], first.state)
  }

  /**
   * One run of a batch within the final transcript: it started at `start`,
   * its User message is the second message from there, it ended at
   * checkpoint `k` after at least its two opening messages, and its result
   * is the rendering of the transcript up to `k`.
   */
  ghost predicate RanAt(view: TranscriptView, final: seq<Message>, start: nat, k: nat,
                        task: string, value: string)
  {
    start + 2 <= k <= |final|
    && final[start + 1] == Message("User", task)
    && value == view.historyAsString(final[..k])
  }

  /**
   * The layout of a successful batch over a transcript that started with `n`
   * messages and ended as `final`: task `i`'s run starts where the previous
   * one ended and ends at checkpoint `ks[i]`, and the last one ends at the
   * end of the transcript.
   */
  ghost predicate LaidOut(view: TranscriptView, final: seq<Message>, n: nat, tasks: seq<string>,
                          ks: seq<nat>, values: seq<string>)
  {
    |ks| == |tasks| == |values|
    && (ks != [] ==> RanAt(view, final, n, ks[0], tasks[0], values[0]) && ks[|ks| - 1] == |final|)
    && (forall i :: 0 < i < |ks| ==> RanAt(view, final, ks[i - 1], ks[i], tasks[i], values[i]))
  }

  /** One more run in front of a laid-out batch. */
  lemma LaidOutCons(view: TranscriptView, final: seq<Message>, n: nat, k0: nat, task: string, value: string,
                    tasks: seq<string>, ks: seq<nat>, values: seq<string>)
    requires RanAt(view, final, n, k0, task, value)
    requires LaidOut(view, final, k0, tasks, ks, values)
    requires ks == [] ==> k0 == |final|
    ensures LaidOut(view, final, n, [task] + tasks, [k0] + ks, [value] + values)
  {
    var ks1, tasks1, values1 := [k0] + ks, [task] + tasks, [value] + values;
    if ks != [] {
      assert ks1[1] == ks[0] && tasks1[1] == tasks[0] && values1[1] == values[0];
    }
    forall i | 1 < i < |ks1|
      ensures RanAt(view, final, ks1[i - 1], ks1[i], tasks1[i], values1[i])
    {
      assert ks1[i - 1] == ks[i - 2];
      assert ks1[i] == ks[i - 1] && tasks1[i] == tasks[i - 1] && values1[i] == values[i - 1];
    }
  }

  /**
   * A successful batch returns, for each task in order, the rendering of the
   * shared transcript as that task's run left it, and keeps each task's User
   * message at the head of that run's part of the transcript.
   */
  lemma {:induction false} RunEachRendersPrefixes(cfg: Config, view: TranscriptView, reply: Responder,
                                                  tasks: seq<string>, st: State)
    ensures var b := RunEach(cfg, view, reply, tasks, st);
            b.result.Success? ==>
              LaidOut(view, b.state.conversation, |st.conversation|, tasks,
                   Checkpoints(cfg, view, reply, tasks, st), b.result.value)
    decreases |tasks|
  {
    var b := RunEach(cfg, view, reply, tasks, st);
    if tasks != [] && b.result.Success? {
      var first := RunSpec(cfg, view, reply, tasks[0], st);
      var rest := RunEach(cfg, view, reply, tasks[1..], first.state);
      var ks' := Checkpoints(cfg, view, reply, tasks[1..], first.state);
      RunEachRendersPrefixes(cfg, view, reply, tasks[1..], first.state);
      var final, n, k0 := b.state.conversation, |st.conversation|, |first.state.conversation|;
      assert (st.conversation + Framing(cfg, tasks[0]))[n + 1] == Message("User", tasks[0]);
      assert final[..k0] == first.state.conversation;
      assert final[n + 1] == first.state.conversation[n + 1];
      assert RanAt(view, final, n, k0, tasks[0], first.result.value);
      if tasks[1..] == [] {
        assert final == first.state.conversation;
      }
      LaidOutCons(view, final, n, k0, tasks[0], first.result.value, tasks[1..], ks', rest.result.value);
      assert [tasks[0]] + tasks[1..] == tasks;
    }
  }

  /** `batched_run(tasks)`: an empty task list is refused; otherwise the tasks run in order. */
  function BatchSpec(cfg: Config, view: TranscriptView, reply: Responder, tasks: seq<string>,
                     st: State): (b: BatchEnd)
    ensures tasks == [] ==> b == BatchEnd(st, Failure(EmptyTaskList))
    ensures b.result.Success? ==> tasks != [] && |b.result.value| == |tasks|
    ensures tasks != [] && (forall i :: 0 <= i < |tasks| ==> tasks[i] != []) && !cfg.speakerFn.UserDefined?
            ==> b.result.Success?
    ensures tasks != [] && b.result.Failure? ==>
              (b.result.error == EmptyTask && exists i :: 0 <= i < |tasks| && tasks[i] == [])
              || (b.result.error == SpeakerFnRaised && cfg.speakerFn.UserDefined?)
    ensures st.conversation <= b.state.conversation
  {
    if tasks == [] then BatchEnd(st, Failure(EmptyTaskList))
    else RunEach(cfg, view, reply, tasks, st)
  }

  /**
   * Within one run, the turns in which somebody was eligible number at most
   * `max_loops`, and the loop body runs at most `2 * max_loops + 2` times.
   */
  lemma RunTurnBudget(cfg: Config, view: TranscriptView, reply: Responder, task: string, st: State)
    requires cfg.maxLoops > 0 && task != []
    ensures var e := Loop(cfg, view, reply, task, State(st.conversation + Framing(cfg, task), st.invoked), 0, 0);
            e.turns <= cfg.maxLoops && e.iterations <= 2 * cfg.maxLoops + 2
            && RunSpec(cfg, view, reply, task, st).state == e.state
  {
    var framed := State(st.conversation + Framing(cfg, task), st.invoked);
    LoopTurnBudget(cfg, view, reply, task, framed, 0, 0);
    LoopIterationBound(cfg, view, reply, task, framed, 0, 0);
  }

  /**
   * A speaker function that raises in the second turn makes the run fail,
   * and the run keeps what the first turn appended.
   */
  lemma RaiseInSecondTurnFails(cfg: Config, view: TranscriptView, reply: Responder, task: string,
                               st: State, speaking: seq<Agent>)
    requires task != [] && cfg.maxLoops >= 2 && speaking != []
    requires var framed := st.conversation + Framing(cfg, task);
             Eligible(cfg.speakerFn, view.messagesAsList(framed), cfg.agents) == Some(speaking)
             && !Concluded(view.messagesAsList(framed))
    requires var next := SpeakAll(cfg, view, reply, task, State(st.conversation + Framing(cfg, task), st.invoked), speaking);
             Eligible(cfg.speakerFn, view.messagesAsList(next.conversation), cfg.agents).None?
    ensures var next := SpeakAll(cfg, view, reply, task, State(st.conversation + Framing(cfg, task), st.invoked), speaking);
            RunSpec(cfg, view, reply, task, st) == RunEnd(next, Failure(SpeakerFnRaised))
  {
    var framed := State(st.conversation + Framing(cfg, task), st.invoked);
    var next := SpeakAll(cfg, view, reply, task, framed, speaking);
    assert Loop(cfg, view, reply, task, next, 1, 0) == LoopEnd(next, 1, 1, Raised);
    assert Loop(cfg, view, reply, task, framed, 0, 0) == LoopEnd(next, 1, 2, Raised);
  }

  /** With one loop and everyone eligible at the start, a run is exactly one turn of all agents. */
  lemma SingleTurnRun(cfg: Config, view: TranscriptView, reply: Responder, task: string, st: State)
    requires task != [] && cfg.maxLoops == 1 && cfg.agents != []
    requires var framed := st.conversation + Framing(cfg, task);
             Eligible(cfg.speakerFn, view.messagesAsList(framed), cfg.agents) == Some(cfg.agents)
    ensures var framed := State(st.conversation + Framing(cfg, task), st.invoked);
            var next := SpeakAll(cfg, view, reply, task, framed, cfg.agents);
            RunSpec(cfg, view, reply, task, st) == RunEnd(next, Success(view.historyAsString(next.conversation)))
  {
    var framed := State(st.conversation + Framing(cfg, task), st.invoked);
    var next := SpeakAll(cfg, view, reply, task, framed, cfg.agents);
    if !Concluded(view.messagesAsList(framed.conversation)) {
      assert Loop(cfg, view, reply, task, next, 1, 0) == LoopEnd(next, 1, 0, Budget);
    }
    assert Loop(cfg, view, reply, task, framed, 0, 0).state == next;
  }

  /**
   * The outline of a turn: every speaker is called once, in order; the
   * transcript keeps its old messages and gains at most one per speaker,
   * with roles in the speakers' order; all of them when every call answers,
   * none when no call does.
   */
  lemma TurnOutline(cfg: Config, view: TranscriptView, reply: Responder, task: string,
                    st: State, speakers: seq<Agent>)
    ensures var t := SpeakAll(cfg, view, reply, task, st, speakers);
            var n := |st.conversation|;
            && t.invoked == st.invoked + speakers
            && n <= |t.conversation| <= n + |speakers| && t.conversation[..n] == st.conversation
            && Subsequence(Roles(t.conversation[n..]), Names(speakers))
            && (AlwaysAnswers(reply) ==> Roles(t.conversation[n..]) == Names(speakers))
            && (NeverAnswers(reply) ==> t.conversation == st.conversation)
  {
    if AlwaysAnswers(reply) {
      SpeakAllAnswersRoles(cfg, view, reply, task, st, speakers);
    }
    if NeverAnswers(reply) {
      SpeakAllSilent(cfg, view, reply, task, st, speakers);
    }
  }

  /** A turn of two speakers appends what the first said, then what the second said after it. */
  lemma TwoSpeakers(cfg: Config, view: TranscriptView, reply: Responder, task: string,
                    st: State, speakers: seq<Agent>)
    requires |speakers| == 2
    ensures var first := NextOutcome(cfg, view, reply, task, st, speakers[0]);
            var afterFirst := Speak(cfg, view, reply, task, st, speakers[0]);
            var second := NextOutcome(cfg, view, reply, task, afterFirst, speakers[1]);
            SpeakAll(cfg, view, reply, task, st, speakers).conversation
            == st.conversation + Said(speakers[0], first) + Said(speakers[1], second)
  {
    var afterFirst := Speak(cfg, view, reply, task, st, speakers[0]);
    assert speakers[..0] == [] && speakers[..2] == speakers;
    assert speakers[..1] == [speakers[0]] && [speakers[0]][1..] == [];
    assert SpeakAll(cfg, view, reply, task, st, speakers[..1]) == afterFirst;
    EachReplyKept(cfg, view, reply, task, st, speakers, 0);
    EachReplyKept(cfg, view, reply, task, st, speakers, 1);
  }

  /**
   * Two agents, `round_robin`, one loop and the task "hello": after the
   * system and User messages, both agents are called once, in list order,
   * and each adds at most one message, in that order; when every call
   * answers, both messages are there, and when none does, neither is.
   */
  lemma RoundRobinSingleLoop(cfg: Config, view: TranscriptView, reply: Responder, st: State)
    requires cfg.speakerFn.RoundRobin? && |cfg.agents| == 2 && cfg.maxLoops == 1
    ensures var r := RunSpec(cfg, view, reply, "hello", st);
            var n := |st.conversation| + 2;
            && r.result.Success?
            && r.state.invoked == st.invoked + cfg.agents
            && n <= |r.state.conversation| <= n + 2
            && r.state.conversation[..n] == st.conversation + Framing(cfg, "hello")
            && Subsequence(Roles(r.state.conversation[n..]), Names(cfg.agents))
            && (AlwaysAnswers(reply) ==> Roles(r.state.conversation[n..]) == Names(cfg.agents))
            && (NeverAnswers(reply) ==> r.state.conversation == st.conversation + Framing(cfg, "hello"))
    ensures var r := RunSpec(cfg, view, reply, "hello", st);
            var framed := State(st.conversation + Framing(cfg, "hello"), st.invoked);
            var first := NextOutcome(cfg, view, reply, "hello", framed, cfg.agents[0]);
            var afterFirst := Speak(cfg, view, reply, "hello", framed, cfg.agents[0]);
            var second := NextOutcome(cfg, view, reply, "hello", afterFirst, cfg.agents[1]);
            r.state.conversation
            == framed.conversation + Said(cfg.agents[0], first) + Said(cfg.agents[1], second)
  {
    var framed := State(st.conversation + Framing(cfg, "hello"), st.invoked);
    assert cfg.agents != [] && |framed.conversation| == |st.conversation| + 2;
    EligibleEveryone(cfg.speakerFn, view.messagesAsList(framed.conversation), cfg.agents);
    SingleTurnRun(cfg, view, reply, "hello", st);
    TurnOutline(cfg, view, reply, "hello", framed, cfg.agents);
    TwoSpeakers(cfg, view, reply, "hello", framed, cfg.agents);
  }
}
