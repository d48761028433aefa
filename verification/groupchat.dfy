/**
 * The `GroupChat` class: construction with its configuration check, `run`
 * (the turn loop, appending to the instance's own conversation store) and
 * `batched_run`. Each method is proved to leave exactly the state, and
 * return exactly the value, that the functions of module Session describe.
 */
module Chat {
  import opened Wrappers
  import opened Text
  import opened Session

  /** The `ValueError`s raised at construction. */
  datatype ConfigError = TooFewAgents | NoSpeakerFn | NonPositiveMaxLoops

  /** `reliability_check`: the first fault of a configuration, checked in source order. */
  function ReliabilityCheck(agents: seq<Agent>, speakerFn: Option<SpeakerFn>, maxLoops: int): (r: Option<ConfigError>)
    ensures r.None? <==> |agents| >= 2 && speakerFn.Some? && maxLoops > 0
    ensures r == Some(TooFewAgents) <==> |agents| < 2
    ensures r == Some(NoSpeakerFn) <==> |agents| >= 2 && speakerFn.None?
  {
    if |agents| < 2 then Some(TooFewAgents)
    else if speakerFn.None? then Some(NoSpeakerFn)
    else if maxLoops <= 0 then Some(NonPositiveMaxLoops)
    else None
  }

  /** The rendered histories of the tasks already run, in front of what the remaining tasks give. */
  ghost function AfterDone(done: seq<string>, b: BatchEnd): BatchEnd {
    match b.result
    case Success(histories) => BatchEnd(b.state, Success(done + histories))
    case Failure(err) => b
  }

  class GroupChat {
    const name: string
    const description: string
    const agents: seq<Agent>
    const speakerFn: SpeakerFn
    const maxLoops: int
    const rules: string
    /** The accessors of the conversation store. */
    const view: TranscriptView
    /** `self.conversation`: every message added so far, oldest first. */
    var conversation: seq<Message>
    /** Every `Agent.run` call made so far, in order; its length numbers the next call. */
    var invoked: seq<Agent>

    function Settings(): Config {
      Config(name, description, agents, speakerFn, maxLoops, rules)
    }

    constructor (name: string, description: string, agents: seq<Agent>, speakerFn: SpeakerFn,
                 maxLoops: int, rules: string, view: TranscriptView)
      requires ReliabilityCheck(agents, Some(speakerFn), maxLoops).None?
      ensures Settings() == Config(name, description, agents, speakerFn, maxLoops, rules)
      ensures this.view == view && conversation == [] && invoked == []
    {
      this.name := name;
      this.description := description;
      this.agents := agents;
      this.speakerFn := speakerFn;
      this.maxLoops := maxLoops;
      this.rules := rules;
      this.view := view;
      conversation := [];
      invoked := [];
    }

    /** `GroupChat(...)`: an instance with an empty conversation, or the configuration fault. */
    static method Create(name: string, description: string, agents: seq<Agent>,
                         speakerFn: Option<SpeakerFn>, maxLoops: int, rules: string,
                         view: TranscriptView)
      returns (r: Result<GroupChat, ConfigError>)
      ensures var fault := ReliabilityCheck(agents, speakerFn, maxLoops);
              (r.Failure? <==> fault.Some?) && (r.Failure? ==> r.error == fault.value)
      ensures r.Success? ==>
                fresh(r.value) && speakerFn.Some?
                && r.value.Settings() == Config(name, description, agents, speakerFn.value, maxLoops, rules)
                && r.value.view == view && r.value.conversation == [] && r.value.invoked == []
    {
      var fault := ReliabilityCheck(agents, speakerFn, maxLoops);
      if fault.Some? {
        return Failure(fault.value);
      }
      var chat := new GroupChat(name, description, agents, speakerFn.value, maxLoops, rules, view);
      return Success(chat);
    }

    /**
     * `run(task)`: appends the system and User messages, then runs turns
     * until the budget, two silent turns or a conclusion ends the loop, and
     * returns the rendered history; an empty task is refused, and a speaker
     * function that raises ends the run with its error.
     */
    method Run(task: string, reply: Responder) returns (r: Result<string, RunError>)
      modifies this
      ensures var spec := RunSpec(Settings(), view, reply, task, State(old(conversation), old(invoked)));
              conversation == spec.state.conversation && invoked == spec.state.invoked
              && r == spec.result
    {
      if task == [] {
        return Failure(EmptyTask);
      }
      var agentContext := SystemContext(Settings());
      conversation := conversation + [Message("system", agentContext), Message("User", task)];
      var raised := Converse(task, reply);
      if raised {
        return Failure(SpeakerFnRaised);
      }
      r := Success(view.historyAsString(conversation));
    }

    /**
     * The turn loop of `run`, from a fresh start: it ends at the budget,
     * after two silent turns, at a conclusion, or with the speaker function
     * raising, which it reports.
     */
    method Converse(task: string, reply: Responder) returns (raised: bool)
      modifies this
      ensures var e := Loop(Settings(), view, reply, task, State(old(conversation), old(invoked)), 0, 0);
              conversation == e.state.conversation && invoked == e.state.invoked
              && (raised <==> e.stop == Raised)
    {
      ghost var goal := Loop(Settings(), view, reply, task, State(conversation, invoked), 0, 0);
      var turn: nat := 0;
      var consecutiveSilentTurns: nat := 0;
      var maxSilentTurns := 2;
      while turn < maxLoops
        invariant consecutiveSilentTurns <= 1
        invariant var e := Loop(Settings(), view, reply, task, State(conversation, invoked), turn, consecutiveSilentTurns);
                  goal.state == e.state && goal.stop == e.stop
        decreases maxLoops - turn, 1 - consecutiveSilentTurns
      {
        ghost var atStart := State(conversation, invoked);
        ghost var silentAtStart := consecutiveSilentTurns;
        var context := view.messagesAsList(conversation);
        var eligible := Eligible(speakerFn, context, agents);
        if eligible.None? {
          return true;
        }
        var speakingAgents := eligible.value;

        if speakingAgents == [] {
          consecutiveSilentTurns := consecutiveSilentTurns + 1;
          if consecutiveSilentTurns >= maxSilentTurns {
            assert goal.state == atStart && goal.stop == Silence;
            break;
          }
          LoopAfterSilentTurn(Settings(), view, reply, task, atStart, turn);
          continue;
        }
        consecutiveSilentTurns := 0;
        SpeakInTurn(task, reply, speakingAgents);
        LoopAfterTurn(Settings(), view, reply, task, atStart, turn, silentAtStart);

        turn := turn + 1;
        if Concluded(context) {
          break;
        }
      }
      raised := false;
    }

    /**
     * The `for agent in speaking_agents` loop of `run`: each agent is
     * prompted with the current history and called once; a non-blank reply
     * is appended under its name, and a call that raises is skipped.
     */
    method SpeakInTurn(task: string, reply: Responder, speakingAgents: seq<Agent>)
      modifies this
      ensures State(conversation, invoked)
              == SpeakAll(Settings(), view, reply, task, State(old(conversation), old(invoked)), speakingAgents)
    {
      ghost var atStart := State(conversation, invoked);
      for i := 0 to |speakingAgents|
        invariant SpeakAll(Settings(), view, reply, task, atStart, speakingAgents)
                  == SpeakAll(Settings(), view, reply, task, State(conversation, invoked), speakingAgents[i..])
      {
        assert speakingAgents[i..][0] == speakingAgents[i];
        assert speakingAgents[i..][1..] == speakingAgents[i + 1..];
        var agent := speakingAgents[i];
        var prompt := Prompt(Settings(), agent, task, view.historyAsString(conversation));
        var message := reply(agent, prompt, |invoked|);
        invoked := invoked + [agent];
        if message.Fail? || Blank(message.text) {
          continue;
        }
        conversation := conversation + [Message(agent.name, message.text)];
      }
      assert speakingAgents[|speakingAgents|..] == [];
    }

    /**
     * `batched_run(tasks)`: runs the tasks one after another on this
     * instance, so that their messages accumulate in one conversation, and
     * returns one rendered history per task; an empty list is refused, and
     * the first run that raises ends the batch.
     */
    method BatchedRun(tasks: seq<string>, reply: Responder) returns (r: Result<seq<string>, RunError>)
      modifies this
      ensures var spec := BatchSpec(Settings(), view, reply, tasks, State(old(conversation), old(invoked)));
              conversation == spec.state.conversation && invoked == spec.state.invoked
              && r == spec.result
    {
      if tasks == [] {
        return Failure(EmptyTaskList);
      }
      ghost var start := State(conversation, invoked);
      var histories: seq<string> := [];
      assert tasks[0..] == tasks;
      assert AfterDone([], RunEach(Settings(), view, reply, tasks, start)) == RunEach(Settings(), view, reply, tasks, start) by {
        var b := RunEach(Settings(), view, reply, tasks, start);
        if b.result.Success? {
          assert [] + b.result.value == b.result.value;
        }
      }
      for i := 0 to |tasks|
        invariant RunEach(Settings(), view, reply, tasks, start)
                  == AfterDone(histories, RunEach(Settings(), view, reply, tasks[i..], State(conversation, invoked)))
      {
        assert tasks[i..][0] == tasks[i] && tasks[i..][1..] == tasks[i + 1..];
        ghost var before := State(conversation, invoked);
        var result := Run(tasks[i], reply);
        ghost var rest := RunEach(Settings(), view, reply, tasks[i + 1..], State(conversation, invoked));
        match result
        case Failure(err) =>
          assert RunEach(Settings(), view, reply, tasks[i..], before)
                 == BatchEnd(State(conversation, invoked), Failure(err));
          return Failure(err);
        case Success(history) =>
          assert RunEach(Settings(), view, reply, tasks[i..], before)
                 == AfterDone([history], rest);
          if rest.result.Success? {
            assert histories + ([history] + rest.result.value)
                   == (histories + [history]) + rest.result.value;
          }
          histories := histories + [history];
      }
      assert tasks[|tasks|..] == [];
      assert histories + [] == histories;
      r := Success(histories);
    }
  }
}
