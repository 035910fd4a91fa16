/** The demo chatbot page: a keyword-driven mock decomposer, the canned
    progress messages of each agent, and the session's message history,
    which the sidebar button's handler only ever appends to. */
module Chatbot {
  import opened PyText

  datatype Role = User | Assistant

  /** One entry of `st.session_state.messages`: a `(role, text)` pair. */
  datatype Message = Message(role: Role, text: string)

  const WorkshopPlan: seq<string> := ["Book venue", "Email coordinator", "Prepare poster", "Announce event"]
  const ProjectPlan: seq<string> := ["Define project", "Assign tasks", "Track progress", "Submit work"]
  const DefaultPlan: seq<string> := ["Understand request", "Plan steps", "Execute task"]

  /** `break_into_subtasks(query)`: the workshop plan when the lower-cased
      query contains "workshop", else the project plan when it contains
      "project", else the default plan. */
  function BreakIntoSubtasks(query: string): (r: seq<string>)
    ensures r == WorkshopPlan || r == ProjectPlan || r == DefaultPlan
    ensures |r| == (if r == DefaultPlan then 3 else 4)
    ensures forall k :: 0 <= k < |r| ==> r[k] != []
  {
    if Contains(Lower(query), "workshop") then WorkshopPlan
    else if Contains(Lower(query), "project") then ProjectPlan
    else DefaultPlan
  }

  /** Which plan is chosen, in both directions: the workshop keyword wins
      over the project keyword, and the default plan is chosen exactly
      when neither keyword occurs, whatever the letter case. */
  lemma PlanChoice(query: string)
    ensures BreakIntoSubtasks(query) == WorkshopPlan <==> Contains(Lower(query), "workshop")
    ensures BreakIntoSubtasks(query) == ProjectPlan <==>
              !Contains(Lower(query), "workshop") && Contains(Lower(query), "project")
    ensures BreakIntoSubtasks(query) == DefaultPlan <==>
              !Contains(Lower(query), "workshop") && !Contains(Lower(query), "project")
  {
    assert WorkshopPlan[0] != ProjectPlan[0];
    assert WorkshopPlan != DefaultPlan && ProjectPlan != DefaultPlan;
  }

  /** Keyword matching ignores the case of ASCII letters: changing the case
      of any of them, upper-casing every ASCII letter of the query for one,
      never changes the plan. */
  lemma CaseInsensitive(query: string, other: string)
    requires |query| == |other|
    requires forall i :: 0 <= i < |query| ==> SameLetterIgnoringCase(query[i], other[i])
    ensures BreakIntoSubtasks(other) == BreakIntoSubtasks(query)
    ensures BreakIntoSubtasks(Upper(query)) == BreakIntoSubtasks(query)
  {
    LowerIgnoresAsciiCase(query, other);
    LowerUpper(query);
  }

  /** The query the sidebar button submits. */
  const ButtonQuery: string := "Organize a robotics workshop"

  /** The button's query contains "workshop", so it gets the workshop plan. */
  lemma ButtonQueryPlan()
    ensures BreakIntoSubtasks(ButtonQuery) == WorkshopPlan
  {
    var low := Lower(ButtonQuery);
    assert low[20..28] == "workshop";
    assert OccursAt(low, "workshop", 20);
  }

  /** The prefix every progress message of an agent starts with. */
  function AgentTag(task: string): (r: string)
    ensures |r| == |task| + 12
  {
    "Agent for '" + task + "'"
  }

  /** The four stages an agent reports, from starting to completed. */
  const Stages: seq<string> := [
    "Started working on the task...",
    "Gathering required resources and planning details...",
    "Currently making progress and handling key steps...",
    "Task completed successfully \U{2705}"
  ]

  /** `agent_progress(task)`: the four progress messages of the agent for
      `task`, one per stage. */
  function AgentProgress(task: string): (r: seq<string>)
    ensures |r| == 4
  {
    var tag := AgentTag(task) + ": ";
    [tag + Stages[0], tag + Stages[1], tag + Stages[2], tag + Stages[3]]
  }

  /** Every progress message names the agent's task, the last one ends with
      the check mark, and the four messages are distinct. */
  lemma AgentProgressSpec(task: string)
    ensures var r := AgentProgress(task);
            (forall k :: 0 <= k < 4 ==> AgentTag(task) <= r[k])
            && |r[3]| > 0 && r[3][|r[3]| - 1] == '\U{2705}'
            && forall i, j :: 0 <= i < j < 4 ==> r[i] != r[j]
  {
    var r := AgentProgress(task);
    assert |Stages[0]| == 30 && |Stages[1]| == 52 && |Stages[2]| == 51 && |Stages[3]| == 29;
    assert forall k :: 0 <= k < 4 ==> |r[k]| == |task| + 14 + |Stages[k]|;
  }

  /** Different tasks get different progress messages: the task can be read
      back from any of them. */
  lemma AgentProgressInjective(t1: string, t2: string, k: nat)
    requires k < 4 && AgentProgress(t1)[k] == AgentProgress(t2)[k]
    ensures t1 == t2
  {
    var m1, m2 := AgentProgress(t1)[k], AgentProgress(t2)[k];
    assert |Stages[k]| > 0;
    assert |m1| == |t1| + 14 + |Stages[k]|;
    assert |m2| == |t2| + 14 + |Stages[k]|;
    assert t1 == m1[11..11 + |t1|];
    assert t2 == m2[11..11 + |t2|];
  }

  /** The messages the handler appends for one task: its progress messages,
      each as an assistant message. */
  function LogMessages(task: string): (r: seq<Message>)
    ensures |r| == 4
    ensures forall k :: 0 <= k < 4 ==> r[k] == Message(Assistant, AgentProgress(task)[k])
  {
    var logs := AgentProgress(task);
    seq(4, k requires 0 <= k < 4 => Message(Assistant, logs[k]))
  }

  /** The assistant messages for a list of tasks, task after task. */
  function Transcript(tasks: seq<string>): (r: seq<Message>)
    ensures |r| == 4 * |tasks|
  {
    if tasks == [] then [] else LogMessages(tasks[0]) + Transcript(tasks[1..])
  }

  /** The transcript grows task by task at its end. */
  lemma {:induction false} TranscriptAppend(tasks: seq<string>, task: string)
    ensures Transcript(tasks + [task]) == Transcript(tasks) + LogMessages(task)
  {
    if tasks == [] {
      assert tasks + [task] == [task];
      assert [task][1..] == [];
    } else {
      assert (tasks + [task])[0] == tasks[0];
      assert (tasks + [task])[1..] == tasks[1..] + [task];
      TranscriptAppend(tasks[1..], task);
    }
  }

  /** Message `4k + j` of the transcript is progress message `j` of task `k`:
      every task's four messages, in order, with nothing interleaved. */
  lemma {:induction false} TranscriptAt(tasks: seq<string>, k: nat, j: nat)
    requires k < |tasks| && j < 4
    ensures Transcript(tasks)[4 * k + j] == Message(Assistant, AgentProgress(tasks[k])[j])
  {
    if k > 0 {
      TranscriptAt(tasks[1..], k - 1, j);
      assert Transcript(tasks)[4 * k + j] == Transcript(tasks[1..])[4 * (k - 1) + j];
    }
  }

  /** What one press of the button adds to the history: the user's query,
      then the transcript of its subtasks. */
  function HandlerLog(query: string): (r: seq<Message>)
    ensures |r| == 1 + 4 * |BreakIntoSubtasks(query)|
    ensures r[0] == Message(User, query)
    ensures forall k :: 1 <= k < |r| ==> r[k].role == Assistant
  {
    var tasks := BreakIntoSubtasks(query);
    var r := [Message(User, query)] + Transcript(tasks);
    forall k | 1 <= k < |r| ensures r[k].role == Assistant {
      TranscriptAt(tasks, (k - 1) / 4, (k - 1) % 4);
    }
    r
  }

  /** The last message a query adds is the completion message of the agent
      for the last subtask. */
  lemma HandlerLogLast(query: string)
    ensures var log := HandlerLog(query);
            var tasks := BreakIntoSubtasks(query);
            log[|log| - 1] == Message(Assistant, AgentProgress(tasks[|tasks| - 1])[3])
  {
    var log := HandlerLog(query);
    var tasks := BreakIntoSubtasks(query);
    assert log[|log| - 1] == Transcript(tasks)[4 * (|tasks| - 1) + 3];
    TranscriptAt(tasks, |tasks| - 1, 3);
  }

  /** The button's query adds 17 messages: the query, then four for each of
      the four workshop tasks, the last one the completion message of the
      agent for "Announce event". */
  lemma ButtonHandlerLog()
    ensures |HandlerLog(ButtonQuery)| == 17
    ensures HandlerLog(ButtonQuery)[16] == Message(Assistant, AgentProgress("Announce event")[3])
  {
    ButtonQueryPlan();
    HandlerLogLast(ButtonQuery);
  }

  /** The page's session state: whether `messages` is set, and its value. */
  class Session {
    var hasMessages: bool
    var messages: seq<Message>

    /** A fresh browser session: no `messages` key yet. */
    constructor()
      ensures !hasMessages && messages == []
    {
      hasMessages := false;
      messages := [];
    }

    /** The start of every run of the page: `messages` becomes the empty
        list only when it is absent, so a rerun keeps the history. */
    method InitMessages()
      modifies this
      ensures hasMessages
      ensures messages == if old(hasMessages) then old(messages) else []
    {
      if !hasMessages {
        hasMessages := true;
        messages := [];
      }
    }

    /** The button handler for `query`: it appends the user's message, then
        the progress messages of each subtask in order. */
    method SubmitQuery(query: string)
      requires hasMessages
      modifies this
      ensures hasMessages
      ensures messages == old(messages) + HandlerLog(query)
    {
      messages := messages + [Message(User, query)];
      var subtasks := BreakIntoSubtasks(query);
      RunAgents(subtasks);
    }

    /** The outer loop of the handler: the agents of `subtasks` run one
        after the other, each posting all its progress messages. */
    method RunAgents(subtasks: seq<string>)
      requires hasMessages
      modifies this
      ensures hasMessages
      ensures messages == old(messages) + Transcript(subtasks)
    {
      var i := 0;
      while i < |subtasks|
        invariant 0 <= i <= |subtasks| && hasMessages
        invariant messages == old(messages) + Transcript(subtasks[..i])
      {
        PostProgress(subtasks[i]);
        assert subtasks[..i + 1] == subtasks[..i] + [subtasks[i]];
        TranscriptAppend(subtasks[..i], subtasks[i]);
        i := i + 1;
      }
      assert subtasks[..i] == subtasks;
    }

    /** The inner loop of the handler: each progress message of the agent
        for `task`, appended as an assistant message. */
    method PostProgress(task: string)
      requires hasMessages
      modifies this
      ensures hasMessages
      ensures messages == old(messages) + LogMessages(task)
    {
      var logs := AgentProgress(task);
      var j := 0;
      while j < |logs|
        invariant 0 <= j <= |logs| && hasMessages
        invariant messages == old(messages) + LogMessages(task)[..j]
      {
        assert LogMessages(task)[..j + 1] == LogMessages(task)[..j] + [Message(Assistant, logs[j])];
        messages := messages + [Message(Assistant, logs[j])];
        j := j + 1;
      }
      assert LogMessages(task)[..j] == LogMessages(task);
    }

    /** One run of the page: initialise the history, then handle the button
        when it was pressed. Earlier messages are never changed. */
    method Run(pressed: bool)
      modifies this
      ensures hasMessages
      ensures messages == (if old(hasMessages) then old(messages) else [])
                          + (if pressed then HandlerLog(ButtonQuery) else [])
      ensures old(hasMessages) ==> old(messages) <= messages
    {
      InitMessages();
      if pressed {
        SubmitQuery(ButtonQuery);
      }
    }
  }
}
