/** The demo front end of the pipeline: it numbers the subtasks, shows one
    line per mapped action with its emoji, and one panel of mock agent logs
    per mapped action. The action tables are read with defaults, while a
    mapped record without "action_type" or "subtask" raises `KeyError`,
    which stops the page. */
module Frontend {
  import opened Backend

  datatype Option<T> = None | Some(value: T)

  const ActionEmoji: map<string, string> := map[
    "send_mail" := "\U{2709}\U{FE0F}",
    "book_classroom" := "\U{1F3EB}",
    "arrange_equipment" := "\U{1F9F0}",
    "generate_poster" := "\U{1F5BC}\U{FE0F}",
    "schedule_meeting" := "\U{1F5D3}\U{FE0F}",
    "execute_task" := "\U{2699}\U{FE0F}",
    "generate_form" := "\U{1F4DD}",
    "generate_certificate" := "\U{1F3C5}"
  ]

  /** The emoji shown for an action type the table does not know. */
  const DefaultEmoji: string := "\U{1F527}"

  const MockLogs: map<string, seq<string>> := map[
    "send_mail" := ["Generating mail content...", "Connecting to server...", "Sending mail...", "\U{2705} Mail sent!"],
    "book_classroom" := ["Checking classroom availability...", "Submitting booking...", "\U{2705} Classroom booked!"],
    "arrange_equipment" := ["Listing equipment...", "Contacting manager...", "\U{2705} Equipment arranged!"],
    "generate_poster" := ["Drafting poster...", "Adding event details...", "\U{2705} Poster ready!"],
    "schedule_meeting" := ["Checking schedules...", "Creating invite...", "\U{2705} Meeting scheduled!"],
    "execute_task" := ["Breaking into subtasks...", "Assigning roles...", "\U{2705} Task executed!"],
    "generate_form" := ["Creating form...", "Adding fields...", "\U{2705} Form published!"],
    "generate_certificate" := ["Fetching details...", "Generating certificates...", "\U{2705} Certificates ready!"]
  ]

  /** The log steps shown for an action type the table does not know. */
  const DefaultLogs: seq<string> := ["Processing...", "\U{2705} Done!"]

  /** A log sequence ends in a completion step: it is not empty and its
      last step starts with the check mark. */
  predicate EndsDone(logs: seq<string>) {
    |logs| > 0 && |logs[|logs| - 1]| > 0 && logs[|logs| - 1][0] == '\U{2705}'
  }

  /** `ACTION_EMOJI.get(action, "🔧")`. */
  function EmojiFor(action: string): (r: string)
    ensures r == DefaultEmoji <==> action !in ActionEmoji
    ensures action in ActionEmoji ==> r == ActionEmoji[action]
  {
    if action in ActionEmoji then ActionEmoji[action] else DefaultEmoji
  }

  /** `MOCK_LOGS.get(action, ["Processing...", "✅ Done!"])`. */
  function LogsFor(action: string): (r: seq<string>)
    ensures r == DefaultLogs <==> action !in MockLogs
    ensures action in MockLogs ==> r == MockLogs[action] && 3 <= |r| <= 4
    ensures EndsDone(r)
  {
    if action in MockLogs then MockLogs[action] else DefaultLogs
  }

  /** Both tables are keyed by exactly the action types the mapping prompt
      offers: every offered type has an emoji and its own logs, and no
      other key is in either table. */
  lemma TablesMatchActionTypes()
    ensures ActionEmoji.Keys == MockLogs.Keys
    ensures forall t: ActionType :: t.Name() in ActionEmoji && t.Name() in MockLogs
    ensures forall a :: a in ActionEmoji ==> exists t: ActionType :: t.Name() == a
  {
    forall a | a in ActionEmoji ensures exists t: ActionType :: t.Name() == a {
      if a == "send_mail" { assert SendMail.Name() == a; }
      else if a == "book_classroom" { assert BookClassroom.Name() == a; }
      else if a == "arrange_equipment" { assert ArrangeEquipment.Name() == a; }
      else if a == "generate_poster" { assert GeneratePoster.Name() == a; }
      else if a == "schedule_meeting" { assert ScheduleMeeting.Name() == a; }
      else if a == "execute_task" { assert ExecuteTask.Name() == a; }
      else if a == "generate_form" { assert GenerateForm.Name() == a; }
      else { assert GenerateCertificate.Name() == a; }
    }
  }

  /** A valid action type never falls back to a default. */
  lemma KnownActionNoDefault(t: ActionType)
    ensures EmojiFor(t.Name()) != DefaultEmoji
    ensures LogsFor(t.Name()) != DefaultLogs && 3 <= |LogsFor(t.Name())| <= 4
  {
    TablesMatchActionTypes();
  }

  // ----- What the page shows -----

  /** One numbered line of the subtask list. */
  datatype Numbered = Numbered(number: nat, text: string)

  /** One line of the mapped-actions list. */
  datatype ActionLine = ActionLine(number: nat, emoji: string, actionType: string, subtask: string)

  /** One expander of the agent-logs section. */
  datatype LogPanel = LogPanel(number: nat, emoji: string, subtask: string, expanded: bool, steps: seq<string>)

  /** The exception that stops the page: a record lacks a key. */
  datatype Failure = KeyError(key: string)

  /** A section of the page: what it showed before it stopped, if it did. */
  datatype Section<T> = Section(shown: seq<T>, error: Option<Failure>)

  /** `for i, s in enumerate(subtasks, 1)`: the list numbered from 1. */
  function SubtaskList(subtasks: seq<string>, number: nat): (r: seq<Numbered>)
    ensures |r| == |subtasks|
    ensures forall k :: 0 <= k < |r| ==> r[k].number == number + k
  {
    if subtasks == [] then [] else [Numbered(number, subtasks[0])] + SubtaskList(subtasks[1..], number + 1)
  }

  /** The texts of a numbered list. */
  function Texts(lines: seq<Numbered>): (r: seq<string>)
    ensures |r| == |lines|
  {
    if lines == [] then [] else [lines[0].text] + Texts(lines[1..])
  }

  /** Numbering keeps every subtask, in its order. */
  lemma {:induction false} SubtaskListTexts(subtasks: seq<string>, number: nat)
    ensures Texts(SubtaskList(subtasks, number)) == subtasks
  {
    if subtasks != [] {
      SubtaskListTexts(subtasks[1..], number + 1);
    }
  }

  /** A record the page can show: it has both keys it reads. */
  predicate Complete(m: Record) {
    "action_type" in m && "subtask" in m
  }

  /** The key whose lookup fails first on an incomplete record: the
      action type is read before the subtask. */
  function MissingKey(m: Record): (r: string)
    requires !Complete(m)
    ensures r !in m && (r == "action_type" || r == "subtask")
    ensures "action_type" !in m ==> r == "action_type"
  {
    if "action_type" !in m then "action_type" else "subtask"
  }

  /** The position of the first incomplete record, or the length of the
      list when every record is complete. */
  function FirstIncomplete(mapped: seq<Record>): (j: nat)
    ensures j <= |mapped|
    ensures forall k :: 0 <= k < j ==> Complete(mapped[k])
    ensures j < |mapped| ==> !Complete(mapped[j])
  {
    if mapped == [] || !Complete(mapped[0]) then 0 else 1 + FirstIncomplete(mapped[1..])
  }

  /** `m.get(key, default)`. */
  function Get(m: Record, key: string, default: string): (r: string)
    ensures key in m ==> r == m[key]
    ensures key !in m ==> r == default
  {
    if key in m then m[key] else default
  }

  /** The mapped-actions section, numbered from `number`: each record's line,
      until a record lacks a key. */
  function ActionSection(mapped: seq<Record>, number: nat): (r: Section<ActionLine>)
    ensures |r.shown| == FirstIncomplete(mapped)
    ensures r.error == if FirstIncomplete(mapped) == |mapped| then None
                       else Some(KeyError(MissingKey(mapped[FirstIncomplete(mapped)])))
    ensures forall k :: 0 <= k < |r.shown| ==>
              r.shown[k] == ActionLine(number + k, EmojiFor(mapped[k]["action_type"]),
                                       mapped[k]["action_type"], mapped[k]["subtask"])
  {
    if mapped == [] then Section([], None)
    else
      var m := mapped[0];
      var emoji := EmojiFor(Get(m, "action_type", ""));
      if "action_type" !in m then Section([], Some(KeyError("action_type")))
      else if "subtask" !in m then Section([], Some(KeyError("subtask")))
      else
        var rest := ActionSection(mapped[1..], number + 1);
        Section([ActionLine(number, emoji, m["action_type"], m["subtask"])] + rest.shown, rest.error)
  }

  /** The agent-logs section, numbered from `number`: one panel per record
      with the mock logs of its action type, until a record lacks a key.
      A panel is expanded when its number is 0. */
  function PanelSection(mapped: seq<Record>, number: nat): (r: Section<LogPanel>)
    ensures |r.shown| == FirstIncomplete(mapped)
    ensures r.error == if FirstIncomplete(mapped) == |mapped| then None
                       else Some(KeyError(MissingKey(mapped[FirstIncomplete(mapped)])))
    ensures forall k :: 0 <= k < |r.shown| ==>
              r.shown[k] == LogPanel(number + k, EmojiFor(mapped[k]["action_type"]), mapped[k]["subtask"],
                                     number + k == 0, LogsFor(mapped[k]["action_type"]))
  {
    if mapped == [] then Section([], None)
    else
      var m := mapped[0];
      if "action_type" !in m then Section([], Some(KeyError("action_type")))
      else
        var action := m["action_type"];
        var emoji := EmojiFor(action);
        if "subtask" !in m then Section([], Some(KeyError("subtask")))
        else
          var rest := PanelSection(mapped[1..], number + 1);
          Section([LogPanel(number, emoji, m["subtask"], number == 0, LogsFor(action))] + rest.shown, rest.error)
  }

  /** Everything one press of "Run Pipeline" shows, and the error that
      stopped it, if any. */
  datatype Page = Page(subtasks: seq<Numbered>, actions: seq<ActionLine>,
                       panels: seq<LogPanel>, error: Option<Failure>)

  /** The page for the model results: the subtask list, then the mapped
      actions, then, when those raised nothing, the agent logs. */
  function Render(subtasks: seq<string>, mapped: seq<Record>): (r: Page)
    ensures r.subtasks == SubtaskList(subtasks, 1)
    ensures r.actions == ActionSection(mapped, 1).shown
    ensures r.error == ActionSection(mapped, 1).error
  {
    var actions := ActionSection(mapped, 1);
    if actions.error.Some? then Page(SubtaskList(subtasks, 1), actions.shown, [], actions.error)
    else
      var panels := PanelSection(mapped, 1);
      Page(SubtaskList(subtasks, 1), actions.shown, panels.shown, panels.error)
  }

  /** The page fails exactly when some record lacks a key, and the failure
      names the first key the first incomplete record lacks. Without a
      failure every record has its line and its panel, numbered from 1 in
      order, and no panel starts expanded; with one, no panel is shown. */
  lemma RenderSpec(subtasks: seq<string>, mapped: seq<Record>)
    ensures var r := Render(subtasks, mapped);
            (r.error == None <==> forall k :: 0 <= k < |mapped| ==> Complete(mapped[k]))
            && (r.error != None ==>
                  var j := FirstIncomplete(mapped);
                  j < |mapped| && r.error == Some(KeyError(MissingKey(mapped[j])))
                  && |r.actions| == j && r.panels == [])
            && (r.error == None ==>
                  |r.actions| == |r.panels| == |mapped|
                  && forall k :: 0 <= k < |mapped| ==>
                       r.actions[k].number == r.panels[k].number == k + 1
                       && r.actions[k].subtask == r.panels[k].subtask == mapped[k]["subtask"]
                       && !r.panels[k].expanded)
  {
    var r := Render(subtasks, mapped);
    var j := FirstIncomplete(mapped);
    if j < |mapped| {
      assert !Complete(mapped[j]);
    }
  }

  /** A mapped action shows the same emoji in its line and in its panel,
      and its panel shows the mock logs of its action type, which end with
      a completion step. */
  lemma PanelMatchesLine(subtasks: seq<string>, mapped: seq<Record>, k: nat)
    requires Render(subtasks, mapped).error == None && k < |mapped|
    ensures var r := Render(subtasks, mapped);
            k < |r.actions| && k < |r.panels|
            && r.panels[k].emoji == r.actions[k].emoji
            && r.panels[k].steps == LogsFor(r.actions[k].actionType)
            && EndsDone(r.panels[k].steps)
  {
    RenderSpec(subtasks, mapped);
  }

  /** One press of "Run Pipeline": the subtask model on the query, the
      mapping model on the subtasks, and the page for both. */
  function RunPipeline(query: string, subtaskModel: string -> string,
                       mappingModel: string -> seq<Record>): (r: Page)
    ensures r == Render(ProcessQuery(query, subtaskModel, mappingModel).0,
                        ProcessQuery(query, subtaskModel, mappingModel).1)
  {
    var subtasks := GetSubtasks(query, subtaskModel);
    var mapped := MapSubtasks(subtasks, mappingModel);
    Render(subtasks, mapped)
  }

  /** The subtask list of the page is the backend's cleaned list, numbered
      from 1, whatever the mapping model returns. */
  lemma RunPipelineSubtasks(query: string, subtaskModel: string -> string,
                            mappingModel: string -> seq<Record>)
    ensures var r := RunPipeline(query, subtaskModel, mappingModel);
            Texts(r.subtasks) == CleanReply(subtaskModel(query))
            && forall k :: 0 <= k < |r.subtasks| ==> r.subtasks[k].number == k + 1
  {
    SubtaskListTexts(CleanReply(subtaskModel(query)), 1);
  }
}
