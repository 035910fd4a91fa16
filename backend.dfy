/** The backend pipeline: the subtask model's reply is cleaned into a list
    of subtasks, the list is joined into the text handed to the mapping
    model, and `ProcessQuery` returns both results. The two hosted models
    are parameters: a function from prompt input to reply. */
module Backend {
  import opened PyText

  /** The characters `lstrip` removes from the front of each line:
      the digits 1 to 6, `.`, `-`, the bullet `•`, `*` and the space. */
  const MarkerChars: set<char> := {'1', '2', '3', '4', '5', '6', '.', '-', '•', '*', ' '}

  /** A mapped action as the JSON parser returns it: a JSON object. */
  type Record = map<string, string>

  /** The eight `action_type` choices the mapping prompt offers, in its order. */
  datatype ActionType =
    | SendMail | BookClassroom | GeneratePoster | ArrangeEquipment
    | ScheduleMeeting | ExecuteTask | GenerateForm | GenerateCertificate
  {
    function Name(): string {
      match this
      case SendMail => "send_mail"
      case BookClassroom => "book_classroom"
      case GeneratePoster => "generate_poster"
      case ArrangeEquipment => "arrange_equipment"
      case ScheduleMeeting => "schedule_meeting"
      case ExecuteTask => "execute_task"
      case GenerateForm => "generate_form"
      case GenerateCertificate => "generate_certificate"
    }
  }

  const ActionTypeChoices: seq<ActionType> := [
    SendMail, BookClassroom, GeneratePoster, ArrangeEquipment,
    ScheduleMeeting, ExecuteTask, GenerateForm, GenerateCertificate
  ]

  /** Every action type is offered exactly once, under a distinct name. */
  lemma ActionTypeChoicesComplete(t: ActionType)
    ensures t in ActionTypeChoices
    ensures |ActionTypeChoices| == 8
    ensures forall i, j :: 0 <= i < j < |ActionTypeChoices| ==>
              ActionTypeChoices[i].Name() != ActionTypeChoices[j].Name()
  {
  }

  /** `line.strip()` is truthy: the line has a non-whitespace character. */
  predicate NonBlank(line: string) {
    Strip(line) != []
  }

  /** One line of the reply with its list marker removed:
      `line.lstrip("123456.-•* ").strip()`. */
  function CleanLine(line: string): (r: string)
    ensures |r| <= |line| && Trimmed(r)
  {
    Strip(LStrip(line, MarkerChars))
  }

  /** The marker prefix comes off first, then the whitespace: the entry is
      the rest of the line after its longest prefix of marker characters,
      stripped. */
  lemma CleanLineSpec(line: string)
    ensures exists p :: 0 <= p <= |line| && AllIn(line[..p], MarkerChars)
                        && (p == |line| || line[p] !in MarkerChars)
                        && CleanLine(line) == Strip(line[p..])
  {
    var rest := LStrip(line, MarkerChars);
    LStripSpec(line, MarkerChars);
    var p := |line| - |rest|;
    assert line[p..] == rest;
  }

  /** Cleaning never introduces a line break. */
  lemma CleanLineNoNewline(line: string)
    requires '\n' !in line
    ensures '\n' !in CleanLine(line)
  {
    LStripLacks(line, MarkerChars, '\n');
    StripLacks(LStrip(line, MarkerChars), '\n');
  }

  /** The list comprehension of `get_subtasks` over the lines. */
  function CleanLines(lines: seq<string>): (r: seq<string>)
  {
    Comprehension(lines, NonBlank, CleanLine)
  }

  /** Each entry is the cleaned form of a non-blank line, hence trimmed, and
      free of line breaks when the lines are. */
  lemma CleanLinesEntries(lines: seq<string>, k: nat)
    requires k < |CleanLines(lines)|
    ensures exists j :: 0 <= j < |lines| && NonBlank(lines[j]) && CleanLines(lines)[k] == CleanLine(lines[j])
    ensures Trimmed(CleanLines(lines)[k])
    ensures (forall i :: 0 <= i < |lines| ==> '\n' !in lines[i]) ==> '\n' !in CleanLines(lines)[k]
  {
    ComprehensionOrigin(lines, NonBlank, CleanLine, k);
    var j :| 0 <= j < |lines| && NonBlank(lines[j]) && CleanLines(lines)[k] == CleanLine(lines[j])
             && CleanLines(lines)[k + 1..] == Comprehension(lines[j + 1..], NonBlank, CleanLine);
    if '\n' !in lines[j] {
      CleanLineNoNewline(lines[j]);
    }
  }

  /** `get_subtasks` after the model call: strip the reply, split it on
      `"\n"` and clean the non-blank lines. */
  function CleanReply(reply: string): (r: seq<string>)
    ensures |r| <= Count(Strip(reply), '\n') + 1
  {
    CleanLines(Split(Strip(reply), '\n'))
  }

  /** Every entry of the cleaned reply is trimmed and holds no line break. */
  lemma CleanReplyEntries(reply: string)
    ensures forall k :: 0 <= k < |CleanReply(reply)| ==>
              Trimmed(CleanReply(reply)[k]) && '\n' !in CleanReply(reply)[k]
  {
    var lines := Split(Strip(reply), '\n');
    forall k | 0 <= k < |CleanReply(reply)|
      ensures Trimmed(CleanReply(reply)[k]) && '\n' !in CleanReply(reply)[k]
    {
      CleanLinesEntries(lines, k);
    }
  }

  /** `get_subtasks(query)`: one call of the subtask model, then cleaning. */
  function GetSubtasks(query: string, subtaskModel: string -> string): (r: seq<string>)
    ensures r == CleanReply(subtaskModel(query))
    ensures forall k :: 0 <= k < |r| ==> Trimmed(r[k]) && '\n' !in r[k]
  {
    CleanReplyEntries(subtaskModel(query));
    CleanReply(subtaskModel(query))
  }

  /** The `subtasks` text of the mapping prompt: `"\n".join(subtasks)`. */
  function MappingInput(subtasks: seq<string>): (r: string)
  {
    Join(subtasks, '\n')
  }

  /** `map_subtasks(subtasks)`: one call of the mapping model on the joined list. */
  function MapSubtasks(subtasks: seq<string>, mappingModel: string -> seq<Record>): (r: seq<Record>)
    ensures r == mappingModel(MappingInput(subtasks))
    ensures subtasks != [] && (forall k :: 0 <= k < |subtasks| ==> '\n' !in subtasks[k])
            ==> Split(MappingInput(subtasks), '\n') == subtasks
  {
    MappingInputRoundTrip(subtasks);
    mappingModel(MappingInput(subtasks))
  }

  /** `process_query(query)`: the subtask list, unchanged, and its mapping. */
  function ProcessQuery(query: string, subtaskModel: string -> string,
                        mappingModel: string -> seq<Record>): (r: (seq<string>, seq<Record>))
    ensures r.0 == CleanReply(subtaskModel(query))
    ensures r.1 == mappingModel(MappingInput(r.0))
  {
    var subtasks := GetSubtasks(query, subtaskModel);
    (subtasks, MapSubtasks(subtasks, mappingModel))
  }

  // ----- Properties of the cleaning -----

  /** Cleaning works line by line in order: the entries for a block of lines
      followed by another are the entries of the first, then of the second;
      a single line gives its cleaned form, or nothing when it is blank. */
  lemma CleanLinesByLine(a: seq<string>, b: seq<string>, line: string)
    ensures CleanLines(a + b) == CleanLines(a) + CleanLines(b)
    ensures CleanLines([line]) == if NonBlank(line) then [CleanLine(line)] else []
  {
    ComprehensionAppend(a, b, NonBlank, CleanLine);
    ComprehensionSingle(line, NonBlank, CleanLine);
  }

  /** The number of non-blank lines. */
  function NonBlankCount(lines: seq<string>): (n: nat)
    ensures n <= |lines|
  {
    KeptCount(lines, NonBlank)
  }

  /** One entry per non-blank line: without blank lines nothing is dropped,
      and the list is empty only when every line is blank. */
  lemma CleanLinesCount(lines: seq<string>)
    ensures |CleanLines(lines)| == NonBlankCount(lines)
    ensures (forall k :: 0 <= k < |lines| ==> NonBlank(lines[k])) ==> |CleanLines(lines)| == |lines|
    ensures CleanLines(lines) == [] <==> forall k :: 0 <= k < |lines| ==> !NonBlank(lines[k])
  {
    ComprehensionCount(lines, NonBlank, CleanLine);
  }

  /** Blankness is tested before markers are removed: a line made only of
      marker characters, not all of them spaces (such as "1." or "-"),
      is kept and becomes an empty entry. */
  lemma MarkerOnlyLine(line: string)
    requires AllIn(line, MarkerChars) && !AllIn(line, Whitespace)
    ensures NonBlank(line)
    ensures CleanLine(line) == []
  {
    StripEmptyIff(line);
    LStripAll(line, MarkerChars);
  }

  /** A line whose first character is not a marker (such as "7. X": 0 and
      7 to 9 are not in the set) is only stripped of whitespace. */
  lemma NonMarkerHead(line: string)
    requires |line| > 0 && line[0] !in MarkerChars
    ensures CleanLine(line) == Strip(line)
  {
  }

  /** The mapping text holds each subtask on its own line, in order:
      whenever the subtasks hold no line break, splitting the text on "\n"
      gives back the list. */
  lemma MappingInputRoundTrip(subtasks: seq<string>)
    ensures subtasks != [] && (forall k :: 0 <= k < |subtasks| ==> '\n' !in subtasks[k])
            ==> Split(MappingInput(subtasks), '\n') == subtasks
  {
    if subtasks != [] && forall k :: 0 <= k < |subtasks| ==> '\n' !in subtasks[k] {
      SplitJoin(subtasks, '\n');
    }
  }

  /** In particular the mapping model of `process_query` sees the cleaned
      subtasks one per line, or the empty text when there are none. */
  lemma ProcessQueryMappingInput(query: string, subtaskModel: string -> string,
                                 mappingModel: string -> seq<Record>)
    ensures var subtasks := ProcessQuery(query, subtaskModel, mappingModel).0;
            (subtasks == [] ==> MappingInput(subtasks) == [])
            && (subtasks != [] ==> Split(MappingInput(subtasks), '\n') == subtasks)
  {
    var subtasks := ProcessQuery(query, subtaskModel, mappingModel).0;
    if subtasks != [] {
      CleanReplyEntries(subtaskModel(query));
      MappingInputRoundTrip(subtasks);
    }
  }

  /** Only "\n" separates lines, and the "\r" a CRLF line ending leaves at
      the end of a line is removed with the rest of the whitespace. */
  lemma CarriageReturnDropped(line: string)
    ensures CleanLine(line + "\r") == CleanLine(line)
  {
    var rest := LStrip(line, MarkerChars);
    assert '\r' in Whitespace;
    if rest != [] {
      LStripConcat(line, "\r", MarkerChars);
      StripTrailingSpace(rest, '\r');
    } else {
      LStripConcatAll(line, "\r", MarkerChars);
      assert LStrip("\r", MarkerChars) == "\r";
      StripTrailingSpace([], '\r');
      assert [] + "\r" == "\r";
    }
  }

  // ----- The quirks of the marker set, on single lines -----

  /** A reply that is one non-blank line with no whitespace at its ends
      yields exactly the cleaned form of that line. */
  lemma OneLineReply(reply: string)
    requires '\n' !in reply && Trimmed(reply) && reply != []
    ensures CleanReply(reply) == [CleanLine(reply)]
  {
    StripTrimmed(reply);
    SplitNoSep(reply, '\n');
    CleanLinesByLine([], [], reply);
  }

  /** A trimmed title after one marker character loses just that character. */
  lemma MarkerThenTitle(marker: char, title: string)
    requires marker in MarkerChars && |title| > 0 && title[0] !in MarkerChars && Trimmed(title)
    ensures CleanLine([marker] + title) == title
  {
    var line := [marker] + title;
    assert line[1..] == title;
    assert LStrip(line, MarkerChars) == LStrip(title, MarkerChars);
    NonMarkerHead(title);
    StripTrimmed(title);
  }

  lemma SevenIsNotAMarker()
    ensures CleanLine("7. X") == "7. X"
  {
    NonMarkerHead("7. X");
    StripTrimmed("7. X");
  }

  lemma TenLosesItsOne()
    ensures CleanLine("10. X") == "0. X"
  {
    assert "10. X" == ['1'] + "0. X";
    MarkerThenTitle('1', "0. X");
  }

  lemma LeadingDigitOfTitleLost()
    ensures CleanLine("3D print") == "D print"
  {
    assert "3D print" == ['3'] + "D print";
    MarkerThenTitle('3', "D print");
  }

  lemma NumberOnlyLineKept()
    ensures NonBlank("1.") && CleanLine("1.") == ""
  {
    assert !IsSpace("1."[0]);
    MarkerOnlyLine("1.");
  }

  lemma DashOnlyLineKept()
    ensures NonBlank("-") && CleanLine("-") == ""
  {
    assert !IsSpace("-"[0]);
    MarkerOnlyLine("-");
  }
}
