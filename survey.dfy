/**
 * The intake survey of lib/bot.js: a wizard scene of nine steps run against
 * one chat session. The session holds a cursor (the index of the step that
 * handles the next message) and a record of the answers collected so far.
 * Step 1 empties the record and asks for the client's name; steps 2 to 8
 * each store the answer to the question just asked under that question's
 * key and ask the next question; the last step waits for the Drive link.
 */
module Survey {
  import opened Wrappers

  /** The text of the reply-keyboard button offered with the first seven questions. */
  const SkipLabel: string := "Skip this question ⏭️"

  /** What is stored for a question answered with the skip button. */
  const NotSpecified: string := "Not specified"

  /** The reply to a missing or empty message at the last step. */
  const InvalidLinkReply: string := "Please provide a valid Google Drive link."

  /** The record keys, in the order their questions are asked. */
  const AnswerKeys: seq<string> :=
    ["client_name", "room_type", "location", "goal", "what_done", "materials", "features"]

  /** The cursor of the step that waits for the Drive link. */
  const LinkStep: nat := 8

  /** The eight questions, in the order they are asked. */
  const Questions: seq<string> := [
    "🙋‍♂️ What is the *client's name*? (Как зовут клиента?)",
    "🏗️ What *room* did you work on? (e.g. kitchen, bathroom, laundry room) (Какую комнату ремонтировали?)",
    "📍 In which *city and state* was this project completed? (В каком городе и штате выполнен проект?)",
    "🌟 What was the *client's goal* for this space? (e.g. modernize layout, fix poor lighting, update style, old renovation, etc.) (Чего хотел добиться клиент в этом помещении?)",
    "💪 What *work was done* during the remodel? (Что было сделано в проекте?)",
    "🧱 What *materials* were used? (Include names, colors, manufacturers if possible) (Какие материалы использовались? Название, цвет, производитель)",
    "✨ Were there any *interesting features* or smart solutions implemented? (e.g. round lighting, hidden drawers, custom panels) (Были ли интересные решения или особенности в проекте?)",
    "📂 Please *paste the Google Drive folder link* (with subfolders: before / after / 3D / drawings) (Вставьте ссылку на папку Google Drive с подпапками: до / после / 3D / чертёж)"
  ]

  /** The reply markup sent with a question. */
  datatype Keyboard =
    | SkipButton      // a one-button keyboard holding SkipLabel
    | RemoveKeyboard  // any custom keyboard is taken away

  /** What one step sends back. */
  datatype Reply =
    | Ask(question: nat, text: string, keyboard: Keyboard)  // the question with that index
    | Reject(text: string)                                   // an error message; the step is repeated
    | LinkReceived(link: string)                             // the last step accepted a text and goes on with it

  /** The keyboard sent with question `q`: the skip button for the first seven, none for the Drive link. */
  function KeyboardFor(q: nat): (k: Keyboard)
    ensures k == SkipButton <==> q < |AnswerKeys|
  {
    if q < |AnswerKeys| then SkipButton else RemoveKeyboard
  }

  /**
   * What is stored for the answer `text`. The sentinel is stored for exactly
   * two answers: the skip label itself and the typed text "Not specified".
   * Only the exact skip label is altered, so a variant of it with other case
   * or spacing is stored unchanged.
   */
  function Recorded(text: string): (stored: string)
    ensures stored == NotSpecified <==> text == SkipLabel || text == NotSpecified
    ensures stored != text <==> text == SkipLabel
  {
    if text == SkipLabel then NotSpecified else text
  }

  /** The record after the answers `answers`, given in order from the first question on. */
  function RecordOf(answers: seq<string>): map<string, string>
    requires |answers| <= |AnswerKeys|
    decreases |answers|
  {
    if answers == [] then map[]
    else
      var n := |answers| - 1;
      RecordOf(answers[..n])[AnswerKeys[n] := Recorded(answers[n])]
  }

  /** The record holds exactly the keys of the questions answered so far. */
  lemma {:induction false} RecordOfKeys(answers: seq<string>)
    requires |answers| <= |AnswerKeys|
    ensures forall k :: k in RecordOf(answers) <==> k in AnswerKeys[..|answers|]
    ensures |RecordOf(answers)| == |answers|
    decreases |answers|
  {
    if answers != [] {
      var n := |answers| - 1;
      RecordOfKeys(answers[..n]);
      assert AnswerKeys[..n + 1] == AnswerKeys[..n] + [AnswerKeys[n]];
      assert AnswerKeys[n] !in AnswerKeys[..n];
    }
  }

  /** Each answered question's key holds what was recorded for its answer. */
  lemma {:induction false} RecordOfValues(answers: seq<string>, i: nat)
    requires |answers| <= |AnswerKeys|
    requires i < |answers|
    ensures AnswerKeys[i] in RecordOf(answers)
    ensures RecordOf(answers)[AnswerKeys[i]] == Recorded(answers[i])
    decreases |answers|
  {
    var n := |answers| - 1;
    if i < n {
      RecordOfValues(answers[..n], i);
      assert answers[..n][i] == answers[i];
      assert AnswerKeys[i] != AnswerKeys[n];
    }
  }

  /** A further answer adds its own key and leaves every earlier entry as it was. */
  lemma {:induction false} RecordOfExtends(answers: seq<string>, text: string)
    requires |answers| < |AnswerKeys|
    ensures AnswerKeys[|answers|] !in RecordOf(answers)
    ensures RecordOf(answers + [text]) == RecordOf(answers)[AnswerKeys[|answers|] := Recorded(text)]
    ensures forall k :: k in RecordOf(answers) ==> k in RecordOf(answers + [text]) && RecordOf(answers + [text])[k] == RecordOf(answers)[k]
  {
    RecordOfKeys(answers);
    var n := |answers|;
    assert AnswerKeys[n] !in AnswerKeys[..n];
    var longer := answers + [text];
    assert longer[..n] == answers && longer[n] == text;
    assert RecordOf(longer) == RecordOf(answers)[AnswerKeys[n] := Recorded(text)];
  }

  /**
   * One chat session inside the survey scene: the wizard's cursor and the
   * record kept in the scene state. `answers` is the history of the texts
   * received by steps 2 to 8 since step 1 last ran.
   */
  class Wizard {
    var cursor: nat
    var data: map<string, string>
    ghost var answers: seq<string>

    /**
     * The cursor never passes the last step, and from step 2 on the record
     * is exactly the one the answers received so far produce.
     */
    ghost predicate Valid()
      reads this
    {
      && cursor <= LinkStep
      && (cursor == 0 ==> answers == [])
      && (cursor >= 1 ==> |answers| == cursor - 1 && data == RecordOf(answers))
    }

    /** Entering the scene: the cursor is at the first step; the state may still hold an older record. */
    constructor (previous: map<string, string>)
      ensures Valid()
      ensures cursor == 0 && data == previous && answers == []
    {
      cursor := 0;
      data := previous;
      answers := [];
    }

    /**
     * Handles one incoming message at the current cursor. Steps 2 to 8 read
     * the message's text unguarded, so there a text is required.
     */
    method Step(msg: Option<string>) returns (reply: Reply)
      requires Valid()
      requires 1 <= cursor < LinkStep ==> msg.Some?
      modifies this
      ensures Valid()
      // step 1: the record is emptied and the first question asked
      ensures old(cursor) == 0 ==>
        && cursor == 1 && data == map[] && answers == []
        && reply == Ask(0, Questions[0], SkipButton)
      // steps 2 to 8: the answer is stored under the question's key, the next question asked
      ensures 1 <= old(cursor) < LinkStep ==>
        && cursor == old(cursor) + 1
        && answers == old(answers) + [msg.value]
        && data == old(data)[AnswerKeys[old(cursor) - 1] := Recorded(msg.value)]
        && reply == Ask(old(cursor), Questions[old(cursor)], KeyboardFor(old(cursor)))
      // the last step: no text, nothing changes
      ensures old(cursor) == LinkStep && (msg.None? || msg.value == "") ==>
        && cursor == old(cursor) && data == old(data) && answers == old(answers)
        && reply == Reject(InvalidLinkReply)
      ensures old(cursor) == LinkStep && msg.Some? && msg.value != "" ==>
        reply == LinkReceived(msg.value)
      // at every cursor from step 2 on, the record holds exactly the keys asked so far
      ensures cursor >= 1 ==> forall k :: k in data <==> k in AnswerKeys[..cursor - 1]
    {
      if cursor == 0 {
        data := map[];
        answers := [];
        reply := Ask(0, Questions[0], SkipButton);
        cursor := 1;
      } else if cursor < LinkStep {
        var text := msg.value;
        var key := AnswerKeys[cursor - 1];
        RecordOfExtends(answers, text);
        if text != SkipLabel {
          data := data[key := text];
        } else {
          data := data[key := NotSpecified];
        }
        answers := answers + [text];
        reply := Ask(cursor, Questions[cursor], KeyboardFor(cursor));
        cursor := cursor + 1;
      } else if msg.None? || msg.value == "" {
        reply := Reject(InvalidLinkReply);
      } else {
        reply := LinkReceived(msg.value);
      }
      RecordOfKeys(answers);
    }
  }
}
