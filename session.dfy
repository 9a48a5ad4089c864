/** The guess game (roboclic.py:165-243): `poll` shows a keyboard of
    participants, `keyboard_handler` records the pressed button in the user's
    `user_data`, and `create_poll` turns the next text message into a quiz
    about the recorded participant and scores it in the ledger. */
module Session {
  import opened Wrappers
  import opened Registry
  import opened Quiz
  import opened Ledger

  // ---------------------------------------------------------------------------
  // The keyboard of `poll` (roboclic.py:169-175)

  /** A keyboard button: the text shown and the data sent back when pressed. */
  datatype Button = Button(text: string, callbackData: string)

  function ButtonOf(e: Entry): Button {
    Button(e.name, e.id)
  }

  /** A Python slice bound: clamped to the length of the list. */
  function Clamp(i: nat, n: nat): nat {
    if i <= n then i else n
  }

  /** The buttons of the participants, in dictionary order. */
  function Buttons(items: Registry): (bs: seq<Button>)
    ensures |bs| == |items| && forall i :: 0 <= i < |items| ==> bs[i] == ButtonOf(items[i])
  {
    seq(|items|, i requires 0 <= i < |items| => ButtonOf(items[i]))
  }

  /** The buttons of the participants at positions `4 * row` up to (not
      including) `4 * (row + 1)`, cut short at the end of the list. */
  function Row(items: Registry, row: nat): seq<Button> {
    Buttons(items)[Clamp(4 * row, |items|)..Clamp(4 * (row + 1), |items|)]
  }

  /** One row for each participant, though only the first `ceil(n / 4)` rows
      hold buttons. */
  function Keyboard(items: Registry): (rows: seq<seq<Button>>)
    ensures |rows| == |items|
    ensures forall row :: 0 <= row < |rows| ==> |rows[row]| <= 4
    ensures forall row :: 0 <= row < |rows| && 4 * row >= |items| ==> rows[row] == []
    ensures forall row :: 0 <= row < |rows| && 4 * (row + 1) <= |items| ==> |rows[row]| == 4
  {
    seq(|items|, row requires 0 <= row < |items| => Row(items, row))
  }

  /** The rows laid end to end. */
  function Flatten(rows: seq<seq<Button>>): seq<Button> {
    if rows == [] then [] else Flatten(rows[..|rows| - 1]) + rows[|rows| - 1]
  }

  /** The first `rows` rows hold the first `4 * rows` buttons. */
  lemma {:induction false} KeyboardPrefix(items: Registry, rows: nat)
    requires rows <= |items|
    ensures Flatten(Keyboard(items)[..rows]) == Buttons(items)[..Clamp(4 * rows, |items|)]
  {
    if rows > 0 {
      var kb := Keyboard(items);
      var bs := Buttons(items);
      KeyboardPrefix(items, rows - 1);
      assert kb[..rows][..rows - 1] == kb[..rows - 1];
      assert Flatten(kb[..rows]) == Flatten(kb[..rows - 1]) + kb[rows - 1];
      var lo, hi := Clamp(4 * (rows - 1), |items|), Clamp(4 * rows, |items|);
      assert kb[rows - 1] == bs[lo..hi];
      assert bs[..hi] == bs[..lo] + bs[lo..hi];
    }
  }

  /** The rows read in order give every participant's button exactly once,
      in dictionary order. */
  lemma KeyboardFlatten(items: Registry)
    ensures Flatten(Keyboard(items)) == Buttons(items)
  {
    KeyboardPrefix(items, |items|);
    assert Keyboard(items)[..|items|] == Keyboard(items);
    assert Buttons(items)[..Clamp(4 * |items|, |items|)] == Buttons(items);
  }

  // ---------------------------------------------------------------------------
  // `context.user_data` across the three handlers

  /** The fields the handlers keep in `context.user_data`. `None` stands both
      for a key never written and, for `user`, for the key written with
      Python's `None` when Telegram gives no username. Only the admin notice
      of `create_poll`, which is not modelled, could tell the two apart. The
      bot never removes a key. */
  datatype UserData = UserData(user: Option<string>, answer: Option<string>, callbackMessage: Option<nat>)

  const NoData := UserData(None, None, None)

  /** What reaches one user's handlers: the `/poll` command (with the sender's
      username, which Telegram may omit), a keyboard button press (its
      callback data and the message carrying the keyboard), or a text
      message consumed by `create_poll`. */
  datatype Event = Started(username: Option<string>) | Selected(choice: string, message: nat) | Quoted

  /** The `user_data` writes of each handler. `create_poll` writes nothing. */
  function Apply(d: UserData, e: Event): (r: UserData)
    ensures d.answer.Some? ==> r.answer.Some?
    ensures d.callbackMessage.Some? ==> r.callbackMessage.Some?
    ensures e.Started? ==> r.user == e.username
    ensures !e.Started? ==> r.user == d.user
    ensures !e.Selected? ==> r.answer == d.answer && r.callbackMessage == d.callbackMessage
    ensures e.Selected? ==> r.answer == Some(e.choice) && r.callbackMessage == Some(e.message)
  {
    match e
    case Started(u) => d.(user := u)
    case Selected(c, m) => d.(answer := Some(c), callbackMessage := Some(m))
    case Quoted => d
  }

  function Replay(d: UserData, events: seq<Event>): UserData {
    if events == [] then d else Apply(Replay(d, events[..|events| - 1]), events[|events| - 1])
  }

  /** The choice of the latest button press, if there was one. */
  function LastSelection(events: seq<Event>): Option<(string, nat)> {
    if events == [] then None
    else match events[|events| - 1]
      case Selected(c, m) => Some((c, m))
      case _ => LastSelection(events[..|events| - 1])
  }

  /** After any sequence of handler calls, the recorded answer is the one of
      the latest button press, however many polls were started or quizzes
      sent since; with no press ever, it is what was there before. */
  lemma {:induction false} ReplayAnswer(d: UserData, events: seq<Event>)
    ensures var r := Replay(d, events);
      match LastSelection(events)
      case Some((c, m)) => r.answer == Some(c) && r.callbackMessage == Some(m)
      case None => r.answer == d.answer && r.callbackMessage == d.callbackMessage
  {
    if events != [] {
      ReplayAnswer(d, events[..|events| - 1]);
    }
  }

  // ---------------------------------------------------------------------------
  // The handlers

  datatype SessionError =
    | NoSelection              // no button press recorded yet (KeyError)
    | UnknownAnswer(id: string)  // callback data that is no participant id (KeyError)
    | QuizFailed(e: QuizError)   // the choice construction raised

  /** Whether `create_poll` scores the quiz: the chat is in the configured
      allow-list, or no allow-list is configured. */
  predicate Scored(groups: Option<set<int>>, chatId: int) {
    match groups
    case None => true
    case Some(g) => chatId in g
  }

  function PollQuestion(text: string): string {
    "Qui a dit ça : \"" + text + "\""
  }

  /** One user's game. The conversation handler keeps its state per chat and
      user: `awaiting` holds the chats where this user's conversation is in
      the `POLL` state (`poll` returned `POLL`, `create_poll` has not yet
      returned `END`). `user_data` is kept per user only, so all of those
      chats share one `data`: a button pressed in one chat changes the
      answer that `create_poll` uses in every other. Only this user's own
      button presses reach `data`. */
  class GuessSession {
    var data: UserData
    var awaiting: set<int>

    constructor ()
      ensures data == NoData && awaiting == {}
    {
      data := NoData;
      awaiting := {};
    }

    /** `poll` in chat `chatId`: records the sender and shows the participant
        keyboard. The conversation handler only enters it in a chat where
        this user has no conversation under way. */
    method Poll(registry: Registry, username: Option<string>, chatId: int) returns (keyboard: seq<seq<Button>>)
      requires chatId !in awaiting
      modifies this
      ensures data == Apply(old(data), Started(username))
      ensures awaiting == old(awaiting) + {chatId}
      ensures keyboard == Keyboard(registry)
      ensures Flatten(keyboard) == Buttons(registry) && |keyboard| == |registry|
    {
      data := data.(user := username);
      keyboard := Keyboard(registry);
      KeyboardFlatten(registry);
      awaiting := awaiting + {chatId};
    }

    /** `keyboard_handler`: registered outside the conversation, so it runs
        whether or not a conversation waits. It writes the `user_data` of the
        user who pressed the button, not of the one who sent `/poll`: in a
        group, another member's press goes to that member's session, and the
        poller's `create_poll` then fails with `NoSelection` or uses the
        poller's own earlier answer. The fields are written before
        `OPTIONS[answer]` can raise, so an unknown id stays recorded. */
    method KeyboardHandler(registry: Registry, choice: string, message: nat)
      returns (r: Result<(), SessionError>)
      modifies this`data
      ensures data == Apply(old(data), Selected(choice, message))
      ensures r.Ok? <==> choice in Ids(registry)
      ensures r.Err? ==> r.error == UnknownAnswer(choice)
    {
      data := data.(answer := Some(choice), callbackMessage := Some(message));
      if Get(registry, choice).None? {
        return Err(UnknownAnswer(choice));
      }
      r := Ok(());
    }

    /** `create_poll` on a text in chat `chatId`: quizzes the chat on the
        recorded answer, whichever chat the button was pressed in, and scores
        it. It never clears `user_data`; when it raises, the conversation
        stays where it was and nothing is sent or scored. */
    method CreatePoll(registry: Registry, groups: Option<set<int>>, ledger: ScoreLedger,
                      chatId: int, text: string, sample: seq<nat>, slot: int)
      returns (r: Result<QuizPoll, SessionError>)
      requires chatId in awaiting && ledger.Valid()
      requires DrawsValid(Names(registry), sample, slot)
      modifies this`awaiting, ledger
      ensures data == Apply(old(data), Quoted) && ledger.Valid()
      ensures old(data.callbackMessage).None? || old(data.answer).None? ==> r == Err(NoSelection)
      ensures old(data.callbackMessage).Some? && old(data.answer).Some? ==>
        var a := old(data.answer).value;
        match Get(registry, a)
        case None => r == Err(UnknownAnswer(a))
        case Some(name) =>
          if |registry| <= LIMIT then r == Err(QuizFailed(PopulationNotSequence))
          else r == Ok(QuizPoll(PollQuestion(text), LargeQuiz(Names(registry), name, sample, slot)))
      ensures r.Err? ==> awaiting == old(awaiting) && ledger.entries == old(ledger.entries)
      ensures r.Ok? ==> awaiting == old(awaiting) - {chatId}
      ensures r.Ok? ==> ledger.entries == (if Scored(groups, chatId)
                                           then Bumped(old(ledger.entries), old(data.answer).value)
                                           else old(ledger.entries))
    {
      if data.callbackMessage.None? || data.answer.None? {
        return Err(NoSelection);
      }
      var answer := data.answer.value;
      var username := Get(registry, answer);
      if username.None? {
        return Err(UnknownAnswer(answer));
      }
      GetInNames(registry, answer);
      var choices := BuildChoices(Names(registry), username.value, sample, slot);
      if choices.Err? {
        return Err(QuizFailed(choices.error));
      }
      r := Ok(QuizPoll(PollQuestion(text), choices.value));
      if Scored(groups, chatId) {
        ledger.Increment(registry, answer);
      }
      awaiting := awaiting - {chatId};
    }
  }
}
