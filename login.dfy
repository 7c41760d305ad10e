/** The login dialog of the main window: a dormant window that the API
    calls to obtain a session. requestLogin shows it and blocks until the
    user logs in or cancels; the model splits that call at its blocking
    point into BeginRequest and CompleteRequest, with the button and key
    callbacks in between. */
module LoginDialog {
  import opened Options

  /** A session returned by the web service; its contents are not modelled. */
  datatype Session = Session(cookies: string)

  const FailureMessage := "Niepowodzenie logowania!"
  const EnterKeycode := 13

  /** A text entry widget. A disabled entry ignores insertions and
      deletions made through the program, just as it ignores typing. */
  datatype Entry = Entry(text: string, disabled: bool)

  /** entry.delete(0, count): removes the first count characters. */
  function DeleteFirst(e: Entry, count: nat): (r: Entry)
    ensures r.disabled == e.disabled
    ensures e.disabled ==> r.text == e.text
    ensures !e.disabled && |e.text| <= count ==> r.text == ""
    ensures !e.disabled && |e.text| > count ==> r.text == e.text[count..]
  {
    if e.disabled then e
    else if |e.text| <= count then e.(text := "")
    else e.(text := e.text[count..])
  }

  /** entry.delete(0, END): empties an enabled entry. */
  function DeleteAll(e: Entry): (r: Entry)
    ensures r.disabled == e.disabled
    ensures r.text == if e.disabled then e.text else ""
  {
    if e.disabled then e else e.(text := "")
  }

  /** entry.insert(0, s). */
  function InsertFront(e: Entry, s: string): (r: Entry)
    ensures r.disabled == e.disabled
    ensures r.text == if e.disabled then e.text else s + e.text
  {
    if e.disabled then e else e.(text := s + e.text)
  }

  /** Lines 41 to 43 as written: delete, insert, then disable. */
  function ShowNameAsWritten(e: Entry, name: string): (r: Entry)
    ensures r.disabled
    ensures !e.disabled && |e.text| <= 1000 ==> r.text == name
    ensures !e.disabled && |e.text| > 1000 ==> r.text == name + e.text[1000..]
    ensures e.disabled ==> r.text == e.text
  {
    InsertFront(DeleteFirst(e, 1000), name).(disabled := true)
  }

  /** The entry is still disabled from an earlier request for "alice", so a
      request for "bob" leaves "alice" in it, and the login that follows is
      made, and reported, as "alice". */
  lemma StaleNameShown()
    ensures ShowNameAsWritten(Entry("alice", true), "bob") == Entry("alice", true)
  {
  }

  /** Lines 41 to 43 as intended: the entry shows exactly the requested name
      and is locked, whatever it held and whatever its state before. */
  function ShowName(e: Entry, name: string): (r: Entry)
    ensures r == Entry(name, true)
  {
    InsertFront(DeleteAll(e.(disabled := false)), name).(disabled := true)
  }

  datatype Field = UsernameField | PasswordField

  /** Everything the dialog holds, as one value, so that each callback can
      state its whole effect. */
  datatype DialogState = DialogState(
    session: Option<Session>,
    username: string,
    isDone: bool,
    stateGood: bool,
    infoText: string,
    usernameEntry: Entry,
    passwordEntry: Entry,
    visible: bool,
    focus: Field)

  /** The user name field once requestLogin has prepared it and the user has
      typed `typed` into it: a given name goes through lines 41 to 43 as
      written, so the field is locked and the typing is ignored; without a
      name the field is unlocked and takes the typing. */
  function PreparedEntry(e: Entry, name: string, typed: string): (r: Entry)
    ensures name != "" ==> r == ShowNameAsWritten(e, name)
    ensures name == "" ==> r == Entry(typed, false)
  {
    var shown := if name != "" then ShowNameAsWritten(e, name) else e.(disabled := false);
    if shown.disabled then shown else Entry(typed, false)
  }

  /** The name a request logs in with is the one the caller gave when the
      field was unlocked and short enough to be cleared, and the typed name
      when none was given. */
  lemma PreparedEntryShowsName(e: Entry, name: string, typed: string)
    requires name != "" ==> !e.disabled && |e.text| <= 1000
    ensures PreparedEntry(e, name, typed).text == if name != "" then name else typed
  {
  }

  /** After a request for a name `first` completes, either way, the field
      stays locked with the text of that request, so any later request for
      a name `second` logs in with that text rather than with `second`. */
  lemma LockedNameSticks(e: Entry, first: string, second: string, t1: string, t2: string)
    requires first != "" && second != ""
    ensures var done := DeleteAll(PreparedEntry(e, first, t1));
            PreparedEntry(done, second, t2) == PreparedEntry(e, first, t1)
  {
  }

  class Login {
    var session: Option<Session>
    var username: string
    var isDone: bool
    var stateGood: bool
    var infoText: string
    var usernameEntry: Entry
    var passwordEntry: Entry
    var visible: bool
    var focus: Field

    /** The dialog's fields as one value. */
    function State(): DialogState
      reads this
    {
      DialogState(session, username, isDone, stateGood, infoText,
                  usernameEntry, passwordEntry, visible, focus)
    }

    /** A session is only held between a completed login and the moment
        requestLogin hands it over; the password entry is never locked. */
    ghost predicate Valid()
      reads this
    {
      (session.Some? ==> isDone) && !passwordEntry.disabled
    }

    constructor ()
      ensures Valid()
      ensures State() == DialogState(None, "", false, true, "", Entry("", false), Entry("", false),
                                     false, UsernameField)
    {
      session := None;
      username := "";
      isDone := false;
      stateGood := true;
      infoText := "";
      usernameEntry := Entry("", false);
      passwordEntry := Entry("", false);
      visible := false;
      focus := UsernameField;
    }

    /** The first half of requestLogin: the window comes up and the name is
        remembered; a given name goes through lines 41 to 43 as written and
        the password field takes the focus, while without one the user name
        field is unlocked and takes the focus. */
    method BeginRequest(name: string)
      requires Valid()
      modifies this
      ensures Valid()
      ensures name != "" ==>
                State() == old(State()).(visible := true, username := name,
                                         usernameEntry := ShowNameAsWritten(old(usernameEntry), name),
                                         focus := PasswordField)
      ensures name == "" ==>
                State() == old(State()).(visible := true, username := name,
                                         usernameEntry := old(usernameEntry).(disabled := false),
                                         focus := UsernameField)
    {
      visible := true;
      username := name;
      if name != "" {
        usernameEntry := ShowNameAsWritten(usernameEntry, name);
        focus := PasswordField;
      } else {
        usernameEntry := usernameEntry.(disabled := false);
        focus := UsernameField;
      }
    }

    /** The user typing into the user name field, which a locked field
        ignores. */
    method TypeUsername(text: string)
      modifies this
      ensures State() == old(State()).(usernameEntry :=
                if old(usernameEntry).disabled then old(usernameEntry) else Entry(text, false))
    {
      if !usernameEntry.disabled {
        usernameEntry := Entry(text, false);
      }
    }

    /** The user typing into the password field. */
    method TypePassword(text: string)
      requires Valid()
      modifies this
      ensures Valid()
      ensures State() == old(State()).(passwordEntry := Entry(text, false))
    {
      passwordEntry := Entry(text, false);
    }

    /** _setStateBad: the failure message is shown. */
    method SetStateBad()
      modifies this
      ensures State() == old(State()).(infoText := FailureMessage, stateGood := false)
    {
      infoText := FailureMessage;
      stateGood := false;
    }

    /** What _loginClick leaves behind, from the state before it and the
        answer of the web service. */
    static function AfterLoginClick(s: DialogState, attempt: Option<Session>): DialogState {
      if attempt.None? then
        s.(passwordEntry := DeleteAll(s.passwordEntry), infoText := FailureMessage, stateGood := false)
      else
        s.(passwordEntry := DeleteAll(s.passwordEntry), usernameEntry := DeleteAll(s.usernameEntry),
           session := attempt, username := s.usernameEntry.text, isDone := true, visible := false)
    }

    /** _loginClick, with the web service's login given as a function: the
        password field is always cleared; a failed login shows the failure
        message and keeps the dialog waiting; a successful one stores the
        session and the name it was made with, clears the user name field,
        hides the window and releases the waiting request. */
    method LoginClick(login: (string, string) -> Option<Session>)
      requires Valid()
      modifies this
      ensures Valid()
      ensures passwordEntry == Entry("", false)
      ensures var attempt := login(old(usernameEntry).text, old(passwordEntry).text);
              State() == AfterLoginClick(old(State()), attempt)
      ensures var attempt := login(old(usernameEntry).text, old(passwordEntry).text);
              if attempt.None? then
                && infoText == FailureMessage && !stateGood
                && session == old(session) && isDone == old(isDone) && username == old(username)
                && usernameEntry == old(usernameEntry) && visible == old(visible)
              else
                && session == attempt && username == old(usernameEntry).text
                && isDone && !visible && usernameEntry == DeleteAll(old(usernameEntry))
                && stateGood == old(stateGood) && infoText == old(infoText)
    {
      var name := usernameEntry.text;
      var password := passwordEntry.text;
      passwordEntry := DeleteAll(passwordEntry);
      var attempt := login(name, password);
      if attempt.None? {
        SetStateBad();
      } else {
        usernameEntry := DeleteAll(usernameEntry);
        session := attempt;
        username := name;
        isDone := true;
        visible := false;
      }
    }

    /** _setStateGood, bound to key presses in both fields: the failure
        message goes away, and the Enter key then logs in exactly as the
        login button does. */
    method KeyPress(keycode: int, login: (string, string) -> Option<Session>)
      requires Valid()
      modifies this
      ensures Valid()
      ensures var cleared := if old(stateGood) then old(State())
                             else old(State()).(infoText := "", stateGood := true);
              if keycode != EnterKeycode then State() == cleared
              else State() == AfterLoginClick(cleared, login(old(usernameEntry).text, old(passwordEntry).text))
    {
      if !stateGood {
        infoText := "";
        stateGood := true;
      }
      if keycode == EnterKeycode {
        LoginClick(login);
      }
    }

    /** _cancelClick: both fields are cleared (a locked one keeps its text),
        no session is kept, the window is hidden and the waiting request
        released. */
    method CancelClick()
      requires Valid()
      modifies this
      ensures Valid()
      ensures State() == old(State()).(passwordEntry := DeleteAll(old(passwordEntry)),
                                       usernameEntry := DeleteAll(old(usernameEntry)),
                                       session := None, isDone := true, visible := false)
      ensures passwordEntry == Entry("", false)
    {
      passwordEntry := DeleteAll(passwordEntry);
      usernameEntry := DeleteAll(usernameEntry);
      session := None;
      isDone := true;
      visible := false;
    }

    /** The second half of requestLogin, once released: the session is
        handed over together with the user name, and the dialog is ready for
        the next request. */
    method CompleteRequest() returns (ses: Option<Session>, name: string)
      requires Valid() && isDone
      modifies this
      ensures Valid()
      ensures ses == old(session) && name == old(username)
      ensures State() == old(State()).(session := None, isDone := false)
    {
      ses := session;
      session := None;
      isDone := false;
      name := username;
    }

    /** One whole requestLogin in which the user types a name (ignored when
        the field is locked) and a password, then clicks a button: None while
        the request still waits after a failed login, otherwise what it
        returns. The login is made, and the result named, with the text the
        prepared field holds; cancelling returns no session and the name the
        caller gave. */
    method RequestLogin(name: string, typed: string, password: string, cancel: bool,
                        login: (string, string) -> Option<Session>)
      returns (r: Option<(Option<Session>, string)>)
      requires Valid() && !isDone
      modifies this
      ensures Valid()
      ensures var entry := PreparedEntry(old(usernameEntry), name, typed);
              var focused := if name != "" then PasswordField else UsernameField;
              var attempt := login(entry.text, password);
              if cancel then
                && r == Some((None, name))
                && State() == old(State()).(username := name, usernameEntry := DeleteAll(entry),
                                            passwordEntry := Entry("", false), visible := false,
                                            focus := focused)
              else if attempt.None? then
                && r.None?
                && State() == old(State()).(username := name, usernameEntry := entry,
                                            passwordEntry := Entry("", false), visible := true,
                                            infoText := FailureMessage, stateGood := false,
                                            focus := focused)
              else
                && r == Some((attempt, entry.text))
                && State() == old(State()).(username := entry.text, usernameEntry := DeleteAll(entry),
                                            passwordEntry := Entry("", false), visible := false,
                                            focus := focused)
    {
      BeginRequest(name);
      TypeUsername(typed);
      TypePassword(password);
      if cancel {
        CancelClick();
      } else {
        LoginClick(login);
      }
      if isDone {
        var ses, user := CompleteRequest();
        r := Some((ses, user));
      } else {
        r := None;
      }
    }
  }
}
