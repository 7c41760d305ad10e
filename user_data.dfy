/** The save file of the application and the progress bar of its main window.
    The file system is a map from file name to contents; every change the
    save makes to it is also appended to a ghost history, so that what a
    crash at any point would leave behind can be stated. */
module UserData {
  import opened Options

  const Version := "1.0-alpha.5"
  const FileName := "userdata.fws"
  const BackupName := "userdata.fws.bak"

  /** The lines saveUserData writes, in order: three marker lines, each
      followed by its field, the two stores following the last marker. */
  function SavedLines(username: string, config: string, data: string): seq<string> {
    ["#VERSION", Version, "#USERNAME", username, "#MOVIES", config, data]
  }

  /** Each line written with a newline after it. */
  function JoinLines(lines: seq<string>): string {
    if lines == [] then "" else lines[0] + "\n" + JoinLines(lines[1..])
  }

  /** What saveUserData leaves in the file. */
  function SavedContents(username: string, config: string, data: string): string {
    JoinLines(SavedLines(username, config, data))
  }

  /** The length of the first line of s, its newline included. */
  function FirstLineLength(s: string): (n: nat)
    requires s != []
    ensures 1 <= n <= |s|
    ensures s[n - 1] == '\n' || n == |s|
    ensures forall k :: 0 <= k < n - 1 ==> s[k] != '\n'
  {
    if s[0] == '\n' || |s| == 1 then 1 else 1 + FirstLineLength(s[1..])
  }

  /** file.readlines(): the pieces of the text up to and including each
      newline, and a last piece without one if the text does not end in a
      newline. */
  function ReadLines(s: string): (r: seq<string>)
    decreases |s|
  {
    if s == [] then []
    else
      var n := FirstLineLength(s);
      [s[..n]] + ReadLines(s[n..])
  }

  /** line.strip('\n'): newlines removed from both ends. */
  function StripNewlines(line: string): string
    decreases |line|
  {
    if line == [] then []
    else if line[0] == '\n' then StripNewlines(line[1..])
    else if line[|line| - 1] == '\n' then StripNewlines(line[..|line| - 1])
    else line
  }

  /** line.startswith('#'). */
  predicate IsComment(line: string) {
    |line| > 0 && line[0] == '#'
  }

  /** The list comprehension of loadUserData: the lines that are not
      comments, in order, stripped of newlines. */
  function DataLines(lines: seq<string>): seq<string> {
    if lines == [] then []
    else (if IsComment(lines[0]) then [] else [StripNewlines(lines[0])]) + DataLines(lines[1..])
  }

  /** What loadUserData returns for an existing file. */
  function ParseUserFile(contents: string): seq<string> {
    DataLines(ReadLines(contents))
  }

  /** A field the line format carries through unchanged: one line, not
      mistaken for a comment. */
  predicate PlainLine(s: string) {
    !IsComment(s) && forall k :: 0 <= k < |s| ==> s[k] != '\n'
  }

  lemma {:induction false} ReadLinesOfJoined(lines: seq<string>)
    requires forall i :: 0 <= i < |lines| ==> forall k :: 0 <= k < |lines[i]| ==> lines[i][k] != '\n'
    ensures ReadLines(JoinLines(lines)) == seq(|lines|, i requires 0 <= i < |lines| => lines[i] + "\n")
  {
    if lines != [] {
      var s := JoinLines(lines);
      var head := lines[0] + "\n";
      assert s == head + JoinLines(lines[1..]);
      assert FirstLineLength(s) == |head| by {
        assert s[|head| - 1] == '\n';
        assert forall k :: 0 <= k < |head| - 1 ==> s[k] == lines[0][k];
      }
      assert s[..|head|] == head;
      assert s[|head|..] == JoinLines(lines[1..]);
      ReadLinesOfJoined(lines[1..]);
    }
  }

  lemma StripOneNewline(s: string)
    requires forall k :: 0 <= k < |s| ==> s[k] != '\n'
    ensures StripNewlines(s + "\n") == s
  {
    var t := s + "\n";
    if s == [] {
      assert StripNewlines(t) == StripNewlines(t[1..]);
      assert t[1..] == [];
    } else {
      assert t[0] == s[0];
      assert t[..|t| - 1] == s;
      if |s| > 0 { assert s[|s| - 1] == t[|s| - 1]; }
    }
  }

  /** Appending a newline to lines that hold none changes neither which
      lines are comments nor what stripping leaves. */
  lemma {:induction false} DataLinesOfTerminated(lines: seq<string>)
    requires forall i :: 0 <= i < |lines| ==> forall k :: 0 <= k < |lines[i]| ==> lines[i][k] != '\n'
    ensures DataLines(seq(|lines|, i requires 0 <= i < |lines| => lines[i] + "\n")) == DataLines(lines)
  {
    if lines != [] {
      var terminated := seq(|lines|, i requires 0 <= i < |lines| => lines[i] + "\n");
      var rest := seq(|lines| - 1, i requires 0 <= i < |lines| - 1 => lines[1..][i] + "\n");
      assert terminated[1..] == rest;
      StripOneNewline(lines[0]);
      NoNewlineUnstripped(lines[0]);
      assert IsComment(terminated[0]) <==> IsComment(lines[0]) by {
        assert lines[0] == [] || terminated[0][0] == lines[0][0];
      }
      DataLinesOfTerminated(lines[1..]);
    }
  }

  lemma NoNewlineUnstripped(s: string)
    requires forall k :: 0 <= k < |s| ==> s[k] != '\n'
    ensures StripNewlines(s) == s
  {
  }

  /** The data lines of a save are the version, the user name and the two
      stores. */
  lemma SavedDataLines(username: string, config: string, data: string)
    requires PlainLine(username) && PlainLine(config) && PlainLine(data)
    ensures DataLines(SavedLines(username, config, data)) == [Version, username, config, data]
  {
    var lines := SavedLines(username, config, data);
    NoNewlineUnstripped(Version);
    NoNewlineUnstripped(username);
    NoNewlineUnstripped(config);
    NoNewlineUnstripped(data);
    assert Version[0] == '1';
    assert DataLines(lines[7..]) == [];
    assert DataLines(lines[6..]) == [data] + DataLines(lines[7..]);
    assert DataLines(lines[5..]) == [config] + DataLines(lines[6..]);
    assert DataLines(lines[4..]) == DataLines(lines[5..]);
    assert DataLines(lines[3..]) == [username] + DataLines(lines[4..]);
    assert DataLines(lines[2..]) == DataLines(lines[3..]);
    assert DataLines(lines[1..]) == [Version] + DataLines(lines[2..]);
    assert DataLines(lines) == DataLines(lines[1..]);
  }

  /** Saving and loading round-trip: when the user name and both stores are
      plain lines, loading the saved file gives back the version, the user
      name and the two stores, at the positions Main reads them from. */
  lemma SaveLoadRoundTrip(username: string, config: string, data: string)
    requires PlainLine(username) && PlainLine(config) && PlainLine(data)
    ensures ParseUserFile(SavedContents(username, config, data)) == [Version, username, config, data]
  {
    var lines := SavedLines(username, config, data);
    assert forall i :: 0 <= i < |lines| ==> forall k :: 0 <= k < |lines[i]| ==> lines[i][k] != '\n';
    ReadLinesOfJoined(lines);
    DataLinesOfTerminated(lines);
    SavedDataLines(username, config, data);
  }

  /** The first run is detected by `not userdata`: no file, or a file
      without data lines. */
  predicate IsFirstRun(userdata: Option<seq<string>>) {
    userdata.None? || userdata.value == []
  }

  /** The user name and the two stores Main.__init__ takes from the loaded
      lines (indices 1 to 3), or empty strings on a first run; None where the
      indexing raises IndexError. */
  function StartupFields(userdata: Option<seq<string>>): (r: Option<(string, string, string)>)
    ensures IsFirstRun(userdata) ==> r == Some(("", "", ""))
    ensures !IsFirstRun(userdata) ==> (r.Some? <==> |userdata.value| >= 4)
    ensures !IsFirstRun(userdata) && r.Some? ==>
              r.value == (userdata.value[1], userdata.value[2], userdata.value[3])
  {
    if IsFirstRun(userdata) then Some(("", "", ""))
    else if |userdata.value| < 4 then None
    else Some((userdata.value[1], userdata.value[2], userdata.value[3]))
  }

  /** What Main reads back from a file it saved is what it saved. */
  lemma StartupAfterSave(username: string, config: string, data: string)
    requires PlainLine(username) && PlainLine(config) && PlainLine(data)
    ensures var userdata := Some(ParseUserFile(SavedContents(username, config, data)));
            !IsFirstRun(userdata) && StartupFields(userdata) == Some((username, config, data))
  {
    SaveLoadRoundTrip(username, config, data);
  }

  /** After a crash at this point the previous save is still on disk, under
      the primary or the backup name, or the new save is complete. */
  ghost predicate Recoverable(state: map<string, string>, previous: Option<string>, saved: string) {
    || previous.None?
    || (FileName in state && state[FileName] == previous.value)
    || (BackupName in state && state[BackupName] == previous.value)
    || (FileName in state && state[FileName] == saved)
  }

  /** The main window's state that the model covers: the file system it
      saves to and the progress bar. */
  class Main {
    var files: map<string, string>
    ghost var history: seq<map<string, string>>
    var progressShown: bool
    var progressValue: int

    /** The window starts with the progress bar hidden (_setProgress(-1)). */
    constructor (files: map<string, string>)
      ensures this.files == files && history == []
      ensures !progressShown && progressValue == 0
    {
      this.files := files;
      history := [];
      progressShown := false;
      progressValue := 0;
    }

    /** loadUserData: None when the file does not exist, otherwise its data
        lines. */
    function LoadUserData(): (r: Option<seq<string>>)
      reads this
      ensures r.None? <==> FileName !in files
      ensures r.Some? ==> r.value == ParseUserFile(files[FileName])
    {
      if FileName !in files then None else Some(ParseUserFile(files[FileName]))
    }

    /** os.rename, which replaces an existing target. */
    method Rename(source: string, target: string)
      requires source in files
      modifies this
      ensures files == (old(files) - {source})[target := old(files)[source]]
      ensures history == old(history) + [files]
      ensures progressShown == old(progressShown) && progressValue == old(progressValue)
    {
      files := (files - {source})[target := files[source]];
      history := history + [files];
    }

    /** open(name, 'w'): creates the file or empties it. */
    method Create(name: string)
      modifies this
      ensures files == old(files)[name := ""]
      ensures history == old(history) + [files]
      ensures progressShown == old(progressShown) && progressValue == old(progressValue)
    {
      files := files[name := ""];
      history := history + [files];
    }

    /** file.write on an open file. */
    method Append(name: string, text: string)
      requires name in files
      modifies this
      ensures files == old(files)[name := old(files)[name] + text]
      ensures history == old(history) + [files]
      ensures progressShown == old(progressShown) && progressValue == old(progressValue)
    {
      files := files[name := files[name] + text];
      history := history + [files];
    }

    /** os.remove. */
    method Remove(name: string)
      requires name in files
      modifies this
      ensures files == old(files) - {name}
      ensures history == old(history) + [files]
      ensures progressShown == old(progressShown) && progressValue == old(progressValue)
    {
      files := files - {name};
      history := history + [files];
    }

    /** saveUserData, with the API's user name and the two stores' strings
        given. Without a user name nothing happens. Otherwise the old file is
        moved to the backup name, the new file written line by line, and only
        then the backup removed: at every step in between, the previous save
        survives or the new one is complete. */
    method SaveUserData(username: Option<string>, config: string, data: string)
      modifies this
      ensures progressShown == old(progressShown) && progressValue == old(progressValue)
      ensures username.None? ==> files == old(files) && history == old(history)
      ensures username.Some? ==>
                files == (old(files) - {BackupName})[FileName := SavedContents(username.value, config, data)]
      ensures username.Some? ==>
                forall k :: |old(history)| <= k < |history| ==>
                  Recoverable(history[k],
                              if FileName in old(files) then Some(old(files)[FileName]) else None,
                              SavedContents(username.value, config, data))
      ensures FileName in old(files) && username.Some? ==>
                |history| > |old(history)| &&
                history[|old(history)|] == (old(files) - {FileName})[BackupName := old(files)[FileName]]
    {
      if username.None? {
        return;
      }
      var name := username.value;
      ghost var previous := if FileName in files then Some(files[FileName]) else None;
      ghost var saved := SavedContents(name, config, data);
      ghost var start := |history|;
      if FileName in files {
        Rename(FileName, BackupName);
      }
      ghost var moved := files;
      assert previous.Some? ==> BackupName in moved && moved[BackupName] == previous.value;
      Create(FileName);
      var lines := SavedLines(name, config, data);
      var i := 0;
      while i < |lines|
        invariant 0 <= i <= |lines|
        invariant files == moved[FileName := JoinLines(lines[..i])]
        invariant start < |history|
        invariant progressShown == old(progressShown) && progressValue == old(progressValue)
        invariant previous.Some? ==> history[start] == moved
        invariant forall k :: start <= k < |history| ==> Recoverable(history[k], previous, saved)
      {
        JoinLinesSnoc(lines[..i], lines[i]);
        assert lines[..i + 1] == lines[..i] + [lines[i]];
        Append(FileName, lines[i] + "\n");
        assert files == moved[FileName := JoinLines(lines[..i + 1])];
        i := i + 1;
      }
      assert lines[..|lines|] == lines;
      if BackupName in files {
        Remove(BackupName);
      }
    }

    /** _setProgress: a negative value hides the bar and zeroes it, any other
        value shows it with that value. */
    method SetProgress(value: int)
      modifies this
      ensures value < 0 ==> !progressShown && progressValue == 0
      ensures value >= 0 ==> progressShown && progressValue == value
      ensures files == old(files) && history == old(history)
    {
      if value < 0 {
        progressShown := false;
        progressValue := 0;
      } else {
        progressShown := true;
        progressValue := value;
      }
    }
  }

  lemma {:induction false} JoinLinesSnoc(lines: seq<string>, line: string)
    ensures JoinLines(lines + [line]) == JoinLines(lines) + (line + "\n")
  {
    if lines != [] {
      assert (lines + [line])[1..] == lines[1..] + [line];
      JoinLinesSnoc(lines[1..], line);
    } else {
      assert JoinLines([line]) == line + "\n" + JoinLines([]);
    }
  }
}
