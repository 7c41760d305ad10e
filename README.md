# fw-local / Filmatyk core, modelled in Dafny

The application keeps a local copy of a user's ratings from filmweb.pl and shows
them in a filterable list. This project models three parts of it:

- **The filter machinery** (`filmatyk/filters.py`). A `FilterMachine` keeps the
  registered filters in three parallel lists: objects, current predicates and
  "active" flags. It also keeps a map from filter ID to position and an
  `ignoreCallback` latch. Its operations are modelled as methods of a Dafny
  class over those lists, with the owner's callback counted in
  `notifications`. The filters' own logic is modelled beside it:
  - the genre predicates and the "belongs" predicates;
  - the list-box choice lists;
  - the year, rating and date range filters, which repair and align their
    bounds;
  - the day-of-month correction of dates.
- **The older filter combinator** (`fw-local/filtering.py`). `construct` turns
  a dict of parameters into a list of validated filter objects. The predicate
  it returns is their short-circuiting conjunction.
- **Persistence and login** (`fw-local/gui.py`). The save file is a
  line-oriented format whose comment lines are dropped on load. Saving follows
  a rename / write / remove backup discipline over a file system that is
  modelled as a map from name to contents. A ghost history of every
  intermediate file-system state lets the model state what a crash would leave
  behind. The progress bar and the login dialog are modelled as state
  machines; the web service's login is a function parameter.

Modules: `Options` (option type), `Sequences` (element sets, Python string
order, sorted lists), `Calendar` (dates), `FilterMachines`, `FilterPredicates`,
`RangeFilters`, `Filtering`, `UserData`, `LoginDialog`.

Parameters instead of I/O:
- Python's `int()` on widget text becomes `Option<int>`, with `None` for a
  `ValueError`.
- "Today" and the current year are method parameters.
- `FilmwebAPI.login` is a function `(string, string) -> Option<Session>`.
- The presenter's and the database's stored strings are plain strings.

A cancelled login returns no session together with `self.username`, which
is the name the caller suggested, or the empty string when none was given
(fw-local/gui.py:38, 53, 101-106). Cancelling clears both fields, but a
suggested name sits in a disabled entry, which Tk does not clear; it stays in
place. `LoginDialog.Login.RequestLogin` and `LoginDialog.Login.CancelClick`
state both.

The login dialog class follows fw-local/gui.py:41-43 as written, including
the stale name described under "## Findings"; `LoginDialog.ShowName` is the
corrected definition of those lines, with its property proved beside it.

## Model

| member | source | states |
|---|---|---|
| FilterMachines.FilterIds.NewId | filmatyk/filters.py:76-81 | returns the counter and advances it by one; the returned ID was never issued before |
| FilterMachines.FilterMachine.constructor | filmatyk/filters.py:13-22 | a new machine has empty lists, an empty ID map, the latch off and no notifications |
| FilterMachines.FilterMachine.RegisterFilter | filmatyk/filters.py:23-28 | appends exactly one entry to each list with the flag False, maps the ID to the new last index, keeps the lists parallel, and does not notify |
| FilterMachines.FilterMachine.UpdateCallback | filmatyk/filters.py:39-48 | always stores the new predicate; a dormant filter asking for a reset leaves all flags and the notification count unchanged; otherwise only that filter's flag becomes `not reset`, and the owner is notified exactly when the latch is off |
| FilterMachines.FilterMachine.ResetFilter | filmatyk/filters.py:110-114 | a filter's reset restores the accept-everything predicate and clears its flag; the owner hears about it only when the filter was active and the latch is off |
| FilterMachines.FilterMachine.ResetAllFilters | filmatyk/filters.py:29-38 | afterwards every flag is False and the latch is off; exactly the active filters (all of them when forced) get the default predicate, the others keep theirs; the owner is notified exactly once |
| FilterMachines.FilterMachine.PopulateChoices | filmatyk/filters.py:49-52 | year and date filters reset themselves while populating (one notification each if active), then the bulk reset notifies once more; all filters end dormant |
| FilterMachines.FilterMachine.Active | filmatyk/filters.py:55 | the list holds exactly the predicates whose flag is set |
| FilterMachines.FilterMachine.GetFiltering | filmatyk/filters.py:53-58 | the returned predicate accepts an item iff every active predicate accepts it, so with no active filter it accepts everything |
| FilterPredicates.FilterAtLeast | filmatyk/filters.py:309-313 | true iff some selected genre is among the item's genres |
| FilterPredicates.FilterAll | filmatyk/filters.py:314-318 | true iff every selected genre is among the item's genres |
| FilterPredicates.FilterExactly | filmatyk/filters.py:319-322 | true iff the counts are equal and every selected genre is the item's; then, for a selection without repeats, the item's genres are exactly the selected ones |
| FilterPredicates.FilterBelongs | filmatyk/filters.py:344-374 | the country (344-348) and director (370-374) filters accept an item iff one of its countries, or directors, is selected |
| FilterPredicates.FilterMakerBelongs | filmatyk/filters.py:421-429 | true iff some developer or producer of the item is selected |
| FilterPredicates.FilterPlatformBelongs | filmatyk/filters.py:396-399 | True iff some platform of the item is selected; otherwise None, never False; so the result is truthy iff some platform is selected |
| FilterPredicates.ListboxFilter.constructor | filmatyk/filters.py:236-240 | a new list-box filter offers no options |
| FilterPredicates.ListboxFilter.PopulateChoices | filmatyk/filters.py:251-264 | the options are strictly sorted in Python string order and are exactly the values some item holds in one of the filter's properties |
| Sequences.LexLessIsStrictTotal | filmatyk/filters.py:261 | the string order that `sorted` uses is irreflexive, transitive and total |
| Sequences.Insert | filmatyk/filters.py:261 | inserting a new element into a strictly sorted list keeps it strictly sorted and adds exactly that element |
| Sequences.SortedList | filmatyk/filters.py:195 | `sorted(list(set))` gives a strictly sorted list with exactly the set's elements, each once |
| Calendar.DaysInMonth | filmatyk/filters.py:645 | 28 to 31 days; 29 iff February of a leap year, 28 iff February otherwise, 30 iff April, June, September or November |
| Calendar.TryCorrectDate | filmatyk/filters.py:643-647 | defined iff year, month and day can form a date; the result is a valid date in the same year and month, with the day kept when it fits and clamped to the month's last day otherwise |
| Calendar.CorrectionKeepsValidDates | filmatyk/filters.py:643-647 | a valid date is returned unchanged |
| Calendar.CorrectionIsIdempotent | filmatyk/filters.py:643-647 | correcting a corrected date changes nothing |
| Calendar.DateOrderIsTotal | filmatyk/filters.py:673-680 | the date comparison used to detect crossed bounds is a strict total order |
| RangeFilters.Align | filmatyk/filters.py:219-226 | the result is ordered; the edited bound is kept; the other bound is kept or moved onto it; ordered input is unchanged |
| RangeFilters.YearRange | filmatyk/filters.py:205-226 | from ≤ to; a usable edited bound is kept; an unparseable bound, a "from" above 2999 or a "to" below 1000 falls back to the first or last known year; the bound that was not edited keeps the year read for it, or is moved onto the edited one when the two cross |
| RangeFilters.EditedYearAccepted | filmatyk/filters.py:205-232 | a usable year the user has just edited always passes the installed `yearFilter` |
| RangeFilters.UncrossedYearWindow | filmatyk/filters.py:205-232 | when the years as read do not cross, `yearFilter` accepts exactly the items whose year lies between them |
| RangeFilters.YearFilter.constructor | filmatyk/filters.py:165-170 | a new year filter knows the default years 1 and 9999 and accepts everything; both spin boxes start empty, so `int()` on them fails and they read None |
| RangeFilters.YearFilter.Reset | filmatyk/filters.py:171-174 | the boxes show the first and last known years and the filter accepts everything |
| RangeFilters.YearFilter.Update | filmatyk/filters.py:205-234 | installs the range `YearRange` settles on, so from ≤ to; writes back only the bound that was moved |
| RangeFilters.YearFilter.PopulateChoices | filmatyk/filters.py:188-200 | the known years are the items' distinct non-missing years in increasing order, or the defaults when there are none; then reset |
| RangeFilters.RatingRange | filmatyk/filters.py:458-474 | from ≤ to; the edited bound is kept; an unreadable "from" counts as 0 and an unreadable "to" as 10, so the reset state gives 0 to 10; the bound that was not edited keeps its value, or is moved onto the edited one when the two cross |
| RangeFilters.EditedRatingAccepted | filmatyk/filters.py:458-480 | the rating the user has just edited always passes the installed `ratingFilter` |
| RangeFilters.RatingFilter.constructor | filmatyk/filters.py:432-435 | a new rating filter accepts everything; both boxes start empty, so `int()` on them fails and they read None |
| RangeFilters.RatingFilter.Reset | filmatyk/filters.py:436-439 | "-" and "10" are shown and the filter accepts everything |
| RangeFilters.RatingFilter.Update | filmatyk/filters.py:458-482 | installs the range `RatingRange` settles on, so from ≤ to; writes back only the bound that was moved |
| RangeFilters.AlignDates | filmatyk/filters.py:672-680 | from ≤ to in date order; the edited date is kept and the other one is kept or moved onto it |
| RangeFilters.EditedDateAccepted | filmatyk/filters.py:670-691 | the corrected date the user has just edited always passes the installed `dateFilter`, and so does every date between the two when they do not cross |
| RangeFilters.Span | filmatyk/filters.py:582 | `range(lo, hi + 1)`: every integer from lo to hi, in order |
| RangeFilters.RatingYears | filmatyk/filters.py:574-582 | a contiguous run of years that contains the current year and every rating year, and starts and ends on one of them |
| RangeFilters.DateFilter.constructor | filmatyk/filters.py:484-494 | a new date filter offers the current year only and accepts everything; the `IntVar`s start at 0, so both dates read 0-0-0 and both day boxes offer no days |
| RangeFilters.DateFilter.SetDates | filmatyk/filters.py:630-642 | the widgets show both dates and each day box offers the days of its month |
| RangeFilters.DateFilter.Reset | filmatyk/filters.py:495-503 | from 1 January of the first offered year to today, accepting everything; the "from" day box offers the 31 days of January and the "to" day box the days of today's month |
| RangeFilters.DateFilter.Update | filmatyk/filters.py:660-684 | fails iff a date cannot be built, and then the dates, the day boxes and the range are unchanged; otherwise installs and shows the aligned corrected dates, both valid and in order, with each day box offering the days of its date's month |
| RangeFilters.DateFilter.PopulateChoices | filmatyk/filters.py:574-585 | the offered years run contiguously over the current year and every rating year, and the first and last offered years are each the current year or some rating year; then reset, so the day boxes offer the days of January and of today's month |
| Filtering.NewFilter | fw-local/filtering.py:39-46 | a filter object exists iff validation neither raised nor left the parameter None |
| Filtering.BoundFilterValidity | fw-local/filtering.py:58-80 | the four bound filters exist iff `int(parameter.get())` succeeds |
| Filtering.GenreFilterValidity | fw-local/filtering.py:82-96 | the genre filter exists iff the mode is 0, 1 or 2 and the genre list is non-empty |
| Filtering.NameFilterValidity | fw-local/filtering.py:117-145 | the country (117-121) and director (141-145) filters exist iff the parameter is neither the empty string nor None |
| Filtering.SeenFilterValidity | fw-local/filtering.py:123-139 | the seen-date filters exist iff year, month and day form a real date |
| Filtering.ExactlyMeansSameGenres | fw-local/filtering.py:111-113 | for a selection without repeats, "exactly" accepts only movies whose genres are exactly the selected ones |
| Filtering.Kept | fw-local/filtering.py:25-32 | at most one filter per entry, and a filter is kept iff some entry's key is known and its parameter validates |
| Filtering.Construct | fw-local/filtering.py:25-33 | the loop keeps exactly `Kept` of the entries, in order, skipping the others silently |
| Filtering.FilterFunction | fw-local/filtering.py:19-24 | true iff every kept filter accepts the movie (true when none was kept); on refusal it stopped at the first refusing filter |
| Filtering.ConstructedConjunction | fw-local/filtering.py:19-32 | the constructed predicate accepts a movie iff every entry yields no filter or a filter that accepts it |
| Filtering.YearWindow | fw-local/filtering.py:58-68 | a year_from and a year_to entry together select the closed year interval |
| UserData.SaveLoadRoundTrip | fw-local/gui.py:262-283 | for single-line fields that do not start with '#', loading the saved text gives the version, the user name and the two stores |
| UserData.SavedDataLines | fw-local/gui.py:267 | of the seven saved lines, exactly the version, user name and two stores survive the comment filter |
| UserData.DataLinesOfTerminated | fw-local/gui.py:267 | a newline at the end of each line changes neither which lines are comments nor what stripping leaves |
| UserData.ReadLinesOfJoined | fw-local/gui.py:267 | `readlines` on newline-terminated lines gives back those lines, each with its newline |
| UserData.StartupFields | fw-local/gui.py:216-219 | a missing or empty file gives three empty fields; otherwise the lines at indices 1, 2 and 3 of the file, in that order, or an IndexError when there are fewer than four lines |
| UserData.StartupAfterSave | fw-local/gui.py:216-219 | after a save, start-up is not a first run and reads back exactly the saved user name and stores |
| UserData.Main.constructor | fw-local/gui.py:245-248 | the window starts with the progress bar hidden at 0 |
| UserData.Main.LoadUserData | fw-local/gui.py:262-268 | None iff the file does not exist; otherwise its non-comment lines, in order, stripped of newlines |
| UserData.Main.Rename | fw-local/gui.py:275 | the file moves to the new name, replacing a file there; the progress bar is untouched |
| UserData.Main.Create | fw-local/gui.py:276 | opening for writing leaves the file present and empty; the progress bar is untouched |
| UserData.Main.Append | fw-local/gui.py:277-283 | each write adds its text at the end of the file; the progress bar is untouched |
| UserData.Main.Remove | fw-local/gui.py:286-287 | the file is gone, nothing else changes |
| UserData.Main.SaveUserData | fw-local/gui.py:269-287 | the progress bar is untouched; without a user name nothing changes; otherwise the file holds exactly the seven lines and no backup remains; an existing file is moved to the backup before any write; at every intermediate step the previous contents survive under one of the two names, or the new contents are complete |
| UserData.Main.SetProgress | fw-local/gui.py:302-311 | a negative value hides the bar and sets it to 0; any other value shows it with that value |
| LoginDialog.DeleteFirst | fw-local/gui.py:41 | `delete(0, 1000)` removes the first 1000 characters of an enabled entry (all of a shorter one, leaving the rest of a longer one) and does nothing to a disabled one |
| LoginDialog.DeleteAll | fw-local/gui.py:89 | `delete(0, END)` empties an enabled entry and does nothing to a disabled one |
| LoginDialog.InsertFront | fw-local/gui.py:42 | `insert(0, s)` prepends to an enabled entry and does nothing to a disabled one |
| LoginDialog.ShowNameAsWritten | fw-local/gui.py:41-43 | the entry ends disabled; an enabled entry of at most 1000 characters shows exactly the name; a longer enabled entry shows the name followed by its text from position 1000 on; a disabled entry keeps its old text, whatever the name |
| LoginDialog.ShowName | fw-local/gui.py:41-43 | the entry shows exactly the requested name and is locked |
| LoginDialog.PreparedEntry | fw-local/gui.py:39-47 | the name field `_loginClick` reads: a given name goes through lines 41-43 as written and the locked field ignores typing; without a name the unlocked field holds what was typed |
| LoginDialog.PreparedEntryShowsName | fw-local/gui.py:39-47 | the login uses the given name when the field was unlocked and held at most 1000 characters, and the typed name when none was given |
| LoginDialog.LockedNameSticks | fw-local/gui.py:41-106 | once a request for a name has completed, by login or cancel, the field stays locked with that request's text, so a later request for another name logs in with the old text |
| LoginDialog.Login.constructor | fw-local/gui.py:21-31 | no session, empty user name, not done, good state, no message, empty enabled fields, window hidden |
| LoginDialog.Login.BeginRequest | fw-local/gui.py:34-47 | the window is shown and the name is remembered; a given name goes through lines 41-43 as written (`ShowNameAsWritten`) and the focus moves to the password; without one the name field is unlocked and focused; nothing else changes |
| LoginDialog.Login.SetStateBad | fw-local/gui.py:75-77 | the failure message is shown and the state is bad; nothing else changes |
| LoginDialog.Login.KeyPress | fw-local/gui.py:78-84 | a key press clears a failure message and sets the good state; any key but Enter changes nothing else; the Enter key (keycode 13) then has exactly the effect of `LoginClick` on that state |
| LoginDialog.Login.LoginClick | fw-local/gui.py:85-100 | the password is always cleared; on a failed login the bad state is set and nothing else changes; on success the session and the entered name are stored, the name field is cleared (unless locked), the request is released and the window is hidden |
| LoginDialog.Login.CancelClick | fw-local/gui.py:101-106 | both fields are cleared (an unlocked name field only), there is no session, the request is released and the window is hidden; nothing else changes |
| LoginDialog.Login.CompleteRequest | fw-local/gui.py:48-53 | returns the stored session and name, then clears the session and the done flag; nothing else changes |
| LoginDialog.Login.RequestLogin | fw-local/gui.py:34-106 | the login is made with the text of the prepared name field (`PreparedEntry`); a cancel returns no session and the suggested name; a success returns the session and that text; a failed login leaves the request waiting with the failure shown; the whole dialog state afterwards, focus included, is stated |

## Left out

- Widget construction and layout, the tkinter event loop and `root.update()`
  are not modelled. The blocking `wait_variable` in `requestLogin` is modelled
  as the split into `BeginRequest` and `CompleteRequest`. The `after(50, …)`
  delays are not modelled.
- `FilmwebAPI`, `Database`, `Presenter` and `drawHistogram` are not part of
  this model. Login is a function parameter and the stored strings are plain
  strings.
- `TitleFilter` is left out. It depends on Unicode `lower()`, and its
  default `filterTitle` reads an attribute that never exists.
- The `DateFilter` shortcut buttons (`_thisYear` … `_lastWeek`) are left out.
  They need `date.today()` and day arithmetic on dates.
- `ListboxFilter.getSelection` and the list-box filters' `_update` are left
  out. They read the Tk selection. The predicates they install are modelled
  with the selection as a parameter.
- The filters' link to the machine (`notifyMachine`, `setCallback`) is not
  held by the filter classes. The machine side of it is
  `FilterMachine.UpdateCallback` and `FilterMachine.ResetFilter`.
- The individual filters' populateChoices calls inside
  `FilterMachine.PopulateChoices` are modelled only by their effect on the
  machine: the year and date filters reset themselves. Their choice lists are
  modelled in the filter classes.
- FilterMachines.FilterMachine.RegisterFilter: requires that the ID is not
  registered yet. The source relies on the `NEXT_ID` counter for this, and
  `FilterIds.NewId` proves the counter never repeats.
- RangeFilters.YearFilter.Update: the spin boxes' text is the result of
  `int()` (`Option<int>`), not the string, so the text written back is the
  number rather than its `str()`.
- RangeFilters.DateFilter.Update: combobox values are modelled as integers;
  an `IntVar.get()` on non-numeric text is not modelled.
- RangeFilters.AcceptsYear: an item without a year is modelled as year 0,
  which the installed window judges like any other year (it rejects it
  whenever the lower bound is positive). The source's `yearFilter` compares
  `None >= yearFrom` there and raises `TypeError`
  (filmatyk/filters.py:228-229); that exception is not modelled.
- RangeFilters.AcceptsDate: it judges a date, not an item, so an item whose
  `dateOf` is missing lies outside the modelled predicate. The source's
  `dateFilter` compares `None >= dateFrom` there and raises `TypeError`
  (filmatyk/filters.py:686-688), which aborts the whole `getFiltering`
  pass; that exception is not modelled.
- Filtering.Matches: the movie fields are taken as already converted by
  `int()`; a record whose year or rating cannot be converted (which would
  raise inside the predicate) is not modelled. `timeSeen` is always a date
  in the model; a record without one, on which the seen-date filters would
  raise `TypeError` (fw-local/filtering.py:130, 139), is not modelled.
- Python dict order is modelled by giving `construct` a sequence of
  key/parameter pairs.
- UserData.Main.SaveUserData: the states in the history are the contents as
  each call leaves them. Write buffering, fsync, text-mode newline
  translation and encoding are not modelled. A write error that aborts the
  save is not modelled either; the crash-safety clause covers every state
  such an abort could leave.
- UserData.SaveLoadRoundTrip: fields must hold no '\n'. In text mode Python
  also splits lines at '\r', which the model does not translate.
- Rename follows POSIX `os.rename`, which replaces an existing target. On
  Windows an existing `.bak` makes the rename raise; that is not modelled.
- `_updateData`, `_reloadData` and `_quit` only call into the database and
  the presenter and then save. They are not modelled; the save is.
- `Detail`, `centerWindow` and image loading are not modelled.
- LoginDialog.Login.TypeUsername and LoginDialog.Login.TypePassword model what
  the user types, the way Tk entries take it. They have no source lines.
- The login dialog's focus is recorded. Window placement, the title and the
  "topmost" attribute are not.

## Findings

| source | as written | input that shows it | evidently intended | confidence | as-written member | corrected member |
|---|---|---|---|---|---|---|
| fw-local/gui.py:39-43 | `requestLogin` deletes and inserts into the user name entry before enabling it. A Tk entry that is still disabled from an earlier request ignores both calls. `_loginClick` then reads the stale name, logs in with it and returns it. | `requestLogin("alice")` succeeds, leaving the entry disabled with "alice"; then `requestLogin("bob")` shows "alice", and the login and the returned name are "alice" | the entry shows exactly the requested name, locked | medium; not executed | LoginDialog.ShowNameAsWritten, LoginDialog.StaleNameShown, LoginDialog.LockedNameSticks | LoginDialog.ShowName |
