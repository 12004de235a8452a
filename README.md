# MessageDialogManagerLib — a verified model of the MahApps dialog manager

MessageDialogManagerLib lets WPF view-models ask for dialogs without knowing the UI toolkit.
Its MahApps implementation, `MessageDialogManagerMahapps`, keeps a few pieces of state.
This project models that state and proves the rules the manager follows:

- **Progress session.** The `_controller` field is either empty or holds the controller of an open progress dialog.
  - `ShowProgress` opens a session and sets its range to 0..100.
  - `UpdateProgress` and `UpdateMessageProgress` act only while a session is open.
  - `CloseProgress` closes the open controller and empties the field. Calling it again does nothing.
- **Custom-dialog cache.** `_customDialogs` maps a view-model object, by identity, to its dialog.
  - `ShowDialogAsync` takes the dialog from the cache, or finds it by a first-match scan of the application's resources.
  - It caches only a dialog it actually found.
  - It gives the view-model a close command if it has none, makes it the dialog's data context, and shows the dialog.
- **Pickers.** `ShowFolderBrowser` and `ShowFileBrowser` report whether the user confirmed. They update `FolderPath`/`FilePath` only on confirm.
  - `ShowFileBrowser` hands its filter to WPF's `FileDialog.Filter` setter. That setter throws `ArgumentException` for a non-empty filter that does not split on `|` into description/pattern pairs. Then no dialog is shown and `FilePath` is unchanged.
- **Result mapping.** `ShowOkCancelDialogAsync` turns the toolkit's answer into OK or Cancel.
- **`Command`.** The close command the manager creates is a guarded command.
  - Its constructor rejects a null action.
  - With no guard delegate it can always execute.
  - `Execute` runs the action only when it can execute.

Files and modules:

- `wrappers.dfy` (`Wrappers`): `Option` (a nullable reference), `Result` and `Outcome` (a value or void result, or an exception).
- `commands.dfy` (`Commands`): the `Command` class.
- `progress_session.dfy` (`ProgressSession`): the session as a pure transition function `Step`, and `Run` over a sequence of calls, with lemmas.
- `dialog_cache.dfy` (`DialogCache`): these pieces, with lemmas:
  - the `ViewModel` and `CustomDialog` classes;
  - the resource table;
  - the scan specification `FirstStop`/`ResolveTemplate`;
  - the cache lookup specification `Lookup`/`CacheAfter`.
- `dialog_manager.dfy` (`DialogManager`): the `Manager` class, with the source's fields as fields:
  - `controller`, `customView`, `customDialogs`, `folderPath` and `filePath`;
  - a `const app` whose `resources` are the application's resource values;
  - a ghost `log` of what the user is shown.

  The progress methods state their new state through `Step`, and `ShowDialogAsync` through `Lookup`. The picker and message-dialog methods state theirs directly. `SearchCustomDialog` is the source's loop, proved equal to `ResolveTemplate`.

Inputs from outside the program are method parameters:

- the user's answers to each dialog;
- the controller handle that the toolkit's `ShowProgressAsync` returns;
- the set of directories `Directory.Exists` accepts;
- the state a `canExecute` delegate reads.

A runtime type is a `TypeId`, so `DataType.Equals(GetType())` becomes equality of ids.

Behaviour of the code that the model follows:

- No picker clears a path on cancel. `FolderPath`/`FilePath` start out null (`None`) and keep their last confirmed value.
- There is no multi-select and no save-file dialog.
- `ShowFolderBrowser` ignores its initial directory.
- `ShowProgress` replaces an open controller without closing it. `ProgressSession.ReplacedControllerIsNeverClosed` shows that no later sequence of calls closes the replaced controller, unless a controller with its handle is shown again.
- A `DataTemplate` whose `DataType` is null stops the scan with a `NullReferenceException`, because `Equals` is called on null. This holds when the template comes before any match. `ShowDialogAsync` then changes nothing and shows nothing; the model returns the exception as `Fail`.
- A template that matches but does not load a `CustomDialog` still ends the scan, and the result is null.

## Model

| member | source | states |
|---|---|---|
| ProgressSession.UpdateWithoutSessionIsNoOp | MessageDialogManagerLib/MessageDialogManagerMahapps.cs:56-66 | with no controller, UpdateProgress and UpdateMessageProgress leave the field empty and show nothing |
| ProgressSession.UpdateChangesOnlyItsField | MessageDialogManagerLib/MessageDialogManagerMahapps.cs:56-66 | with a controller, UpdateProgress sets only its value and UpdateMessageProgress only its message; nothing is shown or closed |
| ProgressSession.CloseEndsSession | MessageDialogManagerLib/MessageDialogManagerMahapps.cs:68-75 | after CloseProgress the field is empty; an open controller is closed exactly once, and with none nothing is closed |
| ProgressSession.CloseIsIdempotent | MessageDialogManagerLib/MessageDialogManagerMahapps.cs:68-75 | two CloseProgress calls have the same effect as one |
| ProgressSession.ShowReplacesWithoutClosing | MessageDialogManagerLib/MessageDialogManagerMahapps.cs:49-54 | after ShowProgress the field holds the new controller, with range 0..100; the only event is its opening, so any previous controller is not closed |
| ProgressSession.StepKeepsWellFormed | MessageDialogManagerLib/MessageDialogManagerMahapps.cs:49-75 | every progress call keeps the controller's range at 0..100 |
| ProgressSession.RunKeepsWellFormed | MessageDialogManagerLib/MessageDialogManagerMahapps.cs:49-75 | any sequence of progress calls keeps the controller's range at 0..100 |
| ProgressSession.RunWithoutShowStaysClosed | MessageDialogManagerLib/MessageDialogManagerMahapps.cs:56-75 | updates and closes before any ShowProgress never open a session and show nothing |
| ProgressSession.RunClosesOnlyOpened | MessageDialogManagerLib/MessageDialogManagerMahapps.cs:49-75 | over any sequence of calls, controllers closed plus the one still open never exceed controllers opened plus the one open at the start |
| ProgressSession.ReopenLeaksFirstController | MessageDialogManagerLib/MessageDialogManagerMahapps.cs:49-54 | show, show, close opens two controllers and closes only the second |
| ProgressSession.AbsentControllerIsNeverClosed | MessageDialogManagerLib/MessageDialogManagerMahapps.cs:49-75 | a controller that is not in the field is never closed by any later sequence of calls that does not show its handle again |
| ProgressSession.ReplacedControllerIsNeverClosed | MessageDialogManagerLib/MessageDialogManagerMahapps.cs:49-54 | a controller replaced by ShowProgress is never closed by any later sequence of calls that does not show its handle again |
| ProgressSession.ShowUpdateCloseScenario | MessageDialogManagerLib/MessageDialogManagerMahapps.cs:49-75 | show, set 50, set message, close goes closed, open, open, open, closed and closes the one controller |
| DialogManager.Manager.ShowProgress | MessageDialogManagerLib/MessageDialogManagerMahapps.cs:49-54 | the field and the log change as one Show step prescribes; the invariant (range 0..100) is kept |
| DialogManager.Manager.UpdateProgress | MessageDialogManagerLib/MessageDialogManagerMahapps.cs:56-60 | the field changes as one SetProgress step prescribes, and nothing is shown |
| DialogManager.Manager.UpdateMessageProgress | MessageDialogManagerLib/MessageDialogManagerMahapps.cs:62-66 | the field changes as one SetMessage step prescribes, and nothing is shown |
| DialogManager.Manager.CloseProgress | MessageDialogManagerLib/MessageDialogManagerMahapps.cs:68-75 | the field and the log change as one Close step prescribes |
| DialogCache.FirstStop | MessageDialogManagerLib/MessageDialogManagerMahapps.cs:135-143 | the index of the first resource, in table order, that is a DataTemplate whose DataType is null or equals the type; none is before it; None when no resource is one |
| DialogCache.FirstTemplateWins | MessageDialogManagerLib/MessageDialogManagerMahapps.cs:134-144 | the first matching template that loads a custom dialog wins over later ones |
| DialogCache.NoTemplateResolvesToNothing | MessageDialogManagerLib/MessageDialogManagerMahapps.cs:134-144 | with no template for the type (and no DataType-less template), the scan returns null without throwing |
| DialogCache.ResolveIgnoresLaterResources | MessageDialogManagerLib/MessageDialogManagerMahapps.cs:135-143 | resources after the first stopping point never change the scan's answer |
| DialogManager.Manager.SearchCustomDialog | MessageDialogManagerLib/MessageDialogManagerMahapps.cs:132-145 | the loop returns exactly what the first-match specification ResolveTemplate gives, including the exception for a DataType-less template |
| DialogCache.HitSkipsSearch | MessageDialogManagerLib/MessageDialogManagerMahapps.cs:111-114 | a cache hit yields the cached dialog whatever the resources are, and leaves the cache unchanged |
| DialogCache.MissWithoutDialogCachesNothing | MessageDialogManagerLib/MessageDialogManagerMahapps.cs:116-122 | a miss that finds no dialog leaves the cache unchanged and the current view null |
| DialogCache.MissWithDialogCachesIt | MessageDialogManagerLib/MessageDialogManagerMahapps.cs:116-121 | a miss that finds a dialog adds exactly that entry and makes it the current view |
| DialogCache.LookupExtendsCache | MessageDialogManagerLib/MessageDialogManagerMahapps.cs:111-122 | a call never removes or overwrites an entry and adds at most the view-model's own |
| DialogCache.ResolvedDialogIsStable | MessageDialogManagerLib/MessageDialogManagerMahapps.cs:111-121 | once resolved, a view-model gets the same dialog on every later call, after any sequence of intermediate calls for any view-models and whatever the resources become |
| DialogCache.LookupIsPerInstance | MessageDialogManagerLib/MessageDialogManagerMahapps.cs:111-121 | a call for one view-model leaves every other view-model's entry as it was, even one of the same type |
| DialogCache.CacheOnlyGrows | MessageDialogManagerLib/MessageDialogManagerMahapps.cs:111-122 | any sequence of ShowDialogAsync calls, each with its own view-model and the resource table as it is at that call, only extends the cache |
| DialogCache.MissingTemplateIsRetried | MessageDialogManagerLib/MessageDialogManagerMahapps.cs:116-122 | a failed search is not cached; once a template is registered, the same view-model resolves to its dialog |
| DialogManager.Manager.ShowDialogAsync | MessageDialogManagerLib/MessageDialogManagerMahapps.cs:109-130 | the cache and the current view change as Lookup prescribes; with a dialog, the close command is set only if unset, the data context becomes the view-model, and the dialog is shown once; with none, nothing is shown; an exception changes nothing |
| DialogManager.ToDialogResult | MessageDialogManagerLib/MessageDialogManagerMahapps.cs:40-42 | OK exactly when the toolkit answered Affirmative, Cancel otherwise |
| DialogManager.Manager.ShowOkCancelDialogAsync | MessageDialogManagerLib/MessageDialogManagerMahapps.cs:35-43 | one two-button message dialog is shown, with title and text in the toolkit's order; the result is the mapped answer |
| DialogManager.Manager.ShowInfoDialogAsync | MessageDialogManagerLib/MessageDialogManagerMahapps.cs:44-47 | one single-button message dialog is shown |
| DialogManager.InitialDirectory | MessageDialogManagerLib/MessageDialogManagerMahapps.cs:95-98 | the initial directory is the requested path if that directory exists, otherwise the empty string; so it is always an existing directory or empty |
| DialogManager.Manager.ShowFolderBrowser | MessageDialogManagerLib/MessageDialogManagerMahapps.cs:77-88 | returns true iff the dialog answered OK; FolderPath becomes the selection only then, otherwise it keeps its value; the initial directory is not used |
| DialogManager.Manager.ShowFileBrowser | MessageDialogManagerLib/MessageDialogManagerMahapps.cs:90-107 | a filter the Filter setter rejects fails with InvalidFilter, shows nothing and leaves FilePath as it was; otherwise returns true iff the dialog returned true, FilePath becomes the file name only then and otherwise keeps its value, and the dialog is shown with the checked initial directory, the filter and the title |
| DialogManager.Split | MessageDialogManagerLib/MessageDialogManagerMahapps.cs:99 | splitting a filter on a separator yields at least one piece, and no piece contains the separator |
| DialogManager.SplitLength | MessageDialogManagerLib/MessageDialogManagerMahapps.cs:99 | a filter splits into one more piece than it has separators |
| DialogManager.ValidFilterByBars | MessageDialogManagerLib/MessageDialogManagerMahapps.cs:99 | the Filter setter accepts a filter exactly when it is empty or holds an odd number of bars |
| DialogManager.NoBarIsInvalid | MessageDialogManagerLib/MessageDialogManagerMahapps.cs:99 | a non-empty filter without a bar, such as a bare description, is rejected |
| DialogManager.PairIsValid | MessageDialogManagerLib/MessageDialogManagerMahapps.cs:99 | one description and one pattern joined by a single bar is accepted |
| DialogManager.Manager.constructor | MessageDialogManagerLib/MessageDialogManagerMahapps.cs:29-33 | a new manager has no controller, no current view, an empty cache and null paths |
| Commands.RequireExecute | MessageDialogManagerLib/Command.cs:14 | a null execute action fails with ArgumentNullException("execute"); any other is kept |
| Commands.Command.Create | MessageDialogManagerLib/Command.cs:12-20 | construction fails iff execute is null; otherwise the new command holds both delegates as given |
| Commands.Command.CanExecute | MessageDialogManagerLib/Command.cs:24-27 | true when there is no canExecute delegate, otherwise exactly the delegate's answer; see also CanExecuteIgnoresParameter |
| Commands.CanExecuteIgnoresParameter | MessageDialogManagerLib/Command.cs:24-27 | the command parameter never changes what CanExecute answers |
| Commands.Command.Execute | MessageDialogManagerLib/Command.cs:34-40 | the action is invoked exactly once when CanExecute holds and not at all otherwise |

## Left out

- Rendering by MahApps and Win32 is not modelled. This covers `ShowMessageAsync`, `ShowProgressAsync`, `ShowMetroDialogAsync`, `HideMetroDialogAsync`, `FolderBrowserDialog` and `OpenFileDialog`. The user's answer is a parameter, and what is shown is a ghost log entry.
- The main window is not modelled. The source looks up `_app.MainWindow` on each call and casts it to a MetroWindow; the model does not say which window a dialog appears on.
- A failed main-window lookup is not modelled. If `_app.MainWindow` is null or not a MetroWindow, every call that reaches the window throws. In `ShowDialogAsync` that throw comes after the cache insert, the close command and the data context have already been set. The model therefore does not capture those partial updates; it assumes the main window is always a MetroWindow.
- View-model equality is not modelled. `_customDialogs` uses the dictionary's default comparer, so a view-model class that overrides `Equals`/`GetHashCode` is keyed by value. The model assumes every view-model keeps reference equality and keys the cache by object identity.
- async/await is not modelled: each method is one sequential step. The `Task` a method returns is not modelled either. An exception the C# code stores in that task is the model's `Fail` outcome.
- `DialogCache.Lookup` and `DialogManager.Manager.ShowDialogAsync`: `DataTemplate.LoadContent()` creates a new visual on every call, but in the model each template carries one fixed dialog object. So in the model two distinct view-models of the same type share one dialog. After `ShowDialogAsync(v1)` and then `ShowDialogAsync(v2)`, both cache entries are that one dialog, and its data context is `v2`. In the source each view-model gets its own dialog, as happens when a new view-model is created for every request.
- The close command's action captures the manager's `_customView` field. Running it hides whichever dialog is current at that time. The model records only that `HideCurrentCustomDialog` was invoked; it does not connect the invocation to the manager's log.
- A null view-model passed to `ShowDialogAsync` is not modelled: `Dictionary.ContainsKey(null)` would throw. `ViewModel` references are non-null.
- The progress value is a `double` in the source and an `int` here. The toolkit's own range check, inside `SetProgress`, is not modelled.
- `CommandManager.RequerySuggested` is not modelled (Command.cs:28-32). It is WPF plumbing.
- A `canExecute` delegate is a function of an abstract `World`, the application state it reads. A delegate with side effects is not modelled.
- IMessageDialogManager.cs is not part of this model: it holds signatures and comments only. The sample application under Samples/ is not part of this model either.
