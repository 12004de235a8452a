/** The MahApps dialog manager (MessageDialogManagerLib/MessageDialogManagerMahapps.cs):
    a class whose methods update its progress controller, its custom-dialog cache, its
    current custom view and its two picked paths in place. What the toolkit shows the user
    is recorded in a ghost log; what the user answers is passed in as a parameter. */
module DialogManager {
  import opened Wrappers
  import opened ProgressSession
  import opened DialogCache
  import Commands

  /** The toolkit's message dialog buttons. */
  datatype MessageDialogStyle = Affirmative | AffirmativeAndNegative

  /** The button the user pressed in a toolkit message dialog. */
  datatype ToolkitResult = Canceled | Negative | Affirmative | FirstAuxiliary | SecondAuxiliary

  /** The library's own, two-valued result of an OK/Cancel dialog. */
  datatype MessageDialogResult = OK | Cancel

  /** What the folder browser's ShowDialog() returns (`Nothing` is WinForms' DialogResult.None). */
  datatype FormsDialogResult = Nothing | OK | Cancel | Abort | Retry | Ignore | Yes | No

  /** What the user is shown. */
  datatype UiEvent =
    | MessageShown(title: string, text: string, style: MessageDialogStyle)
    | ProgressChanged(event: ProgressSession.Event)
    | CustomDialogShown(dialog: CustomDialog)
    | FolderBrowserShown(title: string)
    | FileBrowserShown(title: string, initialDirectory: string, filter: string)

  function ProgressEvents(es: seq<ProgressSession.Event>): seq<UiEvent>
    decreases |es|
  {
    if es == [] then [] else [ProgressChanged(es[0])] + ProgressEvents(es[1..])
  }

  /** ShowOkCancelDialogAsync's mapping of the toolkit's answer: Affirmative is OK,
      every other answer is Cancel. */
  function ToDialogResult(answer: ToolkitResult): (r: MessageDialogResult)
    ensures r == MessageDialogResult.OK <==> answer == ToolkitResult.Affirmative
  {
    if answer == ToolkitResult.Affirmative then MessageDialogResult.OK else MessageDialogResult.Cancel
  }

  /** ShowFileBrowser's initial directory: the requested path when that directory exists,
      the empty string otherwise. `existing` is the set of directories Directory.Exists
      accepts at the time of the call. */
  function InitialDirectory(initialPath: string, existing: set<string>): (r: string)
    ensures r == "" || r in existing
    ensures initialPath in existing ==> r == initialPath
    ensures initialPath !in existing ==> r == ""
  {
    if initialPath in existing then initialPath else ""
  }

  /** The exception WPF's FileDialog.Filter setter throws for a malformed filter. */
  datatype ArgumentException = InvalidFilter(filter: string)

  /** String.Split on a single separator character: the pieces between separators, in
      order, empty pieces included. */
  function Split(s: string, sep: char): (parts: seq<string>)
    ensures |parts| >= 1
    ensures forall i :: 0 <= i < |parts| ==> sep !in parts[i]
    decreases |s|
  {
    if s == [] then [""]
    else
      var rest := Split(s[1..], sep);
      if s[0] == sep then [""] + rest else [[s[0]] + rest[0]] + rest[1..]
  }

  /** The number of occurrences of `c` in `s`. */
  function Occurrences(s: string, c: char): nat
    decreases |s|
  {
    if s == [] then 0 else (if s[0] == c then 1 else 0) + Occurrences(s[1..], c)
  }

  /** Splitting yields one more piece than there are separators. */
  lemma {:induction false} SplitLength(s: string, sep: char)
    ensures |Split(s, sep)| == Occurrences(s, sep) + 1
    decreases |s|
  {
    if s != [] {
      SplitLength(s[1..], sep);
    }
  }

  /** What the Filter setter accepts: the empty filter, or one that splits on `|` into
      description/pattern pairs. */
  predicate ValidFilter(filter: string) {
    filter == "" || |Split(filter, '|')| % 2 == 0
  }

  /** A filter is accepted exactly when it is empty or holds an odd number of bars. */
  lemma ValidFilterByBars(filter: string)
    ensures ValidFilter(filter) <==> filter == "" || Occurrences(filter, '|') % 2 == 1
  {
    SplitLength(filter, '|');
  }

  lemma {:induction false} OccurrencesAppend(a: string, b: string, c: char)
    ensures Occurrences(a + b, c) == Occurrences(a, c) + Occurrences(b, c)
    decreases |a|
  {
    if a == [] {
      assert a + b == b;
    } else {
      assert (a + b)[0] == a[0] && (a + b)[1..] == a[1..] + b;
      OccurrencesAppend(a[1..], b, c);
    }
  }

  lemma {:induction false} NoOccurrences(s: string, c: char)
    requires c !in s
    ensures Occurrences(s, c) == 0
    decreases |s|
  {
    if s != [] {
      assert s[0] != c && c !in s[1..];
      NoOccurrences(s[1..], c);
    }
  }

  /** A non-empty filter without any '|', such as a bare description, is rejected. */
  lemma NoBarIsInvalid(filter: string)
    requires filter != "" && '|' !in filter
    ensures !ValidFilter(filter)
  {
    NoOccurrences(filter, '|');
    ValidFilterByBars(filter);
  }

  /** One description and its pattern, joined by a single '|', is accepted. */
  lemma PairIsValid(description: string, pattern: string)
    requires '|' !in description && '|' !in pattern
    ensures ValidFilter(description + "|" + pattern)
  {
    NoOccurrences(description, '|');
    NoOccurrences(pattern, '|');
    assert Occurrences("|", '|') == 1 by {
      assert "|"[0] == '|' && "|"[1..] == [];
    }
    OccurrencesAppend(description, "|", '|');
    OccurrencesAppend(description + "|", pattern, '|');
    ValidFilterByBars(description + "|" + pattern);
  }

  /** The WPF application: its resource dictionary's values, in enumeration order. Code
      outside the manager may change them between calls. */
  class Application {
    var resources: seq<Resource>

    constructor (resources: seq<Resource>)
      ensures this.resources == resources
    {
      this.resources := resources;
    }
  }

  class Manager {
    const app: Application
    var controller: Option<Progress>
    var customView: Option<CustomDialog>
    var customDialogs: map<ViewModel, CustomDialog>
    /** Null until a folder has been picked. */
    var folderPath: Option<string>
    /** Null until a file has been picked. */
    var filePath: Option<string>
    ghost var log: seq<UiEvent>

    /** The open controller, if any, ranges over 0..100, and the current custom view is a
        cached one. */
    ghost predicate Valid()
      reads this
    {
      && WellFormed(controller)
      && (customView.Some? ==> customView.value in customDialogs.Values)
    }

    constructor (app: Application)
      ensures this.app == app && Valid()
      ensures controller.None? && customView.None? && customDialogs == map[]
      ensures folderPath.None? && filePath.None? && log == []
    {
      this.app := app;
      controller := None;
      customView := None;
      customDialogs := map[];
      folderPath := None;
      filePath := None;
      log := [];
    }

    /** Shows an OK/Cancel message dialog (note the toolkit takes the title first) and maps
        the user's answer. */
    method ShowOkCancelDialogAsync(text: string, title: string, answer: ToolkitResult)
      returns (result: MessageDialogResult)
      modifies this`log
      ensures result == ToDialogResult(answer)
      ensures log == old(log) + [MessageShown(title, text, AffirmativeAndNegative)]
    {
      log := log + [MessageShown(title, text, AffirmativeAndNegative)];
      result := ToDialogResult(answer);
    }

    method ShowInfoDialogAsync(title: string, message: string)
      modifies this`log
      ensures log == old(log) + [MessageShown(title, message, MessageDialogStyle.Affirmative)]
    {
      log := log + [MessageShown(title, message, MessageDialogStyle.Affirmative)];
    }

    /** Opens a progress dialog; `handle` is the controller the toolkit returns. The field is
        overwritten: a controller that was open is not closed. */
    method ShowProgress(title: string, message: string, handle: ControllerId)
      requires Valid()
      modifies this`controller, this`log
      ensures Valid()
      ensures var t := Step(old(controller), Show(title, message, handle));
        controller == t.controller && log == old(log) + ProgressEvents(t.events)
    {
      log := log + [ProgressChanged(Opened(handle, title, message))];
      // The toolkit's new controller, whose range the manager then sets to 0..100.
      controller := Some(Progress(handle, title, message, 0, 100, None));
    }

    method UpdateProgress(progress: int)
      requires Valid()
      modifies this`controller
      ensures Valid()
      ensures var t := Step(old(controller), SetProgress(progress));
        controller == t.controller && t.events == []
    {
      if controller.Some? {
        controller := Some(controller.value.(value := Some(progress)));
      }
    }

    method UpdateMessageProgress(message: string)
      requires Valid()
      modifies this`controller
      ensures Valid()
      ensures var t := Step(old(controller), SetMessage(message));
        controller == t.controller && t.events == []
    {
      if controller.Some? {
        controller := Some(controller.value.(message := message));
      }
    }

    method CloseProgress()
      requires Valid()
      modifies this`controller, this`log
      ensures Valid()
      ensures var t := Step(old(controller), Close);
        controller == t.controller && log == old(log) + ProgressEvents(t.events)
    {
      if controller.Some? {
        log := log + [ProgressChanged(Closed(controller.value.handle))];
        controller := None;
      }
    }

    /** Shows the folder browser (the initial directory is not passed on to it) and keeps
        the picked folder only when the user confirms. */
    method ShowFolderBrowser(title: string, initialDirectory: string, answer: FormsDialogResult, selectedFolder: string)
      returns (res: bool)
      modifies this`folderPath, this`log
      ensures res <==> answer == FormsDialogResult.OK
      ensures folderPath == if res then Some(selectedFolder) else old(folderPath)
      ensures log == old(log) + [FolderBrowserShown(title)]
    {
      res := false;
      log := log + [FolderBrowserShown(title)];
      if answer == FormsDialogResult.OK {
        folderPath := Some(selectedFolder);
        res := true;
      }
    }

    /** Shows the open-file dialog, starting in `initialPath` only if that directory exists,
        and keeps the picked file only when the dialog returns true (not false, not null).
        A malformed filter makes the Filter setter throw before anything is shown. */
    method ShowFileBrowser(title: string, initialPath: string, filter: string,
                           existing: set<string>, answer: Option<bool>, fileName: string)
      returns (res: Result<bool, ArgumentException>)
      modifies this`filePath, this`log
      ensures !ValidFilter(filter) ==>
        res == Failure(InvalidFilter(filter)) && filePath == old(filePath) && log == old(log)
      ensures ValidFilter(filter) ==>
        && res.Success? && (res.value <==> answer == Some(true))
        && filePath == (if res.value then Some(fileName) else old(filePath))
        && log == old(log) + [FileBrowserShown(title, InitialDirectory(initialPath, existing), filter)]
    {
      var initialDirectory := InitialDirectory(initialPath, existing);
      if !ValidFilter(filter) {
        return Failure(InvalidFilter(filter));
      }
      log := log + [FileBrowserShown(title, initialDirectory, filter)];
      var confirmed := false;
      if answer == Some(true) {
        filePath := Some(fileName);
        confirmed := true;
      }
      res := Success(confirmed);
    }

    /** Shows the custom dialog bound to `viewModel`: taken from the cache, or found in the
        resources and cached if found; gives the view-model a close command if it has none,
        makes it the dialog's data context and shows the dialog. Without a dialog nothing
        happens; an exception from the search leaves everything as it was. */
    method ShowDialogAsync(viewModel: ViewModel) returns (outcome: Outcome<Exception>)
      requires Valid()
      modifies this`customView, this`customDialogs, this`log, viewModel`closeCommand
      modifies ResolvedDialogs(Lookup(customDialogs, app.resources, viewModel))
      ensures Valid()
      ensures var l := Lookup(old(customDialogs), app.resources, viewModel);
        l.Failure? ==>
          && outcome == Fail(l.error)
          && customDialogs == old(customDialogs) && customView == old(customView)
          && log == old(log) && viewModel.closeCommand == old(viewModel.closeCommand)
      ensures var l := Lookup(old(customDialogs), app.resources, viewModel);
        l.Success? ==>
          && outcome == Pass
          && customDialogs == l.value.cache && customView == l.value.view
      ensures var l := Lookup(old(customDialogs), app.resources, viewModel);
        l.Success? && l.value.view.None? ==>
          log == old(log) && viewModel.closeCommand == old(viewModel.closeCommand)
      ensures var l := Lookup(old(customDialogs), app.resources, viewModel);
        l.Success? && l.value.view.Some? ==>
          && l.value.view.value.dataContext == viewModel
          && log == old(log) + [CustomDialogShown(l.value.view.value)]
          && (old(viewModel.closeCommand).Some? ==> viewModel.closeCommand == old(viewModel.closeCommand))
          && (old(viewModel.closeCommand).None? ==>
                && viewModel.closeCommand.Some? && fresh(viewModel.closeCommand.value)
                && viewModel.closeCommand.value.execute == Commands.HideCurrentCustomDialog
                && viewModel.closeCommand.value.canExecute.None?
                && viewModel.closeCommand.value.invocations == [])
    {
      if viewModel in customDialogs {
        customView := Some(customDialogs[viewModel]);
        assert customDialogs[viewModel] in customDialogs.Values;
      } else {
        var found := SearchCustomDialog(viewModel);
        if found.Failure? {
          return Fail(found.error);
        }
        customView := found.value;
        if customView.Some? {
          customDialogs := customDialogs[viewModel := customView.value];
          assert customDialogs[viewModel] in customDialogs.Values;
        }
      }
      if customView.Some? {
        var view := customView.value;
        if viewModel.closeCommand.None? {
          var close := new Commands.Command(Commands.HideCurrentCustomDialog, None);
          viewModel.closeCommand := Some(close);
        }
        view.dataContext := viewModel;
        log := log + [CustomDialogShown(view)];
      }
      outcome := Pass;
    }

    /** Scans the resource values in order and stops at the first DataTemplate whose
        DataType equals the view-model's type, returning the dialog it loads (None when
        there is no such template, or when what it loads is not a custom dialog). A
        DataTemplate without a DataType reached first makes the scan throw. */
    method SearchCustomDialog(viewModel: ViewModel) returns (r: Result<Option<CustomDialog>, Exception>)
      ensures r == ResolveTemplate(app.resources, viewModel.vmType)
    {
      var values := app.resources;
      var customView: Option<CustomDialog> := None;
      for i := 0 to |values|
        invariant customView.None?
        invariant forall j :: 0 <= j < i ==> !Stops(values[j], viewModel.vmType)
      {
        var resource := values[i];
        if resource.DataTemplate? {
          if resource.dataType.None? {
            return Failure(NullReferenceException);
          }
          if resource.dataType.value == viewModel.vmType {
            customView := if resource.content.DialogContent? then Some(resource.content.dialog) else None;
            break;
          }
        }
      }
      return Success(customView);
    }
  }
}
