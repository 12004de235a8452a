/** The guarded command that the dialog manager hands to a custom dialog's
    view-model as its close command (MessageDialogManagerLib/Command.cs). */
module Commands {
  import opened Wrappers

  /** The application state a `canExecute` delegate looks at when it is invoked. */
  type World

  /** The `execute` delegates a command can carry. The only one the library itself
      creates hides the manager's current custom dialog; any other is the client's. */
  datatype Action = HideCurrentCustomDialog | ClientAction(id: nat)

  datatype ArgumentNullException = ArgumentNullException(paramName: string)

  /** The constructor's `execute ?? throw new ArgumentNullException("execute")`. */
  function RequireExecute(execute: Option<Action>): (r: Result<Action, ArgumentNullException>)
    ensures r.Success? <==> execute.Some?
    ensures r.Success? ==> Some(r.value) == execute
    ensures r.Failure? ==> r.error == ArgumentNullException("execute")
  {
    match execute
    case Some(a) => Success(a)
    case None => Failure(ArgumentNullException("execute"))
  }

  class Command {
    const execute: Action
    /** None when the constructor was given a null `canExecute`. */
    const canExecute: Option<World -> bool>
    /** The actions this command has invoked so far, oldest first. */
    ghost var invocations: seq<Action>

    /** The constructor once its null check has passed. */
    constructor (execute: Action, canExecute: Option<World -> bool>)
      ensures this.execute == execute && this.canExecute == canExecute
      ensures invocations == []
    {
      this.execute := execute;
      this.canExecute := canExecute;
      invocations := [];
    }

    /** `new Command(execute, canExecute)`, including the exception thrown for a null `execute`. */
    static method Create(execute: Option<Action>, canExecute: Option<World -> bool>)
      returns (r: Result<Command, ArgumentNullException>)
      ensures r.Failure? <==> execute.None?
      ensures r.Failure? ==> r.error == ArgumentNullException("execute")
      ensures r.Success? ==> fresh(r.value) && r.value.invocations == []
      ensures r.Success? ==> Some(r.value.execute) == execute && r.value.canExecute == canExecute
    {
      match RequireExecute(execute)
      case Failure(e) =>
        r := Failure(e);
      case Success(a) =>
        var c := new Command(a, canExecute);
        r := Success(c);
    }

    /** `CanExecute(parameter)`: true without a delegate, otherwise what the delegate answers. */
    function CanExecute(parameter: object?, world: World): (r: bool)
      ensures canExecute.None? ==> r
      ensures canExecute.Some? ==> r == canExecute.value(world)
    {
      canExecute.None? || canExecute.value(world)
    }

    /** `Execute(parameter)`: invokes the action once when `CanExecute` holds, and not at all
        otherwise. (The source's extra `_execute != null` test always holds, since the
        constructor rejects a null action.) */
    method Execute(parameter: object?, world: World)
      modifies this`invocations
      ensures CanExecute(parameter, world) ==> invocations == old(invocations) + [execute]
      ensures !CanExecute(parameter, world) ==> invocations == old(invocations)
    {
      if CanExecute(parameter, world) {
        invocations := invocations + [execute];
      }
    }
  }

  /** The command parameter never influences whether the command can execute. */
  lemma CanExecuteIgnoresParameter(c: Command, p: object?, q: object?, world: World)
    ensures c.CanExecute(p, world) == c.CanExecute(q, world)
  {
  }
}
