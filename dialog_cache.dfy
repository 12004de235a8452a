/** Custom dialogs: the view-models and dialogs they are bound to, the application's
    resource table that templates are found in, and the manager's view-model-to-dialog
    cache (MessageDialogManagerLib/MessageDialogManagerMahapps.cs, lines 22-23 and 109-145),
    stated as pure functions of the cache and the resource table. */
module DialogCache {
  import opened Wrappers
  import Commands

  /** A runtime type, as returned by GetType() and held by a template's DataType. */
  type TypeId = nat

  /** A custom dialog visual; its data source is set in place. */
  class CustomDialog {
    var dataContext: object?

    constructor ()
      ensures dataContext == null
    {
      dataContext := null;
    }
  }

  /** An IDialogViewModel: an object of some runtime type with a settable close command.
      Cache entries are keyed by the object's identity. */
  class ViewModel {
    const vmType: TypeId
    var closeCommand: Option<Commands.Command>

    constructor (vmType: TypeId, closeCommand: Option<Commands.Command>)
      ensures this.vmType == vmType && this.closeCommand == closeCommand
    {
      this.vmType := vmType;
      this.closeCommand := closeCommand;
    }
  }

  /** What a template's LoadContent() yields: a custom dialog, or some other visual. */
  datatype Content = DialogContent(dialog: CustomDialog) | OtherContent

  /** One value of the application's resource dictionary: a DataTemplate (whose DataType
      may be null) or any other resource. */
  datatype Resource = DataTemplate(dataType: Option<TypeId>, content: Content) | OtherResource

  datatype Exception = NullReferenceException

  /** The scan stops at a resource when it is a DataTemplate whose DataType is null (calling
      Equals on it throws) or equals the view-model's type. */
  predicate Stops(r: Resource, t: TypeId) {
    r.DataTemplate? && (r.dataType.None? || r.dataType.value == t)
  }

  /** A template that the view-model's type selects. */
  predicate Matches(r: Resource, t: TypeId) {
    r.DataTemplate? && r.dataType == Some(t)
  }

  /** The index, in table order, of the first resource the scan stops at. */
  function FirstStop(rs: seq<Resource>, t: TypeId): (r: Option<nat>)
    ensures r.Some? ==> r.value < |rs| && Stops(rs[r.value], t)
    ensures r.Some? ==> forall j :: 0 <= j < r.value ==> !Stops(rs[j], t)
    ensures r.None? ==> forall j :: 0 <= j < |rs| ==> !Stops(rs[j], t)
  {
    if rs == [] then None
    else if Stops(rs[0], t) then Some(0)
    else match FirstStop(rs[1..], t)
      case None => None
      case Some(i) => Some(i + 1)
  }

  /** What SearchCustomDialog returns: the dialog loaded from the first template for the
      type (None if there is none, or if its content is not a custom dialog), or the
      exception a DataTemplate without a DataType before it raises. */
  function ResolveTemplate(rs: seq<Resource>, t: TypeId): Result<Option<CustomDialog>, Exception> {
    match FirstStop(rs, t)
    case None => Success(None)
    case Some(i) =>
      if rs[i].dataType.None? then Failure(NullReferenceException)
      else if rs[i].content.DialogContent? then Success(Some(rs[i].content.dialog))
      else Success(None)
  }

  /** The cache and the current custom view after one ShowDialogAsync lookup. */
  datatype Resolution = Resolution(cache: map<ViewModel, CustomDialog>, view: Option<CustomDialog>)

  /** ShowDialogAsync's lookup-or-resolve: a hit reuses the cached dialog; a miss scans the
      resources and caches only a dialog that was found. */
  function Lookup(cache: map<ViewModel, CustomDialog>, rs: seq<Resource>, vm: ViewModel)
    : Result<Resolution, Exception>
  {
    if vm in cache then Success(Resolution(cache, Some(cache[vm])))
    else match ResolveTemplate(rs, vm.vmType)
      case Failure(e) => Failure(e)
      case Success(None) => Success(Resolution(cache, None))
      case Success(Some(d)) => Success(Resolution(cache[vm := d], Some(d)))
  }

  /** The dialog a lookup resolves, as a set (empty when none is resolved). */
  function ResolvedDialogs(l: Result<Resolution, Exception>): set<CustomDialog> {
    if l.Success? && l.value.view.Some? then {l.value.view.value} else {}
  }

  /** The cache after a lookup; a lookup that throws leaves it as it was. */
  function CacheAfter(cache: map<ViewModel, CustomDialog>, rs: seq<Resource>, vm: ViewModel)
    : map<ViewModel, CustomDialog>
  {
    match Lookup(cache, rs, vm)
    case Success(res) => res.cache
    case Failure(_) => cache
  }

  /** The cache after a series of ShowDialogAsync calls, each given as the resource table
      at the time of the call and the view-model passed. */
  function CacheAfterAll(cache: map<ViewModel, CustomDialog>, calls: seq<(seq<Resource>, ViewModel)>)
    : map<ViewModel, CustomDialog>
    decreases |calls|
  {
    if calls == [] then cache
    else CacheAfterAll(CacheAfter(cache, calls[0].0, calls[0].1), calls[1..])
  }

  /** `before` is contained in `after`: no entry removed, no entry overwritten. */
  predicate Extends(before: map<ViewModel, CustomDialog>, after: map<ViewModel, CustomDialog>) {
    forall vm :: vm in before ==> vm in after && after[vm] == before[vm]
  }

  /** The first template in table order wins: a matching template that loads a custom
      dialog, with no matching or DataType-less template before it, is what the scan returns. */
  lemma FirstTemplateWins(rs: seq<Resource>, t: TypeId, i: nat)
    requires i < |rs| && Matches(rs[i], t) && rs[i].content.DialogContent?
    requires forall j :: 0 <= j < i ==> !Stops(rs[j], t)
    ensures ResolveTemplate(rs, t) == Success(Some(rs[i].content.dialog))
  {
  }

  /** A table without any template for the type and without DataType-less templates resolves
      to nothing, without throwing. */
  lemma NoTemplateResolvesToNothing(rs: seq<Resource>, t: TypeId)
    requires forall j :: 0 <= j < |rs| ==> !Stops(rs[j], t)
    ensures ResolveTemplate(rs, t) == Success(None)
  {
  }

  /** Resources appended after the first stopping point do not change the scan's answer. */
  lemma {:induction false} ResolveIgnoresLaterResources(rs: seq<Resource>, more: seq<Resource>, t: TypeId)
    requires FirstStop(rs, t).Some?
    ensures FirstStop(rs + more, t) == FirstStop(rs, t)
    ensures ResolveTemplate(rs + more, t) == ResolveTemplate(rs, t)
    decreases |rs|
  {
    assert (rs + more)[0] == rs[0];
    if !Stops(rs[0], t) {
      assert (rs + more)[1..] == rs[1..] + more;
      ResolveIgnoresLaterResources(rs[1..], more, t);
    }
  }

  /** A cache hit returns the cached dialog whatever the resource table holds (it is not
      searched) and leaves the cache as it is. */
  lemma HitSkipsSearch(cache: map<ViewModel, CustomDialog>, rs: seq<Resource>, vm: ViewModel)
    requires vm in cache
    ensures Lookup(cache, rs, vm) == Success(Resolution(cache, Some(cache[vm])))
  {
  }

  /** A miss with no dialog found caches nothing and resolves no view, so the next call
      searches again. */
  lemma MissWithoutDialogCachesNothing(cache: map<ViewModel, CustomDialog>, rs: seq<Resource>, vm: ViewModel)
    requires vm !in cache && ResolveTemplate(rs, vm.vmType) == Success(None)
    ensures Lookup(cache, rs, vm) == Success(Resolution(cache, None))
    ensures vm !in CacheAfter(cache, rs, vm)
  {
  }

  /** A miss that finds a dialog caches exactly that dialog for the view-model. */
  lemma MissWithDialogCachesIt(cache: map<ViewModel, CustomDialog>, rs: seq<Resource>, vm: ViewModel, d: CustomDialog)
    requires vm !in cache && ResolveTemplate(rs, vm.vmType) == Success(Some(d))
    ensures Lookup(cache, rs, vm) == Success(Resolution(cache[vm := d], Some(d)))
  {
  }

  /** A lookup never removes nor overwrites an entry, and adds at most the view-model's own. */
  lemma LookupExtendsCache(cache: map<ViewModel, CustomDialog>, rs: seq<Resource>, vm: ViewModel)
    ensures Extends(cache, CacheAfter(cache, rs, vm))
    ensures CacheAfter(cache, rs, vm).Keys <= cache.Keys + {vm}
  {
  }

  /** Once a view-model's dialog has been resolved, every later call for it resolves the same
      dialog, whatever calls for other view-models came in between and whatever the resource
      table has become. */
  lemma ResolvedDialogIsStable(cache: map<ViewModel, CustomDialog>, rs: seq<Resource>, vm: ViewModel,
                               calls: seq<(seq<Resource>, ViewModel)>, rs': seq<Resource>)
    requires Lookup(cache, rs, vm).Success? && Lookup(cache, rs, vm).value.view.Some?
    ensures var res := Lookup(cache, rs, vm).value;
      var later := CacheAfterAll(res.cache, calls);
      Lookup(later, rs', vm) == Success(Resolution(later, res.view))
  {
    CacheOnlyGrows(Lookup(cache, rs, vm).value.cache, calls);
  }

  /** A lookup for one view-model leaves every other view-model's entry (or its absence)
      as it was, even for an instance of the same type. */
  lemma LookupIsPerInstance(cache: map<ViewModel, CustomDialog>, rs: seq<Resource>, vm: ViewModel, other: ViewModel)
    requires other != vm
    ensures other in CacheAfter(cache, rs, vm) <==> other in cache
    ensures other in cache ==> CacheAfter(cache, rs, vm)[other] == cache[other]
  {
  }

  /** Any series of ShowDialogAsync calls only ever extends the cache, even when the
      resource table changes between the calls. */
  lemma {:induction false} CacheOnlyGrows(cache: map<ViewModel, CustomDialog>, calls: seq<(seq<Resource>, ViewModel)>)
    ensures Extends(cache, CacheAfterAll(cache, calls))
    decreases |calls|
  {
    if calls != [] {
      var next := CacheAfter(cache, calls[0].0, calls[0].1);
      LookupExtendsCache(cache, calls[0].0, calls[0].1);
      CacheOnlyGrows(next, calls[1..]);
    }
  }

  /** A failed search is retried: once a template for the type is registered, the same
      view-model resolves to its dialog. */
  lemma MissingTemplateIsRetried(cache: map<ViewModel, CustomDialog>, rs: seq<Resource>, vm: ViewModel, d: CustomDialog)
    requires vm !in cache && forall j :: 0 <= j < |rs| ==> !Stops(rs[j], vm.vmType)
    ensures Lookup(cache, rs, vm) == Success(Resolution(cache, None))
    ensures var rs' := rs + [DataTemplate(Some(vm.vmType), DialogContent(d))];
      Lookup(CacheAfter(cache, rs, vm), rs', vm) == Success(Resolution(cache[vm := d], Some(d)))
  {
    NoTemplateResolvesToNothing(rs, vm.vmType);
    var rs' := rs + [DataTemplate(Some(vm.vmType), DialogContent(d))];
    FirstTemplateWins(rs', vm.vmType, |rs|);
  }
}
