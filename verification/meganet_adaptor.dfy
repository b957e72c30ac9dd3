/** `MeganetAdaptor`: one adaptor's fields, the process-wide interstitial slot
    (`sInterstitialView`, `sIsShowingNow`), and every transition of the adaptor
    as a pure function returning the new adaptor, the new slot, the listener
    events it emitted and the exception it let escape. Android effects are
    inputs: whether `startActivity` resolves an activity (`Launch`), whether the
    weak reference of a callback still resolves (`alive`), and the identities
    of newly allocated views and tasks. */
module Meganet {
  import opened Platform
  import FetchTask

  /** An `ImageView` created by `getNewAd`, with the interstitial flag its
      `ImageClickListener` captured. */
  datatype View = View(id: nat, clickInterstitial: bool)

  /** The `ImageFetchListener` given to a task: a weak reference to the adaptor
      plus the interstitial flag captured when the task was created. */
  datatype FetchListener = FetchListener(interstitial: bool)

  /** A started `BitmapFetchTask`: the URL it was executed with, its scale and its listener. */
  datatype TaskHandle = TaskHandle(id: nat, url: Option<string>, scale: real, listener: FetchListener)

  /** The fields of one `MeganetAdaptor`. `image` is the bitmap set on `mImageView`. */
  datatype Adaptor = Adaptor(
    context: Option<Context>,
    name: Option<string>,
    destroyed: bool,
    interstitial: bool,
    precacheInterstitial: bool,
    imageUrl: Option<string>,
    view: Option<View>,
    image: Option<FetchTask.Bitmap>,
    task: Option<TaskHandle>)

  /** The static fields shared by every adaptor of the process. */
  datatype Slot = Slot(view: Option<View>, showingNow: bool)

  /** Calls on `IBurstlyAdaptorListener`. */
  datatype Event =
    | DidLoad(name: Option<string>, isInterstitial: bool)
    | FailedToLoad(name: Option<string>, isInterstitial: bool, reason: Option<string>)
    | AdWasClicked(name: Option<string>, isInterstitial: bool)

  /** `BurstlyAdType` as reported by `getAdType`. */
  datatype AdType = BannerAd | InterstitialAd

  /** What `Context.startActivity` does: start the activity, or throw
      `ActivityNotFoundException` with the given message. */
  datatype Launch = Launched | NotFound(message: Option<string>)

  /** The effect of one call: the adaptor and slot afterwards, the listener
      events in order, whether the interstitial activity was started, and the
      exception that escaped (fields assigned before the throw stay assigned). */
  datatype Step = Step(adaptor: Adaptor, slot: Slot, events: seq<Event>, launched: bool, thrown: Option<JavaException>)

  /** The effect of `getNewAd`/`precacheAd`, which also return a view or null. */
  datatype Request = Request(adaptor: Adaptor, returned: Option<View>, thrown: Option<JavaException>)

  /** The effect of a call that only touches the adaptor's own fields. */
  datatype Update = Update(adaptor: Adaptor, thrown: Option<JavaException>)

  const InterstitialKey := "isInterstitial"
  const ImageUrlKey := "imageUrl"
  const AffirmativeToken := "YES"
  const NullParamsMessage := "Parameters from server cannot be null."
  const NullImageUrlMessage := "Parameter 'imageUrl' can not be null."
  const AlreadyShowingCause := "Interstitial could not be shown because one is showing now."
  const NoPrecachedAdReason := "No precached ad."
  const FetchFailedReason := ""

  /** The constructor `MeganetAdaptor(context, viewId, adaptorName)`: only the
      context and the name are kept (the view id is only logged); every other
      field has its Java default, so the new adaptor is a banner that holds no
      URL, view, image or task. */
  function NewAdaptor(context: Option<Context>, name: Option<string>): (r: Adaptor)
    ensures r.context == context && NetworkName(r) == name
    ensures !r.destroyed && !r.precacheInterstitial && GetAdType(r) == BannerAd
    ensures r.imageUrl.None? && r.view.None? && r.image.None? && r.task.None?
    ensures Consistent(r)
  {
    Adaptor(context, name, false, false, false, None, None, None, None)
  }

  /** The value `isInterstitial` is parsed to: a string equal to "YES" ignoring case. */
  predicate Affirmative(v: Value) {
    v.Str? && EqualsIgnoreCase(v.s, AffirmativeToken)
  }

  /** Parameters `checkParameters` accepts: both keys hold strings or nothing, and the URL is present. */
  predicate AcceptedParams(params: Params) {
    && (Get(params, InterstitialKey).Null? || Get(params, InterstitialKey).Str?)
    && Get(params, ImageUrlKey).Str?
  }

  /** The slot left unchanged and nothing emitted. */
  function Quiet(a: Adaptor, slot: Slot): Step {
    Step(a, slot, [], false, None)
  }

  /** `checkParameters(params)`. The interstitial flag is assigned first, so it
      keeps its new value when the URL check throws; the URL field is assigned
      even when it is null, just before the throw. */
  function CheckParameters(a: Adaptor, params: Params): (r: Update)
    ensures AsString(Get(params, InterstitialKey)).Threw? ==> r == Update(a, Some(ClassCast))
    ensures AsString(Get(params, InterstitialKey)).Returned? ==>
              (r.adaptor.interstitial <==> Affirmative(Get(params, InterstitialKey)))
    ensures r.thrown.None? <==> AcceptedParams(params)
    ensures r.thrown.None? ==> r.adaptor.imageUrl == Some(Get(params, ImageUrlKey).s)
    ensures AsString(Get(params, InterstitialKey)).Returned? && Get(params, ImageUrlKey).Null? ==>
              r.thrown == Some(IllegalArgument(NullImageUrlMessage)) && r.adaptor.imageUrl.None?
    ensures AsString(Get(params, ImageUrlKey)).Threw? ==> r.adaptor.imageUrl == a.imageUrl
    ensures AsString(Get(params, InterstitialKey)).Returned? && AsString(Get(params, ImageUrlKey)).Threw? ==>
              r.thrown == Some(ClassCast)
    ensures r.adaptor.(interstitial := a.interstitial, imageUrl := a.imageUrl) == a
  {
    match AsString(Get(params, InterstitialKey))
    case Threw(e) => Update(a, Some(e))
    case Returned(flag) =>
      var a1 := a.(interstitial := flag.Some? && EqualsIgnoreCase(flag.value, AffirmativeToken));
      match AsString(Get(params, ImageUrlKey))
      case Threw(e) => Update(a1, Some(e))
      case Returned(url) =>
        var a2 := a1.(imageUrl := url);
        if url.None? then Update(a2, Some(IllegalArgument(NullImageUrlMessage)))
        else Update(a2, None)
  }

  /** `startTransaction(params)`: null parameters are rejected before anything is
      read; otherwise the parameters are checked. */
  function StartTransaction(a: Adaptor, params: Option<Params>): (r: Update)
    ensures params.None? ==> r == Update(a, Some(IllegalArgument(NullParamsMessage)))
    ensures params.Some? ==> r == CheckParameters(a, params.value)
    ensures r.thrown.None? <==> params.Some? && AcceptedParams(params.value)
    ensures params.Some? && Get(params.value, ImageUrlKey).Null? ==> r.thrown.Some?
    ensures r.thrown.None? ==>
      && r.adaptor.imageUrl == Some(Get(params.value, ImageUrlKey).s)
      && (r.adaptor.interstitial <==> Affirmative(Get(params.value, InterstitialKey)))
    ensures r.adaptor.(interstitial := a.interstitial, imageUrl := a.imageUrl) == a
  {
    if params.None? then Update(a, Some(IllegalArgument(NullParamsMessage)))
    else CheckParameters(a, params.value)
  }

  /** `getNewAd()`. The precache flag is cleared first. Without a context the
      `ImageView` constructor throws before anything else is assigned; otherwise
      a fresh view (id `viewId`) and a fresh task (id `taskId`) replace the old
      ones, both capturing the current interstitial flag, and the view is
      returned only for a banner. The previous task is not cancelled. */
  function GetNewAd(a: Adaptor, viewId: nat, taskId: nat): (r: Request)
    ensures !r.adaptor.precacheInterstitial
    ensures a.context.None? ==> r == Request(a.(precacheInterstitial := false), None, Some(NullPointer))
    ensures a.context.Some? ==>
      && r.thrown.None?
      && r.adaptor.view == Some(View(viewId, a.interstitial))
      && r.adaptor.image.None?
      && r.adaptor.task == Some(TaskHandle(taskId, a.imageUrl, a.context.value.density, FetchListener(a.interstitial)))
      && r.adaptor.(view := a.view, image := a.image, task := a.task, precacheInterstitial := a.precacheInterstitial) == a
    ensures r.returned.Some? <==> a.context.Some? && !a.interstitial
    ensures r.returned.Some? ==> r.returned == r.adaptor.view
  {
    var a1 := a.(precacheInterstitial := false);
    if a1.context.None? then Request(a1, None, Some(NullPointer))
    else
      var v := View(viewId, a1.interstitial);
      var t := TaskHandle(taskId, a1.imageUrl, a1.context.value.density, FetchListener(a1.interstitial));
      var a2 := a1.(view := Some(v), image := None, task := Some(t));
      Request(a2, if !a2.interstitial then Some(v) else None, None)
  }

  /** `precacheAd()` delegates to `getNewAd()`. */
  function PrecacheAd(a: Adaptor, viewId: nat, taskId: nat): (r: Request)
    ensures r == GetNewAd(a, viewId, taskId)
  {
    GetNewAd(a, viewId, taskId)
  }

  /** `precacheInterstitialAd()`: `getNewAd()` then the precache flag is set; when
      `getNewAd()` throws the flag stays cleared. */
  function PrecacheInterstitialAd(a: Adaptor, viewId: nat, taskId: nat): (r: Update)
    ensures r.thrown == GetNewAd(a, viewId, taskId).thrown
    ensures r.thrown.None? ==> r.adaptor == GetNewAd(a, viewId, taskId).adaptor.(precacheInterstitial := true)
    ensures r.adaptor.precacheInterstitial <==> a.context.Some?
    ensures r.thrown.Some? ==> r.adaptor == GetNewAd(a, viewId, taskId).adaptor
  {
    var req := GetNewAd(a, viewId, taskId);
    if req.thrown.Some? then Update(req.adaptor, req.thrown)
    else Update(req.adaptor.(precacheInterstitial := true), None)
  }

  /** The static `startInterstitial(adaptor)`. If an interstitial is showing it
      reports a failure and changes nothing. Otherwise it starts the
      interstitial activity: on success the slot takes the adaptor's view and
      is marked showing, and a load is reported; when no activity is found the
      slot is cleared and the exception's message is reported. A missing
      context makes `startActivity` throw `NullPointerException`. */
  function StartInterstitial(a: Adaptor, slot: Slot, launch: Launch): (r: Step)
    ensures r.adaptor == a
    ensures slot.showingNow ==>
              r == Step(a, slot, [FailedToLoad(NetworkName(a), true, Some(AlreadyShowingCause))], false, None)
    ensures !slot.showingNow && a.context.None? ==> r == Step(a, slot, [], false, Some(NullPointer))
    ensures !slot.showingNow && a.context.Some? && launch.Launched? ==>
              r == Step(a, Slot(a.view, true), [DidLoad(NetworkName(a), true)], true, None)
    ensures !slot.showingNow && a.context.Some? && launch.NotFound? ==>
              r == Step(a, Slot(None, false), [FailedToLoad(NetworkName(a), true, launch.message)], false, None)
    ensures r.launched ==> !slot.showingNow && r.slot.showingNow
    ensures |r.events| <= 1
  {
    if slot.showingNow then
      Step(a, slot, [FailedToLoad(NetworkName(a), true, Some(AlreadyShowingCause))], false, None)
    else if a.context.None? then
      Step(a, slot, [], false, Some(NullPointer))
    else
      match launch
      case Launched => Step(a, Slot(a.view, true), [DidLoad(NetworkName(a), true)], true, None)
      case NotFound(m) => Step(a, Slot(None, false), [FailedToLoad(NetworkName(a), true, m)], false, None)
  }

  /** `destroy()`: marks the adaptor destroyed, clears its interstitial flag,
      context and view, and clears the slot's view whoever put it there; the
      showing flag, the task and the precache flag are left as they were. */
  function Destroy(a: Adaptor, slot: Slot): (r: Step)
    ensures r.adaptor.destroyed && !r.adaptor.interstitial
    ensures r.adaptor.context.None? && r.adaptor.view.None? && r.adaptor.image.None?
    ensures r.adaptor.name == a.name && r.adaptor.imageUrl == a.imageUrl
    ensures r.adaptor.task == a.task && r.adaptor.precacheInterstitial == a.precacheInterstitial
    ensures r.slot == Slot(None, slot.showingNow)
    ensures r.events == [] && !r.launched && r.thrown.None?
  {
    var a1 := a.(destroyed := true, interstitial := false, context := None, view := None, image := None);
    Step(a1, Slot(None, slot.showingNow), [], false, None)
  }

  /** `destroy()` twice is `destroy()` once. */
  lemma DestroyIdempotent(a: Adaptor, slot: Slot)
    ensures Destroy(Destroy(a, slot).adaptor, Destroy(a, slot).slot) == Destroy(a, slot)
  {
  }

  /** `stop()`: the current task is cancelled and forgotten; nothing else changes. */
  function Stop(a: Adaptor): (r: Adaptor)
    ensures r.task.None?
    ensures r.(task := a.task) == a
  {
    if a.task.Some? then a.(task := None) else a
  }

  /** `getAdType()`. */
  function GetAdType(a: Adaptor): (r: AdType)
    ensures r == InterstitialAd <==> a.interstitial
  {
    if a.interstitial then InterstitialAd else BannerAd
  }

  /** A destroyed adaptor reports banner ads. */
  lemma DestroyedIsBanner(a: Adaptor, slot: Slot)
    ensures GetAdType(Destroy(a, slot).adaptor) == BannerAd
  {
  }

  /** `supports(action)` answers true for every action, in every state. */
  function Supports(a: Adaptor, action: string): (r: bool)
    ensures r
  {
    true
  }

  /** `getNetworkName()`: the name given to the constructor. */
  function NetworkName(a: Adaptor): Option<string> {
    a.name
  }

  /** The network name is fixed at construction: no adaptor call changes what
      `getNetworkName()` answers, and every load or failure an adaptor reports
      through `startInterstitial` or its fetch listener carries that name. */
  lemma NameNeverChanges(a: Adaptor, slot: Slot, params: Option<Params>, viewId: nat, taskId: nat,
                         listener: FetchListener, alive: bool, bitmap: FetchTask.Bitmap, launch: Launch)
    ensures NetworkName(StartTransaction(a, params).adaptor) == NetworkName(a)
    ensures NetworkName(GetNewAd(a, viewId, taskId).adaptor) == NetworkName(a)
    ensures NetworkName(PrecacheInterstitialAd(a, viewId, taskId).adaptor) == NetworkName(a)
    ensures NetworkName(Destroy(a, slot).adaptor) == NetworkName(a)
    ensures NetworkName(Stop(a)) == NetworkName(a)
    ensures NetworkName(ShowPrecachedInterstitialAd(a, slot, launch).adaptor) == NetworkName(a)
    ensures NetworkName(ImageLoaded(a, slot, listener, alive, bitmap, launch).adaptor) == NetworkName(a)
    ensures forall e :: e in StartInterstitial(a, slot, launch).events ==> e.name == NetworkName(a)
    ensures forall e :: e in ImageLoaded(a, slot, listener, alive, bitmap, launch).events ==> e.name == NetworkName(a)
    ensures forall e :: e in ImageFailedToLoad(a, listener, alive) ==> e.name == NetworkName(a)
  {
  }

  /** `showPrecachedInterstitialAd()`: without a view it reports that nothing is
      precached; with one it starts the interstitial, whether or not the image
      has arrived yet. */
  function ShowPrecachedInterstitialAd(a: Adaptor, slot: Slot, launch: Launch): (r: Step)
    ensures a.view.None? ==>
              r == Step(a, slot, [FailedToLoad(a.name, true, Some(NoPrecachedAdReason))], false, None)
    ensures a.view.Some? ==> r == StartInterstitial(a, slot, launch)
    ensures r.adaptor == a
    ensures |r.events| <= 1
  {
    if a.view.Some? then StartInterstitial(a, slot, launch)
    else Step(a, slot, [FailedToLoad(a.name, true, Some(NoPrecachedAdReason))], false, None)
  }

  /** `ImageFetchListener.imageLoaded(bitmap)`. A collected or destroyed adaptor
      is left alone. Otherwise the bitmap is set on the adaptor's current view;
      an interstitial snapshot outside precache mode starts the interstitial,
      anything else reports one load carrying the snapshot. */
  function ImageLoaded(a: Adaptor, slot: Slot, listener: FetchListener, alive: bool,
                       bitmap: FetchTask.Bitmap, launch: Launch): (r: Step)
    ensures !alive || a.destroyed ==> r == Quiet(a, slot)
    ensures alive && !a.destroyed && a.view.None? ==> r == Step(a, slot, [], false, Some(NullPointer))
    ensures alive && !a.destroyed && a.view.Some? ==>
      if listener.interstitial && !a.precacheInterstitial
      then r == StartInterstitial(a.(image := Some(bitmap)), slot, launch)
      else r == Step(a.(image := Some(bitmap)), slot, [DidLoad(NetworkName(a), listener.interstitial)], false, None)
    ensures |r.events| <= 1
  {
    if !alive || a.destroyed then Quiet(a, slot)
    else if a.view.None? then Step(a, slot, [], false, Some(NullPointer))
    else
      var a1 := a.(image := Some(bitmap));
      if listener.interstitial && !a1.precacheInterstitial then StartInterstitial(a1, slot, launch)
      else Step(a1, slot, [DidLoad(NetworkName(a1), listener.interstitial)], false, None)
  }

  /** `ImageFetchListener.imageFailedToLoad()`: one failure with an empty reason,
      always reported as a banner whatever the listener captured. */
  function ImageFailedToLoad(a: Adaptor, listener: FetchListener, alive: bool): (r: seq<Event>)
    ensures !alive || a.destroyed ==> r == []
    ensures alive && !a.destroyed ==> r == [FailedToLoad(NetworkName(a), false, Some(FetchFailedReason))]
  {
    if !alive || a.destroyed then [] else [FailedToLoad(NetworkName(a), false, Some(FetchFailedReason))]
  }

  /** The effect of a click: the events and the exception that escaped. */
  datatype Click = Click(events: seq<Event>, thrown: Option<JavaException>)

  /** `ImageClickListener.onClick()`. A collected or destroyed adaptor is left
      alone. Otherwise the browser is started first; when that throws, the
      exception escapes and no click is reported. */
  function OnClick(a: Adaptor, clickInterstitial: bool, alive: bool, navigation: Launch): (r: Click)
    ensures !alive || a.destroyed ==> r == Click([], None)
    ensures r.events != [] ==> r.thrown.None? && r.events == [AdWasClicked(a.name, clickInterstitial)]
    ensures alive && !a.destroyed && a.context.Some? && navigation.Launched? ==>
              r.events == [AdWasClicked(a.name, clickInterstitial)]
    ensures alive && !a.destroyed && a.context.None? ==> r == Click([], Some(NullPointer))
    ensures alive && !a.destroyed && a.context.Some? && navigation.NotFound? ==>
              r == Click([], Some(ActivityNotFound(navigation.message)))
  {
    if !alive || a.destroyed then Click([], None)
    else if a.context.None? then Click([], Some(NullPointer))
    else
      match navigation
      case NotFound(m) => Click([], Some(ActivityNotFound(m)))
      case Launched => Click([AdWasClicked(a.name, clickInterstitial)], None)
  }

  /** The adaptor-local invariant: a view only exists while there is a context,
      and a destroyed adaptor has neither. */
  predicate Consistent(a: Adaptor) {
    && (a.view.Some? ==> a.context.Some?)
    && (a.destroyed ==> a.context.None? && a.view.None?)
  }

  /** Every adaptor call keeps the local invariant. */
  lemma OperationsKeepConsistent(a: Adaptor, slot: Slot, params: Option<Params>, viewId: nat, taskId: nat,
                                 listener: FetchListener, alive: bool, bitmap: FetchTask.Bitmap, launch: Launch)
    requires Consistent(a)
    ensures Consistent(StartTransaction(a, params).adaptor)
    ensures Consistent(GetNewAd(a, viewId, taskId).adaptor)
    ensures Consistent(PrecacheInterstitialAd(a, viewId, taskId).adaptor)
    ensures Consistent(Destroy(a, slot).adaptor)
    ensures Consistent(Stop(a))
    ensures Consistent(ShowPrecachedInterstitialAd(a, slot, launch).adaptor)
    ensures Consistent(ImageLoaded(a, slot, listener, alive, bitmap, launch).adaptor)
  {
  }

  /** After `destroy()`, neither fetch callback nor a click observes anything:
      no event, no exception, no change of adaptor or slot. */
  lemma NoCallbackAfterDestroy(a: Adaptor, slot: Slot, other: Slot, listener: FetchListener, alive: bool,
                               bitmap: FetchTask.Bitmap, launch: Launch, click: bool)
    ensures var d := Destroy(a, slot).adaptor;
      && ImageLoaded(d, other, listener, alive, bitmap, launch) == Quiet(d, other)
      && ImageFailedToLoad(d, listener, alive) == []
      && OnClick(d, click, alive, launch) == Click([], None)
  {
  }

  /** Once destroyed, `getNewAd()` can no longer create a view: it throws and
      only the precache flag is touched. */
  lemma NoNewAdAfterDestroy(a: Adaptor, slot: Slot, viewId: nat, taskId: nat)
    ensures var d := Destroy(a, slot).adaptor;
      && GetNewAd(d, viewId, taskId).thrown == Some(NullPointer)
      && GetNewAd(d, viewId, taskId).returned.None?
      && GetNewAd(d, viewId, taskId).adaptor.view.None?
  {
  }
}
