/** The process as the mediation SDK drives it: any number of adaptors sharing
    the interstitial slot, the fetch tasks they started and that have not yet
    completed, the views handed out (which the user may click), and the
    interstitial activities started and not yet destroyed. Asynchrony is only
    the order of the actions: every call, task completion and activity callback
    is one `Action`, applied one at a time on the UI thread. */
module Mediation {
  import opened Platform
  import opened Meganet
  import FetchTask
  import InterstitialActivity
  import AdaptorFactory

  /** An interstitial activity: started but not yet created, or displaying a view. */
  datatype Phase = Launching | Displaying(view: Option<View>)

  /** A started fetch task that has not completed; `cancelled` after `stop()`. */
  datatype Pending = Pending(task: TaskHandle, owner: nat, cancelled: bool)

  /** A view created by adaptor `owner`, which keeps its click listener. */
  datatype Clickable = Clickable(view: View, owner: nat)

  datatype World = World(
    adaptors: seq<Adaptor>,
    slot: Slot,
    fetches: seq<Pending>,
    views: seq<Clickable>,
    activities: seq<Phase>,
    nextId: nat)

  /** An event together with the index of the adaptor whose listener received it. */
  datatype Emitted = Emitted(adaptor: nat, event: Event)

  datatype Action =
    | Create(params: Option<Params>)
    | Transact(i: nat, params: Option<Params>)
    | RequestAd(i: nat)
    | RequestPrecache(i: nat)
    | RequestPrecacheInterstitial(i: nat)
    | ShowPrecached(i: nat, launch: Launch)
    | StopAd(i: nat)
    | DestroyAd(i: nat)
    | FetchDone(k: nat, alive: bool, response: FetchTask.Connection, resized: FetchTask.Bitmap, launch: Launch)
    | ClickView(v: nat, alive: bool, navigation: Launch)
    | ActivityCreated(j: nat)
    | ActivityDestroyed(j: nat)
    | FactoryInitialize(params: Option<Params>)
    | FactoryDestroy

  datatype Transition = Transition(world: World, emitted: seq<Emitted>, thrown: Option<JavaException>)

  /** The process before any adaptor exists. */
  const Init := World([], Slot(None, false), [], [], [], 0)

  function Tag(i: nat, events: seq<Event>): (r: seq<Emitted>)
    ensures |r| == |events|
    ensures forall k :: 0 <= k < |r| ==> r[k] == Emitted(i, events[k])
  {
    seq(|events|, k requires 0 <= k < |events| => Emitted(i, events[k]))
  }

  function Idle(w: World): Transition {
    Transition(w, [], None)
  }

  /** Store the outcome of an adaptor call made on adaptor `i`. */
  function Commit(w: World, i: nat, s: Step): Transition
    requires i < |w.adaptors|
  {
    var acts := if s.launched then w.activities + [Launching] else w.activities;
    Transition(w.(adaptors := w.adaptors[i := s.adaptor], slot := s.slot, activities := acts), Tag(i, s.events), s.thrown)
  }

  /** Store the outcome of `getNewAd`-like calls: a new view and a new pending task. */
  function Started(w: World, i: nat, a: Adaptor, thrown: Option<JavaException>): Transition
    requires i < |w.adaptors|
    requires thrown.None? ==> a.view.Some? && a.task.Some?
  {
    if thrown.Some? then Transition(w.(adaptors := w.adaptors[i := a]), [], thrown)
    else
      var w1 := w.(adaptors := w.adaptors[i := a],
                   fetches := w.fetches + [Pending(a.task.value, i, false)],
                   views := w.views + [Clickable(a.view.value, i)],
                   nextId := w.nextId + 2);
      Transition(w1, [], None)
  }

  /** `cancel(true)` on the task with the given id. */
  function CancelTask(fetches: seq<Pending>, id: nat): (r: seq<Pending>)
    ensures |r| == |fetches|
    ensures forall k :: 0 <= k < |r| ==>
      r[k] == if fetches[k].task.id == id then fetches[k].(cancelled := true) else fetches[k]
  {
    seq(|fetches|, k requires 0 <= k < |fetches| =>
      if fetches[k].task.id == id then fetches[k].(cancelled := true) else fetches[k])
  }

  function Remove<T>(s: seq<T>, k: nat): (r: seq<T>)
    requires k < |s|
    ensures |r| == |s| - 1
    ensures forall m :: 0 <= m < k ==> r[m] == s[m]
    ensures forall m :: k <= m < |r| ==> r[m] == s[m + 1]
  {
    s[..k] + s[k + 1..]
  }

  /** A task completes: a cancelled one is dropped silently (`onCancelled`);
      otherwise `doInBackground` and `onPostExecute` run and the owner's
      `ImageFetchListener` is called. Either way the task leaves the pending
      set, no view or task is created, and only the owner can hear of it. */
  function Complete(w: World, k: nat, alive: bool, response: FetchTask.Connection,
                    resized: FetchTask.Bitmap, launch: Launch): (r: Transition)
    requires k < |w.fetches|
    ensures r.world.fetches == Remove(w.fetches, k)
    ensures r.world.views == w.views && r.world.nextId == w.nextId
    ensures w.fetches[k].cancelled || w.fetches[k].owner >= |w.adaptors| ==>
              r == Idle(w.(fetches := Remove(w.fetches, k)))
    ensures |r.world.adaptors| == |w.adaptors|
    ensures forall i :: 0 <= i < |w.adaptors| && i != w.fetches[k].owner ==> r.world.adaptors[i] == w.adaptors[i]
    ensures |r.emitted| <= 1
    ensures forall e :: e in r.emitted ==> e.adaptor == w.fetches[k].owner
    ensures !w.fetches[k].cancelled && w.fetches[k].owner < |w.adaptors| ==>
      var f := w.fetches[k];
      var a := w.adaptors[f.owner];
      if f.task.url.Some? && response.Decoded? && response.bitmap.Some? then
        var s := ImageLoaded(a, w.slot, f.task.listener, alive,
                             if f.task.scale == FetchTask.DefaultScale then response.bitmap.value else resized, launch);
        && r.emitted == Tag(f.owner, s.events) && r.thrown == s.thrown
        && r.world.adaptors[f.owner] == s.adaptor && r.world.slot == s.slot
      else
        && r.emitted == Tag(f.owner, ImageFailedToLoad(a, f.task.listener, alive)) && r.thrown.None?
        && r.world.adaptors == w.adaptors && r.world.slot == w.slot
  {
    var f := w.fetches[k];
    var w1 := w.(fetches := Remove(w.fetches, k));
    if f.cancelled || f.owner >= |w.adaptors| then Idle(w1)
    else
      var net := (u: string) => response;
      var resize := (b: FetchTask.Bitmap) => resized;
      var out := FetchTask.Run(true, f.task.url, f.task.scale, net, resize);
      FetchTask.RunReportsOnce(f.task.url, f.task.scale, net, resize);
      var a := w.adaptors[f.owner];
      if out.value.LoadFailed? then
        Transition(w1, Tag(f.owner, ImageFailedToLoad(a, f.task.listener, alive)), None)
      else
        Commit(w1, f.owner, ImageLoaded(a, w.slot, f.task.listener, alive, out.value.bitmap.value, launch))
  }

  /** One action applied to the world. Actions naming an adaptor, task, view or
      activity that does not exist leave the world as it is. */
  function Apply(w: World, act: Action): Transition {
    match act
    case Create(params) =>
      (match AdaptorFactory.CreateAdaptor(params)
       case Threw(e) => Transition(w, [], Some(e))
       case Returned(created) =>
         if created.None? then Idle(w) else Idle(w.(adaptors := w.adaptors + [created.value])))
    case Transact(i, params) =>
      if i >= |w.adaptors| then Idle(w)
      else
        var u := StartTransaction(w.adaptors[i], params);
        Transition(w.(adaptors := w.adaptors[i := u.adaptor]), [], u.thrown)
    case RequestAd(i) =>
      if i >= |w.adaptors| then Idle(w)
      else
        var req := GetNewAd(w.adaptors[i], w.nextId, w.nextId + 1);
        Started(w, i, req.adaptor, req.thrown)
    case RequestPrecache(i) =>
      if i >= |w.adaptors| then Idle(w)
      else
        var req := PrecacheAd(w.adaptors[i], w.nextId, w.nextId + 1);
        Started(w, i, req.adaptor, req.thrown)
    case RequestPrecacheInterstitial(i) =>
      if i >= |w.adaptors| then Idle(w)
      else
        var u := PrecacheInterstitialAd(w.adaptors[i], w.nextId, w.nextId + 1);
        Started(w, i, u.adaptor, u.thrown)
    case ShowPrecached(i, launch) =>
      if i >= |w.adaptors| then Idle(w)
      else Commit(w, i, ShowPrecachedInterstitialAd(w.adaptors[i], w.slot, launch))
    case StopAd(i) =>
      if i >= |w.adaptors| then Idle(w)
      else
        var a := w.adaptors[i];
        var fetches := if a.task.Some? then CancelTask(w.fetches, a.task.value.id) else w.fetches;
        Idle(w.(adaptors := w.adaptors[i := Stop(a)], fetches := fetches))
    case DestroyAd(i) =>
      if i >= |w.adaptors| then Idle(w)
      else Commit(w, i, Destroy(w.adaptors[i], w.slot))
    case FetchDone(k, alive, response, resized, launch) =>
      if k >= |w.fetches| then Idle(w)
      else Complete(w, k, alive, response, resized, launch)
    case ClickView(v, alive, navigation) =>
      if v >= |w.views| || w.views[v].owner >= |w.adaptors| then Idle(w)
      else
        var c := w.views[v];
        var r := OnClick(w.adaptors[c.owner], c.view.clickInterstitial, alive, navigation);
        Transition(w, Tag(c.owner, r.events), r.thrown)
    case ActivityCreated(j) =>
      if j >= |w.activities| || !w.activities[j].Launching? then Idle(w)
      else
        var created := InterstitialActivity.OnCreate(w.slot);
        Idle(w.(slot := created.slot, activities := w.activities[j := Displaying(created.displayed)]))
    case ActivityDestroyed(j) =>
      if j >= |w.activities| || !w.activities[j].Displaying? then Idle(w)
      else Idle(w.(slot := InterstitialActivity.OnDestroy(w.slot), activities := Remove(w.activities, j)))
    case FactoryInitialize(_) => Idle(w)
    case FactoryDestroy => Idle(w)
  }

  /** The actions applied in order, keeping only the final world. */
  function Run(w: World, acts: seq<Action>): World
    decreases |acts|
  {
    if |acts| == 0 then w else Run(Apply(w, acts[0]).world, acts[1..])
  }

  /** An adaptor that can still be called back by one of its tasks has a view, unless destroyed. */
  predicate CanLoad(a: Adaptor) {
    a.destroyed || a.view.Some?
  }

  /** An adaptor whose view can still be clicked has a context, unless destroyed. */
  predicate CanClick(a: Adaptor) {
    a.destroyed || a.context.Some?
  }

  /** At most one interstitial activity exists, and the showing flag says whether one does. */
  predicate OneInterstitial(w: World) {
    && |w.activities| <= 1
    && (w.slot.showingNow <==> |w.activities| == 1)
  }

  /** Every pending task names an existing adaptor that can still take its
      callback, with task ids distinct and below the allocation counter. */
  predicate FetchesValid(w: World) {
    && (forall k :: 0 <= k < |w.fetches| ==>
          w.fetches[k].owner < |w.adaptors| && CanLoad(w.adaptors[w.fetches[k].owner]))
    && (forall k :: 0 <= k < |w.fetches| ==> w.fetches[k].task.id < w.nextId)
    && (forall k, m :: 0 <= k < m < |w.fetches| ==> w.fetches[k].task.id != w.fetches[m].task.id)
  }

  /** Every handed-out view names an existing adaptor that can still handle its click. */
  predicate ViewsValid(w: World) {
    forall v :: 0 <= v < |w.views| ==> w.views[v].owner < |w.adaptors| && CanClick(w.adaptors[w.views[v].owner])
  }

  predicate AllConsistent(adaptors: seq<Adaptor>) {
    forall i :: 0 <= i < |adaptors| ==> Consistent(adaptors[i])
  }

  predicate Inv(w: World) {
    && OneInterstitial(w)
    && AllConsistent(w.adaptors)
    && FetchesValid(w)
    && ViewsValid(w)
  }

  lemma InitInv()
    ensures Inv(Init)
  {
  }

  /** Replacing one adaptor by one that can still load and click (whenever the
      old one could) keeps the references of tasks and views valid. */
  lemma ReplaceAdaptor(w: World, i: nat, a: Adaptor)
    requires Inv(w) && i < |w.adaptors| && Consistent(a)
    requires CanLoad(w.adaptors[i]) ==> CanLoad(a)
    requires CanClick(w.adaptors[i]) ==> CanClick(a)
    ensures FetchesValid(w.(adaptors := w.adaptors[i := a]))
    ensures ViewsValid(w.(adaptors := w.adaptors[i := a]))
    ensures AllConsistent(w.adaptors[i := a])
  {
    var w1 := w.(adaptors := w.adaptors[i := a]);
    forall k | 0 <= k < |w1.fetches|
      ensures w1.fetches[k].owner < |w1.adaptors| && CanLoad(w1.adaptors[w1.fetches[k].owner])
    {
      assert CanLoad(w.adaptors[w.fetches[k].owner]);
    }
    forall v | 0 <= v < |w1.views|
      ensures w1.views[v].owner < |w1.adaptors| && CanClick(w1.adaptors[w1.views[v].owner])
    {
      assert CanClick(w.adaptors[w.views[v].owner]);
    }
  }

  lemma CommitKeepsInv(w: World, i: nat, s: Step)
    requires Inv(w) && i < |w.adaptors| && Consistent(s.adaptor)
    requires CanLoad(w.adaptors[i]) ==> CanLoad(s.adaptor)
    requires CanClick(w.adaptors[i]) ==> CanClick(s.adaptor)
    requires s.launched ==> !w.slot.showingNow && s.slot.showingNow
    requires !s.launched ==> (s.slot.showingNow ==> w.slot.showingNow)
    requires !s.launched && w.slot.showingNow ==> s.slot.showingNow
    ensures Inv(Commit(w, i, s).world)
  {
    ReplaceAdaptor(w, i, s.adaptor);
  }

  lemma StartedKeepsInv(w: World, i: nat, a: Adaptor, thrown: Option<JavaException>)
    requires Inv(w) && i < |w.adaptors| && Consistent(a)
    requires thrown.None? ==> a.view.Some? && a.task.Some? && a.task.value.id == w.nextId + 1
    requires CanLoad(w.adaptors[i]) ==> CanLoad(a)
    requires CanClick(w.adaptors[i]) ==> CanClick(a)
    ensures Inv(Started(w, i, a, thrown).world)
  {
    ReplaceAdaptor(w, i, a);
    if thrown.None? {
      var w1 := Started(w, i, a, thrown).world;
      assert w1.fetches[|w.fetches|].task.id == w.nextId + 1;
      assert forall k :: 0 <= k < |w.fetches| ==> w1.fetches[k] == w.fetches[k];
    }
  }

  lemma CompleteKeepsInv(w: World, k: nat, alive: bool, response: FetchTask.Connection,
                         resized: FetchTask.Bitmap, launch: Launch)
    requires Inv(w) && k < |w.fetches|
    ensures Inv(Complete(w, k, alive, response, resized, launch).world)
  {
    var f := w.fetches[k];
    var w1 := w.(fetches := Remove(w.fetches, k));
    assert Inv(w1) by {
      forall m, n | 0 <= m < n < |w1.fetches|
        ensures w1.fetches[m].task.id != w1.fetches[n].task.id
      {
        var m' := if m < k then m else m + 1;
        var n' := if n < k then n else n + 1;
        assert w1.fetches[m] == w.fetches[m'] && w1.fetches[n] == w.fetches[n'];
      }
    }
    if !f.cancelled && f.owner < |w.adaptors| {
      var net := (u: string) => response;
      var resize := (b: FetchTask.Bitmap) => resized;
      var out := FetchTask.Run(true, f.task.url, f.task.scale, net, resize);
      FetchTask.RunReportsOnce(f.task.url, f.task.scale, net, resize);
      var a := w.adaptors[f.owner];
      if !out.value.LoadFailed? {
        var s := ImageLoaded(a, w.slot, f.task.listener, alive, out.value.bitmap.value, launch);
        CommitKeepsInv(w1, f.owner, s);
      }
    }
  }

  lemma StopKeepsInv(w: World, i: nat)
    requires Inv(w) && i < |w.adaptors|
    ensures Inv(Apply(w, StopAd(i)).world)
  {
    var a := w.adaptors[i];
    var fetches := if a.task.Some? then CancelTask(w.fetches, a.task.value.id) else w.fetches;
    ReplaceAdaptor(w, i, Stop(a));
    var w1 := w.(adaptors := w.adaptors[i := Stop(a)], fetches := fetches);
    assert forall k :: 0 <= k < |fetches| ==>
      fetches[k].task == w.fetches[k].task && fetches[k].owner == w.fetches[k].owner;
    assert Apply(w, StopAd(i)).world == w1;
  }

  lemma ActivityKeepsInv(w: World, act: Action)
    requires Inv(w) && (act.ActivityCreated? || act.ActivityDestroyed?)
    ensures Inv(Apply(w, act).world)
  {
  }

  lemma CreateKeepsInv(w: World, params: Option<Params>)
    requires Inv(w)
    ensures Inv(Apply(w, Create(params)).world)
  {
    var w1 := Apply(w, Create(params)).world;
    assert forall k :: 0 <= k < |w.adaptors| ==> w1.adaptors[k] == w.adaptors[k];
  }

  lemma TransactKeepsInv(w: World, i: nat, params: Option<Params>)
    requires Inv(w)
    ensures Inv(Apply(w, Transact(i, params)).world)
  {
    if i < |w.adaptors| {
      ReplaceAdaptor(w, i, StartTransaction(w.adaptors[i], params).adaptor);
    }
  }

  lemma RequestKeepsInv(w: World, act: Action)
    requires Inv(w) && (act.RequestAd? || act.RequestPrecache? || act.RequestPrecacheInterstitial?)
    ensures Inv(Apply(w, act).world)
  {
    if act.i < |w.adaptors| {
      var a := w.adaptors[act.i];
      if act.RequestPrecacheInterstitial? {
        var u := PrecacheInterstitialAd(a, w.nextId, w.nextId + 1);
        StartedKeepsInv(w, act.i, u.adaptor, u.thrown);
      } else {
        var req := GetNewAd(a, w.nextId, w.nextId + 1);
        StartedKeepsInv(w, act.i, req.adaptor, req.thrown);
      }
    }
  }

  lemma ShowKeepsInv(w: World, i: nat, launch: Launch)
    requires Inv(w)
    ensures Inv(Apply(w, ShowPrecached(i, launch)).world)
  {
    if i < |w.adaptors| {
      CommitKeepsInv(w, i, ShowPrecachedInterstitialAd(w.adaptors[i], w.slot, launch));
    }
  }

  lemma DestroyKeepsInv(w: World, i: nat)
    requires Inv(w)
    ensures Inv(Apply(w, DestroyAd(i)).world)
  {
    if i < |w.adaptors| {
      CommitKeepsInv(w, i, Destroy(w.adaptors[i], w.slot));
    }
  }

  /** Every action keeps the invariant. */
  lemma ApplyKeepsInv(w: World, act: Action)
    requires Inv(w)
    ensures Inv(Apply(w, act).world)
  {
    match act
    case Create(params) => CreateKeepsInv(w, params);
    case Transact(i, params) => TransactKeepsInv(w, i, params);
    case RequestAd(_) => RequestKeepsInv(w, act);
    case RequestPrecache(_) => RequestKeepsInv(w, act);
    case RequestPrecacheInterstitial(_) => RequestKeepsInv(w, act);
    case ShowPrecached(i, launch) => ShowKeepsInv(w, i, launch);
    case StopAd(i) =>
      if i < |w.adaptors| {
        StopKeepsInv(w, i);
      }
    case DestroyAd(i) => DestroyKeepsInv(w, i);
    case FetchDone(k, alive, response, resized, launch) =>
      if k < |w.fetches| {
        CompleteKeepsInv(w, k, alive, response, resized, launch);
      }
    case ClickView(_, _, _) =>
    case ActivityCreated(_) => ActivityKeepsInv(w, act);
    case ActivityDestroyed(_) => ActivityKeepsInv(w, act);
    case FactoryInitialize(_) =>
    case FactoryDestroy =>
  }

  /** The invariant holds after any sequence of actions. */
  lemma {:induction false} RunKeepsInv(w: World, acts: seq<Action>)
    requires Inv(w)
    ensures Inv(Run(w, acts))
    decreases |acts|
  {
    if |acts| > 0 {
      ApplyKeepsInv(w, acts[0]);
      RunKeepsInv(Apply(w, acts[0]).world, acts[1..]);
    }
  }

  /** Whatever happens, at most one interstitial activity exists at a time, and
      `sIsShowingNow` is set exactly while one does. */
  lemma AtMostOneInterstitial(acts: seq<Action>)
    ensures |Run(Init, acts).activities| <= 1
    ensures Run(Init, acts).slot.showingNow <==> |Run(Init, acts).activities| == 1
  {
    InitInv();
    RunKeepsInv(Init, acts);
  }

  /** Adaptors are never removed, their names never change, and `destroy()` is final. */
  lemma AdaptorsPersist(w: World, act: Action)
    ensures |Apply(w, act).world.adaptors| >= |w.adaptors|
    ensures forall i :: 0 <= i < |w.adaptors| ==>
      && Apply(w, act).world.adaptors[i].name == w.adaptors[i].name
      && (w.adaptors[i].destroyed ==> Apply(w, act).world.adaptors[i].destroyed)
  {
  }

  /** In a world reached by the protocol, task callbacks and
      `showPrecachedInterstitialAd` never dereference a null view or context,
      and a click can only fail by not finding the browser activity. */
  lemma NoNullDereference(w: World, act: Action)
    requires Inv(w)
    ensures act.FetchDone? || act.ShowPrecached? ==> Apply(w, act).thrown.None?
    ensures act.ClickView? ==> Apply(w, act).thrown.None? || Apply(w, act).thrown.value.ActivityNotFound?
  {
    if act.FetchDone? && act.k < |w.fetches| {
      var f := w.fetches[act.k];
      if !f.cancelled && f.owner < |w.adaptors| {
        FetchTask.RunReportsOnce(f.task.url, f.task.scale, (u: string) => act.response, (b: FetchTask.Bitmap) => act.resized);
        assert CanLoad(w.adaptors[f.owner]) && Consistent(w.adaptors[f.owner]);
      }
    }
    if act.ClickView? && act.v < |w.views| {
      assert CanClick(w.adaptors[w.views[act.v].owner]);
    }
  }

  /** A task that was cancelled by `stop()`, or whose adaptor is destroyed,
      completes without any event and without touching adaptors or the slot. */
  lemma SilentCompletion(w: World, k: nat, alive: bool, response: FetchTask.Connection,
                         resized: FetchTask.Bitmap, launch: Launch)
    requires k < |w.fetches| && w.fetches[k].owner < |w.adaptors|
    requires w.fetches[k].cancelled || w.adaptors[w.fetches[k].owner].destroyed
    ensures var t := Apply(w, FetchDone(k, alive, response, resized, launch));
      && t.emitted == [] && t.thrown.None?
      && t.world == w.(fetches := Remove(w.fetches, k))
  {
    var f := w.fetches[k];
    if !f.cancelled {
      FetchTask.RunReportsOnce(f.task.url, f.task.scale, (u: string) => response, (b: FetchTask.Bitmap) => resized);
    }
  }

  /** A task that was neither cancelled nor orphaned by `destroy()` reports
      exactly one event to its own adaptor's listener, whether or not a later
      `getNewAd()` has replaced it as the adaptor's current task. Without a
      decoded image the event is the banner failure with an empty reason; with
      one, a banner snapshot reports a load, and an interstitial snapshot
      reports whatever starting the interstitial reports. */
  lemma LiveCompletionReportsOnce(w: World, k: nat, response: FetchTask.Connection,
                                  resized: FetchTask.Bitmap, launch: Launch)
    requires Inv(w) && k < |w.fetches|
    requires !w.fetches[k].cancelled && !w.adaptors[w.fetches[k].owner].destroyed
    ensures var t := Apply(w, FetchDone(k, true, response, resized, launch));
      var f := w.fetches[k];
      var name := NetworkName(w.adaptors[f.owner]);
      var decoded := f.task.url.Some? && response.Decoded? && response.bitmap.Some?;
      && |t.emitted| == 1 && t.emitted[0].adaptor == f.owner
      && (!decoded ==> t.emitted[0].event == FailedToLoad(name, false, Some(FetchFailedReason)))
      && (decoded && !f.task.listener.interstitial ==> t.emitted[0].event == DidLoad(name, false))
      && (decoded && f.task.listener.interstitial ==> t.emitted[0].event.isInterstitial)
  {
    var f := w.fetches[k];
    FetchTask.RunReportsOnce(f.task.url, f.task.scale, (u: string) => response, (b: FetchTask.Bitmap) => resized);
    assert CanLoad(w.adaptors[f.owner]) && Consistent(w.adaptors[f.owner]);
  }

  /** Each task reports at most once: after it completes, no pending task carries its id. */
  lemma CompletionIsFinal(w: World, k: nat, alive: bool, response: FetchTask.Connection,
                          resized: FetchTask.Bitmap, launch: Launch)
    requires Inv(w) && k < |w.fetches|
    ensures var after := Apply(w, FetchDone(k, alive, response, resized, launch)).world;
      forall m :: 0 <= m < |after.fetches| ==> after.fetches[m].task.id != w.fetches[k].task.id
  {
    var f := w.fetches[k];
    if !f.cancelled && f.owner < |w.adaptors| {
      FetchTask.RunReportsOnce(f.task.url, f.task.scale, (u: string) => response, (b: FetchTask.Bitmap) => resized);
    }
    var after := Apply(w, FetchDone(k, alive, response, resized, launch)).world;
    assert after.fetches == Remove(w.fetches, k);
    forall m | 0 <= m < |after.fetches| ensures after.fetches[m].task.id != f.task.id {
      var m' := if m < k then m else m + 1;
      assert after.fetches[m] == w.fetches[m'];
    }
  }

  /** `stop()` cancels the adaptor's current task, and only that one; the
      adaptor forgets it and nothing else changes. */
  lemma StopCancelsCurrentTask(w: World, i: nat)
    requires i < |w.adaptors| && w.adaptors[i].task.Some?
    ensures var after := Apply(w, StopAd(i)).world;
      && |after.fetches| == |w.fetches|
      && (forall k :: 0 <= k < |w.fetches| ==>
            (after.fetches[k].cancelled <==> w.fetches[k].cancelled || w.fetches[k].task.id == w.adaptors[i].task.value.id))
      && after.adaptors[i] == w.adaptors[i].(task := None)
      && (forall j :: 0 <= j < |w.adaptors| && j != i ==> after.adaptors[j] == w.adaptors[j])
      && |after.adaptors| == |w.adaptors|
      && after.views == w.views && after.nextId == w.nextId
      && after.slot == w.slot && after.activities == w.activities
  {
  }

  /** The factory's `initialize` and `destroy` only log: the world, the events
      and the exceptions are as if nothing happened. */
  lemma FactoryCallsChangeNothing(w: World, params: Option<Params>)
    ensures Apply(w, FactoryInitialize(params)) == Transition(w, [], None)
    ensures Apply(w, FactoryDestroy) == Transition(w, [], None)
  {
  }
}
