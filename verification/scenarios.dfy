/** End-to-end runs of one adaptor, from construction to the listener events:
    a banner, an interstitial shown as soon as its image arrives, a precached
    interstitial shown on demand, and a URL the network cannot parse. Each is
    stated for every context, name, URL and network behaviour. */
module Scenarios {
  import opened Platform
  import opened Meganet
  import FetchTask

  /** The adaptor after construction and a transaction with the given parameters. */
  function Transacted(c: Context, name: Option<string>, params: Params): Adaptor {
    StartTransaction(NewAdaptor(Some(c), name), Some(params)).adaptor
  }

  /** What the adaptor's current task reports, with `net` as the network. */
  function Report(a: Adaptor, net: string -> FetchTask.Connection, resize: FetchTask.Bitmap -> FetchTask.Bitmap): Option<FetchTask.FetchOutcome>
    requires a.task.Some?
  {
    FetchTask.Run(true, a.task.value.url, a.task.value.scale, net, resize)
  }

  /** A banner: `getNewAd()` returns the view at once, and the fetched image
      leads to exactly one load report, as a banner. */
  lemma BannerLoads(c: Context, name: Option<string>, url: string, slot: Slot, viewId: nat, taskId: nat,
                    net: string -> FetchTask.Connection, resize: FetchTask.Bitmap -> FetchTask.Bitmap,
                    launch: Launch, pic: FetchTask.Bitmap)
    requires net(FetchTask.EscapeSpaces(url)) == FetchTask.Decoded(Some(pic))
    ensures var req := GetNewAd(Transacted(c, name, map[ImageUrlKey := Str(url)]), viewId, taskId);
      && req.returned == Some(View(viewId, false))
      && Report(req.adaptor, net, resize).value.Loaded?
      && ImageLoaded(req.adaptor, slot, req.adaptor.task.value.listener, true,
                     Report(req.adaptor, net, resize).value.bitmap.value, launch).events
         == [DidLoad(name, false)]
  {
    var req := GetNewAd(Transacted(c, name, map[ImageUrlKey := Str(url)]), viewId, taskId);
    FetchTask.RunReportsOnce(req.adaptor.task.value.url, req.adaptor.task.value.scale, net, resize);
  }

  /** An interstitial: `getNewAd()` returns nothing, and when the image arrives
      the interstitial is started; the load is reported only if the activity
      starts, otherwise the failure carries the exception's message. */
  lemma InterstitialShownOnLoad(c: Context, name: Option<string>, url: string, flag: string, slot: Slot,
                                viewId: nat, taskId: nat, net: string -> FetchTask.Connection,
                                resize: FetchTask.Bitmap -> FetchTask.Bitmap, launch: Launch, pic: FetchTask.Bitmap)
    requires EqualsIgnoreCase(flag, "YES") && !slot.showingNow
    requires net(FetchTask.EscapeSpaces(url)) == FetchTask.Decoded(Some(pic))
    ensures var req := GetNewAd(Transacted(c, name, map[ImageUrlKey := Str(url), InterstitialKey := Str(flag)]), viewId, taskId);
      && req.returned.None?
      && Report(req.adaptor, net, resize).value.Loaded?
      && var s := ImageLoaded(req.adaptor, slot, req.adaptor.task.value.listener, true,
                              Report(req.adaptor, net, resize).value.bitmap.value, launch);
         && (launch.Launched? ==> s.events == [DidLoad(name, true)] && s.launched && s.slot == Slot(Some(View(viewId, true)), true))
         && (launch.NotFound? ==> s.events == [FailedToLoad(name, true, launch.message)] && s.slot == Slot(None, false))
  {
    var params := map[ImageUrlKey := Str(url), InterstitialKey := Str(flag)];
    assert Get(params, InterstitialKey) == Str(flag);
    var req := GetNewAd(Transacted(c, name, params), viewId, taskId);
    FetchTask.RunReportsOnce(req.adaptor.task.value.url, req.adaptor.task.value.scale, net, resize);
  }

  /** A precached interstitial: the arriving image is reported as loaded but
      nothing is shown; a later `showPrecachedInterstitialAd()` starts it with
      the already fetched view. */
  lemma PrecachedShownOnDemand(c: Context, name: Option<string>, url: string, slot: Slot,
                               viewId: nat, taskId: nat, net: string -> FetchTask.Connection,
                               resize: FetchTask.Bitmap -> FetchTask.Bitmap, launch: Launch, pic: FetchTask.Bitmap)
    requires !slot.showingNow
    requires net(FetchTask.EscapeSpaces(url)) == FetchTask.Decoded(Some(pic))
    ensures var u := PrecacheInterstitialAd(Transacted(c, name, map[ImageUrlKey := Str(url), InterstitialKey := Str("yes")]), viewId, taskId);
      && u.thrown.None? && u.adaptor.precacheInterstitial
      && Report(u.adaptor, net, resize).value.Loaded?
      && var loaded := ImageLoaded(u.adaptor, slot, u.adaptor.task.value.listener, true,
                                   Report(u.adaptor, net, resize).value.bitmap.value, launch);
         && loaded.events == [DidLoad(name, true)] && loaded.slot == slot && !loaded.launched
         && ShowPrecachedInterstitialAd(loaded.adaptor, loaded.slot, Launched).slot == Slot(Some(View(viewId, true)), true)
  {
    var params := map[ImageUrlKey := Str(url), InterstitialKey := Str("yes")];
    assert Get(params, InterstitialKey) == Str("yes");
    assert EqualsIgnoreCase("yes", "YES") by {
      EqualsYesIgnoringCase("yes");
    }
    var u := PrecacheInterstitialAd(Transacted(c, name, params), viewId, taskId);
    FetchTask.RunReportsOnce(u.adaptor.task.value.url, u.adaptor.task.value.scale, net, resize);
  }

  /** A URL the network cannot parse: the task reports a failure, which the
      adaptor passes on with an empty reason, as a banner. */
  lemma MalformedUrlFails(c: Context, name: Option<string>, url: string, viewId: nat, taskId: nat,
                          net: string -> FetchTask.Connection, resize: FetchTask.Bitmap -> FetchTask.Bitmap)
    requires net(FetchTask.EscapeSpaces(url)) == FetchTask.MalformedUrl
    ensures var req := GetNewAd(Transacted(c, name, map[ImageUrlKey := Str(url)]), viewId, taskId);
      && Report(req.adaptor, net, resize) == Some(FetchTask.LoadFailed)
      && ImageFailedToLoad(req.adaptor, req.adaptor.task.value.listener, true) == [FailedToLoad(name, false, Some(""))]
  {
    var req := GetNewAd(Transacted(c, name, map[ImageUrlKey := Str(url)]), viewId, taskId);
    FetchTask.RunReportsOnce(req.adaptor.task.value.url, req.adaptor.task.value.scale, net, resize);
  }
}
