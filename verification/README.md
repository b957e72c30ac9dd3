# Meganet adaptor for the Burstly mediation SDK, modelled in Dafny

The Meganet adaptor is a custom ad-network plug-in for the Burstly Android
mediation SDK. The SDK creates an adaptor through `MeganetAdaptorFactory`,
hands it server parameters (`imageUrl`, optionally `isInterstitial`), and asks
for an ad. The adaptor fetches one image in a background `BitmapFetchTask` and
either shows it as a banner or presents it full-screen through
`MeganetInterstitialActivity`. Load, failure and click outcomes go back to the
SDK through `IBurstlyAdaptorListener`. A process-wide slot
(`sInterstitialView`, `sIsShowingNow`) keeps two interstitials from showing at
once.

The model is a sequential state machine. Every call, task completion and
activity callback is a pure function. It returns the new adaptor state, the new
slot, the listener events in order, and the exception that escaped, if any.
When Java assigns some fields and then throws, those assignments stay in the
result. Android effects are inputs:

- whether `startActivity` finds an activity (`Launch`);
- whether a callback's weak reference still resolves (`alive`);
- the identities of new views and tasks;
- what the network and the image decoder produce (`Connection`);
- how the wrapped stream's `skip` behaves.

Modules:

- `Platform` (platform.dfy): nullable references, Java exceptions, the values of a
  `Map<String, ?>` and the casts applied to them, `equalsIgnoreCase`.
- `FetchTask` (fetch_task.dfy): `BitmapFetchTask` and `FlushedInputStream.skip`.
- `Meganet` (meganet_adaptor.dfy): `MeganetAdaptor`, its two listener classes and the static slot.
- `InterstitialActivity` (interstitial_activity.dfy): `MeganetInterstitialActivity`.
- `AdaptorFactory` (adaptor_factory.dfy): `MeganetAdaptorFactory`.
- `Mediation` (mediation.dfy): a world of many adaptors sharing the slot. It also
  holds the pending tasks, the handed-out views and the live interstitial
  activities. Invariants are proved over arbitrary sequences of actions.
- `Scenarios` (scenarios.dfy): end-to-end runs of one adaptor, stated for all inputs.

Where the code does something a caller might not expect, the model follows
the code:

- **Superseded tasks still report.** `getNewAd` replaces `mTask` without cancelling
  the old task. When the old task completes, its listener still reports to the
  adaptor, and it sets its image on the adaptor's *current* view.
  `Mediation.LiveCompletionReportsOnce` states this: every task that is neither
  cancelled nor orphaned by `destroy` reports once, current or not. Only `stop()`
  cancels, and it cancels only the current task.
- **A failed click navigation is not reported as a click.** When `startActivity`
  throws `ActivityNotFoundException` in `onClick`, the exception escapes and
  `adWasClicked` is never called.
- **`showPrecachedInterstitialAd` does not wait for the image.** It only checks that a
  view exists, so an interstitial can start before its image has arrived.
- **`precacheAd` is `getNewAd`.** It does not set the precache flag.
- **Fetch failures are reported as banners.** A fetch failure always reports
  `isInterstitial = false`.
- **`destroy` clears the slot's view whoever put it there.** If it runs between an
  interstitial's start and its `onCreate`, the activity receives no view.
- **`startTransaction` can leave partial state behind.** It sets the interstitial
  flag before the URL check can throw. It also stores a null URL just before
  throwing, which erases a URL stored by an earlier transaction.

## Model

| member | source | states |
|---|---|---|
| Platform.AsString | AdaptorIntegrationSample/src/com/meganet/integration/MeganetAdaptor.java:380-383 | the `(String)` cast of a map value: null stays null, a string passes, anything else throws, and what it throws is `ClassCastException` |
| Platform.AsContext | AdaptorIntegrationSample/src/com/meganet/integration/MeganetAdaptorFactory.java:62 | the `(Context)` cast of a map value: it throws `ClassCastException` exactly when the value is neither null nor a context, and it yields the stored context itself exactly when one was stored |
| Platform.EqualsYesIgnoringCase | AdaptorIntegrationSample/src/com/meganet/integration/MeganetAdaptor.java:381 | the strings `equalsIgnoreCase("YES")` accepts, listed character by character; besides the ASCII spellings this includes the Latin long s for the final S |
| Meganet.CheckParameters | AdaptorIntegrationSample/src/com/meganet/integration/MeganetAdaptor.java:379-388 | the interstitial flag becomes true iff `isInterstitial` is a string equal to "YES" ignoring case, and it keeps that value when the URL check then throws; the call succeeds iff both values are strings or null and the URL is present; whenever `isInterstitial` casts (including when it is absent) a null URL is stored and then rejected, while a URL value that fails its cast throws `ClassCastException` and leaves the old URL in place; no other field changes |
| Meganet.StartTransaction | AdaptorIntegrationSample/src/com/meganet/integration/MeganetAdaptor.java:221-227 | null parameters are rejected before anything changes; otherwise it succeeds exactly when the parameters are acceptable, and then stores the URL and the parsed flag; a missing URL always fails; with parameters it is exactly `checkParameters`, so the partial state that call leaves behind on a throw is also left here |
| Meganet.NewAdaptor | AdaptorIntegrationSample/src/com/meganet/integration/MeganetAdaptor.java:214-218 | the constructor keeps the context and the name it is given, and the new adaptor is a consistent, undestroyed banner that holds no URL, view, image or task |
| Meganet.GetNewAd | AdaptorIntegrationSample/src/com/meganet/integration/MeganetAdaptor.java:293-307 | the precache flag is always cleared; with a context, a fresh view and a fresh task replace the old ones, both capturing the interstitial flag, and the view is returned iff the ad is not an interstitial; without a context it throws `NullPointerException` and changes nothing else |
| Meganet.PrecacheAd | AdaptorIntegrationSample/src/com/meganet/integration/MeganetAdaptor.java:310-316 | behaves exactly like `getNewAd` |
| Meganet.PrecacheInterstitialAd | AdaptorIntegrationSample/src/com/meganet/integration/MeganetAdaptor.java:356-362 | the state `getNewAd` leaves, with the precache flag then set; when `getNewAd` throws, its exception escapes and the adaptor is exactly what `getNewAd` left; the flag ends set iff the adaptor has a context |
| Meganet.StartInterstitial | AdaptorIntegrationSample/src/com/meganet/integration/MeganetAdaptor.java:234-258 | while an interstitial is showing it emits one "one is showing now" failure and changes nothing; otherwise a started activity puts the adaptor's view in the slot, marks it showing and emits one load; a missing activity clears the slot and emits one failure carrying the exception's message; it never emits more than one event |
| Meganet.Destroy | AdaptorIntegrationSample/src/com/meganet/integration/MeganetAdaptor.java:276-283 | the adaptor becomes destroyed and not interstitial, with no context or view; the slot's view is cleared whoever put it there; the showing flag, the task, the precache flag, the name and the URL are untouched |
| Meganet.DestroyIdempotent | AdaptorIntegrationSample/src/com/meganet/integration/MeganetAdaptor.java:276-283 | calling `destroy` a second time changes nothing |
| Meganet.Stop | AdaptorIntegrationSample/src/com/meganet/integration/MeganetAdaptor.java:397-402 | the task handle is dropped and every other field is kept |
| Meganet.GetAdType | AdaptorIntegrationSample/src/com/meganet/integration/MeganetAdaptor.java:335-338 | interstitial type iff the interstitial flag is set |
| Meganet.DestroyedIsBanner | AdaptorIntegrationSample/src/com/meganet/integration/MeganetAdaptor.java:279 | after `destroy` the adaptor reports banner ads |
| Meganet.Supports | AdaptorIntegrationSample/src/com/meganet/integration/MeganetAdaptor.java:341-353 | every action is supported in every state |
| Meganet.NameNeverChanges | AdaptorIntegrationSample/src/com/meganet/integration/MeganetAdaptor.java:330-332 | `getNetworkName()` answers the same before and after every adaptor call, and every load or failure reported through `startInterstitial` or the fetch listener carries that name |
| Meganet.ShowPrecachedInterstitialAd | AdaptorIntegrationSample/src/com/meganet/integration/MeganetAdaptor.java:365-371 | with no view it emits exactly one "No precached ad." failure and changes nothing; with a view it is exactly `startInterstitial` |
| Meganet.ImageLoaded | AdaptorIntegrationSample/src/com/meganet/integration/MeganetAdaptor.java:128-152 | a collected or destroyed adaptor is untouched and nothing is emitted; otherwise the image goes onto the current view, and the interstitial is started when the flag captured at task creation is set and precache mode is off; any other case emits exactly one load carrying the captured flag |
| Meganet.ImageFailedToLoad | AdaptorIntegrationSample/src/com/meganet/integration/MeganetAdaptor.java:155-164 | nothing for a collected or destroyed adaptor; otherwise exactly one failure with an empty reason, always flagged as a banner |
| Meganet.OnClick | AdaptorIntegrationSample/src/com/meganet/integration/MeganetAdaptor.java:189-207 | nothing for a collected or destroyed adaptor; a click is reported (with the flag the view captured) only when the browser starts; a missing activity escapes as `ActivityNotFoundException` with no event |
| Meganet.OperationsKeepConsistent | AdaptorIntegrationSample/src/com/meganet/integration/MeganetAdaptor.java:276-307 | every adaptor call keeps the local invariant: a view exists only with a context, and a destroyed adaptor has neither |
| Meganet.NoCallbackAfterDestroy | AdaptorIntegrationSample/src/com/meganet/integration/MeganetAdaptor.java:135-138 | after `destroy`, fetch-success, fetch-failure and click callbacks emit nothing and change neither the adaptor nor the slot |
| Meganet.NoNewAdAfterDestroy | AdaptorIntegrationSample/src/com/meganet/integration/MeganetAdaptor.java:280-297 | after `destroy`, `getNewAd` can no longer create a view: it throws `NullPointerException` and returns nothing |
| FetchTask.EscapeSpaces | AdaptorIntegrationSample/src/com/meganet/network/BitmapFetchTask.java:118 | the URL given to `new URL` has no space; its length grows by two per space; a URL without spaces is unchanged |
| FetchTask.EscapeOne | AdaptorIntegrationSample/src/com/meganet/network/BitmapFetchTask.java:118 | a single space becomes "%20" and any other character, '%' included, is kept |
| FetchTask.EscapeConcat | AdaptorIntegrationSample/src/com/meganet/network/BitmapFetchTask.java:118 | escaping a concatenation is the concatenation of the escaped parts, so with `EscapeOne` every URL keeps its characters in order and only its spaces are rewritten |
| FetchTask.UnescapeEscape | AdaptorIntegrationSample/src/com/meganet/network/BitmapFetchTask.java:118 | decoding "%20" back gives the original URL whenever the URL has no literal '%', so escaping loses nothing |
| FetchTask.FetchBitmap | AdaptorIntegrationSample/src/com/meganet/network/BitmapFetchTask.java:116-134 | only the escaped URL reaches the network; malformed-URL and IO failures give an absent image instead of an exception; an image is returned iff one was decoded |
| FetchTask.ScaleBitmap | AdaptorIntegrationSample/src/com/meganet/network/BitmapFetchTask.java:104-111 | an absent image stays absent; at the default scale of 1 the image is returned unchanged; a present image stays present |
| FetchTask.DoInBackground | AdaptorIntegrationSample/src/com/meganet/network/BitmapFetchTask.java:70-80 | an empty argument list or a null first argument gives false without contacting the network; otherwise the escaped URL is requested; the result is true iff the scaled image is present, which happens iff the network decoded one |
| FetchTask.OnPostExecute | AdaptorIntegrationSample/src/com/meganet/network/BitmapFetchTask.java:83-92 | no callback without a listener; otherwise exactly one, `imageLoaded` iff the result is true, carrying the fetched image |
| FetchTask.RunReportsOnce | AdaptorIntegrationSample/src/com/meganet/network/BitmapFetchTask.java:70-92 | a task with a listener reports exactly once; `imageLoaded` always carries an image and is chosen iff the network produced one; a null URL reports a failure |
| FetchTask.Skip | AdaptorIntegrationSample/src/com/meganet/network/BitmapFetchTask.java:153-167 | the total is 0 for n <= 0 and in [0, n] otherwise; it is exactly min(n, bytes remaining), so it falls short of n only at end of stream; the stream advances by exactly the total; the loop ends because each pass advances the total or exits |
| InterstitialActivity.OnCreate | AdaptorIntegrationSample/src/com/meganet/integration/MeganetInterstitialActivity.java:11-16 | the activity displays the view that was in the slot at entry; the slot's view becomes empty and the showing flag is unchanged |
| InterstitialActivity.OnDestroy | AdaptorIntegrationSample/src/com/meganet/integration/MeganetInterstitialActivity.java:18-22 | the showing flag is cleared unconditionally and the slot's view is untouched |
| InterstitialActivity.HandOffDisplaysAdaptorView | AdaptorIntegrationSample/src/com/meganet/integration/MeganetInterstitialActivity.java:13-15 | the activity created after a successful `startInterstitial` displays that adaptor's view |
| InterstitialActivity.DestroyBeforeCreateEmptiesHandOff | AdaptorIntegrationSample/src/com/meganet/integration/MeganetAdaptor.java:277 | a `destroy` of any adaptor between the start of the activity and its `onCreate` leaves the activity with no view |
| InterstitialActivity.SecondStartRejected | AdaptorIntegrationSample/src/com/meganet/integration/MeganetAdaptor.java:236-242 | once one interstitial has started, a second `startInterstitial` from any adaptor is rejected as already showing and changes nothing |
| InterstitialActivity.StartAgainAfterDismiss | AdaptorIntegrationSample/src/com/meganet/integration/MeganetInterstitialActivity.java:18-22 | after the activity's `onDestroy`, a new `startInterstitial` succeeds again and shows the new adaptor's view |
| AdaptorFactory.CreateAdaptor | AdaptorIntegrationSample/src/com/meganet/integration/MeganetAdaptorFactory.java:53-63 | null parameters give no adaptor; otherwise an adaptor is created iff the three values survive their casts, with the name and context read from the map and null for missing keys; the new adaptor is not destroyed, not interstitial and not precaching, and has no URL, view or task |
| AdaptorFactory.NameFromParams | AdaptorIntegrationSample/src/com/meganet/integration/MeganetAdaptorFactory.java:59-62 | the network name is the string under "adaptorName"; a missing key gives a null name, not an error |
| Mediation.FactoryCallsChangeNothing | AdaptorIntegrationSample/src/com/meganet/integration/MeganetAdaptorFactory.java:48-69 | the factory's `initialize` and `destroy` change nothing, emit nothing and throw nothing |
| Mediation.CancelTask | AdaptorIntegrationSample/src/com/meganet/integration/MeganetAdaptor.java:397-402 | `cancel(true)` marks cancelled exactly the pending tasks with the given id, leaving every other task and the order as they were |
| Mediation.Complete | AdaptorIntegrationSample/src/com/meganet/network/BitmapFetchTask.java:70-92 | a completing task always leaves the pending set and creates no view or task; a cancelled or orphaned task completes as `onCancelled`, silently and with nothing else changed; a live task whose URL yields a decoded image calls `imageLoaded` with that image (scaled unless the scale is 1), and any other live task calls `imageFailedToLoad` and changes no adaptor or slot; only the owner hears of it and no other adaptor changes |
| Mediation.ApplyKeepsInv | AdaptorIntegrationSample/src/com/meganet/integration/MeganetAdaptor.java:234-258 | every action keeps the world invariant: at most one interstitial activity exists, and `sIsShowingNow` is set exactly while one does; every pending task and handed-out view belongs to an adaptor that can still serve it; task ids are distinct |
| Mediation.RunKeepsInv | AdaptorIntegrationSample/src/com/meganet/integration/MeganetInterstitialActivity.java:11-22 | the world invariant survives any sequence of actions |
| Mediation.AtMostOneInterstitial | AdaptorIntegrationSample/src/com/meganet/integration/MeganetAdaptor.java:236-242 | from process start, whatever happens, at most one interstitial activity exists at a time, and the showing flag is set exactly while one does |
| Mediation.AdaptorsPersist | AdaptorIntegrationSample/src/com/meganet/integration/MeganetAdaptor.java:276-283 | adaptors are never removed, their names never change, and once destroyed an adaptor stays destroyed |
| Mediation.NoNullDereference | AdaptorIntegrationSample/src/com/meganet/integration/MeganetAdaptor.java:140-145 | in any reachable world, task callbacks and `showPrecachedInterstitialAd` throw nothing, and a click can fail only because no browser activity was found |
| Mediation.SilentCompletion | AdaptorIntegrationSample/src/com/meganet/integration/MeganetAdaptor.java:156-159 | a task cancelled by `stop` or whose adaptor is destroyed completes with no event, no exception and no change besides its own removal |
| Mediation.LiveCompletionReportsOnce | AdaptorIntegrationSample/src/com/meganet/integration/MeganetAdaptor.java:299 | a task that is neither cancelled nor orphaned reports exactly one event to its own adaptor, even when a later `getNewAd` has replaced it; without a decoded image the event is `failedToLoad(name, false, "")`, with one a banner snapshot reports `didLoad(name, false)` and an interstitial snapshot reports an interstitial event |
| Mediation.CompletionIsFinal | AdaptorIntegrationSample/src/com/meganet/network/BitmapFetchTask.java:83-92 | after a task completes no pending task has its id, so no task reports twice |
| Mediation.StopCancelsCurrentTask | AdaptorIntegrationSample/src/com/meganet/integration/MeganetAdaptor.java:397-402 | `stop` cancels exactly the pending tasks carrying the current task's id and no others; the adaptor forgets the task and keeps every other field, and the other adaptors, the views, the id counter, the slot and the activities are untouched |
| Scenarios.BannerLoads | AdaptorIntegrationSample/src/com/meganet/integration/MeganetAdaptor.java:144-150 | a banner request returns the view at once, and a fetched image leads to exactly one load report flagged as a banner |
| Scenarios.InterstitialShownOnLoad | AdaptorIntegrationSample/src/com/meganet/integration/MeganetAdaptor.java:303-306 | an interstitial request returns nothing; on load the interstitial starts, and it reports a load only if the activity starts, otherwise a failure with the exception's message |
| Scenarios.PrecachedShownOnDemand | AdaptorIntegrationSample/src/com/meganet/integration/MeganetAdaptor.java:356-371 | a precached interstitial reports its load without being shown; a later `showPrecachedInterstitialAd` shows the view already fetched |
| Scenarios.MalformedUrlFails | AdaptorIntegrationSample/src/com/meganet/network/BitmapFetchTask.java:127-133 | a URL the network cannot parse leads to one failure with an empty reason, flagged as a banner |

## Left out

- Networking (`URL`, `URLConnection`), `BitmapFactory.decodeStream` and
  `Bitmap.createScaledBitmap` are I/O and foreign code. They are oracle inputs: the
  `Connection` returned for the escaped URL, and a `resize` function.
- FetchTask.ScaleBitmap: the float arithmetic `(int)(mScale * width)` for scales
  other than 1 is not modelled, because it is floating point. The case where it
  truncates to zero, and `createScaledBitmap` throws, is not modelled either.
- FetchTask.Skip: the wrapped stream is assumed to honour the `InputStream.skip`
  contract: it skips between 0 and the requested count, never past the end. The
  model also has no `IOException` from the wrapped stream.
- AsyncTask threading and the interruption semantics of `cancel(true)` are
  concurrency. A cancelled task is modelled as completing without calling
  `onPostExecute`, and `stop` as dropping the task handle.
- Garbage collection of adaptors is modelled only as the `alive` input of each
  callback, not as a memory model.
- Android framework effects are inputs or left out. The outcome of
  `startActivity` is an input. `Intent` and `Uri.parse` are not modelled.
  `ImageView` layout and `addContentView` are not modelled, including what
  happens when the activity adds a null view.
- Meganet.GetNewAd: the model assumes that `new ImageView(null)` throws
  `NullPointerException` before `mImageView` is assigned. The Android view
  constructor dereferences the context, but that constructor is not part of this
  model.
- Platform.EqualsYesIgnoringCase: case folding covers ASCII letters and the four
  non-ASCII characters that fold onto ASCII letters (U+0130, U+0131, U+017F,
  U+212A). General Unicode folding between non-ASCII letters is not modelled.
  The only string compared is "YES".
- Activity recreation (a configuration change that destroys and recreates
  `MeganetInterstitialActivity` while the ad stays on screen) is not an action of
  the world model. On recreation `onDestroy` clears the showing flag while an
  interstitial is still displayed, so `Mediation.AtMostOneInterstitial` holds
  only for one `onCreate`/`onDestroy` pair per launch.
- `setAdaptorListener` is not modelled: the listener is assumed set. A null
  listener would make every report throw `NullPointerException`.
- `pause` and `resume` have empty bodies, and `endTransaction`,
  `startViewSession`, `endViewSession` and all `Logger` calls only log, so they
  are left out. The view id read by the
  factory is cast but otherwise only logged.
- Any other runtime exception from foreign code is not modelled.
- `IBitmapFetchListener` is the `FetchOutcome` datatype.
- The vendor sample activities are UI wiring over the external SDK and are not
  part of this model.
