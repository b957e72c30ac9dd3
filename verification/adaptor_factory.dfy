/** `MeganetAdaptorFactory`: builds an adaptor from the creation parameters.
    `initialize` and `destroy` only log and have no effect on any state. */
module AdaptorFactory {
  import opened Platform
  import opened Meganet

  const ContextKey := "context"
  const ViewIdKey := "viewId"
  const AdaptorNameKey := "adaptorName"

  /** Creation parameters whose three values survive their casts. */
  predicate Castable(params: Params) {
    && AsContext(Get(params, ContextKey)).Returned?
    && AsString(Get(params, ViewIdKey)).Returned?
    && AsString(Get(params, AdaptorNameKey)).Returned?
  }

  /** `createAdaptor(params)`: null parameters give no adaptor. Otherwise the
      context, view id and name are read and cast in that order (a value of the
      wrong type throws `ClassCastException`); missing keys give null fields.
      The new adaptor is idle: not destroyed, not interstitial, not precaching,
      with no URL, view, image or task. */
  function CreateAdaptor(params: Option<Params>): (r: Outcome<Option<Adaptor>>)
    ensures params.None? ==> r == Returned(None)
    ensures params.Some? ==> (r.Returned? <==> Castable(params.value))
    ensures r.Threw? ==> r.exception == ClassCast
    ensures params.Some? && r.Returned? ==>
      && r.value.Some?
      && r.value.value.name == AsString(Get(params.value, AdaptorNameKey)).value
      && r.value.value.context == AsContext(Get(params.value, ContextKey)).value
      && !r.value.value.destroyed && !r.value.value.interstitial && !r.value.value.precacheInterstitial
      && r.value.value.imageUrl.None? && r.value.value.view.None?
      && r.value.value.image.None? && r.value.value.task.None?
      && Consistent(r.value.value)
  {
    if params.None? then Returned(None)
    else
      match AsContext(Get(params.value, ContextKey))
      case Threw(e) => Threw(e)
      case Returned(context) =>
        match AsString(Get(params.value, ViewIdKey))
        case Threw(e) => Threw(e)
        case Returned(_) =>
          match AsString(Get(params.value, AdaptorNameKey))
          case Threw(e) => Threw(e)
          case Returned(name) => Returned(Some(NewAdaptor(context, name)))
  }

  /** The adaptor's network name is the string stored under "adaptorName", and a
      missing key gives a null name rather than an error. */
  lemma NameFromParams(params: Params, name: string)
    requires Castable(params)
    ensures AdaptorNameKey !in params ==> CreateAdaptor(Some(params)) == Returned(Some(NewAdaptor(AsContext(Get(params, ContextKey)).value, None)))
    ensures Get(params, AdaptorNameKey) == Str(name) ==>
              NetworkName(CreateAdaptor(Some(params)).value.value) == Some(name)
  {
  }
}
