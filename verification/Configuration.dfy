/** Session configuration: a model of the catalog, an effort that model supports, a permission mode. */
module Configuration {
  import opened Prelude

  datatype Effort = Low | Medium | High | XHigh | Max | Ultra
  datatype PermissionMode = Plan | Default | AcceptEdits | DontAsk | FullAccess | BypassPermissions
  datatype PermissionProfile = ReadOnly | Approval | Unrestricted
  datatype ModeActivation = LocalExplicit | RemoteUnconfirmed | RemoteConfirmed
  datatype ConfigError = UnknownModel | UnsupportedEffort
  datatype ConfigChange = Applied(configuration: SessionConfiguration) | PendingBypass | Rejected(error: ConfigError)

  datatype ModelDescriptor = ModelDescriptor(id: string, efforts: seq<Effort>)
  type Catalog = seq<ModelDescriptor>

  function Profile(mode: PermissionMode): PermissionProfile {
    match mode
    case Plan => ReadOnly
    case DontAsk => ReadOnly
    case Default => Approval
    case AcceptEdits => Approval
    case FullAccess => Unrestricted
    case BypassPermissions => Unrestricted
  }

  /** The first descriptor with this id. */
  function Find(catalog: Catalog, id: string): (found: Option<ModelDescriptor>)
    ensures found.Some? ==> found.value in catalog && found.value.id == id
    ensures found.None? ==> forall k :: 0 <= k < |catalog| ==> catalog[k].id != id
  {
    if catalog == [] then None
    else if catalog[0].id == id then Some(catalog[0])
    else Find(catalog[1..], id)
  }

  datatype SessionConfiguration = SessionConfiguration(model: string, effort: Effort, mode: PermissionMode) {

    /** The model is in the catalog and supports the effort. */
    predicate Supported(catalog: Catalog) {
      var descriptor := Find(catalog, model);
      descriptor.Some? && effort in descriptor.value.efforts
    }

    static function Create(catalog: Catalog, model: string, effort: Effort, mode: PermissionMode): (r: ConfigChange)
      ensures r.Applied? <==> SessionConfiguration(model, effort, mode).Supported(catalog)
      ensures r.Applied? ==> r.configuration == SessionConfiguration(model, effort, mode)
    {
      match Find(catalog, model)
      case None => Rejected(UnknownModel)
      case Some(descriptor) =>
        if effort !in descriptor.efforts then Rejected(UnsupportedEffort)
        else Applied(SessionConfiguration(model, effort, mode))
    }

    function SetModel(catalog: Catalog, newModel: string): (r: ConfigChange)
      ensures r.Applied? <==> this.(model := newModel).Supported(catalog)
      ensures r.Applied? ==> r.configuration == this.(model := newModel)
    {
      match Find(catalog, newModel)
      case None => Rejected(UnknownModel)
      case Some(descriptor) =>
        if effort !in descriptor.efforts then Rejected(UnsupportedEffort) else Applied(this.(model := newModel))
    }

    function SetEffort(catalog: Catalog, newEffort: Effort): (r: ConfigChange)
      ensures r.Applied? <==> this.(effort := newEffort).Supported(catalog)
      ensures r.Applied? ==> r.configuration == this.(effort := newEffort)
    {
      match Find(catalog, model)
      case None => Rejected(UnknownModel)
      case Some(descriptor) =>
        if newEffort !in descriptor.efforts then Rejected(UnsupportedEffort) else Applied(this.(effort := newEffort))
    }

    /** An unconfirmed remote request never leads to unrestricted access; what the catalog supported it
        still supports. */
    function SetMode(newMode: PermissionMode, activation: ModeActivation): (r: ConfigChange)
      ensures activation == RemoteUnconfirmed && r.Applied? ==> Profile(r.configuration.mode) != Unrestricted
      ensures r.PendingBypass? ==> Profile(newMode) == Unrestricted && activation == RemoteUnconfirmed
      ensures r.Applied? ==> r.configuration.mode == newMode
      ensures r.Applied? ==> forall catalog :: Supported(catalog) <==> r.configuration.Supported(catalog)
      ensures !r.Rejected?
    {
      if Profile(newMode) == Unrestricted && activation == RemoteUnconfirmed then PendingBypass
      else Applied(this.(mode := newMode))
    }
  }

  // ---- sequences of changes ----

  datatype ChangeRequest =
    | ChangeModel(model: string)
    | ChangeEffort(effort: Effort)
    | ChangeMode(mode: PermissionMode, activation: ModeActivation)

  /** The configuration after a request; a refused or pending one leaves it. */
  function After(catalog: Catalog, c: SessionConfiguration, request: ChangeRequest): SessionConfiguration {
    var change := match request
      case ChangeModel(model) => c.SetModel(catalog, model)
      case ChangeEffort(effort) => c.SetEffort(catalog, effort)
      case ChangeMode(mode, activation) => c.SetMode(mode, activation);
    if change.Applied? then change.configuration else c
  }

  function AfterAll(catalog: Catalog, c: SessionConfiguration, requests: seq<ChangeRequest>): SessionConfiguration
    decreases |requests|
  {
    if requests == [] then c else AfterAll(catalog, After(catalog, c, requests[0]), requests[1..])
  }

  /** Whatever requests arrive, the configuration stays one the catalog supports; and if no mode request
      among them is local or confirmed, a session without unrestricted access never gains it. */
  lemma {:induction false} UnconfirmedNeverEscalates(catalog: Catalog, c: SessionConfiguration,
                                                     requests: seq<ChangeRequest>)
    requires c.Supported(catalog)
    ensures AfterAll(catalog, c, requests).Supported(catalog)
    ensures (forall k :: 0 <= k < |requests| && requests[k].ChangeMode? ==> requests[k].activation == RemoteUnconfirmed)
            && Profile(c.mode) != Unrestricted
            ==> Profile(AfterAll(catalog, c, requests).mode) != Unrestricted
    decreases |requests|
  {
    if requests != [] {
      UnconfirmedNeverEscalates(catalog, After(catalog, c, requests[0]), requests[1..]);
    }
  }
}
