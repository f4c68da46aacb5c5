/** `LineageEventImpl`: the audit record of a pipeline milestone (START, STOP) or a
    data-entity access (ENTITY_READ, ENTITY_WRITE). Construction fills the general
    attributes, the type-dependent description, the pipeline identity, the tags and
    the redacted parameters; afterwards specific attributes, tags and properties can
    be replaced, the missing required attributes computed and the event dumped as
    text. */
module LineageEventImpl {
  import opened JavaLang
  import opened LineageTypes
  import opened Redaction
  import opened Validation

  /** Metadata keys through which the control plane supplies the pipeline identity. */
  const DpmPipelineId: string := "dpm.pipeline.id"
  const DpmPipelineVersion: string := "dpm.pipeline.version"

  /** `getClass().getSimpleName()`, the head of the text dump. */
  const ClassName: string := "LineageEventImpl"

  /** A `Map<String, Object>` argument, which may be null. */
  type ObjectMap = Nullable<map<string, JValue>>

  /** `m != null && m.containsKey(k)`. */
  predicate HasKey(m: ObjectMap, k: string)
  {
    m.Value? && k in m.v
  }

  /** `m.get(k)` on a non-null map: null when the key is absent. */
  function Lookup(m: ObjectMap, k: string): (o: JValue)
    ensures !HasKey(m, k) ==> o == JNull
  {
    if HasKey(m, k) then m.v[k] else JNull
  }

  /** The constructor's arguments, apart from the clock reading. */
  datatype EventArgs = EventArgs(
    eventType: Nullable<EventType>,
    name: JString,
    user: JString,
    startTime: Long,
    id: JString,
    dcId: JString,
    permalink: JString,
    stageName: JString,
    description: JString,
    version: JString,
    metadata: ObjectMap,
    parameters: ObjectMap)

  /** Everything an event stores. */
  datatype EventState = EventState(
    general: map<GeneralAttribute, JString>,
    specific: map<SpecificAttribute, JString>,
    properties: map<string, JString>,
    tags: Nullable<seq<string>>)

  /** The pipeline id and version an event records. */
  datatype Identity = Identity(id: JString, version: JString)

  /** Identity precedence: when the metadata carries a control-plane pipeline id,
      both id and version are taken (cast to String) from the metadata; otherwise
      both are the locally generated ones. */
  function ResolveIdentity(metadata: ObjectMap, id: JString, version: JString): (r: Result<Identity>)
    ensures !HasKey(metadata, DpmPipelineId) ==> r == Success(Identity(id, version))
    ensures HasKey(metadata, DpmPipelineId) ==>
      (r.Success? <==> CastToString(Lookup(metadata, DpmPipelineId)).Success? &&
                       CastToString(Lookup(metadata, DpmPipelineVersion)).Success?)
    ensures HasKey(metadata, DpmPipelineId) && r.Success? ==>
      r.value == Identity(CastToString(Lookup(metadata, DpmPipelineId)).value,
                          CastToString(Lookup(metadata, DpmPipelineVersion)).value)
    ensures r.Failure? ==> r.error == ClassCastException
  {
    if HasKey(metadata, DpmPipelineId) then
      match CastToString(Lookup(metadata, DpmPipelineId))
      case Failure(e) => Failure(e)
      case Success(metaId) =>
        match CastToString(Lookup(metadata, DpmPipelineVersion))
        case Failure(e) => Failure(e)
        case Success(metaVersion) => Success(Identity(metaId, metaVersion))
    else Success(Identity(id, version))
  }

  /** The id and version always come from the same place. */
  lemma IdentityNeverMixed(metadata: ObjectMap, id: JString, version: JString)
    requires ResolveIdentity(metadata, id, version).Success?
    ensures var ident := ResolveIdentity(metadata, id, version).value;
      (ident.id == id && ident.version == version) ||
      (HasKey(metadata, DpmPipelineId) &&
       ident.id == CastToString(Lookup(metadata, DpmPipelineId)).value &&
       ident.version == CastToString(Lookup(metadata, DpmPipelineVersion)).value)
  {
  }

  /** Tags are the metadata's labels entry (cast to List) when that key is present,
      and otherwise a fresh empty list. */
  function ExtractTags(metadata: ObjectMap): (r: Result<Nullable<seq<string>>>)
    ensures !HasKey(metadata, Label(PipelineLabels)) ==> r == Success(Value([]))
    ensures HasKey(metadata, Label(PipelineLabels)) ==>
      (r.Success? <==> (Lookup(metadata, Label(PipelineLabels)).JNull? || Lookup(metadata, Label(PipelineLabels)).JList?))
    ensures HasKey(metadata, Label(PipelineLabels)) && r.Success? && r.value.Value? ==>
      Lookup(metadata, Label(PipelineLabels)) == JList(r.value.v)
    ensures r.Success? && r.value == Null ==> Lookup(metadata, Label(PipelineLabels)) == JNull && HasKey(metadata, Label(PipelineLabels))
  {
    if HasKey(metadata, Label(PipelineLabels)) then CastToList(Lookup(metadata, Label(PipelineLabels)))
    else Success(Value([]))
  }

  /** The specific attributes right after construction: the description, for START
      and STOP only. */
  function InitialSpecific(t: EventType, description: JString): (r: map<SpecificAttribute, JString>)
    ensures Description in r <==> (t == Start || t == Stop)
    ensures Description in r ==> r[Description] == description
    ensures r.Keys <= {Description}
  {
    if t == Start || t == Stop then map[Description := description] else map[]
  }

  /** The general attributes right after construction. */
  function InitialGeneral(a: EventArgs, pipelineId: JString, now: Long): (r: map<GeneralAttribute, JString>)
    requires a.eventType.Value?
    ensures r.Keys == MandatoryGeneral
  {
    map[EventTypeAttr := Value(EventTypeName(a.eventType.v)),
        PipelineTitle := a.name,
        PipelineUser := a.user,
        PipelineStartTime := Value(FormatLong(a.startTime)),
        SdcId := a.dcId,
        Permalink := a.permalink,
        StageName := a.stageName,
        TimeStamp := Value(FormatLong(now)),
        PipelineId := pipelineId]
  }

  /** The parameters of a possibly-null map (none when it is null). */
  function Parameters(parameters: ObjectMap): map<string, JValue>
  {
    if parameters.Value? then parameters.v else map[]
  }

  /** Every parameter can be stored without an exception. */
  predicate ParametersRedactable(params: map<string, JValue>)
  {
    forall k | k in params :: RedactParameter(k, params[k]).Success?
  }

  /** The properties entries the parameters become. */
  function RedactedParameters(params: map<string, JValue>): (r: map<string, JString>)
    requires ParametersRedactable(params)
    ensures r.Keys == params.Keys
    ensures forall k | k in r && IsSensitiveKey(k) ::
      params[k].JStr? && r[k].Value? && |r[k].v| == |params[k].s| &&
      forall i | 0 <= i < |r[k].v| :: r[k].v[i] == '*'
    ensures forall k | k in r && !IsSensitiveKey(k) :: r[k] == Value(ValueOf(params[k]))
  {
    map k | k in params :: Value(RedactParameter(k, params[k]).value)
  }

  /** The exceptions storing the parameters can throw; which one is thrown first
      depends on the map's iteration order. */
  function ParameterErrors(params: map<string, JValue>): (errs: set<JavaException>)
    ensures errs <= {NullPointerException, ClassCastException}
  {
    set k | k in params && RedactParameter(k, params[k]).Failure? :: RedactParameter(k, params[k]).error
  }

  /** Storing the parameters throws exactly when some parameter cannot be stored. */
  lemma ParameterErrorsEmptyIff(params: map<string, JValue>)
    ensures ParameterErrors(params) == {} <==> ParametersRedactable(params)
  {
    if !ParametersRedactable(params) {
      var k :| k in params && RedactParameter(k, params[k]).Failure?;
      assert RedactParameter(k, params[k]).error in ParameterErrors(params);
    }
  }

  /** Storing one more parameter extends the stored entries by that parameter's. */
  lemma RedactedStep(base: map<string, JString>, params: map<string, JValue>, rest: set<string>, k: string)
    requires k in rest && rest <= params.Keys
    requires ParametersRedactable(params - rest) && RedactParameter(k, params[k]).Success?
    ensures ParametersRedactable(params - (rest - {k}))
    ensures base + RedactedParameters(params - (rest - {k})) ==
      (base + RedactedParameters(params - rest))[k := Value(RedactParameter(k, params[k]).value)]
  {
    assert (params - (rest - {k})).Keys == (params - rest).Keys + {k};
  }

  /** The loop of the constructor that stores every parameter, redacted, over the
      properties written so far; the first parameter that cannot be stored throws. */
  method StoreParameters(base: map<string, JString>, params: map<string, JValue>)
    returns (r: Result<map<string, JString>>)
    ensures r.Success? <==> ParametersRedactable(params)
    ensures r.Success? ==> r.value == base + RedactedParameters(params)
    ensures r.Failure? ==> r.error in ParameterErrors(params)
  {
    var properties := base;
    var rest := params.Keys;
    while rest != {}
      invariant rest <= params.Keys
      invariant ParametersRedactable(params - rest)
      invariant properties == base + RedactedParameters(params - rest)
      decreases rest
    {
      var k :| k in rest;
      var stored := RedactParameter(k, params[k]);
      if stored.Failure? {
        assert stored.error in ParameterErrors(params);
        ParameterErrorsEmptyIff(params);
        return Failure(stored.error);
      }
      RedactedStep(base, params, rest, k);
      properties := properties[k := Value(stored.value)];
      rest := rest - {k};
    }
    assert params - rest == params;
    return Success(properties);
  }

  /** The constructor returns normally. */
  predicate Constructible(a: EventArgs)
  {
    a.eventType.Value? &&
    ResolveIdentity(a.metadata, a.id, a.version).Success? &&
    ExtractTags(a.metadata).Success? &&
    ParametersRedactable(Parameters(a.parameters))
  }

  /** The exceptions the constructor can throw, in the order its steps run: the
      event type's `toString`, the identity casts, the labels cast, then the
      parameters. */
  function ConstructionErrors(a: EventArgs): (errs: set<JavaException>)
    ensures errs == {} <==> Constructible(a)
  {
    ParameterErrorsEmptyIff(Parameters(a.parameters));
    var ident := ResolveIdentity(a.metadata, a.id, a.version);
    var tags := ExtractTags(a.metadata);
    if a.eventType == Null then {NullPointerException}
    else if ident.Failure? then {ident.error}
    else if tags.Failure? then {tags.error}
    else ParameterErrors(Parameters(a.parameters))
  }

  /** The state the constructor leaves, with `now` the clock reading it takes. The
      lemmas after it state what this state is. */
  function Build(a: EventArgs, now: Long): EventState
    requires Constructible(a)
  {
    var ident := ResolveIdentity(a.metadata, a.id, a.version).value;
    EventState(
      InitialGeneral(a, ident.id, now),
      InitialSpecific(a.eventType.v, a.description),
      map[Label(PipelineVersion) := ident.version] + RedactedParameters(Parameters(a.parameters)),
      ExtractTags(a.metadata).value)
  }

  /** All mandatory general attributes are set, never the labels, each from its
      argument; type and times are stored in a form that parses back. */
  lemma ConstructedGeneralAttributes(a: EventArgs, now: Long)
    requires Constructible(a)
    ensures var g := Build(a, now).general;
      && g.Keys == MandatoryGeneral && PipelineLabels !in g
      && ParseEventType(g[EventTypeAttr]) == Success(a.eventType.v)
      && ParseLong(g[PipelineStartTime]) == Success(a.startTime)
      && ParseLong(g[TimeStamp]) == Success(now)
      && g[PipelineTitle] == a.name && g[PipelineUser] == a.user
      && g[SdcId] == a.dcId && g[Permalink] == a.permalink && g[StageName] == a.stageName
  {
    var ident := ResolveIdentity(a.metadata, a.id, a.version).value;
    var g := Build(a, now).general;
    assert g == InitialGeneral(a, ident.id, now);
    assert g[EventTypeAttr] == Value(EventTypeName(a.eventType.v));
    assert g[PipelineStartTime] == Value(FormatLong(a.startTime));
    assert g[TimeStamp] == Value(FormatLong(now));
    EventTypeRoundTrip(a.eventType.v);
    LongRoundTrip(a.startTime);
    LongRoundTrip(now);
  }

  /** The pipeline id and the version entry come as a pair: both from the
      control-plane metadata when it carries a pipeline id, both local otherwise. A
      parameter named like the version entry overwrites it, as the parameters are
      stored last. */
  lemma ConstructedIdentityPair(a: EventArgs, now: Long)
    requires Constructible(a)
    requires Label(PipelineVersion) !in Parameters(a.parameters)
    ensures var s := Build(a, now);
      && Label(PipelineVersion) in s.properties
      && (!HasKey(a.metadata, DpmPipelineId) ==>
            s.general[PipelineId] == a.id && s.properties[Label(PipelineVersion)] == a.version)
      && (HasKey(a.metadata, DpmPipelineId) ==>
            s.general[PipelineId] == CastToString(Lookup(a.metadata, DpmPipelineId)).value &&
            s.properties[Label(PipelineVersion)] == CastToString(Lookup(a.metadata, DpmPipelineVersion)).value)
  {
  }

  /** The description is stored, as given (empty or null included), for START and
      STOP events only; no other specific attribute is set. */
  lemma ConstructedDescription(a: EventArgs, now: Long)
    requires Constructible(a)
    ensures var sp := Build(a, now).specific;
      && (Description in sp <==> (a.eventType == Value(Start) || a.eventType == Value(Stop)))
      && (Description in sp ==> sp[Description] == a.description)
      && sp.Keys <= {Description}
  {
  }

  /** The properties hold the version entry and every parameter: asterisks of the
      value's length under a sensitive key, `String.valueOf` of the value otherwise. */
  lemma ConstructedProperties(a: EventArgs, now: Long)
    requires Constructible(a)
    ensures var p, params := Build(a, now).properties, Parameters(a.parameters);
      && p.Keys == {Label(PipelineVersion)} + params.Keys
      && (forall k | k in params && IsSensitiveKey(k) ::
            params[k].JStr? && p[k] == Value(Mask(params[k].s)))
      && (forall k | k in params && !IsSensitiveKey(k) :: p[k] == Value(ValueOf(params[k])))
  {
  }

  /** Tags are the metadata's labels entry when that key is present and an empty
      list otherwise; they are null only when the entry itself is null. */
  lemma ConstructedTags(a: EventArgs, now: Long)
    requires Constructible(a)
    ensures var t := Build(a, now).tags;
      && (!HasKey(a.metadata, Label(PipelineLabels)) ==> t == Value([]))
      && (HasKey(a.metadata, Label(PipelineLabels)) && t.Value? ==> Lookup(a.metadata, Label(PipelineLabels)) == JList(t.v))
      && (t == Null <==> HasKey(a.metadata, Label(PipelineLabels)) && Lookup(a.metadata, Label(PipelineLabels)) == JNull)
  {
  }

  /** A sensitive parameter's raw value never reaches the properties (unless it is
      itself nothing but asterisks). */
  lemma SecretsNeverStored(a: EventArgs, now: Long, k: string, i: nat)
    requires Constructible(a)
    requires k in Parameters(a.parameters) && IsSensitiveKey(k)
    requires Parameters(a.parameters)[k].JStr? && i < |Parameters(a.parameters)[k].s|
    requires Parameters(a.parameters)[k].s[i] != '*'
    ensures Build(a, now).properties[k] != Value(Parameters(a.parameters)[k].s)
  {
    RawSecretNeverStored(k, Parameters(a.parameters)[k].s, i);
  }

  /** With a registry in which START requires only the description, a START event
      misses nothing when its description is non-empty, and misses exactly the
      description otherwise. */
  lemma StartDescriptionValidation(registry: Registry, a: EventArgs, now: Long)
    requires registry(Start) == [Description]
    requires a.eventType == Value(Start) && Constructible(a)
    ensures MissingSet(registry(Start), Build(a, now).specific) ==
      if IsEmpty(a.description) then {Description} else {}
  {
    var missing := MissingSet(registry(Start), Build(a, now).specific);
    if !IsEmpty(a.description) {
      assert Description !in missing;
    } else {
      assert Description in missing;
    }
  }

  // ---------------------------------------------------------------------
  // Text dump (`toString`)
  // ---------------------------------------------------------------------

  /** How `StringBuilder.append(String)` writes a possibly-null string. */
  function Text(s: JString): string
  {
    if s.Value? then s.v else "null"
  }

  /** `order` lists each key of `keys` exactly once. */
  ghost predicate Enumerates<K>(order: seq<K>, keys: set<K>)
  {
    (set k | k in order) == keys &&
    (forall i, j | 0 <= i < j < |order| :: order[i] != order[j])
  }

  /** One entry of a section, "key: value ". */
  function Entry<K>(k: K, m: map<K, JString>, name: K -> string): string
    requires k in m
  {
    name(k) + ": " + Text(m[k]) + " "
  }

  /** The entries of `m` in the order `order`. */
  function RenderEntries<K>(order: seq<K>, m: map<K, JString>, name: K -> string): string
    requires forall k | k in order :: k in m
  {
    if order == [] then ""
    else
      var last := order[|order| - 1];
      RenderEntries(order[..|order| - 1], m, name) + Entry(last, m, name)
  }

  /** The tags in order, each followed by a space. */
  function RenderTags(tags: seq<string>): string
  {
    if tags == [] then "" else RenderTags(tags[..|tags| - 1]) + tags[|tags| - 1] + " "
  }

  /** A properties key is written as it is. */
  function PropertyKeyName(k: string): string
  {
    k
  }

  /** Appends each tag and a space, in list order. */
  method AppendTags(prefix: string, tags: seq<string>) returns (text: string)
    ensures text == prefix + RenderTags(tags)
  {
    text := prefix;
    for i := 0 to |tags|
      invariant text == prefix + RenderTags(tags[..i])
    {
      assert tags[..i + 1][..i] == tags[..i];
      text := text + tags[i] + " ";
    }
    assert tags[..|tags|] == tags;
  }

  /** Appends every entry of `m`, in an order of the map's choosing. */
  method AppendEntries<K>(prefix: string, m: map<K, JString>, name: K -> string)
    returns (text: string, ghost order: seq<K>)
    ensures Enumerates(order, m.Keys)
    ensures forall k | k in order :: k in m
    ensures text == prefix + RenderEntries(order, m, name)
  {
    text, order := prefix, [];
    var rest := m.Keys;
    while rest != {}
      invariant m.Keys == rest + (set k | k in order)
      invariant rest !! (set k | k in order)
      invariant forall i, j | 0 <= i < j < |order| :: order[i] != order[j]
      invariant forall x | x in order :: x in m
      invariant text == prefix + RenderEntries(order, m, name)
      decreases rest
    {
      var k :| k in rest;
      RenderOneMore(order, k, m, name);
      text := text + Entry(k, m, name);
      assert text == prefix + RenderEntries(order + [k], m, name);
      EnumerationStep(order, rest, m.Keys, k);
      order := order + [k];
      rest := rest - {k};
    }
  }

  lemma EnumerationStep<K>(order: seq<K>, rest: set<K>, keys: set<K>, k: K)
    requires keys == rest + (set x | x in order) && rest !! (set x | x in order)
    requires forall i, j | 0 <= i < j < |order| :: order[i] != order[j]
    requires k in rest
    ensures keys == (rest - {k}) + (set x | x in order + [k])
    ensures (rest - {k}) !! (set x | x in order + [k])
    ensures forall i, j | 0 <= i < j < |order + [k]| :: (order + [k])[i] != (order + [k])[j]
  {
    assert (set x | x in order + [k]) == (set x | x in order) + {k};
  }

  lemma RenderOneMore<K>(order: seq<K>, k: K, m: map<K, JString>, name: K -> string)
    requires forall x | x in order :: x in m
    requires k in m
    ensures RenderEntries(order + [k], m, name) == RenderEntries(order, m, name) + Entry(k, m, name)
  {
    assert (order + [k])[..|order|] == order;
  }

  /** `LineageEventImpl`: the four stores of an event. */
  class LineageEvent {
    var general: map<GeneralAttribute, JString>
    var specific: map<SpecificAttribute, JString>
    var properties: map<string, JString>
    var tags: Nullable<seq<string>>

    function State(): EventState
      reads this
    {
      EventState(general, specific, properties, tags)
    }

    /** What holds of every constructed event: the mandatory general attributes are
        exactly the stored ones, and the stored type and times parse back. */
    ghost predicate Valid()
      reads this
    {
      general.Keys == MandatoryGeneral &&
      ParseEventType(general[EventTypeAttr]).Success? &&
      ParseLong(general[PipelineStartTime]).Success? &&
      ParseLong(general[TimeStamp]).Success?
    }

    /** Commits a fully computed state. It is the last step of `Create`, which is
        the only caller and the one that establishes `Valid()`. */
    constructor FromState(s: EventState)
      ensures State() == s
    {
      general, specific, properties, tags := s.general, s.specific, s.properties, s.tags;
    }

    /** The Java constructor. The steps that can throw run in the source's order:
        the type's `toString`, the identity casts, the labels cast, then the
        parameters. The general attributes, which cannot throw once the type is
        non-null, are computed after the identity they include. An exception thrown
        on the way leaves no event behind, so the steps run on local values that
        are committed at the end. */
    static method Create(eventType: Nullable<EventType>, name: JString, user: JString, startTime: Long,
                         id: JString, dcId: JString, permalink: JString, stageName: JString,
                         description: JString, version: JString,
                         metadata: ObjectMap, parameters: ObjectMap, now: Long)
      returns (r: Result<LineageEvent>)
      ensures var a := EventArgs(eventType, name, user, startTime, id, dcId, permalink,
                                 stageName, description, version, metadata, parameters);
        && (r.Success? <==> Constructible(a))
        && (r.Success? ==> fresh(r.value) && r.value.State() == Build(a, now) && r.value.Valid())
        && (r.Failure? ==> r.error in ConstructionErrors(a))
    {
      var a := EventArgs(eventType, name, user, startTime, id, dcId, permalink,
                         stageName, description, version, metadata, parameters);
      if eventType == Null {
        return Failure(NullPointerException);
      }
      var specific := InitialSpecific(eventType.v, description);
      var identity := ResolveIdentity(metadata, id, version);
      if identity.Failure? {
        return Failure(identity.error);
      }
      var general := InitialGeneral(a, identity.value.id, now);
      var tags := ExtractTags(metadata);
      if tags.Failure? {
        return Failure(tags.error);
      }
      var properties := StoreParameters(map[Label(PipelineVersion) := identity.value.version],
                                        Parameters(parameters));
      if properties.Failure? {
        return Failure(properties.error);
      }
      var event := new LineageEvent.FromState(EventState(general, specific, properties.value, tags.value));
      ConstructedGeneralAttributes(a, now);
      return Success(event);
    }

    /** `getEventType()`: the stored name parsed back. */
    function EventTypeOf(): (r: Result<EventType>)
      reads this
      ensures Valid() ==> r.Success?
      ensures r.Success? ==> Get(general, EventTypeAttr) == Value(EventTypeName(r.value))
    {
      ParseEventType(Get(general, EventTypeAttr))
    }

    /** `getPipelineStartTime()`. */
    function PipelineStartTimeOf(): (r: Result<Long>)
      reads this
      ensures Valid() ==> r.Success?
    {
      ParseLong(Get(general, PipelineStartTime))
    }

    /** `getTimeStamp()`. */
    function TimeStampOf(): (r: Result<Long>)
      reads this
      ensures Valid() ==> r.Success?
    {
      ParseLong(Get(general, TimeStamp))
    }

    /** `getPipelineId()`, `getPipelineUser()`, `getStageName()`, `getPipelineTitle()`,
        `getPipelineDataCollectorId()`, `getPermalink()`. */
    function PipelineIdOf(): JString reads this { Get(general, PipelineId) }
    function PipelineUserOf(): JString reads this { Get(general, PipelineUser) }
    function StageNameOf(): JString reads this { Get(general, StageName) }
    function PipelineTitleOf(): JString reads this { Get(general, PipelineTitle) }
    function DataCollectorIdOf(): JString reads this { Get(general, SdcId) }
    function PermalinkOf(): JString reads this { Get(general, Permalink) }

    /** `getSpecificAttribute(name)`. */
    function SpecificAttributeOf(n: SpecificAttribute): JString
      reads this
    {
      Get(specific, n)
    }

    /** The getters of a freshly constructed event give back the constructor's
        arguments, through the stored string form where there is one. */
    lemma GettersAfterConstruction(a: EventArgs, now: Long)
      requires Constructible(a) && State() == Build(a, now)
      ensures EventTypeOf() == Success(a.eventType.v)
      ensures PipelineStartTimeOf() == Success(a.startTime)
      ensures TimeStampOf() == Success(now)
      ensures PipelineTitleOf() == a.name && PipelineUserOf() == a.user
      ensures StageNameOf() == a.stageName && DataCollectorIdOf() == a.dcId && PermalinkOf() == a.permalink
      ensures PipelineIdOf() == if HasKey(a.metadata, DpmPipelineId)
                                then CastToString(Lookup(a.metadata, DpmPipelineId)).value
                                else a.id
    {
      ConstructedGeneralAttributes(a, now);
    }

    /** `setSpecificAttribute(name, value)`: insert or replace one entry. */
    method SetSpecificAttribute(n: SpecificAttribute, v: JString)
      modifies this
      ensures specific == old(specific)[n := v]
      ensures SpecificAttributeOf(n) == v
      ensures forall m | m != n :: SpecificAttributeOf(m) == old(SpecificAttributeOf(m))
      ensures general == old(general) && properties == old(properties) && tags == old(tags)
      ensures old(Valid()) ==> Valid()
    {
      specific := specific[n := v];
    }

    /** `setTags(tags)`. */
    method SetTags(t: Nullable<seq<string>>)
      modifies this
      ensures tags == t
      ensures general == old(general) && specific == old(specific) && properties == old(properties)
      ensures old(Valid()) ==> Valid()
    {
      tags := t;
    }

    /** `setProperties(properties)`. */
    method SetProperties(p: map<string, JString>)
      modifies this
      ensures properties == p
      ensures general == old(general) && specific == old(specific) && tags == old(tags)
      ensures old(Valid()) ==> Valid()
    {
      properties := p;
    }

    /** `missingSpecificAttributes()`: start from the required attributes, remove
        those present, then add back every required one whose value is null or
        empty. A type that does not resolve makes the catch block call
        `getEventType()` again, which throws the same exception. */
    method MissingSpecificAttributes(registry: Registry) returns (r: Result<set<SpecificAttribute>>)
      ensures r.Failure? <==> EventTypeOf().Failure?
      ensures r.Failure? ==> r.error == EventTypeOf().error
      ensures r.Success? ==> r.value == MissingSet(registry(EventTypeOf().value), specific)
      ensures r.Success? ==> (r.value == {} <==>
        forall a | a in registry(EventTypeOf().value) :: a in specific && !IsEmpty(specific[a]))
    {
      var t := EventTypeOf();
      if t.Failure? {
        return Failure(t.error);
      }
      var required := registry(t.value);
      var badFields := (set a | a in required) - specific.Keys;
      for i := 0 to |required|
        invariant forall a | a in badFields :: a in required
        invariant forall a | a in required && a !in specific :: a in badFields
        invariant forall j | 0 <= j < i && IsEmpty(Get(specific, required[j])) :: required[j] in badFields
        invariant forall a | a in badFields && a in specific :: a in required[..i] && IsEmpty(specific[a])
      {
        if IsEmpty(Get(specific, required[i])) {
          badFields := badFields + {required[i]};
        }
      }
      assert required[..|required|] == required;
      NothingMissingIff(required, specific);
      return Success(badFields);
    }

    /** `toString()`: the class name, then the general attributes, the specific
        attributes, the properties and the tags, each section after its header. A
        null tag list makes the last loop throw. */
    method ToText() returns (r: Result<string>, ghost generalOrder: seq<GeneralAttribute>,
                             ghost specificOrder: seq<SpecificAttribute>, ghost propertyOrder: seq<string>)
      ensures r.Failure? <==> tags == Null
      ensures r.Failure? ==> r.error == NullPointerException
      ensures Enumerates(generalOrder, general.Keys)
      ensures Enumerates(specificOrder, specific.Keys)
      ensures Enumerates(propertyOrder, properties.Keys)
      ensures r.Success? ==>
        (forall k | k in generalOrder :: k in general) &&
        (forall k | k in specificOrder :: k in specific) &&
        (forall k | k in propertyOrder :: k in properties) &&
        r.value == ClassName
          + " general: " + RenderEntries(generalOrder, general, GeneralAttributeName)
          + " specific: " + RenderEntries(specificOrder, specific, SpecificAttributeName)
          + " properties: " + RenderEntries(propertyOrder, properties, PropertyKeyName)
          + " tags: " + RenderTags(tags.v)
    {
      var sb := ClassName + " general: ";
      sb, generalOrder := AppendEntries(sb, general, GeneralAttributeName);
      sb := sb + " specific: ";
      sb, specificOrder := AppendEntries(sb, specific, SpecificAttributeName);
      sb := sb + " properties: ";
      sb, propertyOrder := AppendEntries(sb, properties, PropertyKeyName);
      sb := sb + " tags: ";
      if tags == Null {
        return Failure(NullPointerException), generalOrder, specificOrder, propertyOrder;
      }
      sb := AppendTags(sb, tags.v);
      r := Success(sb);
    }
  }
}
