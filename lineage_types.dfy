/** The enumerations a lineage event is keyed by: the event type, the general
    attributes every event carries, and the type-specific attributes. */
module LineageTypes {
  import opened JavaLang

  /** `LineageEventType`: pipeline milestones and data-entity accesses. */
  datatype EventType = Start | Stop | EntityRead | EntityWrite

  /** `LineageEventType.toString()`: the constant's name. */
  function EventTypeName(t: EventType): string
  {
    match t
    case Start => "START"
    case Stop => "STOP"
    case EntityRead => "ENTITY_READ"
    case EntityWrite => "ENTITY_WRITE"
  }

  /** `LineageEventType.valueOf(s)`: the constant with that exact name; null throws
      NullPointerException and any other string IllegalArgumentException. */
  function ParseEventType(s: JString): (r: Result<EventType>)
    ensures r.Success? ==> s == Value(EventTypeName(r.value))
    ensures s == Null ==> r == Failure(NullPointerException)
    ensures r.Failure? && s.Value? ==> r.error == IllegalArgumentException(s.v)
  {
    match s
    case Null => Failure(NullPointerException)
    case Value(name) =>
      if name == "START" then Success(Start)
      else if name == "STOP" then Success(Stop)
      else if name == "ENTITY_READ" then Success(EntityRead)
      else if name == "ENTITY_WRITE" then Success(EntityWrite)
      else Failure(IllegalArgumentException(name))
  }

  /** Reading back the stored name of an event type gives that type. */
  lemma EventTypeRoundTrip(t: EventType)
    ensures ParseEventType(Value(EventTypeName(t))) == Success(t)
  {
  }

  /** `LineageGeneralAttribute`: the fixed identity and context fields of an event. */
  datatype GeneralAttribute =
    | EventTypeAttr
    | PipelineTitle
    | PipelineUser
    | PipelineStartTime
    | SdcId
    | Permalink
    | StageName
    | TimeStamp
    | PipelineId
    | PipelineVersion
    | PipelineLabels

  /** The constant's name, which its toString gives. */
  function GeneralAttributeName(a: GeneralAttribute): string
  {
    match a
    case EventTypeAttr => "EVENT_TYPE"
    case PipelineTitle => "PIPELINE_TITLE"
    case PipelineUser => "PIPELINE_USER"
    case PipelineStartTime => "PIPELINE_START_TIME"
    case SdcId => "SDC_ID"
    case Permalink => "PERMALINK"
    case StageName => "STAGE_NAME"
    case TimeStamp => "TIME_STAMP"
    case PipelineId => "PIPELINE_ID"
    case PipelineVersion => "PIPELINE_VERSION"
    case PipelineLabels => "PIPELINE_LABELS"
  }

  /** `LineageGeneralAttribute.getLabel()`. The label text is defined with the enum,
      which is not part of this model; the constant's name stands in for it. */
  function Label(a: GeneralAttribute): string
  {
    GeneralAttributeName(a)
  }

  /** The general attributes every constructed event holds. */
  const MandatoryGeneral: set<GeneralAttribute> :=
    {EventTypeAttr, PipelineTitle, PipelineUser, PipelineStartTime, SdcId,
     Permalink, StageName, TimeStamp, PipelineId}

  /** `LineageSpecificAttribute`. Only DESCRIPTION is used by the event itself; the
      others are kept abstract, identified by their constant names. */
  datatype SpecificAttribute = Description | OtherSpecific(name: string)

  function SpecificAttributeName(a: SpecificAttribute): string
  {
    match a
    case Description => "DESCRIPTION"
    case OtherSpecific(name) => name
  }

  /** `LineageEventType.getSpecificAttributes()`: the attributes an event of each type
      must carry. The registry lives with the enum, outside this model, so it is
      passed in as a function. */
  type Registry = EventType -> seq<SpecificAttribute>
}
