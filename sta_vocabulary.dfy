/**
 * The closed vocabularies of SensorThings API paths: singular entities,
 * entity sets, entity properties (parameters) and path options. Names are
 * looked up case-sensitively and exactly, as `Enums.getIfPresent` does.
 */
module StaVocabulary {
  import opened Wrappers
  import opened Patterns

  datatype Entity =
    | Thing | Location | HistoricalLocation | Datastream
    | Sensor | ObservedProperty | FeatureOfInterest | Observation

  datatype EntitySet =
    | Things | Locations | HistoricalLocations | Datastreams
    | Sensors | ObservedProperties | FeaturesOfInterest | Observations

  /** Properties of an entity that a path may address, e.g. `Things(1)/name`. */
  datatype Parameter =
    | NameProperty | DescriptionProperty | PropertiesProperty | EncodingTypeProperty
    | LocationProperty | TimeProperty | UnitOfMeasurementProperty | ObservationTypeProperty
    | ObservedAreaProperty | PhenomenonTimeProperty | ResultTimeProperty | MetadataProperty
    | DefinitionProperty | FeatureProperty | ResultProperty | ResultQualityProperty
    | ValidTimeProperty | ParametersProperty

  /** Options written into the path itself, after `$`. */
  datatype PathOption = ValueOption | RefOption | CountOption

  /** What one path segment addresses. */
  datatype Component =
    | EntityComponent(entity: Entity)
    | EntitySetComponent(entitySet: EntitySet)
    | ParameterComponent(parameter: Parameter)
    | OptionComponent(option: PathOption)
  {
    /** Entities and entity sets are the resources a request can be about. */
    predicate IsEntityBearing() {
      EntityComponent? || EntitySetComponent?
    }
  }

  /** One parsed path segment; only a keyed entity set carries an `id`. */
  datatype PathSegment = PathSegment(component: Component, id: Option<string>)

  function EntityName(e: Entity): string
  {
    match e
    case Thing => "Thing"
    case Location => "Location"
    case HistoricalLocation => "HistoricalLocation"
    case Datastream => "Datastream"
    case Sensor => "Sensor"
    case ObservedProperty => "ObservedProperty"
    case FeatureOfInterest => "FeatureOfInterest"
    case Observation => "Observation"
  }

  function EntitySetName(s: EntitySet): string
  {
    match s
    case Things => "Things"
    case Locations => "Locations"
    case HistoricalLocations => "HistoricalLocations"
    case Datastreams => "Datastreams"
    case Sensors => "Sensors"
    case ObservedProperties => "ObservedProperties"
    case FeaturesOfInterest => "FeaturesOfInterest"
    case Observations => "Observations"
  }

  function ParameterName(p: Parameter): string
  {
    match p
    case NameProperty => "name"
    case DescriptionProperty => "description"
    case PropertiesProperty => "properties"
    case EncodingTypeProperty => "encodingType"
    case LocationProperty => "location"
    case TimeProperty => "time"
    case UnitOfMeasurementProperty => "unitOfMeasurement"
    case ObservationTypeProperty => "observationType"
    case ObservedAreaProperty => "observedArea"
    case PhenomenonTimeProperty => "phenomenonTime"
    case ResultTimeProperty => "resultTime"
    case MetadataProperty => "metadata"
    case DefinitionProperty => "definition"
    case FeatureProperty => "feature"
    case ResultProperty => "result"
    case ResultQualityProperty => "resultQuality"
    case ValidTimeProperty => "validTime"
    case ParametersProperty => "parameters"
  }

  /** Option names are `$` followed by letters. */
  function PathOptionName(o: PathOption): (r: string)
    ensures |r| > 1 && r[0] == '$' && IsName(r[1..])
  {
    match o
    case ValueOption => "$value"
    case RefOption => "$ref"
    case CountOption => "$count"
  }

  function ComponentName(c: Component): (r: string)
    ensures r != [] && (c.OptionComponent? <==> r[0] == '$')
  {
    match c
    case EntityComponent(e) => EntityName(e)
    case EntitySetComponent(s) => EntitySetName(s)
    case ParameterComponent(p) => ParameterName(p)
    case OptionComponent(o) => PathOptionName(o)
  }

  /** No entity-set name holds a parenthesis. */
  lemma EntitySetNameHasNoParen(s: EntitySet)
    ensures '(' !in EntitySetName(s)
  {
  }

  /** `Enums.getIfPresent(Entity.class, name)`. */
  function EntityByName(name: string): (r: Option<Entity>)
    ensures r.Some? ==> EntityName(r.value) == name
    ensures r.None? ==> forall e: Entity :: EntityName(e) != name
  {
    if name == "Thing" then Some(Thing)
    else if name == "Location" then Some(Location)
    else if name == "HistoricalLocation" then Some(HistoricalLocation)
    else if name == "Datastream" then Some(Datastream)
    else if name == "Sensor" then Some(Sensor)
    else if name == "ObservedProperty" then Some(ObservedProperty)
    else if name == "FeatureOfInterest" then Some(FeatureOfInterest)
    else if name == "Observation" then Some(Observation)
    else None
  }

  /** `Enums.getIfPresent(EntitySet.class, name)`. */
  function EntitySetByName(name: string): (r: Option<EntitySet>)
    ensures r.Some? ==> EntitySetName(r.value) == name
    ensures r.None? ==> forall s: EntitySet :: EntitySetName(s) != name
  {
    if name == "Things" then Some(Things)
    else if name == "Locations" then Some(Locations)
    else if name == "HistoricalLocations" then Some(HistoricalLocations)
    else if name == "Datastreams" then Some(Datastreams)
    else if name == "Sensors" then Some(Sensors)
    else if name == "ObservedProperties" then Some(ObservedProperties)
    else if name == "FeaturesOfInterest" then Some(FeaturesOfInterest)
    else if name == "Observations" then Some(Observations)
    else None
  }

  /** `Enums.getIfPresent(Parameter.class, name)`. */
  function ParameterByName(name: string): (r: Option<Parameter>)
    ensures r.Some? ==> ParameterName(r.value) == name
    ensures r.None? ==> forall p: Parameter :: ParameterName(p) != name
  {
    if name == "name" then Some(NameProperty)
    else if name == "description" then Some(DescriptionProperty)
    else if name == "properties" then Some(PropertiesProperty)
    else if name == "encodingType" then Some(EncodingTypeProperty)
    else if name == "location" then Some(LocationProperty)
    else if name == "time" then Some(TimeProperty)
    else if name == "unitOfMeasurement" then Some(UnitOfMeasurementProperty)
    else if name == "observationType" then Some(ObservationTypeProperty)
    else if name == "observedArea" then Some(ObservedAreaProperty)
    else if name == "phenomenonTime" then Some(PhenomenonTimeProperty)
    else if name == "resultTime" then Some(ResultTimeProperty)
    else if name == "metadata" then Some(MetadataProperty)
    else if name == "definition" then Some(DefinitionProperty)
    else if name == "feature" then Some(FeatureProperty)
    else if name == "result" then Some(ResultProperty)
    else if name == "resultQuality" then Some(ResultQualityProperty)
    else if name == "validTime" then Some(ValidTimeProperty)
    else if name == "parameters" then Some(ParametersProperty)
    else None
  }

  /**
   * `Option.valueOf(name)`; `None` is the IllegalArgumentException that
   * `valueOf` throws for a name outside the enumeration.
   */
  function PathOptionByName(name: string): (r: Option<PathOption>)
    ensures r.Some? ==> PathOptionName(r.value) == name
    ensures r.None? ==> forall o: PathOption :: PathOptionName(o) != name
  {
    if name == "$value" then Some(ValueOption)
    else if name == "$ref" then Some(RefOption)
    else if name == "$count" then Some(CountOption)
    else None
  }

  /**
   * The three lookups of a bare name, in the order the parser tries them:
   * Entity, then EntitySet, then Parameter; the first hit wins.
   */
  function ResolveName(name: string): (r: Option<Component>)
    ensures r.Some? ==> ComponentName(r.value) == name && !r.value.OptionComponent?
    ensures r.None? ==> forall c: Component :: !c.OptionComponent? ==> ComponentName(c) != name
  {
    match EntityByName(name)
    case Some(e) => Some(EntityComponent(e))
    case None =>
      match EntitySetByName(name)
      case Some(s) => Some(EntitySetComponent(s))
      case None =>
        match ParameterByName(name)
        case Some(p) => Some(ParameterComponent(p))
        case None => None
  }

  /** Resolving the name of an entity, entity set or parameter gives it back. */
  lemma ResolveNameRoundTrip(c: Component)
    requires !c.OptionComponent?
    ensures ResolveName(ComponentName(c)) == Some(c)
  {
    match c
    case EntityComponent(e) =>
      EntityNameRoundTrip(e);
    case EntitySetComponent(s) =>
      EntitySetNameRoundTrip(s);
      EntitySetIsNoEntity(s);
    case ParameterComponent(p) =>
      ParameterNameRoundTrip(p);
      ParameterIsNoEntityOrSet(p);
  }

  lemma EntityNameRoundTrip(e: Entity)
    ensures EntityByName(EntityName(e)) == Some(e)
  {
  }

  lemma EntitySetNameRoundTrip(s: EntitySet)
    ensures EntitySetByName(EntitySetName(s)) == Some(s)
  {
  }

  /** No entity-set name is also an entity name, so the Entity lookup never shadows a set. */
  lemma EntitySetIsNoEntity(s: EntitySet)
    ensures EntityByName(EntitySetName(s)) == None
  {
  }

  /** No property name is also an entity or entity-set name, so neither lookup shadows a property. */
  lemma ParameterIsNoEntityOrSet(p: Parameter)
    ensures EntityByName(ParameterName(p)) == None && EntitySetByName(ParameterName(p)) == None
  {
    ParameterNameIsLowerCase(p);
    if EntityByName(ParameterName(p)).Some? {
      EntityNameIsCapitalised(EntityByName(ParameterName(p)).value);
    }
    if EntitySetByName(ParameterName(p)).Some? {
      EntitySetNameIsCapitalised(EntitySetByName(ParameterName(p)).value);
    }
  }

  /** Entity names start with a capital letter. */
  lemma EntityNameIsCapitalised(e: Entity)
    ensures EntityName(e) != [] && IsUpper(EntityName(e)[0])
  {
  }

  /** Entity-set names start with a capital letter. */
  lemma EntitySetNameIsCapitalised(s: EntitySet)
    ensures EntitySetName(s) != [] && IsUpper(EntitySetName(s)[0])
  {
  }

  /** Property names do not start with a capital letter. */
  lemma ParameterNameIsLowerCase(p: Parameter)
    ensures ParameterName(p) != [] && !IsUpper(ParameterName(p)[0])
  {
  }

  lemma ParameterNameRoundTrip(p: Parameter)
    ensures ParameterByName(ParameterName(p)) == Some(p)
  {
  }

  lemma PathOptionNameRoundTrip(o: PathOption)
    ensures PathOptionByName(PathOptionName(o)) == Some(o)
  {
  }
}
