/**
 * GeneratedPropertyFactory: picks the generator of a property whose value the ORM fills
 * in itself: a version counter or update timestamp for @Version, and the current user for
 * @WhoCreated and @WhoModified when a CurrentUserProvider is configured.
 */
module GeneratedPropertyFactory {
  import opened Java

  /** ServerConfig.getCurrentUserProvider, when one is set. */
  datatype CurrentUserProvider = CurrentUserProvider(name: string)

  /**
   * The generators, by the class name of the property's type. The counter and timestamp
   * factories choose a generator per type; that choice is not part of this model.
   */
  datatype GeneratedProperty =
    | Counter(typeName: string)
    | InsertTimestamp(typeName: string)
    | UpdateTimestamp(typeName: string)
    | WhoCreated(provider: CurrentUserProvider)
    | WhoModified(provider: CurrentUserProvider)

  /** The part of a DeployBeanProperty the factory reads and sets. */
  class DeployBeanProperty {
    /** getPropertyType().getName(). */
    const propertyTypeName: string
    var generatedProperty: Option<GeneratedProperty>

    constructor(propertyTypeName: string)
      ensures this.propertyTypeName == propertyTypeName && generatedProperty == None
    {
      this.propertyTypeName := propertyTypeName;
      generatedProperty := None;
    }
  }

  /** The class names (Class.getName) of the number types a version counter is used for. */
  const NUMBER_TYPES: set<string> := {
    "java.lang.Integer", "int", "java.lang.Long", "long", "java.lang.Short", "short",
    "java.lang.Double", "double", "java.math.BigDecimal"}

  const WHO_CREATED_UNSUPPORTED: string := "No CurrentUserProvider has been set so @WhoCreated is not supported"
  const WHO_MODIFIED_UNSUPPORTED: string := "No CurrentUserProvider has been set so @WhoModified is not supported"

  /** The generator setVersion gives a property of the named type. */
  function VersionGenerator(numberTypes: set<string>, typeName: string): (g: GeneratedProperty)
    ensures g.Counter? || g.UpdateTimestamp?
    ensures g.typeName == typeName
    ensures g.Counter? <==> typeName in numberTypes
  {
    if typeName in numberTypes then Counter(typeName) else UpdateTimestamp(typeName)
  }

  /**
   * With the factory's number types, the wrapper and primitive integer, long, short and
   * double types and BigDecimal get a counter; float, byte and timestamps get an update
   * timestamp.
   */
  lemma VersionStrategyExamples()
    ensures VersionGenerator(NUMBER_TYPES, "java.lang.Integer") == Counter("java.lang.Integer")
    ensures VersionGenerator(NUMBER_TYPES, "long") == Counter("long")
    ensures VersionGenerator(NUMBER_TYPES, "java.math.BigDecimal") == Counter("java.math.BigDecimal")
    ensures VersionGenerator(NUMBER_TYPES, "java.lang.Float") == UpdateTimestamp("java.lang.Float")
    ensures VersionGenerator(NUMBER_TYPES, "byte") == UpdateTimestamp("byte")
    ensures VersionGenerator(NUMBER_TYPES, "java.sql.Timestamp") == UpdateTimestamp("java.sql.Timestamp")
  {
  }

  class GeneratedPropertyFactory {
    const numberTypes: set<string>
    const generatedWhoCreated: Option<GeneratedProperty>
    const generatedWhoModified: Option<GeneratedProperty>

    /** The who-created and who-modified generators exist exactly when a provider is configured. */
    ghost predicate Valid()
    {
      (generatedWhoCreated.Some? <==> generatedWhoModified.Some?) &&
      (generatedWhoCreated.Some? ==> generatedWhoCreated.value.WhoCreated?) &&
      (generatedWhoModified.Some? ==> generatedWhoModified.value.WhoModified?)
    }

    constructor(currentUserProvider: Option<CurrentUserProvider>)
      ensures Valid()
      ensures numberTypes == NUMBER_TYPES
      ensures generatedWhoCreated.Some? <==> currentUserProvider.Some?
      ensures currentUserProvider.Some? ==>
        generatedWhoCreated == Some(WhoCreated(currentUserProvider.value)) &&
        generatedWhoModified == Some(WhoModified(currentUserProvider.value))
    {
      if currentUserProvider.Some? {
        generatedWhoCreated := Some(WhoCreated(currentUserProvider.value));
        generatedWhoModified := Some(WhoModified(currentUserProvider.value));
      } else {
        generatedWhoCreated := None;
        generatedWhoModified := None;
      }
      var types: set<string> := {};
      types := types + {"java.lang.Integer"};
      types := types + {"int"};
      types := types + {"java.lang.Long"};
      types := types + {"long"};
      types := types + {"java.lang.Short"};
      types := types + {"short"};
      types := types + {"java.lang.Double"};
      types := types + {"double"};
      types := types + {"java.math.BigDecimal"};
      numberTypes := types;
    }

    predicate IsNumberType(typeClassName: string)
    {
      typeClassName in numberTypes
    }

    /** setVersion: a counter for a number type, otherwise an update timestamp. */
    method SetVersion(property: DeployBeanProperty)
      modifies property
      ensures property.generatedProperty == Some(VersionGenerator(numberTypes, property.propertyTypeName))
    {
      if IsNumberType(property.propertyTypeName) {
        SetCounter(property);
      } else {
        SetUpdateTimestamp(property);
      }
    }

    method SetCounter(property: DeployBeanProperty)
      modifies property
      ensures property.generatedProperty == Some(Counter(property.propertyTypeName))
    {
      property.generatedProperty := Some(Counter(property.propertyTypeName));
    }

    method SetInsertTimestamp(property: DeployBeanProperty)
      modifies property
      ensures property.generatedProperty == Some(InsertTimestamp(property.propertyTypeName))
    {
      property.generatedProperty := Some(InsertTimestamp(property.propertyTypeName));
    }

    method SetUpdateTimestamp(property: DeployBeanProperty)
      modifies property
      ensures property.generatedProperty == Some(UpdateTimestamp(property.propertyTypeName))
    {
      property.generatedProperty := Some(UpdateTimestamp(property.propertyTypeName));
    }

    /**
     * setWhoCreated: with no provider an IllegalStateException and the property is left as
     * it was; otherwise the property gets the who-created generator.
     */
    method SetWhoCreated(property: DeployBeanProperty) returns (o: Outcome)
      requires Valid()
      modifies property
      ensures generatedWhoCreated.None? ==>
        o == Fail(IllegalStateException(WHO_CREATED_UNSUPPORTED)) && property.generatedProperty == old(property.generatedProperty)
      ensures generatedWhoCreated.Some? ==>
        o == Pass && property.generatedProperty == generatedWhoCreated && property.generatedProperty.value.WhoCreated?
    {
      if generatedWhoCreated.None? {
        return Fail(IllegalStateException(WHO_CREATED_UNSUPPORTED));
      }
      property.generatedProperty := generatedWhoCreated;
      o := Pass;
    }

    /** setWhoModified: as setWhoCreated, with the who-modified generator. */
    method SetWhoModified(property: DeployBeanProperty) returns (o: Outcome)
      requires Valid()
      modifies property
      ensures generatedWhoModified.None? ==>
        o == Fail(IllegalStateException(WHO_MODIFIED_UNSUPPORTED)) && property.generatedProperty == old(property.generatedProperty)
      ensures generatedWhoModified.Some? ==>
        o == Pass && property.generatedProperty == generatedWhoModified && property.generatedProperty.value.WhoModified?
    {
      if generatedWhoModified.None? {
        return Fail(IllegalStateException(WHO_MODIFIED_UNSUPPORTED));
      }
      property.generatedProperty := generatedWhoModified;
      o := Pass;
    }
  }
}
