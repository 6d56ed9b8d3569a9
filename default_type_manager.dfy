/**
 * DefaultTypeManager: the registry of scalar types. Java types map to scalar types in
 * typeMap, JDBC type codes map to scalar types in nativeMap, compound value types map to
 * their readers in compoundTypeMap, and custom types are kept in a list searched in order.
 * Java classes are the tokens of JavaType; a scalar type is its name, Java type and JDBC code.
 */
module DefaultTypeManager {
  import opened Java
  import opened JavaLang
  import opened ScalarCommon

  /** The Java classes the registry is keyed by; a primitive and its box are distinct keys. */
  datatype JavaType =
    | File | UtilDate | Calendar | BigIntegerClass | BooleanBox | BooleanPrim | UuidClass
    | InetAddress | Locale | Currency | TimeZone | Url | Uri
    | CharArray | CharBox | CharPrim | StringClass | ClassClass
    | ByteArray | ByteBox | BytePrim | ShortBox | ShortPrim | IntegerBox | IntPrim
    | LongBox | LongPrim | DoubleBox | DoublePrim | FloatBox | FloatPrim | BigDecimalClass
    | SqlTime | SqlDate | SqlTimestamp | MapClass | JsonNode | JodaLocalTime
    | Other(name: string)

  /** A scalar type: its class name, the Java type it handles (getType) and getJdbcType. */
  datatype ScalarType = ScalarType(name: string, javaType: JavaType, jdbcType: int)

  const FILE_TYPE := ScalarType("ScalarTypeFile", File, BLOB)
  const CHAR_TYPE := ScalarType("ScalarTypeChar", CharBox, VARCHAR)
  const CHAR_ARRAY_TYPE := ScalarType("ScalarTypeCharArray", CharArray, VARCHAR)
  const LONG_VARCHAR_TYPE := ScalarType("ScalarTypeLongVarchar", StringClass, LONGVARCHAR)
  const CLOB_TYPE := ScalarType("ScalarTypeClob", StringClass, CLOB)
  const BYTE_TYPE := ScalarType("ScalarTypeByte", ByteBox, TINYINT)
  const BINARY_TYPE := ScalarType("ScalarTypeBytesBinary", ByteArray, BINARY)
  const BLOB_TYPE := ScalarType("ScalarTypeBytesBlob", ByteArray, BLOB)
  const VARBINARY_TYPE := ScalarType("ScalarTypeBytesVarbinary", ByteArray, VARBINARY)
  const LONG_VARBINARY_TYPE := ScalarType("ScalarTypeBytesLongVarbinary", ByteArray, LONGVARBINARY)
  const SHORT_TYPE := ScalarType("ScalarTypeShort", ShortBox, SMALLINT)
  const INTEGER_TYPE := ScalarType("ScalarTypeInteger", IntegerBox, INTEGER)
  const LONG_TYPE := ScalarType("ScalarTypeLong", LongBox, BIGINT)
  const DOUBLE_TYPE := ScalarType("ScalarTypeDouble", DoubleBox, DOUBLE)
  const FLOAT_TYPE := ScalarType("ScalarTypeFloat", FloatBox, REAL)
  const BIG_DECIMAL_TYPE := ScalarType("ScalarTypeBigDecimal", BigDecimalClass, DECIMAL)
  const TIME_TYPE := ScalarType("ScalarTypeTime", SqlTime, TIME)
  const DATE_TYPE := ScalarType("ScalarTypeDate", SqlDate, DATE)
  const TIMESTAMP_TYPE := ScalarType("ScalarTypeTimestamp", SqlTimestamp, TIMESTAMP)
  const INET_ADDRESS_TYPE := ScalarType("ScalarTypeInetAddress", InetAddress, VARCHAR)
  const URL_TYPE := ScalarType("ScalarTypeURL", Url, VARCHAR)
  const URI_TYPE := ScalarType("ScalarTypeURI", Uri, VARCHAR)
  const LOCALE_TYPE := ScalarType("ScalarTypeLocale", Locale, VARCHAR)
  const CURRENCY_TYPE := ScalarType("ScalarTypeCurrency", Currency, VARCHAR)
  const TIME_ZONE_TYPE := ScalarType("ScalarTypeTimeZone", TimeZone, VARCHAR)
  const STRING_TYPE := ScalarType("ScalarTypeString", StringClass, VARCHAR)
  const CLASS_TYPE := ScalarType("ScalarTypeClass", ClassClass, VARCHAR)
  const HSTORE_TYPE := ScalarType("ScalarTypePostgresHstore", MapClass, HSTORE)
  const MATH_BIG_INTEGER_TYPE := ScalarType("ScalarTypeMathBigInteger", BigIntegerClass, BIGINT)
  const UUID_NATIVE_TYPE := ScalarType("ScalarTypeUUIDNative", UuidClass, UUID)
  const UUID_BINARY_TYPE := ScalarType("ScalarTypeUUIDBinary", UuidClass, BINARY)
  const UUID_VARCHAR_TYPE := ScalarType("ScalarTypeUUIDVarchar", UuidClass, VARCHAR)

  /** ServerConfig.DbUuid. */
  datatype DbUuid = Auto | Binary | Varchar

  /**
   * What the registry reads from ServerConfig and its DatabasePlatform. The boolean,
   * java.util.Date and Calendar types come from DefaultTypeFactory, which is given here.
   */
  datatype Config = Config(
    platformName: string,
    clobDbType: int,
    blobDbType: int,
    nativeUuidType: bool,
    dbUuid: DbUuid,
    jacksonPresent: bool,
    booleanType: ScalarType,
    utilDateType: ScalarType,
    calendarType: ScalarType,
    utilDateFor: int -> ScalarType,
    calendarFor: int -> ScalarType)

  const POSTGRE: string := "postgre"

  /** isPostgres: the platform's name, lower-cased, starts with "postgre". */
  predicate IsPostgres(platformName: string)
  {
    var lower := ToLowerAscii(platformName);
    |lower| >= 7 && lower[..7] == POSTGRE
  }

  /** A platform is Postgres exactly when its first seven characters, lower-cased, spell "postgre". */
  lemma IsPostgresChars(platformName: string)
    ensures IsPostgres(platformName) <==>
      (|platformName| >= 7 && forall i | 0 <= i < 7 :: LowerAscii(platformName[i]) == POSTGRE[i])
  {
    var lower := ToLowerAscii(platformName);
    if |platformName| >= 7 && forall i | 0 <= i < 7 :: LowerAscii(platformName[i]) == POSTGRE[i] {
      assert lower[..7] == POSTGRE;
    }
  }

  // ---------------------------------------------------------------------------
  // @DbJson types

  /** The five storage variants of a @DbJson Java type. */
  datatype JsonTypes = JsonTypes(varchar: ScalarType, blob: ScalarType, clob: ScalarType, json: ScalarType, jsonb: ScalarType)

  const JSON_MAP_CLOB := ScalarType("ScalarTypeJsonMap.Clob", MapClass, CLOB)

  /** The Map variants: on Postgres, JSON and JSONB have their own types; elsewhere both are the Clob one. */
  function JsonMapTypes(postgres: bool): (t: JsonTypes)
    ensures t.clob == JSON_MAP_CLOB
    ensures !postgres ==> t.json == JSON_MAP_CLOB && t.jsonb == JSON_MAP_CLOB
    ensures postgres ==> t.json.jdbcType == JSON && t.jsonb.jdbcType == JSONB && t.json != t.jsonb
  {
    JsonTypes(
      ScalarType("ScalarTypeJsonMap.Varchar", MapClass, VARCHAR),
      ScalarType("ScalarTypeJsonMap.Blob", MapClass, BLOB),
      JSON_MAP_CLOB,
      if postgres then ScalarType("ScalarTypeJsonMapPostgres.JSON", MapClass, JSON) else JSON_MAP_CLOB,
      if postgres then ScalarType("ScalarTypeJsonMapPostgres.JSONB", MapClass, JSONB) else JSON_MAP_CLOB)
  }

  /** The JsonNode variants, present only when Jackson is on the class path. */
  function JsonNodeTypes(jacksonPresent: bool, postgres: bool): (t: Option<JsonTypes>)
    ensures t.Some? <==> jacksonPresent
    ensures t.Some? && !postgres ==> t.value.json == t.value.clob && t.value.jsonb == t.value.clob
    ensures t.Some? && postgres ==> t.value.json.jdbcType == JSON && t.value.jsonb.jdbcType == JSONB
  {
    if !jacksonPresent then None
    else
      var clob := ScalarType("ScalarTypeJsonNode.Clob", JsonNode, CLOB);
      Some(JsonTypes(
        ScalarType("ScalarTypeJsonNode.Varchar", JsonNode, VARCHAR),
        ScalarType("ScalarTypeJsonNode.Blob", JsonNode, BLOB),
        clob,
        if postgres then ScalarType("ScalarTypeJsonNodePostgres.JSON", JsonNode, JSON) else clob,
        if postgres then ScalarType("ScalarTypeJsonNodePostgres.JSONB", JsonNode, JSONB) else clob))
  }

  /** The switch on the db type: VARCHAR, BLOB, CLOB and JSONB have their own variant, anything else is JSON. */
  function JsonStorage(types: JsonTypes, dbType: int): (r: ScalarType)
    ensures dbType == VARCHAR ==> r == types.varchar
    ensures dbType == BLOB ==> r == types.blob
    ensures dbType == CLOB ==> r == types.clob
    ensures dbType == JSONB ==> r == types.jsonb
    ensures dbType !in {VARCHAR, BLOB, CLOB, JSONB} ==> r == types.json
  {
    if dbType == VARCHAR then types.varchar
    else if dbType == BLOB then types.blob
    else if dbType == CLOB then types.clob
    else if dbType == JSONB then types.jsonb
    else types.json
  }

  /**
   * getJsonScalarType: Map and JsonNode select a storage variant (a JsonNode variant is
   * null without Jackson); any other Java type is rejected.
   */
  function JsonScalarType(mapTypes: JsonTypes, nodeTypes: Option<JsonTypes>, javaType: JavaType, dbType: int): (r: Result<Option<ScalarType>>)
    ensures javaType == MapClass ==> r == Ok(Some(JsonStorage(mapTypes, dbType)))
    ensures javaType == JsonNode && nodeTypes.Some? ==> r == Ok(Some(JsonStorage(nodeTypes.value, dbType)))
    ensures javaType == JsonNode && nodeTypes.None? ==> r == Ok(None)
    ensures javaType != MapClass && javaType != JsonNode ==>
      r == Err(IllegalArgumentException("unsupported for @DbJson mapping"))
  {
    if javaType == MapClass then Ok(Some(JsonStorage(mapTypes, dbType)))
    else if javaType == JsonNode then
      match nodeTypes
      case None => Ok(None)
      case Some(t) => Ok(Some(JsonStorage(t, dbType)))
    else Err(IllegalArgumentException("unsupported for @DbJson mapping"))
  }

  /** Off Postgres a @DbJson Map stored as JSON or JSONB is stored as a Clob. */
  lemma JsonMapOffPostgresIsClob(dbType: int)
    requires dbType != VARCHAR && dbType != BLOB
    ensures JsonScalarType(JsonMapTypes(false), None, MapClass, dbType) == Ok(Some(JSON_MAP_CLOB))
  {
  }

  // ---------------------------------------------------------------------------
  // Lookups over the maps

  const JODA_LOCAL_TIME_MESSAGE: string :=
    "ScalarType of Joda LocalTime not defined. You need to set ServerConfig.jodaLocalTimeMode to either 'normal' or 'utc'.  UTC is the old mode using UTC timezone but local time zone is now preferred as 'normal' mode."

  /** getScalarType(Class): the typeMap entry; a missing Joda LocalTime is a configuration error. */
  function ScalarTypeOf(typeMap: map<JavaType, ScalarType>, javaType: JavaType): (r: Result<Option<ScalarType>>)
    ensures javaType in typeMap ==> r == Ok(Some(typeMap[javaType]))
    ensures javaType !in typeMap && javaType != JodaLocalTime ==> r == Ok(None)
    ensures javaType !in typeMap && javaType == JodaLocalTime ==> r.Err? && r.error.IllegalStateException?
  {
    if javaType in typeMap then Ok(Some(typeMap[javaType]))
    else if javaType == JodaLocalTime then
      Err(IllegalStateException(JODA_LOCAL_TIME_MESSAGE))
    else Ok(None)
  }

  /**
   * getScalarType(Class, int): File first, then a native-map entry for the code, then the
   * typeMap entry if the code is 0 or its own, then newly created Date/Calendar types.
   */
  function ScalarTypeFor(config: Config, typeMap: map<JavaType, ScalarType>, nativeMap: map<int, ScalarType>,
                         javaType: JavaType, jdbcType: int): (r: Result<ScalarType>)
    ensures javaType == File ==> r == Ok(FILE_TYPE)
    ensures javaType != File && jdbcType in nativeMap ==> r == Ok(nativeMap[jdbcType])
    ensures r.Err? <==>
      javaType !in {File, UtilDate, Calendar} && jdbcType !in nativeMap &&
      (javaType !in typeMap || (jdbcType != 0 && typeMap[javaType].jdbcType != jdbcType))
    ensures r.Err? ==> r.error.IllegalArgumentException?
  {
    if javaType == File then Ok(FILE_TYPE)
    else if jdbcType in nativeMap then Ok(nativeMap[jdbcType])
    else if javaType in typeMap && (jdbcType == 0 || typeMap[javaType].jdbcType == jdbcType) then Ok(typeMap[javaType])
    else if javaType == UtilDate then Ok(config.utilDateFor(jdbcType))
    else if javaType == Calendar then Ok(config.calendarFor(jdbcType))
    else Err(IllegalArgumentException("Unmatched ScalarType"))
  }

  /** A type found through the typeMap agrees with a non-zero requested code. */
  lemma ScalarTypeForMatchesCode(config: Config, typeMap: map<JavaType, ScalarType>, nativeMap: map<int, ScalarType>,
                                 javaType: JavaType, jdbcType: int)
    requires javaType !in {File, UtilDate, Calendar} && jdbcType !in nativeMap && jdbcType != 0
    requires ScalarTypeFor(config, typeMap, nativeMap, javaType, jdbcType).Ok?
    ensures ScalarTypeFor(config, typeMap, nativeMap, javaType, jdbcType).value.jdbcType == jdbcType
  {
  }

  /** convert: null stays null; with no native type for the code the value is returned as it is. */
  function Convert<V>(nativeMap: map<int, ScalarType>, value: Option<V>, toJdbcType: int,
                      toJdbc: (ScalarType, V) -> V): (r: Option<V>)
    ensures value.None? ==> r.None?
    ensures value.Some? && toJdbcType !in nativeMap ==> r == value
    ensures value.Some? && toJdbcType in nativeMap ==> r == Some(toJdbc(nativeMap[toJdbcType], value.value))
  {
    match value
    case None => None
    case Some(v) => if toJdbcType in nativeMap then Some(toJdbc(nativeMap[toJdbcType], v)) else value
  }

  /** What getScalarDataReader hands out: a scalar type, a compound type, or a reader built by reflection. */
  datatype ScalarDataReader =
    | Scalar(scalarType: ScalarType)
    | Compound(compound: CtCompoundType)
    | Reflected(javaType: JavaType)

  /** CtCompoundType: the compound class and one reader per compound property. */
  datatype CtCompoundType = CtCompoundType(javaType: JavaType, readers: seq<ScalarDataReader>)

  /** A property of a CompoundType: its Java type and its getDbType(). */
  datatype CompoundProperty = CompoundProperty(propertyType: JavaType, dbType: int)

  /** getScalarDataReader(Class): typeMap first, then compoundTypeMap. */
  function ReaderOf(typeMap: map<JavaType, ScalarType>, compoundTypeMap: map<JavaType, CtCompoundType>,
                    javaType: JavaType): (r: Option<ScalarDataReader>)
    ensures javaType in typeMap ==> r == Some(Scalar(typeMap[javaType]))
    ensures javaType !in typeMap && javaType in compoundTypeMap ==> r == Some(Compound(compoundTypeMap[javaType]))
    ensures r.None? <==> javaType !in typeMap && javaType !in compoundTypeMap
  {
    if javaType in typeMap then Some(Scalar(typeMap[javaType]))
    else if javaType in compoundTypeMap then Some(Compound(compoundTypeMap[javaType]))
    else None
  }

  predicate CustomMatches(st: ScalarType, javaType: JavaType, sqlType: int)
  {
    st.jdbcType == sqlType && st.javaType == javaType
  }

  /** The first custom scalar type, in registration order, with the given code and Java type. */
  function FirstCustom(customs: seq<ScalarType>, javaType: JavaType, sqlType: int): Option<ScalarType>
  {
    if |customs| == 0 then None
    else if CustomMatches(customs[0], javaType, sqlType) then Some(customs[0])
    else FirstCustom(customs[1..], javaType, sqlType)
  }

  lemma {:induction false} FirstCustomSpec(customs: seq<ScalarType>, javaType: JavaType, sqlType: int)
    ensures FirstCustom(customs, javaType, sqlType).None? <==>
      forall i | 0 <= i < |customs| :: !CustomMatches(customs[i], javaType, sqlType)
    ensures FirstCustom(customs, javaType, sqlType).Some? ==>
      exists i | 0 <= i < |customs| ::
        FirstCustom(customs, javaType, sqlType).value == customs[i] && CustomMatches(customs[i], javaType, sqlType) &&
        forall j | 0 <= j < i :: !CustomMatches(customs[j], javaType, sqlType)
  {
    if |customs| > 0 && !CustomMatches(customs[0], javaType, sqlType) {
      FirstCustomSpec(customs[1..], javaType, sqlType);
      var r := FirstCustom(customs, javaType, sqlType);
      if r.Some? {
        var i :| 0 <= i < |customs[1..]| && r.value == customs[1..][i] && CustomMatches(customs[1..][i], javaType, sqlType) &&
          forall j | 0 <= j < i :: !CustomMatches(customs[1..][j], javaType, sqlType);
        assert forall j | 1 <= j < i + 1 :: customs[j] == customs[1..][j - 1];
      }
      assert forall i | 1 <= i < |customs| :: customs[i] == customs[1..][i - 1];
    }
  }

  /**
   * getScalarDataReader(Class, int): code 0 goes to the recursive creation (a registered
   * reader, else one built by reflection); any other code needs a matching custom type.
   */
  function ReaderFor(typeMap: map<JavaType, ScalarType>, compoundTypeMap: map<JavaType, CtCompoundType>,
                     customs: seq<ScalarType>, javaType: JavaType, sqlType: int): Result<ScalarDataReader>
  {
    if sqlType == 0 then
      match ReaderOf(typeMap, compoundTypeMap, javaType)
      case Some(reader) => Ok(reader)
      case None => Ok(Reflected(javaType))
    else
      match FirstCustom(customs, javaType, sqlType)
      case Some(st) => Ok(Scalar(st))
      case None => Err(RuntimeException("Unable to find a custom ScalarType"))
  }

  // ---------------------------------------------------------------------------
  // isIntegerType and the enum mappings

  /** isLeadingZeros: more than one character and a '0' first. */
  predicate IsLeadingZeros(s: JString)
  {
    |s| > 1 && s[0] == ZERO
  }

  /** isIntegerType: no leading zero, and Integer.parseInt accepts it. */
  predicate IsIntegerType(s: JString)
  {
    !IsLeadingZeros(s) && ParseInt(s).Ok?
  }

  /** The text Integer.toString gives of any int counts as an integer value, and parses back to it. */
  lemma CanonicalTextIsIntegerType(v: Int32)
    ensures IsIntegerType(ToDecimal(v)) && ParseInt(ToDecimal(v)) == Ok(v)
  {
    ParseDecimalOfToDecimal(v);
  }

  /** A value with a leading zero, such as "007", is treated as text whatever it parses to. */
  lemma LeadingZerosAreText(s: JString)
    requires |s| > 1 && s[0] == ZERO
    ensures !IsIntegerType(s)
  {
  }

  lemma IntegerTypeExamples()
    ensures IsIntegerType([ZERO]) && IsIntegerType([MINUS, ZERO + 7])
    ensures !IsIntegerType([ZERO, ZERO + 7]) && !IsIntegerType([]) && !IsIntegerType([65])
  {
    assert [MINUS, ZERO + 7][1..] == [ZERO + 7];
    assert [ZERO + 7][..0] == [];
    assert DigitsValue([ZERO + 7]) == 7;
    assert ParseDecimal([MINUS, ZERO + 7]) == Some(-7);
  }

  /** A field of an enum class and the value of its @EnumValue, when it has one. */
  datatype EnumField = EnumField(name: string, enumValue: Option<JString>)

  /** ScalarTypeEnumWithMapping: the integer flag, the name-to-value mapping and the column length. */
  datatype EnumScalarType = EnumScalarType(integerType: bool, nameValueMap: map<string, JString>, length: int)

  /** The name-to-value map createEnumScalarType2 builds from the annotated fields. */
  function AnnotatedValues(fields: seq<EnumField>): map<string, JString>
  {
    if |fields| == 0 then map[]
    else
      var init := AnnotatedValues(fields[..|fields| - 1]);
      var f := fields[|fields| - 1];
      if f.enumValue.Some? then init[f.name := f.enumValue.value] else init
  }

  /** Every annotated value passes isIntegerType. */
  predicate AllIntegerValues(fields: seq<EnumField>)
  {
    forall i | 0 <= i < |fields| && fields[i].enumValue.Some? :: IsIntegerType(fields[i].enumValue.value)
  }

  lemma {:induction false} AnnotatedValuesEmpty(fields: seq<EnumField>)
    ensures AnnotatedValues(fields) == map[] <==> forall i | 0 <= i < |fields| :: fields[i].enumValue.None?
  {
    if |fields| > 0 {
      var f := fields[|fields| - 1];
      AnnotatedValuesEmpty(fields[..|fields| - 1]);
      assert forall i | 0 <= i < |fields| - 1 :: fields[..|fields| - 1][i] == fields[i];
      if f.enumValue.Some? {
        assert f.name in AnnotatedValues(fields);
      }
    }
  }

  /** n is the greatest value length in m, 0 for an empty map. */
  predicate IsMaxValueLength(m: map<string, JString>, n: int)
  {
    (forall k | k in m :: |m[k]| <= n) && (if m == map[] then n == 0 else exists k | k in m :: |m[k]| == n)
  }

  /**
   * createEnumScalarType(Class, Map, boolean, int): every trimmed name must be a constant of
   * the enum; the column length is the longest value when no length is given for a text mapping.
   */
  method CreateEnumScalarType(enumConstants: set<string>, nameValueMap: map<string, JString>, integerType: bool,
                              dbColumnLength: int) returns (r: Result<EnumScalarType>)
    ensures r.Err? <==> exists name | name in nameValueMap :: Trim(name) !in enumConstants
    ensures r.Err? ==> r.error == IllegalArgumentException("No enum constant")
    ensures r.Ok? ==> r.value.integerType == integerType && r.value.nameValueMap == nameValueMap
    ensures r.Ok? && dbColumnLength == 0 && !integerType ==> IsMaxValueLength(nameValueMap, r.value.length)
    ensures r.Ok? && !(dbColumnLength == 0 && !integerType) ==> r.value.length == dbColumnLength
  {
    var maxValueLen := 0;
    var remaining := nameValueMap.Keys;
    while remaining != {}
      invariant remaining <= nameValueMap.Keys
      invariant forall k | k in nameValueMap && k !in remaining :: |nameValueMap[k]| <= maxValueLen
      invariant forall k | k in nameValueMap && k !in remaining :: Trim(k) in enumConstants
      invariant maxValueLen == 0 || exists k | k in nameValueMap && k !in remaining :: |nameValueMap[k]| == maxValueLen
      invariant maxValueLen >= 0
      decreases |remaining|
    {
      var name :| name in remaining;
      var value := nameValueMap[name];
      if |value| > maxValueLen {
        maxValueLen := |value|;
      }
      if Trim(name) !in enumConstants {
        return Err(IllegalArgumentException("No enum constant"));
      }
      remaining := remaining - {name};
    }
    var length := dbColumnLength;
    if dbColumnLength == 0 && !integerType {
      length := maxValueLen;
      if nameValueMap != map[] && maxValueLen == 0 {
        var k :| k in nameValueMap;
        assert |nameValueMap[k]| == 0;
      }
    }
    return Ok(EnumScalarType(integerType, nameValueMap, length));
  }

  /**
   * createEnumScalarType2: collects the @EnumValue values of the fields; the mapping is
   * integer-typed iff every value passes isIntegerType; no annotated field gives null.
   */
  method CreateEnumScalarType2(enumConstants: set<string>, fields: seq<EnumField>) returns (r: Result<Option<EnumScalarType>>)
    ensures (forall i | 0 <= i < |fields| :: fields[i].enumValue.None?) ==> r == Ok(None)
    ensures (exists i | 0 <= i < |fields| :: fields[i].enumValue.Some?) && r.Ok? ==> r.value.Some?
    ensures r.Ok? && r.value.Some? ==>
      r.value.value.integerType == AllIntegerValues(fields) &&
      r.value.value.nameValueMap == AnnotatedValues(fields) &&
      (r.value.value.integerType ==> r.value.value.length == 0) &&
      (!r.value.value.integerType ==> IsMaxValueLength(AnnotatedValues(fields), r.value.value.length))
    ensures r.Err? <==> exists name | name in AnnotatedValues(fields) :: Trim(name) !in enumConstants
  {
    var integerType := true;
    var nameValueMap: map<string, JString> := map[];
    var i := 0;
    while i < |fields|
      invariant 0 <= i <= |fields|
      invariant nameValueMap == AnnotatedValues(fields[..i])
      invariant integerType == AllIntegerValues(fields[..i])
    {
      assert fields[..i + 1][..i] == fields[..i];
      var enumValue := fields[i].enumValue;
      if enumValue.Some? {
        nameValueMap := nameValueMap[fields[i].name := enumValue.value];
        if integerType && !IsIntegerType(enumValue.value) {
          integerType := false;
        }
      }
      i := i + 1;
    }
    assert fields[..i] == fields;
    AnnotatedValuesEmpty(fields);
    if nameValueMap == map[] {
      return Ok(None);
    }
    var st := CreateEnumScalarType(enumConstants, nameValueMap, integerType, 0);
    match st
    case Err(e) => return Err(e);
    case Ok(t) => return Ok(Some(t));
  }

  // ---------------------------------------------------------------------------
  // initialiseStandard

  /** The UUID type: native when the platform has one and DbUuid is AUTO, else binary or varchar. */
  function UuidType(config: Config): (t: ScalarType)
    ensures t.javaType == UuidClass
    ensures config.nativeUuidType && config.dbUuid == Auto ==> t == UUID_NATIVE_TYPE
    ensures !(config.nativeUuidType && config.dbUuid == Auto) ==>
      t == (if config.dbUuid == Binary then UUID_BINARY_TYPE else UUID_VARCHAR_TYPE)
  {
    if config.nativeUuidType && config.dbUuid == Auto then UUID_NATIVE_TYPE
    else if config.dbUuid == Binary then UUID_BINARY_TYPE
    else UUID_VARCHAR_TYPE
  }

  /** The Java-type registrations made before the platform's Clob type is resolved. */
  function TypesBeforeClob(config: Config): map<JavaType, ScalarType>
  {
    map[UtilDate := config.utilDateType, Calendar := config.calendarType, BigIntegerClass := MATH_BIG_INTEGER_TYPE,
        BooleanBox := config.booleanType, BooleanPrim := config.booleanType, UuidClass := UuidType(config),
        File := FILE_TYPE, InetAddress := INET_ADDRESS_TYPE, Locale := LOCALE_TYPE, Currency := CURRENCY_TYPE,
        TimeZone := TIME_ZONE_TYPE, Url := URL_TYPE, Uri := URI_TYPE,
        CharArray := CHAR_ARRAY_TYPE, CharPrim := CHAR_TYPE, StringClass := STRING_TYPE, ClassClass := CLASS_TYPE]
  }

  /** The Java-type registrations made between the Clob and the Blob resolution. */
  function TypesBeforeBlob(): map<JavaType, ScalarType>
  {
    map[ByteArray := VARBINARY_TYPE]
  }

  /** The Java-type registrations made after the Blob resolution. */
  function TypesAfterBlob(): map<JavaType, ScalarType>
  {
    map[ByteBox := BYTE_TYPE, BytePrim := BYTE_TYPE, ShortBox := SHORT_TYPE, ShortPrim := SHORT_TYPE,
        IntegerBox := INTEGER_TYPE, IntPrim := INTEGER_TYPE, LongBox := LONG_TYPE, LongPrim := LONG_TYPE,
        DoubleBox := DOUBLE_TYPE, DoublePrim := DOUBLE_TYPE, FloatBox := FLOAT_TYPE, FloatPrim := FLOAT_TYPE,
        BigDecimalClass := BIG_DECIMAL_TYPE, SqlTime := TIME_TYPE, SqlDate := DATE_TYPE, SqlTimestamp := TIMESTAMP_TYPE]
  }

  /** The code registrations made before the Clob resolution; BIT only for a BIT boolean type. */
  function NativeBeforeClob(config: Config): map<int, ScalarType>
  {
    var m := map[HSTORE := HSTORE_TYPE, BOOLEAN := config.booleanType];
    var m := if config.booleanType.jdbcType == BIT then m[BIT := config.booleanType] else m;
    m[VARCHAR := STRING_TYPE][CHAR := STRING_TYPE][LONGVARCHAR := LONG_VARCHAR_TYPE]
  }

  function NativeBeforeBlob(clob: ScalarType): map<int, ScalarType>
  {
    map[CLOB := clob, BINARY := BINARY_TYPE, VARBINARY := VARBINARY_TYPE, LONGVARBINARY := LONG_VARBINARY_TYPE]
  }

  /** FLOAT goes to the double type and REAL to the float type, as the source intends. */
  function NativeAfterBlob(blob: ScalarType): map<int, ScalarType>
  {
    map[BLOB := blob, TINYINT := BYTE_TYPE, SMALLINT := SHORT_TYPE, INTEGER := INTEGER_TYPE, BIGINT := LONG_TYPE,
        FLOAT := DOUBLE_TYPE, DOUBLE := DOUBLE_TYPE, REAL := FLOAT_TYPE, DECIMAL := BIG_DECIMAL_TYPE,
        NUMERIC := BIG_DECIMAL_TYPE, TIME := TIME_TYPE, DATE := DATE_TYPE, TIMESTAMP := TIMESTAMP_TYPE]
  }

  /**
   * The scalar type a platform's Clob or Blob code resolves to: the standard type when the
   * code is the standard one, else whatever is already registered for it, else nothing.
   */
  function PlatformType(code: int, standardCode: int, standardType: ScalarType, nativeMap: map<int, ScalarType>): (r: Option<ScalarType>)
    ensures code == standardCode ==> r == Some(standardType)
    ensures code != standardCode ==> (r.Some? <==> code in nativeMap) && (r.Some? ==> r.value == nativeMap[code])
  {
    if code == standardCode then Some(standardType)
    else if code in nativeMap then Some(nativeMap[code])
    else None
  }

  /** A Postgres-like platform whose Clobs are VARCHAR and Blobs LONGVARBINARY registers those types under CLOB and BLOB. */
  lemma PlatformAliases(config: Config, before: map<int, ScalarType>)
    requires config.clobDbType == VARCHAR && config.blobDbType == LONGVARBINARY
    ensures var m1 := before + NativeBeforeClob(config);
      PlatformType(config.clobDbType, CLOB, CLOB_TYPE, m1) == Some(STRING_TYPE) &&
      PlatformType(config.blobDbType, BLOB, BLOB_TYPE, m1 + NativeBeforeBlob(STRING_TYPE)) == Some(LONG_VARBINARY_TYPE)
  {
  }

  // ---------------------------------------------------------------------------
  // The registry

  class TypeManager {
    const config: Config
    const jsonMapTypes: JsonTypes
    const jsonNodeTypes: Option<JsonTypes>
    var typeMap: map<JavaType, ScalarType>
    var nativeMap: map<int, ScalarType>
    var compoundTypeMap: map<JavaType, CtCompoundType>
    var customScalarTypes: seq<ScalarType>

    /** The fields the constructor sets; the registrations follow in the Initialise methods. */
    constructor(config: Config)
      ensures this.config == config
      ensures jsonMapTypes == JsonMapTypes(IsPostgres(config.platformName))
      ensures jsonNodeTypes == JsonNodeTypes(config.jacksonPresent, IsPostgres(config.platformName))
      ensures typeMap == map[] && nativeMap == map[] && compoundTypeMap == map[] && customScalarTypes == []
    {
      this.config := config;
      var postgres := IsPostgres(config.platformName);
      jsonMapTypes := JsonMapTypes(postgres);
      jsonNodeTypes := JsonNodeTypes(config.jacksonPresent, postgres);
      typeMap := map[];
      nativeMap := map[];
      compoundTypeMap := map[];
      customScalarTypes := [];
    }

    /**
     * initialiseStandard: the standard registrations, in source order. A platform Clob or
     * Blob code that is neither the standard one nor registered by then is an error, which
     * leaves the registrations made up to that point.
     */
    method InitialiseStandard() returns (r: Outcome)
      modifies this`typeMap, this`nativeMap
      ensures var m1 := old(nativeMap) + NativeBeforeClob(config);
        var clob := PlatformType(config.clobDbType, CLOB, CLOB_TYPE, m1);
        if clob.None? then
          r == Fail(IllegalArgumentException("Type for dbPlatform clobType not found.")) &&
          typeMap == old(typeMap) + TypesBeforeClob(config) && nativeMap == m1
        else
          var m2 := m1 + NativeBeforeBlob(clob.value);
          var blob := PlatformType(config.blobDbType, BLOB, BLOB_TYPE, m2);
          if blob.None? then
            r == Fail(IllegalArgumentException("Type for dbPlatform blobType not found.")) &&
            typeMap == old(typeMap) + TypesBeforeClob(config) + TypesBeforeBlob() && nativeMap == m2
          else
            r == Pass && nativeMap == m2 + NativeAfterBlob(blob.value) &&
            typeMap == old(typeMap) + TypesBeforeClob(config) + TypesBeforeBlob() + TypesAfterBlob()
    {
      RegisterBeforeClob();
      var clob := PlatformType(config.clobDbType, CLOB, CLOB_TYPE, nativeMap);
      if clob.None? {
        return Fail(IllegalArgumentException("Type for dbPlatform clobType not found."));
      }
      RegisterBinary(clob.value);
      var blob := PlatformType(config.blobDbType, BLOB, BLOB_TYPE, nativeMap);
      if blob.None? {
        return Fail(IllegalArgumentException("Type for dbPlatform blobType not found."));
      }
      RegisterAfterBlob(blob.value);
      return Pass;
    }

    /** Dates, BigInteger, booleans, UUID, the value types and the string types, in that order. */
    method RegisterBeforeClob()
      modifies this`typeMap, this`nativeMap
      ensures typeMap == old(typeMap) + TypesBeforeClob(config)
      ensures nativeMap == old(nativeMap) + NativeBeforeClob(config)
    {
      typeMap := typeMap + TypesBeforeClob(config);
      nativeMap := nativeMap + NativeBeforeClob(config);
    }

    /** The binary types, with the platform's Clob type under CLOB. */
    method RegisterBinary(clob: ScalarType)
      modifies this`typeMap, this`nativeMap
      ensures typeMap == old(typeMap) + TypesBeforeBlob()
      ensures nativeMap == old(nativeMap) + NativeBeforeBlob(clob)
    {
      typeMap := typeMap + TypesBeforeBlob();
      nativeMap := nativeMap + NativeBeforeBlob(clob);
    }

    /** The number and temporal types, with the platform's Blob type under BLOB. */
    method RegisterAfterBlob(blob: ScalarType)
      modifies this`typeMap, this`nativeMap
      ensures typeMap == old(typeMap) + TypesAfterBlob()
      ensures nativeMap == old(nativeMap) + NativeAfterBlob(blob)
    {
      typeMap := typeMap + TypesAfterBlob();
      nativeMap := nativeMap + NativeAfterBlob(blob);
    }

    /** initialiseJacksonTypes: with Jackson present, JsonNode defaults to its JSON variant. */
    method InitialiseJacksonTypes()
      modifies this
      ensures jsonNodeTypes.Some? ==> typeMap == old(typeMap)[JsonNode := jsonNodeTypes.value.json]
      ensures jsonNodeTypes.None? ==> typeMap == old(typeMap)
      ensures nativeMap == old(nativeMap) && compoundTypeMap == old(compoundTypeMap)
      ensures customScalarTypes == old(customScalarTypes)
    {
      if jsonNodeTypes.Some? {
        typeMap := typeMap[JsonNode := jsonNodeTypes.value.json];
      }
    }

    /** add: registers the type under its own Java type, replacing any earlier entry. */
    method Add(scalarType: ScalarType)
      modifies this
      ensures typeMap == old(typeMap)[scalarType.javaType := scalarType]
      ensures nativeMap == old(nativeMap) && compoundTypeMap == old(compoundTypeMap)
      ensures customScalarTypes == old(customScalarTypes)
    {
      typeMap := typeMap[scalarType.javaType := scalarType];
    }

    /**
     * initialiseCustomScalarTypes with the found types already instantiated: the
     * long-to-timestamp type is searched first, then each found type, each one also added.
     */
    method InitialiseCustomScalarTypes(longToTimestamp: ScalarType, found: seq<ScalarType>)
      modifies this
      ensures customScalarTypes == old(customScalarTypes) + [longToTimestamp] + found
      ensures typeMap == AddAll(old(typeMap), found)
      ensures nativeMap == old(nativeMap) && compoundTypeMap == old(compoundTypeMap)
    {
      customScalarTypes := customScalarTypes + [longToTimestamp];
      var i := 0;
      while i < |found|
        invariant 0 <= i <= |found|
        invariant customScalarTypes == old(customScalarTypes) + [longToTimestamp] + found[..i]
        invariant typeMap == AddAll(old(typeMap), found[..i])
        invariant nativeMap == old(nativeMap) && compoundTypeMap == old(compoundTypeMap)
      {
        assert found[..i + 1][..i] == found[..i];
        assert found[..i + 1] == found[..i] + [found[i]];
        Add(found[i]);
        customScalarTypes := customScalarTypes + [found[i]];
        i := i + 1;
      }
      assert found[..i] == found;
    }

    /** initialiseStandard on the empty registries of a new manager, as the constructor runs it. */
    method InitialiseStandardFromEmpty() returns (r: Outcome)
      requires typeMap == map[] && nativeMap == map[]
      modifies this`typeMap, this`nativeMap
      ensures r.Fail? <==> StandardNatives(config).Err?
      ensures r.Fail? ==> r.error == StandardNatives(config).error
      ensures r.Pass? ==> nativeMap == StandardNatives(config).value && typeMap == StandardTypeMap(config)
    {
      r := InitialiseStandard();
      StandardFromEmpty(config, r, typeMap, nativeMap);
    }

    /**
     * initialiseJavaTimeTypes and initialiseJodaTypes: the java.time and Joda registrations,
     * as the class path decides them, each put into the typeMap.
     */
    method RegisterTimeTypes(timeTypes: map<JavaType, ScalarType>)
      modifies this`typeMap
      ensures typeMap == old(typeMap) + timeTypes
    {
      typeMap := typeMap + timeTypes;
    }

    /**
     * The DefaultTypeManager constructor: the fields, then initialiseStandard, the java.time
     * and Joda types, initialiseJacksonTypes and, when there are bootup classes,
     * initialiseCustomScalarTypes. A platform Clob or Blob code that initialiseStandard
     * cannot resolve makes the constructor throw.
     */
    static method Create(config: Config, timeTypes: map<JavaType, ScalarType>, bootup: Option<BootupScalarTypes>)
      returns (r: Result<TypeManager>)
      ensures r.Err? <==> StandardNatives(config).Err?
      ensures r.Err? ==> r.error == StandardNatives(config).error
      ensures r.Ok? ==>
        fresh(r.value) && r.value.config == config &&
        r.value.jsonMapTypes == JsonMapTypes(IsPostgres(config.platformName)) &&
        r.value.jsonNodeTypes == JsonNodeTypes(config.jacksonPresent, IsPostgres(config.platformName)) &&
        r.value.nativeMap == StandardNatives(config).value &&
        r.value.typeMap == InitialTypeMap(config, timeTypes, bootup) &&
        r.value.compoundTypeMap == map[] &&
        r.value.customScalarTypes == InitialCustomTypes(bootup)
    {
      var manager := new TypeManager(config);
      var standard := manager.InitialiseStandardFromEmpty();
      if standard.Fail? {
        return Err(standard.error);
      }
      manager.InitialiseAfterStandard(timeTypes, bootup);
      return Ok(manager);
    }

    /**
     * What the constructor does after initialiseStandard: the java.time and Joda types,
     * initialiseJacksonTypes and, when there are bootup classes, initialiseCustomScalarTypes.
     */
    method InitialiseAfterStandard(timeTypes: map<JavaType, ScalarType>, bootup: Option<BootupScalarTypes>)
      modifies this
      ensures typeMap == WithBootup(WithTimeAndJackson(old(typeMap), timeTypes, jsonNodeTypes), bootup)
      ensures nativeMap == old(nativeMap) && compoundTypeMap == old(compoundTypeMap)
      ensures customScalarTypes == old(customScalarTypes) + InitialCustomTypes(bootup)
    {
      RegisterTimeTypes(timeTypes);
      InitialiseJacksonTypes();
      if bootup.Some? {
        InitialiseCustomScalarTypes(bootup.value.longToTimestamp, bootup.value.found);
      }
    }

    /** getScalarType(int). */
    function ScalarTypeByCode(jdbcType: int): (r: Option<ScalarType>)
      reads this
      ensures r.Some? <==> jdbcType in nativeMap
      ensures r.Some? ==> r.value == nativeMap[jdbcType]
    {
      if jdbcType in nativeMap then Some(nativeMap[jdbcType]) else None
    }

    /** getScalarType(Class). */
    function GetScalarType(javaType: JavaType): (r: Result<Option<ScalarType>>)
      reads this
      ensures r == ScalarTypeOf(typeMap, javaType)
    {
      ScalarTypeOf(typeMap, javaType)
    }

    /** getScalarType(Class, int). */
    function GetScalarTypeFor(javaType: JavaType, jdbcType: int): (r: Result<ScalarType>)
      reads this
      ensures r == ScalarTypeFor(config, typeMap, nativeMap, javaType, jdbcType)
    {
      ScalarTypeFor(config, typeMap, nativeMap, javaType, jdbcType)
    }

    /** getJsonScalarType. */
    function GetJsonScalarType(javaType: JavaType, dbType: int): (r: Result<Option<ScalarType>>)
      ensures r == JsonScalarType(jsonMapTypes, jsonNodeTypes, javaType, dbType)
    {
      JsonScalarType(jsonMapTypes, jsonNodeTypes, javaType, dbType)
    }

    /** getScalarDataReader(Class). */
    function GetScalarDataReader(javaType: JavaType): (r: Option<ScalarDataReader>)
      reads this
      ensures r == ReaderOf(typeMap, compoundTypeMap, javaType)
    {
      ReaderOf(typeMap, compoundTypeMap, javaType)
    }

    /** getScalarDataReader(Class, int): the first custom type matching code and Java type, by an index loop. */
    method GetScalarDataReaderFor(javaType: JavaType, sqlType: int) returns (r: Result<ScalarDataReader>)
      ensures r == ReaderFor(typeMap, compoundTypeMap, customScalarTypes, javaType, sqlType)
      ensures sqlType != 0 && r.Ok? ==> exists i | 0 <= i < |customScalarTypes| ::
        r.value == Scalar(customScalarTypes[i]) && CustomMatches(customScalarTypes[i], javaType, sqlType) &&
        forall j | 0 <= j < i :: !CustomMatches(customScalarTypes[j], javaType, sqlType)
      ensures sqlType != 0 ==>
        (r.Err? <==> forall i | 0 <= i < |customScalarTypes| :: !CustomMatches(customScalarTypes[i], javaType, sqlType))
    {
      FirstCustomSpec(customScalarTypes, javaType, sqlType);
      if sqlType == 0 {
        var reader := GetScalarDataReader(javaType);
        if reader.Some? {
          return Ok(reader.value);
        }
        return Ok(Reflected(javaType));
      }
      var i := 0;
      while i < |customScalarTypes|
        invariant 0 <= i <= |customScalarTypes|
        invariant FirstCustom(customScalarTypes, javaType, sqlType) == FirstCustom(customScalarTypes[i..], javaType, sqlType)
      {
        assert customScalarTypes[i..][1..] == customScalarTypes[i + 1..];
        var custom := customScalarTypes[i];
        if sqlType == custom.jdbcType && javaType == custom.javaType {
          return Ok(Scalar(custom));
        }
        i := i + 1;
      }
      return Err(RuntimeException("Unable to find a custom ScalarType"));
    }

    /**
     * createCompoundScalarDataReader: an already registered compound type is returned and
     * the map is left alone; otherwise each property gets its reader, and the new compound
     * type is registered.
     */
    method CreateCompoundScalarDataReader(compoundClass: JavaType, properties: seq<CompoundProperty>)
      returns (r: Result<CtCompoundType>)
      modifies this
      ensures typeMap == old(typeMap) && nativeMap == old(nativeMap) && customScalarTypes == old(customScalarTypes)
      ensures compoundClass in old(compoundTypeMap) ==>
        r == Ok(old(compoundTypeMap)[compoundClass]) && compoundTypeMap == old(compoundTypeMap)
      ensures compoundClass !in old(compoundTypeMap) && r.Ok? ==>
        compoundTypeMap == old(compoundTypeMap)[compoundClass := r.value] &&
        r.value.javaType == compoundClass && |r.value.readers| == |properties| &&
        forall i | 0 <= i < |properties| ::
          Ok(r.value.readers[i]) == ReaderFor(typeMap, old(compoundTypeMap), customScalarTypes,
                                              properties[i].propertyType, properties[i].dbType)
      ensures compoundClass !in old(compoundTypeMap) && r.Err? ==>
        compoundTypeMap == old(compoundTypeMap) &&
        exists i | 0 <= i < |properties| ::
          ReaderFor(typeMap, compoundTypeMap, customScalarTypes, properties[i].propertyType, properties[i].dbType).Err?
    {
      if compoundClass in compoundTypeMap {
        return Ok(compoundTypeMap[compoundClass]);
      }
      var readers: seq<ScalarDataReader> := [];
      var i := 0;
      while i < |properties|
        invariant 0 <= i <= |properties| && |readers| == i
      invariant typeMap == old(typeMap) && nativeMap == old(nativeMap) && customScalarTypes == old(customScalarTypes)
      invariant compoundTypeMap == old(compoundTypeMap)
        invariant forall j | 0 <= j < i ::
          Ok(readers[j]) == ReaderFor(typeMap, compoundTypeMap, customScalarTypes, properties[j].propertyType, properties[j].dbType)
      {
        var reader := GetScalarDataReaderFor(properties[i].propertyType, properties[i].dbType);
        if reader.Err? {
          return Err(reader.error);
        }
        readers := readers + [reader.value];
        i := i + 1;
      }
      var ctType := CtCompoundType(compoundClass, readers);
      compoundTypeMap := compoundTypeMap[compoundClass := ctType];
      return Ok(ctType);
    }
  }

  /** The typeMap after add of each type in turn. */
  function AddAll(typeMap: map<JavaType, ScalarType>, types: seq<ScalarType>): map<JavaType, ScalarType>
  {
    if |types| == 0 then typeMap
    else AddAll(typeMap, types[..|types| - 1])[types[|types| - 1].javaType := types[|types| - 1]]
  }

  /** After adding types, a Java type one of them is for maps to the last type added for it. */
  lemma {:induction false} AddAllLastWins(typeMap: map<JavaType, ScalarType>, types: seq<ScalarType>, t: JavaType)
    requires exists i | 0 <= i < |types| :: types[i].javaType == t
    ensures t in AddAll(typeMap, types)
    ensures exists i | 0 <= i < |types| ::
      (types[i].javaType == t && AddAll(typeMap, types)[t] == types[i] &&
       forall j | i < j < |types| :: types[j].javaType != t)
  {
    var last := |types| - 1;
    if types[last].javaType != t {
      var init := types[..last];
      var k :| 0 <= k < |types| && types[k].javaType == t;
      assert init[k].javaType == t;
      AddAllLastWins(typeMap, init, t);
      var i :| 0 <= i < |init| &&
        (init[i].javaType == t && AddAll(typeMap, init)[t] == init[i] &&
         forall j | i < j < |init| :: init[j].javaType != t);
      assert forall j | i < j < |types| :: types[j].javaType != t by {
        forall j | i < j < |types| ensures types[j].javaType != t {
          if j < last {
            assert init[j] == types[j];
          }
        }
      }
      assert types[i] == init[i];
    }
  }

  /** After adding types none of which is for a Java type, that type maps to what it had, if anything. */
  lemma {:induction false} AddAllOthers(typeMap: map<JavaType, ScalarType>, types: seq<ScalarType>, t: JavaType)
    requires forall i | 0 <= i < |types| :: types[i].javaType != t
    ensures t in AddAll(typeMap, types) <==> t in typeMap
    ensures t in typeMap ==> AddAll(typeMap, types)[t] == typeMap[t]
  {
    if |types| > 0 {
      var init := types[..|types| - 1];
      assert forall i | 0 <= i < |init| :: init[i] == types[i];
      AddAllOthers(typeMap, init, t);
    }
  }

  /** The registry a successful standard registration builds on a Clob/Blob platform, from empty. */
  function StandardTypeMap(config: Config): map<JavaType, ScalarType>
  {
    TypesBeforeClob(config) + TypesBeforeBlob() + TypesAfterBlob()
  }

  function StandardNativeMap(config: Config): map<int, ScalarType>
  {
    NativeBeforeClob(config) + NativeBeforeBlob(CLOB_TYPE) + NativeAfterBlob(BLOB_TYPE)
  }

  /**
   * The custom types found among the bootup classes, already instantiated (a class that
   * fails to instantiate is logged and skipped), and the long-to-timestamp type searched
   * before them.
   */
  datatype BootupScalarTypes = BootupScalarTypes(longToTimestamp: ScalarType, found: seq<ScalarType>)

  /** The nativeMap initialiseStandard builds from empty, or the exception it throws. */
  function StandardNatives(config: Config): (r: Result<map<int, ScalarType>>)
    ensures r.Err? ==> r.error.IllegalArgumentException?
  {
    var m1 := NativeBeforeClob(config);
    var clob := PlatformType(config.clobDbType, CLOB, CLOB_TYPE, m1);
    if clob.None? then Err(IllegalArgumentException("Type for dbPlatform clobType not found."))
    else
      var m2 := m1 + NativeBeforeBlob(clob.value);
      var blob := PlatformType(config.blobDbType, BLOB, BLOB_TYPE, m2);
      if blob.None? then Err(IllegalArgumentException("Type for dbPlatform blobType not found."))
      else Ok(m2 + NativeAfterBlob(blob.value))
  }

  /** The typeMap m after the time types and, with Jackson, the JsonNode default are put. */
  function WithTimeAndJackson(m: map<JavaType, ScalarType>, timeTypes: map<JavaType, ScalarType>,
                              nodeTypes: Option<JsonTypes>): map<JavaType, ScalarType>
  {
    match nodeTypes
    case Some(n) => (m + timeTypes)[JsonNode := n.json]
    case None => m + timeTypes
  }

  /** The typeMap m after the bootup types, when there are any, are added in turn. */
  function WithBootup(m: map<JavaType, ScalarType>, bootup: Option<BootupScalarTypes>): map<JavaType, ScalarType>
  {
    match bootup
    case Some(b) => AddAll(m, b.found)
    case None => m
  }

  /** The typeMap after the standard, time and JsonNode registrations. */
  function TypeMapBeforeBootup(config: Config, timeTypes: map<JavaType, ScalarType>): map<JavaType, ScalarType>
  {
    WithTimeAndJackson(StandardTypeMap(config), timeTypes, JsonNodeTypes(config.jacksonPresent, IsPostgres(config.platformName)))
  }

  /** The typeMap of a newly built manager: standard, time types, JsonNode, then bootup types. */
  function InitialTypeMap(config: Config, timeTypes: map<JavaType, ScalarType>, bootup: Option<BootupScalarTypes>)
    : map<JavaType, ScalarType>
  {
    WithBootup(TypeMapBeforeBootup(config, timeTypes), bootup)
  }

  /** The custom search list of a newly built manager. */
  function InitialCustomTypes(bootup: Option<BootupScalarTypes>): seq<ScalarType>
  {
    match bootup
    case Some(b) => [b.longToTimestamp] + b.found
    case None => []
  }

  /** What initialiseStandard leaves when it starts from empty registries. */
  lemma StandardFromEmpty(config: Config, r: Outcome, typeMap: map<JavaType, ScalarType>, nativeMap: map<int, ScalarType>)
    requires var m1 := map[] + NativeBeforeClob(config);
      var clob := PlatformType(config.clobDbType, CLOB, CLOB_TYPE, m1);
      if clob.None? then
        r == Fail(IllegalArgumentException("Type for dbPlatform clobType not found.")) &&
        typeMap == map[] + TypesBeforeClob(config) && nativeMap == m1
      else
        var m2 := m1 + NativeBeforeBlob(clob.value);
        var blob := PlatformType(config.blobDbType, BLOB, BLOB_TYPE, m2);
        if blob.None? then
          r == Fail(IllegalArgumentException("Type for dbPlatform blobType not found.")) &&
          typeMap == map[] + TypesBeforeClob(config) + TypesBeforeBlob() && nativeMap == m2
        else
          r == Pass && nativeMap == m2 + NativeAfterBlob(blob.value) &&
          typeMap == map[] + TypesBeforeClob(config) + TypesBeforeBlob() + TypesAfterBlob()
    ensures r.Fail? <==> StandardNatives(config).Err?
    ensures r.Fail? ==> r.error == StandardNatives(config).error
    ensures r.Pass? ==> nativeMap == StandardNatives(config).value && typeMap == StandardTypeMap(config)
  {
    EmptyUnion(NativeBeforeClob(config));
    EmptyUnion(TypesBeforeClob(config));
  }

  lemma EmptyUnion<K, V>(m: map<K, V>)
    ensures map[] + m == m
  {
  }

  /** With the standard Clob and Blob codes the constructor succeeds with the standard nativeMap. */
  lemma StandardNativesOnStandardPlatform(config: Config)
    requires config.clobDbType == CLOB && config.blobDbType == BLOB
    ensures StandardNatives(config) == Ok(StandardNativeMap(config))
  {
  }

  /** A Clob code that is neither CLOB nor registered by then makes the constructor fail. */
  lemma StandardNativesUnknownClob(config: Config)
    requires config.clobDbType != CLOB && config.clobDbType !in NativeBeforeClob(config)
    ensures StandardNatives(config) == Err(IllegalArgumentException("Type for dbPlatform clobType not found."))
  {
  }

  /** Whatever the platform codes, a manager that is built has no native type under code 0. */
  lemma StandardNativesNoZero(config: Config)
    requires StandardNatives(config).Ok?
    ensures 0 !in StandardNatives(config).value
  {
    var m1 := NativeBeforeClob(config);
    var clob := PlatformType(config.clobDbType, CLOB, CLOB_TYPE, m1).value;
    var m2 := m1 + NativeBeforeBlob(clob);
    var blob := PlatformType(config.blobDbType, BLOB, BLOB_TYPE, m2).value;
    assert 0 !in m1 && 0 !in NativeBeforeBlob(clob) && 0 !in NativeAfterBlob(blob);
  }

  /** A bootup type is what a newly built manager holds for its Java type: the last one found wins. */
  lemma InitialTypeMapBootupWins(config: Config, timeTypes: map<JavaType, ScalarType>, b: BootupScalarTypes, t: JavaType)
    requires exists i | 0 <= i < |b.found| :: b.found[i].javaType == t
    ensures t in InitialTypeMap(config, timeTypes, Some(b))
    ensures exists i | 0 <= i < |b.found| ::
      b.found[i].javaType == t && InitialTypeMap(config, timeTypes, Some(b))[t] == b.found[i] &&
      forall j | i < j < |b.found| :: b.found[j].javaType != t
  {
    AddAllLastWins(TypeMapBeforeBootup(config, timeTypes), b.found, t);
  }

  /** The time types and the JsonNode default replace only their own Java types. */
  lemma BeforeBootupKeeps(config: Config, timeTypes: map<JavaType, ScalarType>, t: JavaType)
    requires t in StandardTypeMap(config) && t !in timeTypes && t != JsonNode
    ensures t in TypeMapBeforeBootup(config, timeTypes)
    ensures TypeMapBeforeBootup(config, timeTypes)[t] == StandardTypeMap(config)[t]
  {
    var nodeTypes := JsonNodeTypes(config.jacksonPresent, IsPostgres(config.platformName));
    WithTimeAndJacksonKeeps(StandardTypeMap(config), timeTypes, nodeTypes, t);
  }

  lemma WithTimeAndJacksonKeeps(m: map<JavaType, ScalarType>, timeTypes: map<JavaType, ScalarType>,
                                nodeTypes: Option<JsonTypes>, t: JavaType)
    requires t in m && t !in timeTypes && t != JsonNode
    ensures t in WithTimeAndJackson(m, timeTypes, nodeTypes)
    ensures WithTimeAndJackson(m, timeTypes, nodeTypes)[t] == m[t]
  {
    UnionKeeps(m, timeTypes, t);
  }

  lemma UnionKeeps<K, V>(a: map<K, V>, b: map<K, V>, k: K)
    requires k in a && k !in b
    ensures k in a + b && (a + b)[k] == a[k]
  {
  }

  /**
   * A standard registration survives into a newly built manager unless a time type, the
   * JsonNode default or a bootup type is registered for the same Java type.
   */
  lemma InitialTypeMapKeepsStandard(config: Config, timeTypes: map<JavaType, ScalarType>,
                                    bootup: Option<BootupScalarTypes>, t: JavaType)
    requires t in StandardTypeMap(config) && t !in timeTypes && t != JsonNode
    requires bootup.Some? ==> forall i | 0 <= i < |bootup.value.found| :: bootup.value.found[i].javaType != t
    ensures t in InitialTypeMap(config, timeTypes, bootup)
    ensures InitialTypeMap(config, timeTypes, bootup)[t] == StandardTypeMap(config)[t]
  {
    BeforeBootupKeeps(config, timeTypes, t);
    if bootup.Some? {
      AddAllOthers(TypeMapBeforeBootup(config, timeTypes), bootup.value.found, t);
    }
  }

  /** In a newly built manager, int with code 0 finds the integer type unless something replaced it. */
  lemma InitialIntLookup(config: Config, timeTypes: map<JavaType, ScalarType>, bootup: Option<BootupScalarTypes>)
    requires StandardNatives(config).Ok? && IntPrim !in timeTypes
    requires bootup.Some? ==> forall i | 0 <= i < |bootup.value.found| :: bootup.value.found[i].javaType != IntPrim
    ensures ScalarTypeFor(config, InitialTypeMap(config, timeTypes, bootup), StandardNatives(config).value, IntPrim, 0)
      == Ok(INTEGER_TYPE)
  {
    StandardNativesNoZero(config);
    StandardIntRegistered(config);
    InitialTypeMapKeepsStandard(config, timeTypes, bootup, IntPrim);
  }

  /** No standard registration is under code 0, the code that asks for a Java type's own type. */
  lemma StandardNativeNoZero(config: Config)
    ensures 0 !in StandardNativeMap(config)
  {
    assert 0 !in NativeBeforeClob(config) && 0 !in NativeBeforeBlob(CLOB_TYPE) && 0 !in NativeAfterBlob(BLOB_TYPE);
  }

  /** The standard registry maps both int and Integer to the integer type. */
  lemma StandardIntRegistered(config: Config)
    ensures IntPrim in StandardTypeMap(config) && StandardTypeMap(config)[IntPrim] == INTEGER_TYPE
    ensures IntegerBox in StandardTypeMap(config) && StandardTypeMap(config)[IntegerBox] == INTEGER_TYPE
  {
    assert TypesAfterBlob()[IntPrim] == INTEGER_TYPE && TypesAfterBlob()[IntegerBox] == INTEGER_TYPE;
  }

  /** int and Integer both find the integer type by code 0. */
  lemma StandardIntLookup(config: Config)
    ensures ScalarTypeFor(config, StandardTypeMap(config), StandardNativeMap(config), IntPrim, 0) == Ok(INTEGER_TYPE)
    ensures ScalarTypeFor(config, StandardTypeMap(config), StandardNativeMap(config), IntegerBox, 0) == Ok(INTEGER_TYPE)
  {
    StandardNativeNoZero(config);
    StandardIntRegistered(config);
  }

  /** A String column of type CLOB finds the Clob type through the native map, not the String type. */
  lemma StandardClobLookup(config: Config)
    ensures ScalarTypeFor(config, StandardTypeMap(config), StandardNativeMap(config), StringClass, CLOB) == Ok(CLOB_TYPE)
  {
    assert CLOB in NativeBeforeBlob(CLOB_TYPE) && CLOB !in NativeAfterBlob(BLOB_TYPE);
  }

  /** FLOAT finds the double type, whatever the Java type asked for. */
  lemma StandardFloatLookup(config: Config, javaType: JavaType)
    requires javaType != File
    ensures ScalarTypeFor(config, StandardTypeMap(config), StandardNativeMap(config), javaType, FLOAT) == Ok(DOUBLE_TYPE)
  {
    assert FLOAT in NativeAfterBlob(BLOB_TYPE);
  }

  /** The standard registry holds the UUID type the configuration selects. */
  lemma StandardUuidRegistered(config: Config)
    ensures UuidClass in StandardTypeMap(config) && StandardTypeMap(config)[UuidClass] == UuidType(config)
  {
    assert UuidClass !in TypesBeforeBlob() && UuidClass !in TypesAfterBlob();
    assert TypesBeforeClob(config)[UuidClass] == UuidType(config);
  }

  /** The UUID type is the one the configuration selects. */
  lemma StandardUuidLookup(config: Config)
    ensures ScalarTypeFor(config, StandardTypeMap(config), StandardNativeMap(config), UuidClass, 0) == Ok(UuidType(config))
  {
    StandardNativeNoZero(config);
    StandardUuidRegistered(config);
  }
}
