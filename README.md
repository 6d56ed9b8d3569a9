# A Dafny model of the Ebean ORM core

This project models part of the Ebean ORM (`avaje-ebeanorm`) in Dafny and proves properties of that model. It covers:

- **Scalar types.** These convert a Java value to and from JDBC, text, JSON and the compact binary form used by the L2 cache. Modelled: `ScalarTypeInteger`, `ScalarTypeShort`, `ScalarTypeByte`, `ScalarTypeString`, `ScalarTypeMathBigInteger`, `ScalarTypeBytesEncrypted` and `ScalarTypeUUIDNative`.
- **`DefaultTypeManager`.** This is the registry that maps a Java type, a JDBC type code, or both to a scalar type. It covers the standard registrations, the platform Clob/Blob aliases, JSON types, enum mappings, custom types and compound types.
- **The expression tree of a query's where clause.** Modelled: `DefaultExpressionList`, `JunctionExpression` (conjunction and disjunction) and `NoopExpression`. They render SQL, collect bind values, validate property paths, record many-property joins, hash, and compare by plan and by bind. Path validation is `SpiExpressionValidation`.
- **`DeployBeanDescriptor`.** This is the deployment description of an entity bean: doc-store settings and events, property order, the default select clause and its parser, id properties, raw SQL `extend` resolution, listener chains and entity type.
- **`BeanPropertyAssoc`.** The imported id of an association: how its join columns are matched to the target's properties.
- **`GeneratedPropertyFactory`.** Choosing generators for `@Version`, `@WhoCreated` and `@WhoModified`.
- **`DocMappingBuilder`.** Building a document-store mapping and applying overrides to it; also the sortable-property map.
- **`BaseHttpMessageSender`.** The URLs the ElasticSearch sender uses.

## How the model is built

- **Modules.**
  - Each modelled Java class is one Dafny module.
  - `Java`, `JavaLang`, `DataStream`, `ScalarCommon` and `LinkedMaps` model what the core relies on from the JDK: exceptions, fixed-width integers, decimal text, `trim`, `DataOutput`/`DataInput` with modified UTF-8, the `java.sql.Types` codes, and insertion-ordered maps.
- **Values or classes.**
  - A class whose fields its methods update, such as `DeployBeanDescriptor` or `DefaultExpressionList`, is a Dafny `class`. Its methods state the whole new state.
  - A computation is a function. The lemmas about it prove what the source promises: round trips, iff-conditions, sortedness with permutation, and stability.
- **Text and integers.**
  - Java text that is encoded, such as a string written with `writeUTF`, is a sequence of UTF-16 code units.
  - Java `int`, `short`, `byte` and `long` are bounded subsets of `int`. Their conversions and hash arithmetic wrap explicitly.
- **Errors.** Exceptions are `Result`/`Outcome` values that name the Java exception and its message. A message that the source builds from a class, a name or a value keeps only its fixed opening words, as listed under "Left out".

## Model

| member | source | states |
|---|---|---|
| DataStream.BooleanRoundTrip | src/main/java/com/avaje/ebeaninternal/server/type/ScalarTypeInteger.java:39-56 | readBoolean gives back what writeBoolean wrote and leaves the bytes after it |
| DataStream.ByteRoundTrip | src/main/java/com/avaje/ebeaninternal/server/type/ScalarTypeByte.java:76-92 | readByte gives back every signed byte writeByte wrote |
| DataStream.ShortRoundTrip | src/main/java/com/avaje/ebeaninternal/server/type/ScalarTypeShort.java:70-87 | readShort gives back every short writeShort wrote (two bytes, high first) |
| DataStream.IntRoundTrip | src/main/java/com/avaje/ebeaninternal/server/type/ScalarTypeInteger.java:39-56 | readInt gives back every int writeInt wrote (four bytes, high first) |
| DataStream.LongRoundTrip | src/main/java/com/avaje/ebeaninternal/server/type/ScalarTypeMathBigInteger.java:75-93 | readLong gives back every long writeLong wrote (eight bytes, high first) |
| DataStream.FullyRoundTrip | src/main/java/com/avaje/ebeaninternal/server/type/ScalarTypeBytesEncrypted.java:119-139 | readFully of n bytes gives back the n bytes written and leaves the rest |
| DataStream.UnsignedRoundTrip | src/main/java/com/avaje/ebeaninternal/server/type/ScalarTypeInteger.java:39-56 | decoding n big-endian bytes inverts encoding any number below 256^n |
| DataStream.EncodeUTF | src/main/java/com/avaje/ebeaninternal/server/type/ScalarTypeString.java:78-86 | writeUTF succeeds exactly when the modified UTF-8 body fits in 65535 bytes, else UTFDataFormatException |
| DataStream.UtfBodyLength | src/main/java/com/avaje/ebeaninternal/server/type/ScalarTypeString.java:78-86 | no char takes more than three bytes of modified UTF-8 |
| DataStream.DecodeEncodeChar | src/main/java/com/avaje/ebeaninternal/server/type/ScalarTypeString.java:69-75 | decoding one encoded char gives that char back, in all three byte forms |
| DataStream.UtfBodyRoundTrip | src/main/java/com/avaje/ebeaninternal/server/type/ScalarTypeString.java:69-86 | decoding the modified UTF-8 body of a string gives the string back |
| DataStream.UtfRoundTrip | src/main/java/com/avaje/ebeaninternal/server/type/ScalarTypeString.java:69-86 | readUTF gives back every string writeUTF accepts, and leaves the following bytes |
| DataStream.DecodeUnsigned | src/main/java/com/avaje/ebeaninternal/server/type/ScalarTypeInteger.java:39-46 | reading n bytes succeeds exactly when n remain, else EOFException; the value is below 256^n |
| DataStream.DecodeFully | src/main/java/com/avaje/ebeaninternal/server/type/ScalarTypeBytesEncrypted.java:119-128 | a successful readFully takes exactly n bytes off the front of the input |
| DataStream.DataOutput.WriteUTF | src/main/java/com/avaje/ebeaninternal/server/type/ScalarTypeString.java:78-86 | a string too long for writeUTF writes nothing and fails; any other is appended encoded |
| DataStream.DataInput.ReadFully | src/main/java/com/avaje/ebeaninternal/server/type/ScalarTypeBytesEncrypted.java:119-128 | readFully fills the whole array from the front of the stream; when too few bytes remain it copies them to the front of the array, empties the stream and fails with EOFException |
| DataStream.DataOutput.constructor | src/main/java/com/avaje/ebeaninternal/server/type/ScalarTypeInteger.java:48-56 | a new output stream has nothing written |
| DataStream.DataOutput.WriteBoolean | src/main/java/com/avaje/ebeaninternal/server/type/ScalarTypeInteger.java:48-56 | writeBoolean appends its one-byte encoding |
| DataStream.DataOutput.WriteByte | src/main/java/com/avaje/ebeaninternal/server/type/ScalarTypeByte.java:84-92 | writeByte appends its one-byte encoding |
| DataStream.DataOutput.WriteShort | src/main/java/com/avaje/ebeaninternal/server/type/ScalarTypeShort.java:79-87 | writeShort appends its two-byte encoding |
| DataStream.DataOutput.WriteInt | src/main/java/com/avaje/ebeaninternal/server/type/ScalarTypeInteger.java:48-56 | writeInt appends its four-byte encoding |
| DataStream.DataOutput.WriteLong | src/main/java/com/avaje/ebeaninternal/server/type/ScalarTypeMathBigInteger.java:85-93 | writeLong appends its eight-byte encoding |
| DataStream.DataOutput.Write | src/main/java/com/avaje/ebeaninternal/server/type/ScalarTypeBytesEncrypted.java:130-139 | write appends the array contents |
| DataStream.DataInput.constructor | src/main/java/com/avaje/ebeaninternal/server/type/ScalarTypeInteger.java:39-46 | a new input stream has all its bytes remaining |
| DataStream.DataInput.ReadBoolean | src/main/java/com/avaje/ebeaninternal/server/type/ScalarTypeInteger.java:39-46 | readBoolean decodes from the front and consumes what it decoded, or fails as the decoding does |
| DataStream.DataInput.ReadInt | src/main/java/com/avaje/ebeaninternal/server/type/ScalarTypeInteger.java:39-46 | readInt decodes from the front and consumes four bytes, or fails with EOFException |
| DataStream.DataInput.ReadShort | src/main/java/com/avaje/ebeaninternal/server/type/ScalarTypeShort.java:70-76 | readShort decodes from the front and consumes two bytes, or fails with EOFException |
| DataStream.DataInput.ReadByte | src/main/java/com/avaje/ebeaninternal/server/type/ScalarTypeByte.java:76-82 | readByte decodes from the front and consumes one byte, or fails with EOFException |
| DataStream.DataInput.ReadLong | src/main/java/com/avaje/ebeaninternal/server/type/ScalarTypeMathBigInteger.java:75-82 | readLong decodes from the front and consumes eight bytes, or fails with EOFException |
| DataStream.DataInput.ReadUTF | src/main/java/com/avaje/ebeaninternal/server/type/ScalarTypeString.java:69-75 | readUTF decodes from the front and consumes what it decoded, or fails as the decoding does |
| JavaLang.ParseDecimalOfToDecimal | src/main/java/com/avaje/ebeaninternal/server/type/ScalarTypeInteger.java:68-76 | the decimal text of any integer parses back to it |
| JavaLang.DigitsValueOfNatDigits | src/main/java/com/avaje/ebeaninternal/server/type/ScalarTypeInteger.java:68-76 | the digits of a natural number denote that number |
| JavaLang.ParseInt | src/main/java/com/avaje/ebeaninternal/server/type/ScalarTypeInteger.java:73-76 | Integer.valueOf succeeds exactly on ASCII decimal text within the int range, with that value, else NumberFormatException |
| JavaLang.ParseShort | src/main/java/com/avaje/ebeaninternal/server/type/ScalarTypeShort.java:55-57 | Short.valueOf succeeds exactly on ASCII decimal text within the short range, with that value, else NumberFormatException |
| JavaLang.ParseBigInteger | src/main/java/com/avaje/ebeaninternal/server/type/ScalarTypeMathBigInteger.java:60-62 | new BigInteger(String) succeeds exactly on ASCII decimal text, with that value, else NumberFormatException |
| JavaLang.Wrap64Exact | src/main/java/com/avaje/ebeaninternal/server/type/ScalarTypeMathBigInteger.java:26-32 | longValue is congruent to the value mod 2^64 and equal to it exactly in the long range |
| JavaLang.Trim | src/main/java/com/avaje/ebeaninternal/server/deploy/meta/DeployBeanDescriptor.java:809-827 | trim returns the slice of its input left once every character at or below U+0020 is dropped from both ends, and no more |
| JavaLang.TrimOfTrimmed | src/main/java/com/avaje/ebeaninternal/server/deploy/meta/DeployBeanDescriptor.java:809-827 | trimming a string with nothing to trim leaves it unchanged |
| JavaLang.JoinedLength | src/main/java/com/avaje/ebeaninternal/server/expression/DefaultExpressionList.java:348-359 | n parts joined make their total length plus exactly n - 1 separators |
| JavaLang.JoinedAppend | src/main/java/com/avaje/ebeaninternal/server/expression/DefaultExpressionList.java:348-359 | joining two non-empty runs puts exactly one separator between them |
| JavaLang.ToLowerAscii | src/main/java/com/avaje/ebeaninternal/server/type/DefaultTypeManager.java:189-191 | toLowerCase keeps the length and lower-cases each ASCII letter where it stands |
| LinkedMaps.Get | src/main/java/com/avaje/ebeaninternal/server/deploy/meta/DeployBeanDescriptor.java:625-627 | get finds a value exactly when an entry has the key, and that entry holds it |
| LinkedMaps.GetKeys | src/main/java/com/avaje/ebeaninternal/server/deploy/meta/DeployBeanDescriptor.java:625-627 | get finds a value exactly when the key is among the keys |
| LinkedMaps.PutGet | src/main/java/com/avaje/ebeaninternal/server/deploy/meta/DeployBeanDescriptor.java:625-627 | after put(k, v), get(k) is v and every other key keeps its value |
| LinkedMaps.PutKeys | src/main/java/com/avaje/ebeaninternal/server/deploy/meta/DeployBeanDescriptor.java:625-627 | put keeps the key order and appends a new key at the end |
| LinkedMaps.PutEntries | src/main/java/com/avaje/ebeaninternal/server/deploy/meta/DeployBeanDescriptor.java:625-627 | put adds no entry other than the new one |
| LinkedMaps.PutKeepsUnique | src/main/java/com/avaje/ebeaninternal/server/deploy/meta/DeployBeanDescriptor.java:625-627 | put keeps the keys unique |
| LinkedMaps.PutNew | src/main/java/com/avaje/ebeaninternal/server/deploy/meta/DeployBeanDescriptor.java:625-627 | a put on a new key appends its entry |
| ScalarTypeInteger.Bind | src/main/java/com/avaje/ebeaninternal/server/type/ScalarTypeInteger.java:25-32 | null binds an SQL null of the type's own JDBC code; a value binds with the int setter |
| ScalarTypeInteger.WriteData | src/main/java/com/avaje/ebeaninternal/server/type/ScalarTypeInteger.java:48-56 | null is the single false flag; a value is a true flag and its 4 byte(s) |
| ScalarTypeInteger.DataRoundTrip | src/main/java/com/avaje/ebeaninternal/server/type/ScalarTypeInteger.java:39-56 | readData gives back whatever writeData wrote, null included, and leaves the bytes after it |
| ScalarTypeInteger.WriteDataTo | src/main/java/com/avaje/ebeaninternal/server/type/ScalarTypeInteger.java:48-56 | the stream receives exactly the bytes of WriteData |
| ScalarTypeInteger.ReadDataFrom | src/main/java/com/avaje/ebeaninternal/server/type/ScalarTypeInteger.java:39-46 | the method reads what the ReadData decoding gives and consumes exactly those bytes |
| ScalarTypeShort.Bind | src/main/java/com/avaje/ebeaninternal/server/type/ScalarTypeShort.java:26-32 | null binds an SQL null of the type's own JDBC code; a value binds with the short setter |
| ScalarTypeShort.WriteData | src/main/java/com/avaje/ebeaninternal/server/type/ScalarTypeShort.java:79-87 | null is the single false flag; a value is a true flag and its 2 bytes |
| ScalarTypeShort.DataRoundTrip | src/main/java/com/avaje/ebeaninternal/server/type/ScalarTypeShort.java:70-87 | readData gives back whatever writeData wrote, null included, and leaves the bytes after it |
| ScalarTypeShort.WriteDataTo | src/main/java/com/avaje/ebeaninternal/server/type/ScalarTypeShort.java:79-87 | the stream receives exactly the bytes of WriteData |
| ScalarTypeShort.ReadDataFrom | src/main/java/com/avaje/ebeaninternal/server/type/ScalarTypeShort.java:70-76 | the method reads what the ReadData decoding gives and consumes exactly those bytes |
| ScalarTypeByte.Bind | src/main/java/com/avaje/ebeaninternal/server/type/ScalarTypeByte.java:25-31 | null binds an SQL null of the type's own JDBC code; a value binds with the byte setter |
| ScalarTypeByte.WriteData | src/main/java/com/avaje/ebeaninternal/server/type/ScalarTypeByte.java:84-92 | null is the single false flag; a value is a true flag and its 1 byte(s) |
| ScalarTypeByte.DataRoundTrip | src/main/java/com/avaje/ebeaninternal/server/type/ScalarTypeByte.java:76-92 | readData gives back whatever writeData wrote, null included, and leaves the bytes after it |
| ScalarTypeByte.WriteDataTo | src/main/java/com/avaje/ebeaninternal/server/type/ScalarTypeByte.java:84-92 | the stream receives exactly the bytes of WriteData |
| ScalarTypeByte.ReadDataFrom | src/main/java/com/avaje/ebeaninternal/server/type/ScalarTypeByte.java:76-82 | the method reads what the ReadData decoding gives and consumes exactly those bytes |
| ScalarTypeInteger.ReadData | src/main/java/com/avaje/ebeaninternal/server/type/ScalarTypeInteger.java:39-46 | fails with EOFException exactly when the flag or the 4 value byte(s) are missing; a zero flag is null and consumes one byte, otherwise the value consumes 5; DataRoundTrip shows it inverts WriteData |
| ScalarTypeShort.ReadData | src/main/java/com/avaje/ebeaninternal/server/type/ScalarTypeShort.java:70-76 | fails with EOFException exactly when the flag or the 2 value byte(s) are missing; a zero flag is null and consumes one byte, otherwise the value consumes 3; DataRoundTrip shows it inverts WriteData |
| ScalarTypeByte.ReadData | src/main/java/com/avaje/ebeaninternal/server/type/ScalarTypeByte.java:76-82 | fails with EOFException exactly when the flag or the 1 value byte(s) are missing; a zero flag is null and consumes one byte, otherwise the value consumes 2; DataRoundTrip shows it inverts WriteData |
| ScalarTypeMathBigInteger.ReadData | src/main/java/com/avaje/ebeaninternal/server/type/ScalarTypeMathBigInteger.java:75-82 | fails with EOFException exactly when the flag or the 8 value byte(s) are missing; a zero flag is null and consumes one byte, otherwise the value consumes 9; DataRoundTrip shows it inverts WriteData |
| ScalarTypeInteger.FormatValue | src/main/java/com/avaje/ebeaninternal/server/type/ScalarTypeInteger.java:68-71 | formatValue is decimal text that reads back as the same number |
| ScalarTypeInteger.Parse | src/main/java/com/avaje/ebeaninternal/server/type/ScalarTypeInteger.java:73-76 | Integer.valueOf accepts exactly the decimal text of a number in the int range, giving that number; anything else is NumberFormatException |
| ScalarTypeShort.FormatValue | src/main/java/com/avaje/ebeaninternal/server/type/ScalarTypeShort.java:50-52 | formatValue is decimal text that reads back as the same number |
| ScalarTypeShort.Parse | src/main/java/com/avaje/ebeaninternal/server/type/ScalarTypeShort.java:55-57 | Short.valueOf accepts exactly the decimal text of a number in the short range, giving that number; anything else is NumberFormatException |
| ScalarTypeMathBigInteger.FormatValue | src/main/java/com/avaje/ebeaninternal/server/type/ScalarTypeMathBigInteger.java:55-57 | formatValue is decimal text that reads back as the same number |
| ScalarTypeMathBigInteger.Parse | src/main/java/com/avaje/ebeaninternal/server/type/ScalarTypeMathBigInteger.java:60-62 | new BigInteger accepts exactly decimal text, giving its number; anything else is NumberFormatException |
| ScalarTypeString.ReadData | src/main/java/com/avaje/ebeaninternal/server/type/ScalarTypeString.java:69-75 | no input is EOFException; a zero flag is null and consumes one byte; a value consumes the flag, the 2-byte length and its text, leaving the rest; DataRoundTrip shows it inverts WriteData |
| ScalarTypeUUIDNative.ReadData | src/main/java/com/avaje/ebeaninternal/server/type/ScalarTypeUUIDNative.java:82-89 | no input is EOFException; a zero flag is null and consumes one byte; a value consumes the flag, the 2-byte length and its text, leaving the rest; DataRoundTrip shows it inverts WriteData |
| ScalarTypeBytesEncrypted.ReadData | src/main/java/com/avaje/ebeaninternal/server/type/ScalarTypeBytesEncrypted.java:119-128 | no input is EOFException and the only failures are EOF and a negative length; a value is the length-many bytes after the flag and length, the rest follows; DataRoundTrip shows it inverts WriteData |
| ScalarTypeBytesEncrypted.JdbcType | src/main/java/com/avaje/ebeaninternal/server/type/ScalarTypeBytesEncrypted.java:43-45 | the JDBC code is the base type's |
| ScalarTypeBytesEncrypted.BoundValue | src/main/java/com/avaje/ebeaninternal/server/type/ScalarTypeBytesEncrypted.java:38-41 | the value handed to the base bind is the encrypted value |
| ScalarTypeBytesEncrypted.Read | src/main/java/com/avaje/ebeaninternal/server/type/ScalarTypeBytesEncrypted.java:100-105 | read gives the decryption of what the base type read |
| ScalarTypeBytesEncrypted.Parse | src/main/java/com/avaje/ebeaninternal/server/type/ScalarTypeBytesEncrypted.java:92-94 | parse is the base type's parse |
| ScalarTypeBytesEncrypted.ConvertFromMillis | src/main/java/com/avaje/ebeaninternal/server/type/ScalarTypeBytesEncrypted.java:96-98 | convertFromMillis is the base type's |
| ScalarTypeInteger.ParseFormatRoundTrip | src/main/java/com/avaje/ebeaninternal/server/type/ScalarTypeInteger.java:68-76 | parse of formatValue gives every int back |
| ScalarTypeInteger.ConvertFromMillis | src/main/java/com/avaje/ebeaninternal/server/type/ScalarTypeInteger.java:78-81 | convertFromMillis always fails with TextException("Not Supported") |
| ScalarTypeShort.ParseFormatRoundTrip | src/main/java/com/avaje/ebeaninternal/server/type/ScalarTypeShort.java:50-57 | parse of formatValue gives every short back |
| ScalarTypeShort.ConvertFromMillis | src/main/java/com/avaje/ebeaninternal/server/type/ScalarTypeShort.java:60-62 | convertFromMillis always fails with TextException("Not Supported") |
| ScalarTypeByte.FormatValue | src/main/java/com/avaje/ebeaninternal/server/type/ScalarTypeByte.java:60-62 | formatValue is the signed decimal text of the value |
| ScalarTypeByte.Parse | src/main/java/com/avaje/ebeaninternal/server/type/ScalarTypeByte.java:64-66 | parse always fails with TextException("Not supported"), so it is no inverse of formatValue |
| ScalarTypeByte.ConvertFromMillis | src/main/java/com/avaje/ebeaninternal/server/type/ScalarTypeByte.java:68-70 | convertFromMillis always fails with TextException("Not Supported") |
| ScalarTypeByte.JsonWrite | src/main/java/com/avaje/ebeaninternal/server/type/ScalarTypeByte.java:46-48 | jsonWrite always fails with IOException("Not supported") |
| ScalarTypeByte.JsonRead | src/main/java/com/avaje/ebeaninternal/server/type/ScalarTypeByte.java:51-53 | jsonRead always fails with IOException("Not supported") |
| ScalarTypeString.Bind | src/main/java/com/avaje/ebeaninternal/server/type/ScalarTypeString.java:25-31 | null binds an SQL null of VARCHAR; a value binds with setString |
| ScalarTypeString.WriteData | src/main/java/com/avaje/ebeaninternal/server/type/ScalarTypeString.java:78-86 | writeData fails, with UTFDataFormatException, exactly for a string writeUTF rejects; otherwise the flag says whether a value follows |
| ScalarTypeString.DataRoundTrip | src/main/java/com/avaje/ebeaninternal/server/type/ScalarTypeString.java:69-86 | readData gives back every value writeData accepts, null included |
| ScalarTypeString.ShortTextFits | src/main/java/com/avaje/ebeaninternal/server/type/ScalarTypeString.java:78-86 | every string of at most 21845 chars is accepted by writeData |
| ScalarTypeString.WriteDataTo | src/main/java/com/avaje/ebeaninternal/server/type/ScalarTypeString.java:78-86 | on success the stream receives the WriteData bytes; a string too long for writeUTF fails after the presence flag is written |
| ScalarTypeString.ReadDataFrom | src/main/java/com/avaje/ebeaninternal/server/type/ScalarTypeString.java:69-75 | the method reads what the ReadData decoding gives and consumes exactly those bytes |
| ScalarTypeString.FormatValue | src/main/java/com/avaje/ebeaninternal/server/type/ScalarTypeString.java:49-51 | formatValue is the identity |
| ScalarTypeString.Parse | src/main/java/com/avaje/ebeaninternal/server/type/ScalarTypeString.java:54-56 | parse is the identity, so it and formatValue invert each other both ways |
| ScalarTypeString.ConvertFromMillis | src/main/java/com/avaje/ebeaninternal/server/type/ScalarTypeString.java:59-61 | convertFromMillis is the decimal text of the instant |
| ScalarTypeMathBigInteger.LongValue | src/main/java/com/avaje/ebeaninternal/server/type/ScalarTypeMathBigInteger.java:26-32 | longValue keeps null, is congruent mod 2^64 and exact in the long range |
| ScalarTypeMathBigInteger.Bind | src/main/java/com/avaje/ebeaninternal/server/type/ScalarTypeMathBigInteger.java:26-32 | null binds an SQL null of BIGINT; a value binds with setLong of its low 64 bits |
| ScalarTypeMathBigInteger.Read | src/main/java/com/avaje/ebeaninternal/server/type/ScalarTypeMathBigInteger.java:35-42 | a long read from the result set comes back as the same number; null stays null |
| ScalarTypeMathBigInteger.WriteData | src/main/java/com/avaje/ebeaninternal/server/type/ScalarTypeMathBigInteger.java:85-93 | null is the single false flag; a value is a true flag and 8 bytes |
| ScalarTypeMathBigInteger.DataRoundTrip | src/main/java/com/avaje/ebeaninternal/server/type/ScalarTypeMathBigInteger.java:75-93 | readData gives back the low 64 bits of what writeData wrote, so exactly the values that fit a long survive |
| ScalarTypeMathBigInteger.WriteDataTo | src/main/java/com/avaje/ebeaninternal/server/type/ScalarTypeMathBigInteger.java:85-93 | the stream receives exactly the bytes of WriteData |
| ScalarTypeMathBigInteger.ReadDataFrom | src/main/java/com/avaje/ebeaninternal/server/type/ScalarTypeMathBigInteger.java:75-82 | the method reads what the ReadData decoding gives and consumes exactly those bytes |
| ScalarTypeMathBigInteger.ParseFormatRoundTrip | src/main/java/com/avaje/ebeaninternal/server/type/ScalarTypeMathBigInteger.java:55-62 | parse of formatValue gives every integer back, of any size |
| ScalarTypeMathBigInteger.ConvertFromMillis | src/main/java/com/avaje/ebeaninternal/server/type/ScalarTypeMathBigInteger.java:65-67 | convertFromMillis is the same number |
| ScalarTypeBytesEncrypted.NeverMutableNorDirty | src/main/java/com/avaje/ebeaninternal/server/type/ScalarTypeBytesEncrypted.java:29-36 | the type is never mutable and a value is never dirty |
| ScalarTypeBytesEncrypted.BindReadRoundTrip | src/main/java/com/avaje/ebeaninternal/server/type/ScalarTypeBytesEncrypted.java:38-41 | when decrypt undoes encrypt, a bound value reads back unchanged (base types bind and read the encrypted form) |
| ScalarTypeBytesEncrypted.FormatValue | src/main/java/com/avaje/ebeaninternal/server/type/ScalarTypeBytesEncrypted.java:84-90 | format and formatValue always fail with RuntimeException("Not used") |
| ScalarTypeBytesEncrypted.WriteData | src/main/java/com/avaje/ebeaninternal/server/type/ScalarTypeBytesEncrypted.java:130-139 | null is the false flag; a value is a true flag, its length as writeInt, then its bytes |
| ScalarTypeBytesEncrypted.DataRoundTrip | src/main/java/com/avaje/ebeaninternal/server/type/ScalarTypeBytesEncrypted.java:119-139 | readData gives back every byte array writeData wrote, null included |
| ScalarTypeBytesEncrypted.WriteDataAfter | src/main/java/com/avaje/ebeaninternal/server/type/ScalarTypeBytesEncrypted.java:130-139 | the written bytes are the flag, the length and the bytes, after whatever was there |
| ScalarTypeBytesEncrypted.WriteDataTo | src/main/java/com/avaje/ebeaninternal/server/type/ScalarTypeBytesEncrypted.java:130-139 | the stream receives exactly the WriteData bytes of the array contents |
| ScalarTypeBytesEncrypted.ReadDataFrom | src/main/java/com/avaje/ebeaninternal/server/type/ScalarTypeBytesEncrypted.java:119-128 | the method fails exactly when ReadData does; on success it returns a fresh array holding the bytes read |
| ScalarTypeUUIDNative.ImmutableButAlwaysDirty | src/main/java/com/avaje/ebeaninternal/server/type/ScalarTypeUUIDNative.java:26-33 | the type is not mutable, yet every value counts as dirty |
| ScalarTypeUUIDNative.Bind | src/main/java/com/avaje/ebeaninternal/server/type/ScalarTypeUUIDNative.java:47-49 | bind passes the value, null included, to setObject |
| ScalarTypeUUIDNative.ConvertFromMillis | src/main/java/com/avaje/ebeaninternal/server/type/ScalarTypeUUIDNative.java:72-74 | convertFromMillis always fails with RuntimeException("Should never be called") |
| ScalarTypeUUIDNative.HexNumberOfDigits | src/main/java/com/avaje/ebeaninternal/server/type/ScalarTypeUUIDNative.java:62-69 | the n hex digits of a number below 16^n denote that number |
| ScalarTypeUUIDNative.DigitsOfHexNumber | src/main/java/com/avaje/ebeaninternal/server/type/ScalarTypeUUIDNative.java:62-69 | lower-case hex text is the digits of the number it denotes |
| ScalarTypeUUIDNative.JoinSplit | src/main/java/com/avaje/ebeaninternal/server/type/ScalarTypeUUIDNative.java:62-69 | joining the five groups of a UUID gives the UUID back |
| ScalarTypeUUIDNative.SplitJoin | src/main/java/com/avaje/ebeaninternal/server/type/ScalarTypeUUIDNative.java:62-69 | splitting the join of five in-range groups gives the groups back |
| ScalarTypeUUIDNative.TextGroupsOfGroupsText | src/main/java/com/avaje/ebeaninternal/server/type/ScalarTypeUUIDNative.java:62-69 | the text of five groups is UUID text, and reading its groups gives them back |
| ScalarTypeUUIDNative.FormatValue | src/main/java/com/avaje/ebeaninternal/server/type/ScalarTypeUUIDNative.java:62-64 | formatValue gives 36 chars of lower-case 8-4-4-4-12 UUID text |
| ScalarTypeUUIDNative.Parse | src/main/java/com/avaje/ebeaninternal/server/type/ScalarTypeUUIDNative.java:67-69 | on the canonical 8-4-4-4-12 hex text, in either case, parse gives the UUID it denotes; the model rejects every other text with an IllegalArgumentException |
| ScalarTypeUUIDNative.ParseFormatRoundTrip | src/main/java/com/avaje/ebeaninternal/server/type/ScalarTypeUUIDNative.java:62-69 | parse of formatValue gives every UUID back |
| ScalarTypeUUIDNative.FormatParseRoundTrip | src/main/java/com/avaje/ebeaninternal/server/type/ScalarTypeUUIDNative.java:62-69 | lower-case UUID text survives parse then formatValue unchanged |
| ScalarTypeUUIDNative.LowerGroup | src/main/java/com/avaje/ebeaninternal/server/type/ScalarTypeUUIDNative.java:62-69 | each group of lower-case UUID text is rewritten as itself from its value |
| ScalarTypeUUIDNative.UuidTextPieces | src/main/java/com/avaje/ebeaninternal/server/type/ScalarTypeUUIDNative.java:67-69 | UUID text is its five groups joined by dashes |
| ScalarTypeUUIDNative.TextFitsUtf | src/main/java/com/avaje/ebeaninternal/server/type/ScalarTypeUUIDNative.java:92-100 | the text form of any UUID is accepted by writeUTF |
| ScalarTypeUUIDNative.WriteData | src/main/java/com/avaje/ebeaninternal/server/type/ScalarTypeUUIDNative.java:92-100 | the bytes are the single false flag exactly for null; a value starts with a true flag |
| ScalarTypeUUIDNative.DataRoundTrip | src/main/java/com/avaje/ebeaninternal/server/type/ScalarTypeUUIDNative.java:82-100 | readData gives back every UUID writeData wrote, null included |
| ScalarTypeUUIDNative.WriteDataTo | src/main/java/com/avaje/ebeaninternal/server/type/ScalarTypeUUIDNative.java:92-100 | the stream receives exactly the bytes of WriteData |
| ScalarTypeUUIDNative.ReadDataFrom | src/main/java/com/avaje/ebeaninternal/server/type/ScalarTypeUUIDNative.java:82-89 | the method gives what ReadData decodes and consumes those bytes, and fails exactly when ReadData does |
| DefaultTypeManager.IsPostgresChars | src/main/java/com/avaje/ebeaninternal/server/type/DefaultTypeManager.java:189-191 | a platform is Postgres exactly when its first seven characters, lower-cased, spell "postgre" |
| DefaultTypeManager.JsonMapTypes | src/main/java/com/avaje/ebeaninternal/server/type/DefaultTypeManager.java:173-180 | off Postgres the JSON and JSONB Map types are the Clob one; on Postgres they are of codes JSON and JSONB and differ |
| DefaultTypeManager.JsonNodeTypes | src/main/java/com/avaje/ebeaninternal/server/type/DefaultTypeManager.java:173-180 | the JsonNode types exist exactly when Jackson is present, with the same Postgres rule |
| DefaultTypeManager.JsonStorage | src/main/java/com/avaje/ebeaninternal/server/type/DefaultTypeManager.java:326-355 | VARCHAR, BLOB, CLOB and JSONB select their own variant and every other code selects JSON |
| DefaultTypeManager.JsonScalarType | src/main/java/com/avaje/ebeaninternal/server/type/DefaultTypeManager.java:326-355 | Map and JsonNode select a storage variant, JsonNode without Jackson gives null, any other type fails with IllegalArgumentException |
| DefaultTypeManager.JsonMapOffPostgresIsClob | src/main/java/com/avaje/ebeaninternal/server/type/DefaultTypeManager.java:326-355 | off Postgres a Map stored as anything but VARCHAR or BLOB uses the Clob type |
| DefaultTypeManager.ScalarTypeOf | src/main/java/com/avaje/ebeaninternal/server/type/DefaultTypeManager.java:286-296 | a registered Java type gives its type, an unregistered one null, an unregistered Joda LocalTime an IllegalStateException |
| DefaultTypeManager.ScalarTypeFor | src/main/java/com/avaje/ebeaninternal/server/type/DefaultTypeManager.java:365-398 | File comes first, then a native-map entry for the code; the call fails, with IllegalArgumentException, exactly when nothing matches |
| DefaultTypeManager.ScalarTypeForMatchesCode | src/main/java/com/avaje/ebeaninternal/server/type/DefaultTypeManager.java:365-398 | a type found through the Java type map for a non-zero code has that code |
| DefaultTypeManager.Convert | src/main/java/com/avaje/ebeaninternal/server/type/DefaultTypeManager.java:421-430 | null stays null, a code with no native type returns the value unchanged, else the native type converts it |
| DefaultTypeManager.ReaderOf | src/main/java/com/avaje/ebeaninternal/server/type/DefaultTypeManager.java:317-323 | the scalar type map is searched first, then the compound map; null exactly when neither has the type |
| DefaultTypeManager.FirstCustomSpec | src/main/java/com/avaje/ebeaninternal/server/type/DefaultTypeManager.java:298-315 | the custom search gives the first type, in registration order, matching code and Java type, and null exactly when none matches |
| DefaultTypeManager.CanonicalTextIsIntegerType | src/main/java/com/avaje/ebeaninternal/server/type/DefaultTypeManager.java:432-442 | the Integer.toString text of every int is an integer value and parses back to it |
| DefaultTypeManager.LeadingZerosAreText | src/main/java/com/avaje/ebeaninternal/server/type/DefaultTypeManager.java:447-449 | text longer than one char starting with 0 is never an integer value |
| DefaultTypeManager.IntegerTypeExamples | src/main/java/com/avaje/ebeaninternal/server/type/DefaultTypeManager.java:432-449 | "0" and "-7" are integer values; "07", "" and "A" are not |
| DefaultTypeManager.AnnotatedValuesEmpty | src/main/java/com/avaje/ebeaninternal/server/type/DefaultTypeManager.java:457-480 | the name-to-value map is empty exactly when no field carries @EnumValue |
| DefaultTypeManager.CreateEnumScalarType | src/main/java/com/avaje/ebeaninternal/server/type/DefaultTypeManager.java:550-571 | fails with IllegalArgumentException exactly when a trimmed name is no enum constant; else the length is the longest value for a text mapping with no length given, otherwise the given length |
| DefaultTypeManager.CreateEnumScalarType2 | src/main/java/com/avaje/ebeaninternal/server/type/DefaultTypeManager.java:457-480 | the result is null exactly when no field is annotated; otherwise the mapping holds the annotated values, is integer-typed exactly when every value is an integer value, and fails exactly when a name is no constant |
| DefaultTypeManager.UuidType | src/main/java/com/avaje/ebeaninternal/server/type/DefaultTypeManager.java:862-872 | the UUID type is native exactly when the platform has one and DbUuid is AUTO, else binary or varchar as configured |
| DefaultTypeManager.PlatformType | src/main/java/com/avaje/ebeaninternal/server/type/DefaultTypeManager.java:893-919 | the platform Clob or Blob code gives the standard type for the standard code, else what is already registered for it, else nothing |
| DefaultTypeManager.PlatformAliases | src/main/java/com/avaje/ebeaninternal/server/type/DefaultTypeManager.java:893-919 | a platform with VARCHAR Clobs and LONGVARBINARY Blobs registers those types under CLOB and BLOB |
| DefaultTypeManager.TypeManager.constructor | src/main/java/com/avaje/ebeaninternal/server/type/DefaultTypeManager.java:154-165 | the configuration is kept and the JSON types follow the Postgres and Jackson rules; the registrations are left to Create |
| DefaultTypeManager.TypeManager.Create | src/main/java/com/avaje/ebeaninternal/server/type/DefaultTypeManager.java:154-187 | construction fails exactly when the platform Clob or Blob code is unknown, with that IllegalArgumentException; otherwise the native map is the standard one for the platform and the type map is the standard types, then the java.time and Joda types, then JsonNode, then the bootup custom types |
| DefaultTypeManager.TypeManager.InitialiseStandardFromEmpty | src/main/java/com/avaje/ebeaninternal/server/type/DefaultTypeManager.java:166-168 | on an empty registry initialiseStandard fails exactly as StandardNatives does, and otherwise leaves the standard native and type maps |
| DefaultTypeManager.TypeManager.InitialiseAfterStandard | src/main/java/com/avaje/ebeaninternal/server/type/DefaultTypeManager.java:169-185 | the time types, the Jackson types and, with bootup classes, the custom types are added in that order; the native and compound maps do not change |
| DefaultTypeManager.TypeManager.RegisterTimeTypes | src/main/java/com/avaje/ebeaninternal/server/type/DefaultTypeManager.java:774-832 | the java.time and Joda registrations are added over the type map, later ones winning |
| DefaultTypeManager.StandardNatives | src/main/java/com/avaje/ebeaninternal/server/type/DefaultTypeManager.java:893-919 | the native map initialiseStandard builds, or the IllegalArgumentException for an unknown Clob or Blob code |
| DefaultTypeManager.StandardNativesOnStandardPlatform | src/main/java/com/avaje/ebeaninternal/server/type/DefaultTypeManager.java:893-919 | a platform with the standard CLOB and BLOB codes always gets the standard native map |
| DefaultTypeManager.StandardNativesUnknownClob | src/main/java/com/avaje/ebeaninternal/server/type/DefaultTypeManager.java:893-902 | a Clob code that is not CLOB and has no type registered by then fails with "Type for dbPlatform clobType not found." |
| DefaultTypeManager.StandardNativesNoZero | src/main/java/com/avaje/ebeaninternal/server/type/DefaultTypeManager.java:834-962 | whatever the platform codes, a manager that is built has no native type under code 0 |
| DefaultTypeManager.InitialTypeMapBootupWins | src/main/java/com/avaje/ebeaninternal/server/type/DefaultTypeManager.java:581-616 | a Java type a bootup custom type handles maps to the last such custom type found |
| DefaultTypeManager.BeforeBootupKeeps | src/main/java/com/avaje/ebeaninternal/server/type/DefaultTypeManager.java:166-171 | a standard type not overridden by a time type or JsonNode survives the time and Jackson registrations |
| DefaultTypeManager.InitialTypeMapKeepsStandard | src/main/java/com/avaje/ebeaninternal/server/type/DefaultTypeManager.java:166-185 | a standard type that no later step registers again is still the one a built manager holds |
| DefaultTypeManager.InitialIntLookup | src/main/java/com/avaje/ebeaninternal/server/type/DefaultTypeManager.java:365-398 | in a built manager int with code 0 finds the integer type unless a later step registered int |
| DefaultTypeManager.TypeManager.InitialiseStandard | src/main/java/com/avaje/ebeaninternal/server/type/DefaultTypeManager.java:834-962 | the registrations in source order; an unknown platform Clob or Blob code fails with IllegalArgumentException and keeps the registrations made before it |
| DefaultTypeManager.TypeManager.RegisterBeforeClob | src/main/java/com/avaje/ebeaninternal/server/type/DefaultTypeManager.java:840-891 | the date, BigInteger, boolean, UUID, value and string types are registered |
| DefaultTypeManager.TypeManager.RegisterBinary | src/main/java/com/avaje/ebeaninternal/server/type/DefaultTypeManager.java:893-908 | the binary types, and the platform Clob type under CLOB, are registered |
| DefaultTypeManager.TypeManager.RegisterAfterBlob | src/main/java/com/avaje/ebeaninternal/server/type/DefaultTypeManager.java:910-960 | the platform Blob type, the number types (FLOAT as double, REAL as float) and the temporal types are registered |
| DefaultTypeManager.TypeManager.InitialiseJacksonTypes | src/main/java/com/avaje/ebeaninternal/server/type/DefaultTypeManager.java:746-772 | with Jackson JsonNode maps to its JSON variant; without it nothing changes |
| DefaultTypeManager.TypeManager.Add | src/main/java/com/avaje/ebeaninternal/server/type/DefaultTypeManager.java:258-261 | add registers the type under its own Java type, replacing any earlier entry, and changes nothing else |
| DefaultTypeManager.TypeManager.InitialiseCustomScalarTypes | src/main/java/com/avaje/ebeaninternal/server/type/DefaultTypeManager.java:581-616 | the long-to-timestamp type is searched first, then each found type in order; each found type is also added |
| DefaultTypeManager.AddAllLastWins | src/main/java/com/avaje/ebeaninternal/server/type/DefaultTypeManager.java:581-616 | after adding several types, a Java type maps to the last type added for it |
| DefaultTypeManager.AddAllOthers | src/main/java/com/avaje/ebeaninternal/server/type/DefaultTypeManager.java:581-616 | after adding types for other Java types, a Java type keeps its previous entry |
| DefaultTypeManager.TypeManager.ScalarTypeByCode | src/main/java/com/avaje/ebeaninternal/server/type/DefaultTypeManager.java:278-280 | getScalarType(int) finds a type exactly for a registered code |
| DefaultTypeManager.TypeManager.GetScalarType | src/main/java/com/avaje/ebeaninternal/server/type/DefaultTypeManager.java:286-296 | getScalarType(Class) answers as ScalarTypeOf over the registry |
| DefaultTypeManager.TypeManager.GetScalarTypeFor | src/main/java/com/avaje/ebeaninternal/server/type/DefaultTypeManager.java:365-398 | getScalarType(Class, int) answers as ScalarTypeFor over the registry |
| DefaultTypeManager.TypeManager.GetJsonScalarType | src/main/java/com/avaje/ebeaninternal/server/type/DefaultTypeManager.java:326-355 | getJsonScalarType answers as JsonScalarType with the registry's JSON types |
| DefaultTypeManager.TypeManager.GetScalarDataReader | src/main/java/com/avaje/ebeaninternal/server/type/DefaultTypeManager.java:317-323 | getScalarDataReader(Class) answers as ReaderOf over the registry |
| DefaultTypeManager.TypeManager.GetScalarDataReaderFor | src/main/java/com/avaje/ebeaninternal/server/type/DefaultTypeManager.java:298-315 | for a non-zero code the result is the first matching custom type, and it fails exactly when none matches |
| DefaultTypeManager.TypeManager.CreateCompoundScalarDataReader | src/main/java/com/avaje/ebeaninternal/server/type/DefaultTypeManager.java:691-721 | a registered compound type is returned unchanged; a new one gets one reader per property and is added to the compound map; a property with no reader fails it and adds nothing to the compound map |
| DefaultTypeManager.StandardNativeNoZero | src/main/java/com/avaje/ebeaninternal/server/type/DefaultTypeManager.java:834-962 | no standard registration is under code 0 |
| DefaultTypeManager.StandardIntRegistered | src/main/java/com/avaje/ebeaninternal/server/type/DefaultTypeManager.java:921-949 | the standard registry maps int and Integer to the integer type |
| DefaultTypeManager.StandardIntLookup | src/main/java/com/avaje/ebeaninternal/server/type/DefaultTypeManager.java:921-949 | int and Integer with code 0 both find the integer type |
| DefaultTypeManager.StandardClobLookup | src/main/java/com/avaje/ebeaninternal/server/type/DefaultTypeManager.java:893-902 | a String with code CLOB finds the Clob type, not the String type |
| DefaultTypeManager.StandardFloatLookup | src/main/java/com/avaje/ebeaninternal/server/type/DefaultTypeManager.java:940-945 | code FLOAT finds the double type for every Java type but File |
| DefaultTypeManager.StandardUuidRegistered | src/main/java/com/avaje/ebeaninternal/server/type/DefaultTypeManager.java:862-872 | the standard registry holds the UUID type the configuration selects |
| DefaultTypeManager.StandardUuidLookup | src/main/java/com/avaje/ebeaninternal/server/type/DefaultTypeManager.java:862-872 | UUID with code 0 finds the UUID type the configuration selects |
| Expressions.ListSqlIsJoined | src/main/java/com/avaje/ebeaninternal/server/expression/DefaultExpressionList.java:348-359 | a list's SQL is its elements' SQL in list order, joined by the separator, with nothing before or after |
| Expressions.JoinType | src/main/java/com/avaje/ebeaninternal/server/expression/JunctionExpression.java:27-40 | the join string of a conjunction is " and ", of a disjunction " or " |
| Expressions.JunctionSql | src/main/java/com/avaje/ebeaninternal/server/expression/JunctionExpression.java:146-163 | an empty junction writes nothing; otherwise "(", the children's SQL joined by " and " or " or ", then ") " |
| Expressions.HashFoldIsWrappedPolynomial | src/main/java/com/avaje/ebeaninternal/server/expression/DefaultExpressionList.java:391-397 | the h * 31 + hash fold in int arithmetic is the low 32 bits of the unbounded polynomial |
| Expressions.FromSameByPlanPairs | src/main/java/com/avaje/ebeaninternal/server/expression/DefaultExpressionList.java:400-415 | the pairwise comparison is true exactly when every same-index pair is the same by plan |
| Expressions.ListSameByPlanPairwise | src/main/java/com/avaje/ebeaninternal/server/expression/DefaultExpressionList.java:400-415 | a list is the same by plan as another list of equal size whose elements match pairwise, and nothing else |
| Expressions.SameByPlanReflexive | src/main/java/com/avaje/ebeaninternal/server/expression/JunctionExpression.java:198-207 | every expression is the same by plan as itself |
| Expressions.FromSameByPlanReflexive | src/main/java/com/avaje/ebeaninternal/server/expression/DefaultExpressionList.java:400-415 | every list of expressions is the same by plan as itself |
| Expressions.SameByPlanBindDefined | src/main/java/com/avaje/ebeaninternal/server/expression/JunctionExpression.java:198-214 | comparing by bind never throws once two expressions are the same by plan |
| Expressions.FromSameByPlanBindDefined | src/main/java/com/avaje/ebeaninternal/server/expression/DefaultExpressionList.java:400-429 | comparing lists by bind never throws once they are the same by plan |
| Expressions.SameByBindReflexive | src/main/java/com/avaje/ebeaninternal/server/expression/JunctionExpression.java:210-214 | every expression is the same by bind as itself |
| Expressions.FromSameByBindReflexive | src/main/java/com/avaje/ebeaninternal/server/expression/DefaultExpressionList.java:418-429 | every list of expressions is the same by bind as itself |
| Expressions.ListCopyForPlanKey | src/main/java/com/avaje/ebeaninternal/server/expression/DefaultExpressionList.java:103-109 | the plan-key copy of a list has one element per element |
| Expressions.ListCopyForPlanKeyElements | src/main/java/com/avaje/ebeaninternal/server/expression/DefaultExpressionList.java:103-109 | each element of a list's plan-key copy is the copy of the element at that index |
| Expressions.CopyForPlanKeyPreserves | src/main/java/com/avaje/ebeaninternal/server/expression/JunctionExpression.java:43-63 | a plan-key copy is the same by plan as the original and renders the same SQL |
| Expressions.ListCopyForPlanKeyPreserves | src/main/java/com/avaje/ebeaninternal/server/expression/DefaultExpressionList.java:103-109 | a list's plan-key copy is the same by plan as the list and renders the same SQL |
| Expressions.ContainsManyRestoresFlag | src/main/java/com/avaje/ebeaninternal/server/expression/JunctionExpression.java:96-114 | containsMany leaves the outer-join flag as it found it and only appends joins; with the flag on every appended join is outer |
| Expressions.ListContainsManyRestoresFlag | src/main/java/com/avaje/ebeaninternal/server/expression/DefaultExpressionList.java:115-120 | the same holds for a whole list |
| Expressions.DisjunctionJoinsAreOuter | src/main/java/com/avaje/ebeaninternal/server/expression/JunctionExpression.java:96-114 | every join registered inside a disjunction is outer, whatever the flag outside |
| Expressions.NoopExpressionConstant | src/main/java/com/avaje/ebeaninternal/server/expression/NoopExpression.java:20-73 | the no-op expression writes "1=1", binds and validates nothing, hashes to 0, matches by plan only another no-op, copies to itself and registers no join |
| ExpressionValidation.AfterValidatingAppend | src/main/java/com/avaje/ebeaninternal/api/SpiExpressionValidation.java:24-28 | validating one run of paths then another is validating them together |
| ExpressionValidation.AfterValidatingSpec | src/main/java/com/avaje/ebeaninternal/api/SpiExpressionValidation.java:24-35 | the unknown set keeps what it had and its first-seen order, holds no duplicate, and gains exactly the invalid paths |
| ExpressionValidation.ValidNamesNeverReported | src/main/java/com/avaje/ebeaninternal/api/SpiExpressionValidation.java:24-35 | a valid path is never reported unknown |
| ExpressionValidation.Validation.constructor | src/main/java/com/avaje/ebeaninternal/api/SpiExpressionValidation.java:17-19 | a new validation has no unknown path |
| ExpressionValidation.Validation.Validate | src/main/java/com/avaje/ebeaninternal/api/SpiExpressionValidation.java:24-28 | a path joins the unknown set exactly when the bean type rejects it and it is not there yet |
| ExpressionLists.ExpressionRequest.Append | src/main/java/com/avaje/ebeaninternal/server/expression/DefaultExpressionList.java:348-359 | append adds the text to the SQL and leaves the bind values alone |
| ExpressionLists.ExpressionRequest.AddBindValues | src/main/java/com/avaje/ebeaninternal/server/expression/DefaultExpressionList.java:362-366 | the bind values are appended and the SQL is left alone |
| ExpressionLists.ManyWhereJoins.SetRequireOuterJoins | src/main/java/com/avaje/ebeaninternal/server/expression/JunctionExpression.java:96-114 | the flag is set and the joins are kept |
| ExpressionLists.ManyWhereJoins.Add | src/main/java/com/avaje/ebeaninternal/server/expression/JunctionExpression.java:96-114 | a join is appended, outer exactly when the flag is on |
| ExpressionLists.AddExprSql | src/main/java/com/avaje/ebeaninternal/server/expression/JunctionExpression.java:146-163 | one element's SQL is appended, recursively through junctions |
| ExpressionLists.AddListSql | src/main/java/com/avaje/ebeaninternal/server/expression/DefaultExpressionList.java:348-359 | the elements' SQL is appended in order with the separator between them |
| ExpressionLists.AddExprBindValues | src/main/java/com/avaje/ebeaninternal/server/expression/JunctionExpression.java:135-143 | one element's bind values are appended in order |
| ExpressionLists.AddListBindValues | src/main/java/com/avaje/ebeaninternal/server/expression/DefaultExpressionList.java:362-366 | the elements' bind values are appended in list order |
| ExpressionLists.ValidateExpr | src/main/java/com/avaje/ebeaninternal/server/expression/JunctionExpression.java:117-119 | one element's property paths are validated in order |
| ExpressionLists.ValidateList | src/main/java/com/avaje/ebeaninternal/server/expression/DefaultExpressionList.java:123-127 | the elements' property paths are validated in list order |
| ExpressionLists.ExprContainsMany | src/main/java/com/avaje/ebeaninternal/server/expression/JunctionExpression.java:96-114 | one element registers its many-property joins, a disjunction with the flag set and then restored |
| ExpressionLists.ListContainsManyLoop | src/main/java/com/avaje/ebeaninternal/server/expression/DefaultExpressionList.java:115-120 | the elements register their joins in list order |
| ExpressionLists.ExpressionList.constructor | src/main/java/com/avaje/ebeaninternal/server/expression/DefaultExpressionList.java:42-63 | a new list is empty, with the given query, factory and parent |
| ExpressionLists.ExpressionList.Detached | src/main/java/com/avaje/ebeaninternal/server/expression/DefaultExpressionList.java:103-109 | the list copyForPlanKey makes is empty, with no query, factory or parent |
| ExpressionLists.ExpressionList.Add | src/main/java/com/avaje/ebeaninternal/server/expression/DefaultExpressionList.java:325-328 | add appends exactly the expression and returns the same list |
| ExpressionLists.ExpressionList.AddAll | src/main/java/com/avaje/ebeaninternal/server/expression/DefaultExpressionList.java:331-335 | addAll appends the other list's elements in order and returns the same list |
| ExpressionLists.ExpressionList.EndJunction | src/main/java/com/avaje/ebeaninternal/server/expression/DefaultExpressionList.java:130-132 | endJunction is the parent, or the list itself when there is none |
| ExpressionLists.ExpressionList.Copy | src/main/java/com/avaje/ebeaninternal/server/expression/DefaultExpressionList.java:97-101 | copy is a fresh list with the same elements and factory, the given query and no parent |
| ExpressionLists.ExpressionList.CopyThenAdd | src/main/java/com/avaje/ebeaninternal/server/expression/DefaultExpressionList.java:97-101 | adding to a copy leaves the original unchanged |
| ExpressionLists.ExpressionList.CopyForPlanKey | src/main/java/com/avaje/ebeaninternal/server/expression/DefaultExpressionList.java:103-109 | a fresh detached list holding the plan-key copy of each element at its index |
| ExpressionLists.ExpressionList.AddSql | src/main/java/com/avaje/ebeaninternal/server/expression/DefaultExpressionList.java:348-359 | the elements' SQL in list order joined by " and ", nothing before or after; no value is bound |
| ExpressionLists.ExpressionList.AddBindValues | src/main/java/com/avaje/ebeaninternal/server/expression/DefaultExpressionList.java:362-366 | the elements' bind values in list order; the SQL is left alone |
| ExpressionLists.ExpressionList.Validate | src/main/java/com/avaje/ebeaninternal/server/expression/DefaultExpressionList.java:123-127 | every element's property paths are validated, in list order |
| ExpressionLists.ExpressionList.ContainsMany | src/main/java/com/avaje/ebeaninternal/server/expression/DefaultExpressionList.java:115-120 | the elements register their many-property joins in list order |
| ExpressionLists.ExpressionList.QueryBindHash | src/main/java/com/avaje/ebeaninternal/server/expression/DefaultExpressionList.java:391-397 | the hash is the 32-bit wrap of seed * 31^n plus each element's hash weighted by its position |
| ExpressionLists.ExpressionList.IsSameByPlan | src/main/java/com/avaje/ebeaninternal/server/expression/DefaultExpressionList.java:400-415 | false for a non-list or a different size, otherwise true exactly when every pair is the same by plan |
| ExpressionLists.ExpressionList.IsSameByBind | src/main/java/com/avaje/ebeaninternal/server/expression/DefaultExpressionList.java:418-429 | a non-list operand throws (the unchecked cast); otherwise the pairwise comparison by bind |
| ExpressionLists.ExpressionList.IdEq | src/main/java/com/avaje/ebeaninternal/server/expression/DefaultExpressionList.java:605-612 | on a query's top-level list it sets the query id and leaves the list; otherwise it appends the factory's id-equals expression, or fails with NullPointerException when there is no factory; when it does not set the id, the query is left unchanged |
| ExpressionLists.ExpressionList.Exists | src/main/java/com/avaje/ebeaninternal/server/expression/DefaultExpressionList.java:663-666 | exists appends the factory's exists expression over the sub-query; no factory is a NullPointerException |
| ExpressionLists.ExpressionList.NotExists | src/main/java/com/avaje/ebeaninternal/server/expression/DefaultExpressionList.java:669-672 | notExists appends the factory's not-exists expression over the sub-query; no factory is a NullPointerException |
| ExpressionLists.JunctionNotExistsQuirk | src/main/java/com/avaje/ebeaninternal/server/expression/JunctionExpression.java:543-546 | as written, notExists on a junction appends the exists expression, which differs from what the list's own notExists appends |
| ExpressionLists.JunctionNotExistsIntendedAppends | src/main/java/com/avaje/ebeaninternal/server/expression/DefaultExpressionList.java:669-672 | the corrected junction notExists keeps the list and appends the not-exists expression |
| ExpressionLists.JunctionExpression.Conjunction | src/main/java/com/avaje/ebeaninternal/server/expression/JunctionExpression.java:31-37 | a conjunction joins with " and ", is not a disjunction, and holds a fresh empty list |
| ExpressionLists.JunctionExpression.Disjunction | src/main/java/com/avaje/ebeaninternal/server/expression/JunctionExpression.java:48-54 | a disjunction joins with " or ", is a disjunction, and holds a fresh empty list |
| ExpressionLists.JunctionExpression.OfList | src/main/java/com/avaje/ebeaninternal/server/expression/JunctionExpression.java:43-63 | the junction copyForPlanKey builds: the given kind over the given list |
| ExpressionLists.JunctionExpression.JoinType | src/main/java/com/avaje/ebeaninternal/server/expression/JunctionExpression.java:27-40 | a conjunction joins its members with " and ", every other junction with " or " |
| ExpressionLists.JunctionExpression.Value | src/main/java/com/avaje/ebeaninternal/server/expression/JunctionExpression.java:146-163 | the junction as an expression over its list's current elements: an empty one writes no SQL, otherwise "(", the members joined by the join type, ") " |
| ExpressionLists.JunctionExpression.Add | src/main/java/com/avaje/ebeaninternal/server/expression/JunctionExpression.java:122-126 | add appends exactly the expression to the inner list and returns the junction |
| ExpressionLists.JunctionExpression.AddAll | src/main/java/com/avaje/ebeaninternal/server/expression/JunctionExpression.java:129-132 | addAll appends the other list's elements to the inner list, in order |
| ExpressionLists.JunctionExpression.AddSql | src/main/java/com/avaje/ebeaninternal/server/expression/JunctionExpression.java:146-163 | nothing for an empty junction, else "(", the children joined by the join type, ") " |
| ExpressionLists.JunctionExpression.AddBindValues | src/main/java/com/avaje/ebeaninternal/server/expression/JunctionExpression.java:135-143 | the children's bind values in order |
| ExpressionLists.JunctionExpression.Validate | src/main/java/com/avaje/ebeaninternal/server/expression/JunctionExpression.java:117-119 | the children's property paths are validated in order |
| ExpressionLists.JunctionExpression.ContainsMany | src/main/java/com/avaje/ebeaninternal/server/expression/JunctionExpression.java:96-114 | a disjunction sets the outer-join flag for its children, and the flag is restored afterwards |
| ExpressionLists.JunctionExpression.QueryBindHash | src/main/java/com/avaje/ebeaninternal/server/expression/JunctionExpression.java:186-195 | the h * 31 + child fold from the junction class-name seed, in int arithmetic |
| ExpressionLists.JunctionExpression.IsSameByPlan | src/main/java/com/avaje/ebeaninternal/server/expression/JunctionExpression.java:198-207 | true exactly for another junction with the same join string and a same-by-plan list |
| ExpressionLists.JunctionExpression.IsSameByBind | src/main/java/com/avaje/ebeaninternal/server/expression/JunctionExpression.java:210-214 | a non-junction throws; otherwise the join string and the lists pairwise decide |
| ExpressionLists.JunctionExpression.CopyForPlanKey | src/main/java/com/avaje/ebeaninternal/server/expression/JunctionExpression.java:43-63 | a fresh junction of the same kind over the plan-key copy of the list |
| ExpressionLists.JunctionExpression.EndJunction | src/main/java/com/avaje/ebeaninternal/server/expression/JunctionExpression.java:217-219 | endJunction is the inner list's endJunction |
| ExpressionLists.JunctionExpression.IdEq | src/main/java/com/avaje/ebeaninternal/server/expression/JunctionExpression.java:479-480 | idEq does what the inner list's idEq does: it sets the query id, or appends the id-equals expression, or fails with NullPointerException; when it does not set the id, the query is left unchanged |
| ExpressionLists.JunctionExpression.Exists | src/main/java/com/avaje/ebeaninternal/server/expression/JunctionExpression.java:539-541 | exists appends the exists expression to the inner list |
| ExpressionLists.JunctionExpression.NotExists | src/main/java/com/avaje/ebeaninternal/server/expression/JunctionExpression.java:543-546 | as written: notExists appends the exists expression to the inner list |
| ExpressionLists.JunctionExpression.NotExistsCorrected | src/main/java/com/avaje/ebeaninternal/server/expression/JunctionExpression.java:543-546 | corrected: notExists appends the not-exists expression to the inner list |
| ExpressionLists.JunctionExpression.FilterMany | src/main/java/com/avaje/ebeaninternal/server/expression/JunctionExpression.java:271-274 | filterMany always fails with the "not allowed on Junction" RuntimeException |
| ExpressionLists.JunctionExpression.Having | src/main/java/com/avaje/ebeaninternal/server/expression/JunctionExpression.java:468-471 | having always fails with the "not allowed on Junction" RuntimeException |
| ExpressionLists.JunctionExpression.WriteElastic | src/main/java/com/avaje/ebeaninternal/server/expression/JunctionExpression.java:91-93 | writeElastic always fails with IllegalStateException("Not supported") |
| DeployBeanDescriptor.IndexEvent | src/main/java/com/avaje/ebeaninternal/server/deploy/meta/DeployBeanDescriptor.java:1020-1027 | a bean with no doc store ignores every event; otherwise the first non-DEFAULT of the specific and persist settings wins, else the server's, so DEFAULT comes out only when all three are DEFAULT |
| DeployBeanDescriptor.PropOrder | src/main/java/com/avaje/ebeaninternal/server/deploy/meta/DeployBeanDescriptor.java:47-55 | negative exactly when the first property has the higher sort order, zero exactly on equal sort orders |
| DeployBeanDescriptor.PropOrderAntisymmetric | src/main/java/com/avaje/ebeaninternal/server/deploy/meta/DeployBeanDescriptor.java:47-55 | swapping the arguments of the comparator flips the sign |
| DeployBeanDescriptor.InsertInOrderMultiset | src/main/java/com/avaje/ebeaninternal/server/deploy/meta/DeployBeanDescriptor.java:609-620 | inserting into a sorted run adds exactly that property |
| DeployBeanDescriptor.InsertInOrderSorted | src/main/java/com/avaje/ebeaninternal/server/deploy/meta/DeployBeanDescriptor.java:609-620 | inserting keeps a run sorted by the comparator |
| DeployBeanDescriptor.InsertInOrderStable | src/main/java/com/avaje/ebeaninternal/server/deploy/meta/DeployBeanDescriptor.java:609-620 | inserting puts the property after every property with its sort order |
| DeployBeanDescriptor.SortOrderBelowHead | src/main/java/com/avaje/ebeaninternal/server/deploy/meta/DeployBeanDescriptor.java:609-620 | no property of a sorted run has a sort order above its first |
| DeployBeanDescriptor.SortedByPropOrderSorted | src/main/java/com/avaje/ebeaninternal/server/deploy/meta/DeployBeanDescriptor.java:609-620 | the sorted properties are in comparator order |
| DeployBeanDescriptor.SortedByPropOrderPermutes | src/main/java/com/avaje/ebeaninternal/server/deploy/meta/DeployBeanDescriptor.java:609-620 | the sorted properties are a permutation of the properties |
| DeployBeanDescriptor.SortedByPropOrderStable | src/main/java/com/avaje/ebeaninternal/server/deploy/meta/DeployBeanDescriptor.java:609-620 | properties with equal sort order keep their relative order |
| DeployBeanDescriptor.SortedByPropOrderSpec | src/main/java/com/avaje/ebeaninternal/server/deploy/meta/DeployBeanDescriptor.java:609-620 | sorted, a permutation, and stable for every sort order |
| DeployBeanDescriptor.SortedDescending | src/main/java/com/avaje/ebeaninternal/server/deploy/meta/DeployBeanDescriptor.java:47-55 | after sorting a higher sort order always comes first |
| DeployBeanDescriptor.InsertKeepsDistinctNames | src/main/java/com/avaje/ebeaninternal/server/deploy/meta/DeployBeanDescriptor.java:609-620 | inserting a property with a new name keeps names distinct |
| DeployBeanDescriptor.SortKeepsDistinctNames | src/main/java/com/avaje/ebeaninternal/server/deploy/meta/DeployBeanDescriptor.java:609-620 | sorting properties with distinct names keeps them distinct, so the rebuilt map loses none |
| DeployBeanDescriptor.PropertyEntries | src/main/java/com/avaje/ebeaninternal/server/deploy/meta/DeployBeanDescriptor.java:609-620 | the rebuilt map has one entry per property, keyed by its name, in order |
| DeployBeanDescriptor.EagerNamesSpec | src/main/java/com/avaje/ebeaninternal/server/deploy/meta/DeployBeanDescriptor.java:780-804 | a name is in the clause exactly when a non-transient, non-many, eagerly fetched property has it |
| DeployBeanDescriptor.CommaTerminatedIsJoined | src/main/java/com/avaje/ebeaninternal/server/deploy/meta/DeployBeanDescriptor.java:780-804 | the names each followed by a comma are the names joined by commas plus one trailing comma, which the source removes |
| DeployBeanDescriptor.SelectClauseOfPass | src/main/java/com/avaje/ebeaninternal/server/deploy/meta/DeployBeanDescriptor.java:780-804 | what one pass gathers, the comma-terminated eager names and whether any candidate is lazy, decides the clause: null, the no-properties IllegalStateException, or the names without the trailing comma |
| DeployBeanDescriptor.IndexOfComma | src/main/java/com/avaje/ebeaninternal/server/deploy/meta/DeployBeanDescriptor.java:809-827 | the index of the first comma, or the length when there is none |
| DeployBeanDescriptor.SplitOnComma | src/main/java/com/avaje/ebeaninternal/server/deploy/meta/DeployBeanDescriptor.java:809-827 | splitting on commas gives at least one piece, none holding a comma, and joining the pieces with commas gives the text back |
| DeployBeanDescriptor.CollectDropsTrailingEmpty | src/main/java/com/avaje/ebeaninternal/server/deploy/meta/DeployBeanDescriptor.java:809-827 | dropping trailing empty pieces changes nothing once pieces are trimmed and empty ones skipped |
| DeployBeanDescriptor.ParseIgnoresSplitTrailing | src/main/java/com/avaje/ebeaninternal/server/deploy/meta/DeployBeanDescriptor.java:809-827 | the parse is the same with or without the trailing empty pieces String.split drops |
| DeployBeanDescriptor.TrimmedPiecesSpec | src/main/java/com/avaje/ebeaninternal/server/deploy/meta/DeployBeanDescriptor.java:809-827 | a name is a trimmed piece exactly when it is non-empty and some piece trims to it |
| DeployBeanDescriptor.CollectTrimmedSpec | src/main/java/com/avaje/ebeaninternal/server/deploy/meta/DeployBeanDescriptor.java:809-827 | adding trimmed pieces to a set keeps what it had in order, adds no duplicate, and holds exactly the old names and the trimmed pieces |
| DeployBeanDescriptor.ParseSelectClauseSpec | src/main/java/com/avaje/ebeaninternal/server/deploy/meta/DeployBeanDescriptor.java:809-827 | the parsed names are distinct and trimmed, and a name is there exactly when some comma-separated piece trims to it |
| DeployBeanDescriptor.SplitOfJoined | src/main/java/com/avaje/ebeaninternal/server/deploy/meta/DeployBeanDescriptor.java:809-827 | splitting comma-joined comma-free names gives the names back |
| DeployBeanDescriptor.CollectOfDistinctTrimmed | src/main/java/com/avaje/ebeaninternal/server/deploy/meta/DeployBeanDescriptor.java:809-827 | distinct trimmed non-empty names are collected unchanged |
| DeployBeanDescriptor.DefaultSelectClauseRoundTrip | src/main/java/com/avaje/ebeaninternal/server/deploy/meta/DeployBeanDescriptor.java:780-827 | parsing the default select clause gives back the eager names in order, when they are distinct, trimmed and comma-free |
| DeployBeanDescriptor.IdPropertiesSpec | src/main/java/com/avaje/ebeaninternal/server/deploy/meta/DeployBeanDescriptor.java:873-884 | a property is an id property exactly when it is in the map and is an id |
| DeployBeanDescriptor.IdPropertiesAppend | src/main/java/com/avaje/ebeaninternal/server/deploy/meta/DeployBeanDescriptor.java:873-884 | collecting the id properties keeps their order |
| DeployBeanDescriptor.ExtendFromFrame | src/main/java/com/avaje/ebeaninternal/server/deploy/meta/DeployBeanDescriptor.java:304-316 | resolving extends keeps every key, name and extend setting |
| DeployBeanDescriptor.ExtendFromPass | src/main/java/com/avaje/ebeaninternal/server/deploy/meta/DeployBeanDescriptor.java:304-316 | resolution from a position succeeds exactly when every raw SQL from there on that extends another names a registered one |
| DeployBeanDescriptor.ExtendFromExtended | src/main/java/com/avaje/ebeaninternal/server/deploy/meta/DeployBeanDescriptor.java:304-316 | after a successful pass, each raw SQL from the position on that extends another has that parent appended once to what it is extended with |
| DeployBeanDescriptor.ExtendFromFrameAt | src/main/java/com/avaje/ebeaninternal/server/deploy/meta/DeployBeanDescriptor.java:304-316 | entries before the position are left unchanged |
| DeployBeanDescriptor.RawSqlExtendFailsIffMissingParent | src/main/java/com/avaje/ebeaninternal/server/deploy/meta/DeployBeanDescriptor.java:304-316 | resolution fails exactly when some raw SQL extends one that is not registered |
| DeployBeanDescriptor.ChainOf | src/main/java/com/avaje/ebeaninternal/server/deploy/meta/DeployBeanDescriptor.java:503-547 | null exactly when nothing is registered, a chain only for more than one; the result calls exactly the registered objects, in order |
| DeployBeanDescriptor.DeployBeanDescriptor.constructor | src/main/java/com/avaje/ebeaninternal/server/deploy/meta/DeployBeanDescriptor.java:197-200 | a new descriptor has no properties, named queries or updates, raw SQL, listeners, base table, draft setting or doc store |
| DeployBeanDescriptor.DeployBeanDescriptor.ReadDocStore | src/main/java/com/avaje/ebeaninternal/server/deploy/meta/DeployBeanDescriptor.java:265-279 | the bean is indexed and takes the annotation's queue, index and event settings; its doc paths change only when the doc text is non-empty |
| DeployBeanDescriptor.DeployBeanDescriptor.DocStoreInsertEvent | src/main/java/com/avaje/ebeaninternal/server/deploy/meta/DeployBeanDescriptor.java:1002-1006 | never null on a valid descriptor, and IGNORE for a bean with no doc store |
| DeployBeanDescriptor.DeployBeanDescriptor.DocStoreUpdateEvent | src/main/java/com/avaje/ebeaninternal/server/deploy/meta/DeployBeanDescriptor.java:1008-1012 | never null on a valid descriptor, and IGNORE for a bean with no doc store |
| DeployBeanDescriptor.DeployBeanDescriptor.DocStoreDeleteEvent | src/main/java/com/avaje/ebeaninternal/server/deploy/meta/DeployBeanDescriptor.java:1014-1018 | never null on a valid descriptor, and IGNORE for a bean with no doc store |
| DeployBeanDescriptor.DeployBeanDescriptor.SetDraftable | src/main/java/com/avaje/ebeaninternal/server/deploy/meta/DeployBeanDescriptor.java:245-247 | the bean becomes draftable |
| DeployBeanDescriptor.DeployBeanDescriptor.SetDraftableElement | src/main/java/com/avaje/ebeaninternal/server/deploy/meta/DeployBeanDescriptor.java:253-256 | a draftable element is draftable too |
| DeployBeanDescriptor.DeployBeanDescriptor.SetBaseTable | src/main/java/com/avaje/ebeaninternal/server/deploy/meta/DeployBeanDescriptor.java:601-607 | the base table is the qualified name; the as-of and versions-between names add their suffix; the draft table adds "_draft" for a draftable bean and is the base table otherwise |
| DeployBeanDescriptor.DeployBeanDescriptor.AddBeanProperty | src/main/java/com/avaje/ebeaninternal/server/deploy/meta/DeployBeanDescriptor.java:625-627 | the property is put under its name; the replaced one, if any, is returned |
| DeployBeanDescriptor.DeployBeanDescriptor.SortProperties | src/main/java/com/avaje/ebeaninternal/server/deploy/meta/DeployBeanDescriptor.java:609-620 | the map holds its properties sorted by PROP_ORDER: same properties, descending sort order, ties in old order |
| DeployBeanDescriptor.DeployBeanDescriptor.GetDefaultSelectClause | src/main/java/com/avaje/ebeaninternal/server/deploy/meta/DeployBeanDescriptor.java:780-804 | null when no candidate is lazy; IllegalStateException when some are lazy and none eager; else the eager names joined by commas |
| DeployBeanDescriptor.DeployBeanDescriptor.ParseDefaultSelectClause | src/main/java/com/avaje/ebeaninternal/server/deploy/meta/DeployBeanDescriptor.java:809-827 | null stays null; otherwise the distinct non-empty trimmed comma-separated pieces, in first-seen order |
| DeployBeanDescriptor.DeployBeanDescriptor.Properties | src/main/java/com/avaje/ebeaninternal/server/deploy/meta/DeployBeanDescriptor.java:773-775 | propertiesAll is the map's values, one per entry, in map order |
| DeployBeanDescriptor.DeployBeanDescriptor.PropertiesId | src/main/java/com/avaje/ebeaninternal/server/deploy/meta/DeployBeanDescriptor.java:873-884 | the id properties, in map order |
| DeployBeanDescriptor.DeployBeanDescriptor.GetPersistController | src/main/java/com/avaje/ebeaninternal/server/deploy/meta/DeployBeanDescriptor.java:503-511 | null, the single controller, or a chain calling every registered controller in order |
| DeployBeanDescriptor.DeployBeanDescriptor.GetPersistListener | src/main/java/com/avaje/ebeaninternal/server/deploy/meta/DeployBeanDescriptor.java:516-524 | null, the single listener, or a chain calling every registered listener in order |
| DeployBeanDescriptor.DeployBeanDescriptor.GetQueryAdapter | src/main/java/com/avaje/ebeaninternal/server/deploy/meta/DeployBeanDescriptor.java:526-534 | null, the single adapter, or a chain calling every registered adapter in order |
| DeployBeanDescriptor.DeployBeanDescriptor.GetPostLoad | src/main/java/com/avaje/ebeaninternal/server/deploy/meta/DeployBeanDescriptor.java:539-547 | null, the single post-loader, or a chain calling every registered post-loader in order |
| DeployBeanDescriptor.DeployBeanDescriptor.AddPersistController | src/main/java/com/avaje/ebeaninternal/server/deploy/meta/DeployBeanDescriptor.java:549-551 | the controller is appended |
| DeployBeanDescriptor.DeployBeanDescriptor.AddPersistListener | src/main/java/com/avaje/ebeaninternal/server/deploy/meta/DeployBeanDescriptor.java:553-555 | the listener is appended |
| DeployBeanDescriptor.DeployBeanDescriptor.AddQueryAdapter | src/main/java/com/avaje/ebeaninternal/server/deploy/meta/DeployBeanDescriptor.java:557-559 | the adapter is appended |
| DeployBeanDescriptor.DeployBeanDescriptor.AddPostLoad | src/main/java/com/avaje/ebeaninternal/server/deploy/meta/DeployBeanDescriptor.java:561-563 | the post-loader is appended |
| DeployBeanDescriptor.DeployBeanDescriptor.SetEntityType | src/main/java/com/avaje/ebeaninternal/server/deploy/meta/DeployBeanDescriptor.java:327-329 | the entity type is set |
| DeployBeanDescriptor.DeployBeanDescriptor.GetEntityType | src/main/java/com/avaje/ebeaninternal/server/deploy/meta/DeployBeanDescriptor.java:340-345 | an unset entity type reads as ORM and is then stored as ORM |
| DeployBeanDescriptor.DeployBeanDescriptor.AddRawSqlMeta | src/main/java/com/avaje/ebeaninternal/server/deploy/meta/DeployBeanDescriptor.java:363-368 | registered under its name; the name "default" makes the bean an SQL entity, any other leaves the type |
| DeployBeanDescriptor.DeployBeanDescriptor.AddNamedUpdate | src/main/java/com/avaje/ebeaninternal/server/deploy/meta/DeployBeanDescriptor.java:370-372 | registered under its name |
| DeployBeanDescriptor.DeployBeanDescriptor.AddNamedQuery | src/main/java/com/avaje/ebeaninternal/server/deploy/meta/DeployBeanDescriptor.java:374-379 | registered under its name; the name "default" makes the bean an SQL entity, any other leaves the type |
| DeployBeanDescriptor.DeployBeanDescriptor.RawSqlProcessExtend | src/main/java/com/avaje/ebeaninternal/server/deploy/meta/DeployBeanDescriptor.java:304-316 | one pass in map order extending each raw SQL with its parent, failing at the first missing parent |
| DeployBeanDescriptor.DeployBeanDescriptor.GetRawSqlMeta | src/main/java/com/avaje/ebeaninternal/server/deploy/meta/DeployBeanDescriptor.java:292-298 | the extends are resolved once, on the first call that succeeds; the call returns the raw SQL entries exactly when they were already resolved or every parent is registered; a failed call leaves them to be resolved again |
| BeanPropertyAssoc.FirstColumnMatch | src/main/java/com/avaje/ebeaninternal/server/deploy/BeanPropertyAssoc.java:316-331 | the first property from the start index whose db column equals the column ignoring case, or none when no later one does |
| BeanPropertyAssoc.ImportedScalarSpec | src/main/java/com/avaje/ebeaninternal/server/deploy/BeanPropertyAssoc.java:316-337 | the first case-insensitive match among the id properties at its index, else among the others at index plus the id count, else PersistenceException |
| BeanPropertyAssoc.InsertByPositionMultiset | src/main/java/com/avaje/ebeaninternal/server/deploy/BeanPropertyAssoc.java:305-314 | inserting by position adds exactly that scalar |
| BeanPropertyAssoc.InsertByPositionSorted | src/main/java/com/avaje/ebeaninternal/server/deploy/BeanPropertyAssoc.java:305-314 | inserting by position keeps a run in position order |
| BeanPropertyAssoc.SortByPositionStable | src/main/java/com/avaje/ebeaninternal/server/deploy/BeanPropertyAssoc.java:305-314 | the position sort is stable: the scalars at any one position keep their column order |
| BeanPropertyAssoc.SortByPositionSorted | src/main/java/com/avaje/ebeaninternal/server/deploy/BeanPropertyAssoc.java:305-314 | the position sort leaves the scalars ordered by position |
| BeanPropertyAssoc.InsertByPositionStable | src/main/java/com/avaje/ebeaninternal/server/deploy/BeanPropertyAssoc.java:305-314 | inserting a scalar into a sorted run puts it after every scalar already at its position |
| BeanPropertyAssoc.AtPositionAppend | src/main/java/com/avaje/ebeaninternal/server/deploy/BeanPropertyAssoc.java:305-314 | the scalars at a position in a concatenation are those of each part, in order |
| BeanPropertyAssoc.SortByPositionSpec | src/main/java/com/avaje/ebeaninternal/server/deploy/BeanPropertyAssoc.java:305-314 | sorting orders the imported scalars by position and keeps exactly the same ones |
| BeanPropertyAssoc.ImportedScalarsFails | src/main/java/com/avaje/ebeaninternal/server/deploy/BeanPropertyAssoc.java:305-314 | building the list fails exactly when some join column has no matching property |
| BeanPropertyAssoc.ImportedScalarsEach | src/main/java/com/avaje/ebeaninternal/server/deploy/BeanPropertyAssoc.java:305-314 | on success there is one imported scalar per join column, each built from its column |
| BeanPropertyAssoc.ImportedScalarsSpec | src/main/java/com/avaje/ebeaninternal/server/deploy/BeanPropertyAssoc.java:305-314 | one imported scalar per column, each built from its column; it fails exactly when some column has no match |
| BeanPropertyAssoc.ImportedScalarsFailFrom | src/main/java/com/avaje/ebeaninternal/server/deploy/BeanPropertyAssoc.java:305-314 | once a prefix of the columns fails, the whole list fails with the same error |
| BeanPropertyAssoc.ImportedListSpec | src/main/java/com/avaje/ebeaninternal/server/deploy/BeanPropertyAssoc.java:305-314 | the sorted list has one entry per column, is in position order, and each entry is the scalar built from some column |
| BeanPropertyAssoc.BeanPropertyAssoc.constructor | src/main/java/com/avaje/ebeaninternal/server/deploy/BeanPropertyAssoc.java:191-203 | the property keeps its bean name, whether it is SQL-select based, its join and its target descriptor |
| BeanPropertyAssoc.BeanPropertyAssoc.IsUpdateable | src/main/java/com/avaje/ebeaninternal/server/deploy/BeanPropertyAssoc.java:241-243 | true for a join without columns, otherwise the first column's updateable flag |
| BeanPropertyAssoc.BeanPropertyAssoc.IsInsertable | src/main/java/com/avaje/ebeaninternal/server/deploy/BeanPropertyAssoc.java:248-250 | true for a join without columns, otherwise the first column's insertable flag |
| BeanPropertyAssoc.BeanPropertyAssoc.HasId | src/main/java/com/avaje/ebeaninternal/server/deploy/BeanPropertyAssoc.java:191-203 | false exactly when the target has an id property and the bean's value for it is null |
| BeanPropertyAssoc.BeanPropertyAssoc.CreateImportedScalar | src/main/java/com/avaje/ebeaninternal/server/deploy/BeanPropertyAssoc.java:316-337 | the two search loops give exactly the result ImportedScalarSpec characterises |
| BeanPropertyAssoc.BeanPropertyAssoc.CreateImportedList | src/main/java/com/avaje/ebeaninternal/server/deploy/BeanPropertyAssoc.java:305-314 | fails exactly when some column has no match; otherwise one scalar per column, sorted by position |
| BeanPropertyAssoc.BeanPropertyAssoc.CreateImportedId | src/main/java/com/avaje/ebeaninternal/server/deploy/BeanPropertyAssoc.java:270-303 | SQL-select based: one simple id at position 0; no id: null; a scalar id needs exactly one join column (else null); an embedded id: one sorted scalar per join column |
| GeneratedPropertyFactory.VersionGenerator | src/main/java/com/avaje/ebeaninternal/server/deploy/generatedproperty/GeneratedPropertyFactory.java:64-70 | a counter exactly for a number type, otherwise an update timestamp, for the property's type |
| GeneratedPropertyFactory.VersionStrategyExamples | src/main/java/com/avaje/ebeaninternal/server/deploy/generatedproperty/GeneratedPropertyFactory.java:45-70 | Integer, long and BigDecimal get a counter; Float, byte and Timestamp get an update timestamp |
| GeneratedPropertyFactory.DeployBeanProperty.constructor | src/main/java/com/avaje/ebeaninternal/server/deploy/generatedproperty/GeneratedPropertyFactory.java:64-99 | a new property has no generator |
| GeneratedPropertyFactory.GeneratedPropertyFactory.constructor | src/main/java/com/avaje/ebeaninternal/server/deploy/generatedproperty/GeneratedPropertyFactory.java:30-54 | the number types are the nine listed; the who generators exist exactly when a provider is configured |
| GeneratedPropertyFactory.GeneratedPropertyFactory.SetVersion | src/main/java/com/avaje/ebeaninternal/server/deploy/generatedproperty/GeneratedPropertyFactory.java:64-70 | the property gets a counter for a number type, else an update timestamp |
| GeneratedPropertyFactory.GeneratedPropertyFactory.SetCounter | src/main/java/com/avaje/ebeaninternal/server/deploy/generatedproperty/GeneratedPropertyFactory.java:72-75 | the property gets a counter |
| GeneratedPropertyFactory.GeneratedPropertyFactory.SetInsertTimestamp | src/main/java/com/avaje/ebeaninternal/server/deploy/generatedproperty/GeneratedPropertyFactory.java:77-80 | the property gets an insert timestamp |
| GeneratedPropertyFactory.GeneratedPropertyFactory.SetUpdateTimestamp | src/main/java/com/avaje/ebeaninternal/server/deploy/generatedproperty/GeneratedPropertyFactory.java:82-85 | the property gets an update timestamp |
| GeneratedPropertyFactory.GeneratedPropertyFactory.SetWhoCreated | src/main/java/com/avaje/ebeaninternal/server/deploy/generatedproperty/GeneratedPropertyFactory.java:87-92 | no provider: IllegalStateException and the property unchanged; else exactly the who-created generator |
| GeneratedPropertyFactory.GeneratedPropertyFactory.SetWhoModified | src/main/java/com/avaje/ebeaninternal/server/deploy/generatedproperty/GeneratedPropertyFactory.java:94-99 | no provider: IllegalStateException and the property unchanged; else exactly the who-modified generator |
| DocMappingBuilder.DocPropertyMapping.constructor | src/main/java/com/avaje/ebeanservice/docstore/api/mapping/DocMappingBuilder.java:28-32 | a new mapping has no children and no overrides |
| DocMappingBuilder.DocPropertyMapping.AddChild | src/main/java/com/avaje/ebeanservice/docstore/api/mapping/DocMappingBuilder.java:51-59 | the child is appended |
| DocMappingBuilder.DocPropertyMapping.Apply | src/main/java/com/avaje/ebeanservice/docstore/api/mapping/DocMappingBuilder.java:86-96 | the override is appended to the mapping's overrides |
| DocMappingBuilder.DocMappingBuilder.constructor | src/main/java/com/avaje/ebeanservice/docstore/api/mapping/DocMappingBuilder.java:28-32 | the stack holds exactly one fresh root mapping and nothing is recorded |
| DocMappingBuilder.DocMappingBuilder.IncludesPath | src/main/java/com/avaje/ebeanservice/docstore/api/mapping/DocMappingBuilder.java:37-46 | includesPath answers exactly as includesProperty |
| DocMappingBuilder.DocMappingBuilder.Add | src/main/java/com/avaje/ebeanservice/docstore/api/mapping/DocMappingBuilder.java:51-59 | the mapping becomes the last child of the top and is recorded under the top's name joined with its own, and the top's overrides are untouched; an empty stack fails with EmptyStackException and records nothing |
| DocMappingBuilder.DocMappingBuilder.Push | src/main/java/com/avaje/ebeanservice/docstore/api/mapping/DocMappingBuilder.java:64-66 | the nested mapping is pushed on top of the stack |
| DocMappingBuilder.DocMappingBuilder.Pop | src/main/java/com/avaje/ebeanservice/docstore/api/mapping/DocMappingBuilder.java:71-73 | the top is removed; an empty stack fails with EmptyStackException and is left as it was |
| DocMappingBuilder.DocMappingBuilder.ApplyMapping | src/main/java/com/avaje/ebeanservice/docstore/api/mapping/DocMappingBuilder.java:78-96 | each override in order is appended to the mapping recorded under its path; the first unrecorded path fails with IllegalStateException, after the earlier overrides are applied |
| DocMappingBuilder.AppliedCount | src/main/java/com/avaje/ebeanservice/docstore/api/mapping/DocMappingBuilder.java:78-96 | the overrides before the first unrecorded path all have recorded paths |
| DocMappingBuilder.AppliedCountAt | src/main/java/com/avaje/ebeanservice/docstore/api/mapping/DocMappingBuilder.java:78-96 | past the applied prefix, the next override is applied exactly when its path is recorded |
| DocMappingBuilder.OverridesForSnoc | src/main/java/com/avaje/ebeanservice/docstore/api/mapping/DocMappingBuilder.java:78-96 | one more override adds itself to the mapping recorded under its path, and to no other |
| DocMappingBuilder.VisitNodeSpec | src/main/java/com/avaje/ebeanservice/docstore/api/mapping/DocMappingBuilder.java:123-141 | visiting a property adds exactly the sortable full paths of it and of the properties below it, keys kept unique, each mapped to itself plus ".raw" |
| DocMappingBuilder.VisitChildrenSpec | src/main/java/com/avaje/ebeanservice/docstore/api/mapping/DocMappingBuilder.java:123-141 | visiting the nested properties adds exactly their sortable full paths |
| DocMappingBuilder.CollectSortableSpec | src/main/java/com/avaje/ebeanservice/docstore/api/mapping/DocMappingBuilder.java:101-141 | the sortable map holds exactly the sortable full paths, once each, each mapped to the path plus ".raw" |
| HttpMessageSender.NormaliseBaseUrl | src/main/java/com/avaje/ebeanservice/elastic/BaseHttpMessageSender.java:26-29 | null stays null; otherwise the result ends with "/", is the input when it already did, else the input plus one char |
| HttpMessageSender.NormaliseBaseUrlIdempotent | src/main/java/com/avaje/ebeanservice/elastic/BaseHttpMessageSender.java:26-29 | normalising twice is normalising once |
| HttpMessageSender.DeriveBulkUrl | src/main/java/com/avaje/ebeanservice/elastic/BaseHttpMessageSender.java:34-38 | null stays null; otherwise the base followed by "_bulk" |
| HttpMessageSender.DocSourceUrlSegments | src/main/java/com/avaje/ebeanservice/elastic/BaseHttpMessageSender.java:41-43 | the document URL is the base, then type, index, id and "_source" joined by "/" |
| HttpMessageSender.BaseHttpMessageSender.constructor | src/main/java/com/avaje/ebeanservice/elastic/BaseHttpMessageSender.java:21-24 | the base URL is kept normalised and the bulk URL derived from it |
| HttpMessageSender.BaseHttpMessageSender.GetDocSourceUrl | src/main/java/com/avaje/ebeanservice/elastic/BaseHttpMessageSender.java:41-43 | the URL starts with the base URL and ends with "/_source" |
| HttpMessageSender.SenderUrls | src/main/java/com/avaje/ebeanservice/elastic/BaseHttpMessageSender.java:21-38 | both URLs are null exactly when the configured base is; the bulk URL is the base with one "/" ensured, then "_bulk" |

## Left out

- Executing HTTP requests: `getDocSource` and `postBulk` in `BaseHttpMessageSender`. Only their URLs are modelled, because the network is outside the model.
- The `writeElastic` bodies, and the JSON read/write of the scalar types. These depend on the Jackson generator and parser. The exceptions are `JunctionExpression.writeElastic` and `ScalarTypeByte`'s `jsonRead`/`jsonWrite`, which only throw and are modelled.
- Reflection and annotation scanning in `DefaultTypeManager`. This covers:
  - reading enum constants and `@EnumValue` fields, and `createEnumScalarType(Class)`;
  - `initialiseScalarConverters` and `initialiseCompoundTypes`;
  - the class checks of `checkInheritance`.
  Their results are parameters of the model: enum constants, annotated fields, found custom types and compound properties.
- The Java time, Joda and date scalar types, the compound types' own readers, and the custom-type classes. They appear only as Java-type tags and JDBC codes.
- Logging and concurrency. `ConcurrentHashMap` registries are plain maps.
- JDBC and encryption calls:
  - `PreparedStatement`/`ResultSet` calls are recorded as `BindCall` values;
  - `EncryptSupport` is a pair of functions passed in.
- The `DbType` constants HSTORE, JSON, JSONB and UUID are assumed to be 5000, 5001, 5002 and 5010. `DbType.java` is not part of this model.
- Only ASCII letters are lower-cased in `toLowerCase` and `equalsIgnoreCase`. Unicode case mapping is not modelled.
- `PathProperties.parse` is not part of this model. `readDocStore` keeps the `doc` text as it is.
- `DRawSqlMeta.extend` only records the parent's name. How the SQL itself merges is not modelled.
- `EntityType` has only the values the descriptor uses.
- `BeanPropertyAssoc.initialise` and `createElPropertyValue` are not modelled. `ImportedIdSimple.java` is not part of this model. Its `sort` is taken to be a stable sort by position; `BeanPropertyAssoc.SortByPositionStable` shows the model's sort is stable.
- The counter and timestamp factories choose a generator per Java type. That choice is recorded only as the property's type name.
- GeneratedPropertyFactory.GeneratedPropertyFactory.IsNumberType: has no contract of its own. Its rule is stated through `VersionGenerator` and `SetVersion`.
- `DocPropertyMapping.apply` only records each override in order. Its effect on the mapping's options is not modelled.
- `SplitName.add` and the doc-structure `includesProperty` are functions passed in.
- DocMappingBuilder.CollectSortableSpec: `collectSortable` and its `SortableVisitor` are modelled as a function over a snapshot of the mapping tree (`DocTree`), not as a visitor that fills a map. The order in which entries are inserted is not stated. `DocPropertyMapping.visit` is not part of this model; the model assumes that the traversal calls `visitProperty` on every node, inner object and list nodes included, so that every node whose `sortable` is true is recorded. It also assumes the full path is the one `SplitName.add` forms from the parent's path and the node's name.
- Junction snapshots. When a junction is added to a list it is captured by value, so later changes made through the junction are not seen by the list. In the source both share the same list.
- `prepareExpression` and `queryPlanHash` of the expressions are not modelled, for every expression, the no-op one included. The only hash of `NoopExpression` that is modelled is its `queryBindHash`, the constant 0 (`Expressions.NoopExpressionConstant`).
- `String.split` is modelled only for the single-comma pattern. `JavaSplitComma` drops trailing empty pieces as `String.split` does, and `DeployBeanDescriptor.ParseIgnoresSplitTrailing` proves that keeping them would not change `parseDefaultSelectClause`.
- DefaultTypeManager.TypeManager.Create: the java.time and Joda registrations of `initialiseJavaTimeTypes` and `initialiseJodaTypes` are a parameter, `timeTypes`, because their classes and the class-loader checks are not part of this model. `initialiseScalarConverters` and `initialiseCompoundTypes` are not run, and neither is the `Period` compound type that `initialiseJavaTimeTypes` registers, so the compound map of a new manager is empty. The bootup custom types are given already instantiated.
- DefaultTypeManager.TypeManager.GetScalarDataReaderFor: with code 0 and no registered reader, it returns a `Reflected` reader and changes no state. The source's `recursiveCreateScalarDataReader` builds that reader through reflection and registers it: a plain type goes into the typeMap through `add`, and a compound type goes into the compound map, with its own property types registered recursively. The reflection metadata that decides between the two is not part of this model.
- DefaultTypeManager.TypeManager.CreateCompoundScalarDataReader: its `typeMap == old(typeMap)` holds only because the model's `GetScalarDataReaderFor` registers nothing. In the source, a property of code 0 with no reader registers a reflection-built type, and that registration stays even when a later property fails.
- ScalarTypeUUIDNative.Parse: accepts only the canonical 8-4-4-4-12 form. `UUID.fromString` also accepts five dash-separated hex groups of other lengths, for example "1-2-3-4-5", and how it combines over-long groups depends on the JDK version. The model rejects all of these. Its error is `IllegalArgumentException("Invalid UUID string")`: it omits the ": " plus input that the JDK appends, and it does not model the `NumberFormatException` that a non-hex group gives.
- JavaLang.ParseInt: accepts only the ASCII digits '0' to '9'. `Integer.parseInt` reads digits with `Character.digit`, which also accepts every other Unicode decimal digit, such as the full-width digits U+FF10 to U+FF19. The same restriction carries into `ScalarTypeInteger.Parse` and `DefaultTypeManager.IsIntegerType`, so an `@EnumValue` written in such digits is treated as text, and `CreateEnumScalarType2` then maps as text what the source would map as integers.
- JavaLang.ParseShort: accepts only ASCII digits, where `Short.parseShort` accepts every Unicode decimal digit. The same holds for `ScalarTypeShort.Parse`.
- JavaLang.ParseBigInteger: accepts only ASCII digits, where `new BigInteger(String)` accepts every Unicode decimal digit. The same holds for `ScalarTypeMathBigInteger.Parse`.
- Exception messages that the source builds from runtime values keep only their fixed opening words:
  - "Unmatched ScalarType" (the source appends the type and the JDBC code);
  - "Unable to find a custom ScalarType" (the source appends the type and the `java.sql.Types` code);
  - "No enum constant" (`Enum.valueOf` appends the enum class and the name);
  - "Invalid UUID string" (the JDK appends the input).
- Expressions.SameByBind: there is one `Leaf` constructor for every leaf expression class. Comparing two leaves of different classes therefore compares their bind values, where the source's cast would throw `ClassCastException`.
- DataStream.DecodeFully: states only what a successful read gives. Its failure condition is the one stated by `DataStream.DataInput.ReadFully`.

## Findings

| source | as written | input that shows it | evidently intended | confidence | as-written member | corrected member |
|---|---|---|---|---|---|---|
| src/main/java/com/avaje/ebeaninternal/server/expression/JunctionExpression.java:543-546 | `notExists` on a junction calls `exprList.exists(subQuery)` | any sub-query, with an expression factory whose exists and not-exists expressions differ: the junction gains an EXISTS term instead of NOT EXISTS | `exprList.notExists(subQuery)` | not executed | ExpressionLists.JunctionNotExistsQuirk | ExpressionLists.JunctionNotExistsIntendedAppends |
