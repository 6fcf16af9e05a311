/** The already-parsed heap dump that the view factory reads, and the outcomes of reading it.

    A dump holds five id-keyed tables: classes, instances, object arrays, primitive arrays
    and the string table used for class and field names. Id 0 is the null reference.
    Everything here is read-only: the factory never changes the dump.
 */
module HeapDump {

  /** Object and string ids of the dump. */
  type Id = int

  /** Java's int, the width of every decoded field value. */
  type Int32 = x: int | -0x8000_0000 <= x < 0x8000_0000

  /** Java's signed byte, the element of a primitive array's raw data. */
  type Int8 = x: int | -0x80 <= x < 0x80

  /** Java's char: one UTF-16 code unit (surrogates included). */
  type Char16 = x: int | 0 <= x < 0x1_0000

  /** A Java String, as its sequence of UTF-16 code units. */
  type JString = seq<Char16>

  /** The null reference. */
  const NullId: Id := 0

  /** A string of the Basic Multilingual Plane as Java holds it, one code unit per character,
      so that the Java string literals of the code can be written as text. */
  function Utf16(s: string): JString
    requires forall i :: 0 <= i < |s| ==> s[i] as int < 0x1_0000
  {
    seq(|s|, i requires 0 <= i < |s| => s[i] as int)
  }

  /** The type tag of a field or of a primitive array's elements. */
  datatype BasicType = Object | Boolean | Char | Float | Double | Byte | Short | Int | Long

  /** A field declaration: its name (a string id) and its type tag. */
  datatype InstanceField = InstanceField(fieldNameId: Id, fieldType: BasicType)

  /** A class record: its superclass id (0 or an unknown id for none), its name (a string id)
      and the instance fields it declares itself, in dump order. */
  datatype ClassDefinition = ClassDefinition(
    superClassObjectId: Id,
    nameStringId: Id,
    instanceFields: seq<InstanceField>)

  /** A field declaration together with the class that declares it: the handle by which
      an instance's storage is read. */
  datatype FieldRef = FieldRef(declaringClass: Id, field: InstanceField)

  /** An instance: its class id and its field storage, already decoded per declaration.
      A declaration with no entry is one the storage cannot be read for. */
  datatype Instance = Instance(classObjectId: Id, fieldValues: map<FieldRef, Int32>)

  /** An object array: the referenced ids in order, 0 for a null slot. */
  datatype ObjectArray = ObjectArray(elements: seq<Id>)

  /** A primitive array: its element type and its raw bytes. */
  datatype PrimitiveArray = PrimitiveArray(elementType: BasicType, arrayData: seq<Int8>)

  datatype DumpData = DumpData(
    classes: map<Id, ClassDefinition>,
    instances: map<Id, Instance>,
    objArrays: map<Id, ObjectArray>,
    primitiveArrays: map<Id, PrimitiveArray>,
    strings: map<Id, JString>)

  /** Every way building a view hierarchy can fail; each stands for an exception of the code. */
  datatype Error =
    | NoSuchClass(className: JString)   // no class with this name
    | NoSuchField(fieldName: JString)   // no field with this name and type
    | NullReference                     // a lookup found nothing and its result was dereferenced
    | NotCharArray                      // String.value is not a char[]
    | IndexOutOfBounds                  // a char[] buffer of odd length
    | UnreadableField                   // the field storage could not be read
    | Diverges                          // a superclass chain that loops without end
    | StackOverflow                     // child recursion deeper than the stack allows

  datatype Result<+T> = Ok(value: T) | Err(error: Error) {
    predicate IsFailure() { Err? }
    function PropagateFailure<U>(): Result<U>
      requires Err?
    {
      Err(error)
    }
    function Extract(): T
      requires Ok?
    {
      value
    }
  }

  /** Reads one field of an instance, as both getIntField and getObjectField do:
      an object field reads as the id it refers to. */
  function ReadField(instance: Instance, f: FieldRef): Result<Int32>
  {
    if f in instance.fieldValues then Ok(instance.fieldValues[f]) else Err(UnreadableField)
  }

  /** Class `id` exists and its name, through the string table, is `name`. */
  predicate ClassHasName(data: DumpData, id: Id, name: JString)
  {
    id in data.classes
    && data.classes[id].nameStringId in data.strings
    && data.strings[data.classes[id].nameStringId] == name
  }

  /** The name of an instance's class (getClassName): fails when the class or its
      name string is missing, since both lookups are dereferenced. */
  function ClassName(instance: Instance, data: DumpData): Result<JString>
  {
    var id := instance.classObjectId;
    if id !in data.classes || data.classes[id].nameStringId !in data.strings then Err(NullReference)
    else Ok(data.strings[data.classes[id].nameStringId])
  }

  /** getClassName labels an instance `name` exactly when its class exists and is named
      `name`, and fails exactly when its class or the class's name string is missing. */
  lemma ClassNameOfNamedClass(instance: Instance, data: DumpData, name: JString)
    ensures ClassName(instance, data) == Ok(name) <==> ClassHasName(data, instance.classObjectId, name)
    ensures ClassName(instance, data).Err? <==>
      instance.classObjectId !in data.classes
      || data.classes[instance.classObjectId].nameStringId !in data.strings
    ensures ClassName(instance, data).Err? ==> ClassName(instance, data).error == NullReference
  {
  }
}
