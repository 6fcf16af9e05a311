/** The binder of ViewFactory: the four classes and seven fields the factory needs,
    found once per dump by exact name (and, for fields, exact type). */
module Binder {
  import opened HeapDump

  const ViewClassName: JString := Utf16("android.view.View")
  const ViewGroupClassName: JString := Utf16("android.view.ViewGroup")
  const TextViewClassName: JString := Utf16("android.widget.TextView")
  const StringClassName: JString := Utf16("java.lang.String")

  const ChildrenFieldName: JString := Utf16("mChildren")
  const LeftFieldName: JString := Utf16("mLeft")
  const RightFieldName: JString := Utf16("mRight")
  const TopFieldName: JString := Utf16("mTop")
  const BottomFieldName: JString := Utf16("mBottom")
  const TextFieldName: JString := Utf16("mText")
  const ValueFieldName: JString := Utf16("value")

  /** The bound handles: class ids, and fields with the class that declares them. */
  datatype RefHolder = RefHolder(
    viewClass: Id,
    viewGroupClass: Id,
    textViewClass: Id,
    stringClass: Id,
    viewGroupChildrenField: FieldRef,
    viewLeftField: FieldRef,
    viewRightField: FieldRef,
    viewTopField: FieldRef,
    viewBottomField: FieldRef,
    textViewTextField: FieldRef,
    stringValueField: FieldRef)

  /** Every class name resolves through the string table. */
  predicate AllClassNamesResolve(data: DumpData)
  {
    forall k :: k in data.classes ==> data.classes[k].nameStringId in data.strings
  }

  /** Every field name of every class resolves through the string table. */
  predicate AllFieldNamesResolve(data: DumpData)
  {
    forall k, i :: k in data.classes && 0 <= i < |data.classes[k].instanceFields| ==>
      data.classes[k].instanceFields[i].fieldNameId in data.strings
  }

  /** No two classes share a name. */
  ghost predicate UniqueClassNames(data: DumpData)
  {
    forall k, k', name :: ClassHasName(data, k, name) && ClassHasName(data, k', name) ==> k == k'
  }

  //---------------------------------------------------------------------------------------
  // findClassByName

  /** findClassByName: some class whose name is `name`. The classes are visited in no
      particular order, so which one is returned among several of that name is not fixed;
      a class whose name string is missing, if met before a match, fails the scan. */
  method FindClassByName(name: JString, data: DumpData) returns (r: Result<Id>)
    ensures r.Ok? ==> ClassHasName(data, r.value, name)
    ensures r.Ok? || r == Err(NoSuchClass(name)) || r == Err(NullReference)
    ensures r == Err(NoSuchClass(name)) ==>
      AllClassNamesResolve(data) && forall k :: k in data.classes ==> !ClassHasName(data, k, name)
    ensures r == Err(NullReference) ==> !AllClassNamesResolve(data)
  {
    var remaining: set<Id> := data.classes.Keys;
    while remaining != {}
      invariant remaining <= data.classes.Keys
      invariant forall k :: k in data.classes && k !in remaining ==>
        data.classes[k].nameStringId in data.strings && !ClassHasName(data, k, name)
      decreases remaining
    {
      NonEmptyHasElement(remaining);
      var k :| k in remaining;
      var nameId := data.classes[k].nameStringId;
      if nameId !in data.strings {
        return Err(NullReference);
      }
      if data.strings[nameId] == name {
        return Ok(k);
      }
      remaining := remaining - {k};
    }
    return Err(NoSuchClass(name));
  }

  /** A set that is not empty has an element to pick. */
  lemma NonEmptyHasElement(s: set<Id>)
    requires s != {}
    ensures exists k :: k in s
  {
    if forall k :: k !in s {
      assert false;
    }
  }

  //---------------------------------------------------------------------------------------
  // findFieldByName

  /** Field `f` has type `t` and is named `name`. */
  predicate FieldMatches(f: InstanceField, name: JString, t: BasicType, strings: map<Id, JString>)
  {
    f.fieldType == t && f.fieldNameId in strings && strings[f.fieldNameId] == name
  }

  /** The scan goes on past `f`: its type differs, or its name resolves to another string.
      (The name is looked up only when the type matches.) */
  predicate FieldPassed(f: InstanceField, name: JString, t: BasicType, strings: map<Id, JString>)
  {
    f.fieldType != t || (f.fieldNameId in strings && strings[f.fieldNameId] != name)
  }

  /** The scan stops at `f` with a null dereference: the type matches, the name is missing. */
  predicate FieldUnresolved(f: InstanceField, t: BasicType, strings: map<Id, JString>)
  {
    f.fieldType == t && f.fieldNameId !in strings
  }

  /** `f` is the first field of `fields` that matches, every field before it passed over. */
  ghost predicate IsFirstMatch(fields: seq<InstanceField>, f: InstanceField, name: JString, t: BasicType,
                               strings: map<Id, JString>)
  {
    exists i :: 0 <= i < |fields| && fields[i] == f && FieldMatches(f, name, t, strings)
      && forall j :: 0 <= j < i ==> FieldPassed(fields[j], name, t, strings)
  }

  /** findFieldByName: the first of `cls`'s own fields with type `t` and name `name`. */
  method FindFieldByName(name: JString, t: BasicType, cls: ClassDefinition, data: DumpData)
    returns (r: Result<InstanceField>)
    ensures r.Ok? || r == Err(NoSuchField(name)) || r == Err(NullReference)
    ensures r.Ok? ==> IsFirstMatch(cls.instanceFields, r.value, name, t, data.strings)
    ensures r == Err(NoSuchField(name)) <==>
      forall i :: 0 <= i < |cls.instanceFields| ==> FieldPassed(cls.instanceFields[i], name, t, data.strings)
    ensures r == Err(NullReference) <==>
      exists i :: 0 <= i < |cls.instanceFields| && FieldUnresolved(cls.instanceFields[i], t, data.strings)
        && forall j :: 0 <= j < i ==> FieldPassed(cls.instanceFields[j], name, t, data.strings)
  {
    var fields := cls.instanceFields;
    var i := 0;
    while i < |fields|
      invariant 0 <= i <= |fields|
      invariant forall j :: 0 <= j < i ==> FieldPassed(fields[j], name, t, data.strings)
    {
      var f := fields[i];
      if f.fieldType == t {
        if f.fieldNameId !in data.strings {
          return Err(NullReference);
        }
        if data.strings[f.fieldNameId] == name {
          return Ok(f);
        }
      }
      i := i + 1;
    }
    return Err(NoSuchField(name));
  }

  //---------------------------------------------------------------------------------------
  // The RefHolder constructor

  /** `refs` is a binding the RefHolder constructor can produce for `data`: each class has
      its framework name and each field is the first match among its class's own fields. */
  ghost predicate Bound(refs: RefHolder, data: DumpData)
  {
    && ClassHasName(data, refs.viewClass, ViewClassName)
    && ClassHasName(data, refs.viewGroupClass, ViewGroupClassName)
    && ClassHasName(data, refs.textViewClass, TextViewClassName)
    && ClassHasName(data, refs.stringClass, StringClassName)
    && FieldBound(refs.viewGroupChildrenField, refs.viewGroupClass, ChildrenFieldName, Object, data)
    && FieldBound(refs.viewLeftField, refs.viewClass, LeftFieldName, Int, data)
    && FieldBound(refs.viewRightField, refs.viewClass, RightFieldName, Int, data)
    && FieldBound(refs.viewTopField, refs.viewClass, TopFieldName, Int, data)
    && FieldBound(refs.viewBottomField, refs.viewClass, BottomFieldName, Int, data)
    && FieldBound(refs.textViewTextField, refs.textViewClass, TextFieldName, Object, data)
    && FieldBound(refs.stringValueField, refs.stringClass, ValueFieldName, Object, data)
  }

  /** `fr` is the field `name` of type `t` that findFieldByName finds in class `owner`. */
  ghost predicate FieldBound(fr: FieldRef, owner: Id, name: JString, t: BasicType, data: DumpData)
  {
    owner in data.classes && fr.declaringClass == owner
    && IsFirstMatch(data.classes[owner].instanceFields, fr.field, name, t, data.strings)
  }

  /** Class `owner` declares a field of type `t` named `name` itself. */
  ghost predicate DeclaresField(data: DumpData, owner: Id, name: JString, t: BasicType)
  {
    owner in data.classes
    && exists i :: 0 <= i < |data.classes[owner].instanceFields|
         && FieldMatches(data.classes[owner].instanceFields[i], name, t, data.strings)
  }

  /** The dump holds the four framework classes, and every class of such a name declares
      the fields the factory reads from it. */
  ghost predicate Bindable(data: DumpData)
  {
    && (exists k :: ClassHasName(data, k, ViewClassName))
    && (exists k :: ClassHasName(data, k, ViewGroupClassName))
    && (exists k :: ClassHasName(data, k, TextViewClassName))
    && (exists k :: ClassHasName(data, k, StringClassName))
    && (forall k :: ClassHasName(data, k, ViewClassName) ==>
          && DeclaresField(data, k, LeftFieldName, Int) && DeclaresField(data, k, RightFieldName, Int)
          && DeclaresField(data, k, TopFieldName, Int) && DeclaresField(data, k, BottomFieldName, Int))
    && (forall k :: ClassHasName(data, k, ViewGroupClassName) ==> DeclaresField(data, k, ChildrenFieldName, Object))
    && (forall k :: ClassHasName(data, k, TextViewClassName) ==> DeclaresField(data, k, TextFieldName, Object))
    && (forall k :: ClassHasName(data, k, StringClassName) ==> DeclaresField(data, k, ValueFieldName, Object))
  }

  /** Binds one field of class `owner`, as a handle that remembers its declaring class. */
  method BindField(name: JString, t: BasicType, owner: Id, data: DumpData) returns (r: Result<FieldRef>)
    requires owner in data.classes
    ensures r.Ok? ==> FieldBound(r.value, owner, name, t, data)
    ensures r.Err? ==> r.error == NoSuchField(name) || r.error == NullReference
    ensures DeclaresField(data, owner, name, t) && AllFieldNamesResolve(data) ==> r.Ok?
  {
    var f := FindFieldByName(name, t, data.classes[owner], data);
    if f.Err? {
      return Err(f.error);
    }
    return Ok(FieldRef(owner, f.value));
  }

  /** The RefHolder constructor: binds the four classes, then the seven fields, in the
      code's order; the first failure aborts the binding. */
  method NewRefHolder(data: DumpData) returns (r: Result<RefHolder>)
    ensures r.Ok? ==> Bound(r.value, data)
    ensures r.Err? ==> r.error.NoSuchClass? || r.error.NoSuchField? || r.error == NullReference
    ensures (Bindable(data) && AllClassNamesResolve(data) && AllFieldNamesResolve(data)) ==> r.Ok?
  {
    var viewClass :- FindClassByName(ViewClassName, data);
    var viewGroupClass :- FindClassByName(ViewGroupClassName, data);
    var textViewClass :- FindClassByName(TextViewClassName, data);
    var stringClass :- FindClassByName(StringClassName, data);

    var children :- BindField(ChildrenFieldName, Object, viewGroupClass, data);
    var left :- BindField(LeftFieldName, Int, viewClass, data);
    var right :- BindField(RightFieldName, Int, viewClass, data);
    var top :- BindField(TopFieldName, Int, viewClass, data);
    var bottom :- BindField(BottomFieldName, Int, viewClass, data);
    var text :- BindField(TextFieldName, Object, textViewClass, data);
    var value :- BindField(ValueFieldName, Object, stringClass, data);

    return Ok(RefHolder(viewClass, viewGroupClass, textViewClass, stringClass,
                        children, left, right, top, bottom, text, value));
  }

  /** Two fields that are each the first match in the same field list are the same field. */
  lemma FirstMatchUnique(fields: seq<InstanceField>, f: InstanceField, g: InstanceField, name: JString,
                         t: BasicType, strings: map<Id, JString>)
    requires IsFirstMatch(fields, f, name, t, strings) && IsFirstMatch(fields, g, name, t, strings)
    ensures f == g
  {
  }

  /** When no two classes share a name, the dump admits a single binding: whatever order
      the class table is visited in, the RefHolder constructor binds the same handles. */
  lemma BindingUnique(data: DumpData, refs: RefHolder, refs': RefHolder)
    requires UniqueClassNames(data)
    requires Bound(refs, data) && Bound(refs', data)
    ensures refs == refs'
  {
  }
}
