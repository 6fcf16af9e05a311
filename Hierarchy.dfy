/** The hierarchy builder of ViewFactory: from a root instance, the tree of ViewGroup,
    TextView and plain View nodes of the on-device view hierarchy.

    Nothing guards the recursion into children against a reference cycle; the model
    bounds it by `depth`, the number of nested view groups the stack admits, and reports
    what goes deeper as `StackOverflow`.
 */
module Hierarchy {
  import opened HeapDump
  import opened Binder
  import opened TypeResolver
  import opened StringDecoder

  /** The bounding box, as read from the dump; no order between the sides is enforced. */
  datatype Box = Box(left: Int32, right: Int32, top: Int32, bottom: Int32)

  /** The built nodes. A TextView carries its text but no class name. */
  datatype View =
    | ViewGroup(children: seq<View>, box: Box, className: JString)
    | TextView(text: JString, box: Box)
    | PlainView(box: Box, className: JString)

  /** Reads mLeft, mRight, mTop and mBottom, in that order. */
  function ReadBox(instance: Instance, refs: RefHolder): Result<Box>
  {
    var left :- ReadField(instance, refs.viewLeftField);
    var right :- ReadField(instance, refs.viewRightField);
    var top :- ReadField(instance, refs.viewTopField);
    var bottom :- ReadField(instance, refs.viewBottomField);
    Ok(Box(left, right, top, bottom))
  }

  /** The box of an instance, when all four fields can be read. */
  ghost predicate HasBox(instance: Instance, refs: RefHolder, box: Box)
  {
    && ReadField(instance, refs.viewLeftField) == Ok(box.left)
    && ReadField(instance, refs.viewRightField) == Ok(box.right)
    && ReadField(instance, refs.viewTopField) == Ok(box.top)
    && ReadField(instance, refs.viewBottomField) == Ok(box.bottom)
  }

  /** The box is copied verbatim from the four fields, and its reading fails exactly when
      one of them cannot be read, with the error of the first such field. */
  lemma ReadBoxMeaning(instance: Instance, refs: RefHolder, box: Box)
    ensures ReadBox(instance, refs) == Ok(box) <==> HasBox(instance, refs, box)
    ensures ReadBox(instance, refs).Err? <==>
      || refs.viewLeftField !in instance.fieldValues
      || refs.viewRightField !in instance.fieldValues
      || refs.viewTopField !in instance.fieldValues
      || refs.viewBottomField !in instance.fieldValues
    ensures ReadBox(instance, refs).Err? ==> ReadBox(instance, refs).error == UnreadableField
  {
  }

  //---------------------------------------------------------------------------------------
  // What createViewGroup and createView return

  /** createViewGroup on `instance`, with room for `depth` nested groups. */
  function Group(refs: RefHolder, data: DumpData, instance: Instance, depth: nat): Result<View>
    decreases depth, 0
  {
    if depth == 0 then Err(StackOverflow)
    else
      var childFieldId :- ReadField(instance, refs.viewGroupChildrenField);
      var children :-
        if childFieldId == NullId then Ok([])
        else if childFieldId !in data.objArrays then Err(NullReference)
        else Children(refs, data, data.objArrays[childFieldId].elements, depth - 1);
      var box :- ReadBox(instance, refs);
      var name :- ClassName(instance, data);
      Ok(ViewGroup(children, box, name))
  }

  /** The nodes built for the elements of a child array, in order, null elements skipped;
      the first child that fails fails them all. */
  function Children(refs: RefHolder, data: DumpData, elements: seq<Id>, depth: nat): Result<seq<View>>
    decreases depth, |elements| + 2
  {
    if elements == [] then Ok([])
    else
      var done :- Children(refs, data, elements[..|elements| - 1], depth);
      var element := elements[|elements| - 1];
      if element == NullId then Ok(done)
      else
        var child :- Child(refs, data, element, depth);
        Ok(done + [child])
  }

  /** The node built for one non-null child element: a group when it is a ViewGroup,
      otherwise what createView makes of it. */
  function Child(refs: RefHolder, data: DumpData, element: Id, depth: nat): Result<View>
    decreases depth, 1
  {
    if element !in data.instances then Err(NullReference)
    else
      var instance := data.instances[element];
      var isGroup :- InstanceOf(data.classes, instance.classObjectId, refs.viewGroupClass);
      if isGroup then Group(refs, data, instance, depth) else Leaf(refs, data, instance)
  }

  /** createView on `instance`: a TextView when it is one, else a plain View. */
  function Leaf(refs: RefHolder, data: DumpData, instance: Instance): Result<View>
  {
    var box :- ReadBox(instance, refs);
    var isText :- InstanceOf(data.classes, instance.classObjectId, refs.textViewClass);
    if isText then
      var textObjId :- ReadField(instance, refs.textViewTextField);
      if textObjId !in data.instances then Err(NullReference)
      else
        var text :- Text(data.instances[textObjId], refs, data);
        Ok(TextView(text, box))
    else
      var name :- ClassName(instance, data);
      Ok(PlainView(box, name))
  }

  //---------------------------------------------------------------------------------------
  // The methods

  /** createViewGroup. */
  method CreateViewGroup(instance: Instance, refs: RefHolder, data: DumpData, depth: nat) returns (r: Result<View>)
    ensures r == Group(refs, data, instance, depth)
    decreases depth, 0
  {
    if depth == 0 {
      return Err(StackOverflow);
    }
    var childFieldId :- ReadField(instance, refs.viewGroupChildrenField);
    var children: seq<View> := [];
    if childFieldId != NullId {
      if childFieldId !in data.objArrays {
        return Err(NullReference);
      }
      var elements := data.objArrays[childFieldId].elements;
      var i := 0;
      while i < |elements|
        invariant 0 <= i <= |elements|
        invariant Children(refs, data, elements[..i], depth - 1) == Ok(children)
      {
        assert elements[..i + 1][..i] == elements[..i];
        var element := elements[i];
        if element != NullId {
          var child := CreateChild(element, refs, data, depth - 1);
          if child.Err? {
            ChildrenErrorPersists(refs, data, elements, i + 1, depth - 1);
            return Err(child.error);
          }
          children := children + [child.value];
        }
        i := i + 1;
      }
      assert elements[..i] == elements;
    }
    var box :- ReadBox(instance, refs);
    var name :- ClassName(instance, data);
    return Ok(ViewGroup(children, box, name));
  }

  /** The body of createViewGroup's loop for one non-null element: a ViewGroup child is
      built as a group, any other as createView builds it. */
  method CreateChild(element: Id, refs: RefHolder, data: DumpData, depth: nat) returns (r: Result<View>)
    ensures r == Child(refs, data, element, depth)
    decreases depth, 1
  {
    if element !in data.instances {
      return Err(NullReference);
    }
    var childInstance := data.instances[element];
    var isGroup :- IsInstanceOf(childInstance, refs.viewGroupClass, data.classes);
    if isGroup {
      r := CreateViewGroup(childInstance, refs, data, depth);
    } else {
      r := CreateView(childInstance, refs, data);
    }
  }

  /** createView. */
  method CreateView(instance: Instance, refs: RefHolder, data: DumpData) returns (r: Result<View>)
    ensures r == Leaf(refs, data, instance)
  {
    var box :- ReadBox(instance, refs);
    var isText :- IsInstanceOf(instance, refs.textViewClass, data.classes);
    if isText {
      var textObjId :- ReadField(instance, refs.textViewTextField);
      if textObjId !in data.instances {
        return Err(NullReference);
      }
      var text :- GetTextFromCharSequence(data.instances[textObjId], refs, data);
      return Ok(TextView(text, box));
    }
    var name :- ClassName(instance, data);
    return Ok(PlainView(box, name));
  }

  /** buildViewHierarchy: binds the framework classes and fields once, then builds the
      root as a group, whatever its class. */
  method BuildViewHierarchy(root: Instance, data: DumpData, depth: nat) returns (r: Result<View>)
    ensures r.Ok? ==> r.value.ViewGroup?
    ensures r.Ok? ==> exists refs :: Bound(refs, data) && r == Group(refs, data, root, depth)
    ensures Bindable(data) && AllClassNamesResolve(data) && AllFieldNamesResolve(data) ==>
      exists refs :: Bound(refs, data) && r == Group(refs, data, root, depth)
    ensures || (exists refs :: Bound(refs, data) && r == Group(refs, data, root, depth))
            || (r.Err? && (r.error.NoSuchClass? || r.error.NoSuchField? || r.error == NullReference))
  {
    var refs :- NewRefHolder(data);
    r := CreateViewGroup(root, refs, data, depth);
    if r.Ok? {
      GroupShape(refs, data, root, depth);
    }
  }

  //---------------------------------------------------------------------------------------
  // Properties of the built tree

  /** The first child that fails decides the result for every longer child array. */
  lemma {:induction false} ChildrenErrorPersists(refs: RefHolder, data: DumpData, elements: seq<Id>, k: nat, depth: nat)
    requires k <= |elements|
    requires Children(refs, data, elements[..k], depth).Err?
    ensures Children(refs, data, elements, depth) == Children(refs, data, elements[..k], depth)
    decreases |elements|
  {
    if k < |elements| {
      var front := elements[..|elements| - 1];
      assert front[..k] == elements[..k];
      ChildrenErrorPersists(refs, data, front, k, depth);
    } else {
      assert elements[..k] == elements;
    }
  }

  /** The non-null elements of a child array, in order. */
  function NonNull(elements: seq<Id>): seq<Id>
  {
    if elements == [] then []
    else
      var last := elements[|elements| - 1];
      NonNull(elements[..|elements| - 1]) + (if last == NullId then [] else [last])
  }

  /** NonNull keeps a single non-null element and drops a null one. */
  lemma NonNullSingleton(x: Id)
    ensures NonNull([x]) == (if x == NullId then [] else [x])
  {
    assert [x][..0] == [];
  }

  /** NonNull distributes over concatenation. */
  lemma {:induction false} NonNullFilters(a: seq<Id>, b: seq<Id>)
    ensures NonNull(a + b) == NonNull(a) + NonNull(b)
    decreases |b|
  {
    if b == [] {
      assert a + b == a;
    } else {
      var b', last := b[..|b| - 1], b[|b| - 1];
      var tail := if last == NullId then [] else [last];
      NonNullFilters(a, b');
      assert (a + b)[..|a + b| - 1] == a + b' && (a + b)[|a + b| - 1] == last;
      assert NonNull(a + b) == NonNull(a + b') + tail;
      assert NonNull(b) == NonNull(b') + tail;
    }
  }

  /** How many elements NonNull keeps, and which. */
  lemma {:induction false} NonNullCount(a: seq<Id>)
    ensures |NonNull(a)| == |a| - multiset(a)[NullId]
    ensures forall x :: x != NullId ==> (x in NonNull(a) <==> x in a)
  {
    if a != [] {
      var front := a[..|a| - 1];
      NonNullCount(front);
      assert a == front + [a[|a| - 1]];
    }
  }

  /** A child array [a, 0, b, 0] keeps a and b, in that order. */
  lemma NullsSkipped(a: Id, b: Id)
    requires a != NullId && b != NullId
    ensures NonNull([a, NullId, b, NullId]) == [a, b]
  {
    var s := [a, NullId, b, NullId];
    assert [a][..0] == [] && [a, NullId][..1] == [a];
    assert [a, NullId, b][..2] == [a, NullId] && s[..3] == [a, NullId, b];
    assert NonNull([a]) == [a];
    assert NonNull([a, NullId]) == [a];
    assert NonNull([a, NullId, b]) == [a, b];
  }

  /** The children of a group follow its child array: they succeed exactly when every
      non-null element builds, and then there is one child per non-null element, the
      node built for it, in array order. */
  lemma {:induction false} ChildrenFollowArray(refs: RefHolder, data: DumpData, elements: seq<Id>, depth: nat)
    ensures Children(refs, data, elements, depth).Ok? <==>
      forall k :: 0 <= k < |NonNull(elements)| ==> Child(refs, data, NonNull(elements)[k], depth).Ok?
    ensures Children(refs, data, elements, depth).Ok? ==>
      var children := Children(refs, data, elements, depth).value;
      && |children| == |NonNull(elements)|
      && forall k :: 0 <= k < |children| ==> Child(refs, data, NonNull(elements)[k], depth) == Ok(children[k])
  {
    if elements != [] {
      var front := elements[..|elements| - 1];
      var last := elements[|elements| - 1];
      ChildrenFollowArray(refs, data, front, depth);
      var ids := NonNull(elements);
      assert ids == NonNull(front) + (if last == NullId then [] else [last]);
      if last != NullId && Children(refs, data, front, depth).Ok? && Child(refs, data, last, depth).Err? {
        assert ids[|ids| - 1] == last;
      }
      if !Children(refs, data, front, depth).Ok? {
        var k :| 0 <= k < |NonNull(front)| && !Child(refs, data, NonNull(front)[k], depth).Ok?;
        assert ids[k] == NonNull(front)[k];
      }
    }
  }

  /** A group with a null child reference has no children. */
  lemma GroupWithoutChildArray(refs: RefHolder, data: DumpData, instance: Instance, depth: nat)
    requires ReadField(instance, refs.viewGroupChildrenField) == Ok(NullId)
    requires Group(refs, data, instance, depth).Ok?
    ensures Group(refs, data, instance, depth).value.children == []
  {
  }

  /** A group is a ViewGroup node carrying its instance's box and class name, whose
      children are built from the array its mChildren refers to. */
  lemma GroupShape(refs: RefHolder, data: DumpData, instance: Instance, depth: nat)
    requires Group(refs, data, instance, depth).Ok?
    ensures var v := Group(refs, data, instance, depth).value;
      && v.ViewGroup?
      && HasBox(instance, refs, v.box)
      && ClassName(instance, data) == Ok(v.className)
      && depth > 0
      && exists childFieldId :: ReadField(instance, refs.viewGroupChildrenField) == Ok(childFieldId)
           && (childFieldId == NullId ==> v.children == [])
           && (childFieldId != NullId ==>
                 && childFieldId in data.objArrays
                 && Children(refs, data, data.objArrays[childFieldId].elements, depth - 1) == Ok(v.children))
  {
  }

  /** How a non-null child element is classified: a ViewGroup subtype becomes a group,
      whatever else it is; otherwise a TextView subtype becomes a text node with the
      decoded text; anything else a plain view labelled with its class name. Each carries
      the box of its own instance. */
  lemma ChildClassification(refs: RefHolder, data: DumpData, element: Id, depth: nat)
    requires Child(refs, data, element, depth).Ok?
    ensures element in data.instances
    ensures var instance := data.instances[element];
      var v := Child(refs, data, element, depth).value;
      var isGroup := InstanceOf(data.classes, instance.classObjectId, refs.viewGroupClass);
      var isText := InstanceOf(data.classes, instance.classObjectId, refs.textViewClass);
      && HasBox(instance, refs, v.box)
      && (v.ViewGroup? <==> isGroup == Ok(true))
      && (v.TextView? <==> isGroup == Ok(false) && isText == Ok(true))
      && (v.PlainView? <==> isGroup == Ok(false) && isText == Ok(false))
      && (v.TextView? ==>
            exists textObjId ::
              && ReadField(instance, refs.textViewTextField) == Ok(textObjId)
              && textObjId in data.instances
              && Text(data.instances[textObjId], refs, data) == Ok(v.text))
      && (!v.TextView? ==> ClassName(instance, data) == Ok(v.className))
  {
  }

  /** More stack never changes a tree that could be built: the depth bound only decides
      whether the build fails. */
  lemma {:induction false} GroupDepthIrrelevant(refs: RefHolder, data: DumpData, instance: Instance, depth: nat)
    requires Group(refs, data, instance, depth).Ok?
    ensures Group(refs, data, instance, depth + 1) == Group(refs, data, instance, depth)
    decreases depth, 0
  {
    var childFieldId := ReadField(instance, refs.viewGroupChildrenField).value;
    if childFieldId != NullId {
      ChildrenDepthIrrelevant(refs, data, data.objArrays[childFieldId].elements, depth - 1);
    }
  }

  lemma {:induction false} ChildrenDepthIrrelevant(refs: RefHolder, data: DumpData, elements: seq<Id>, depth: nat)
    requires Children(refs, data, elements, depth).Ok?
    ensures Children(refs, data, elements, depth + 1) == Children(refs, data, elements, depth)
    decreases depth, |elements| + 2
  {
    if elements != [] {
      ChildrenDepthIrrelevant(refs, data, elements[..|elements| - 1], depth);
      var element := elements[|elements| - 1];
      if element != NullId {
        ChildDepthIrrelevant(refs, data, element, depth);
      }
    }
  }

  lemma {:induction false} ChildDepthIrrelevant(refs: RefHolder, data: DumpData, element: Id, depth: nat)
    requires Child(refs, data, element, depth).Ok?
    ensures Child(refs, data, element, depth + 1) == Child(refs, data, element, depth)
    decreases depth, 1
  {
    var instance := data.instances[element];
    if InstanceOf(data.classes, instance.classObjectId, refs.viewGroupClass) == Ok(true) {
      GroupDepthIrrelevant(refs, data, instance, depth);
    }
  }

  /** No cycle guard: a ViewGroup whose child array holds its own id never builds,
      however deep the stack. */
  lemma {:induction false} SelfContainingGroupFails(refs: RefHolder, data: DumpData, id: Id, childFieldId: Id, depth: nat)
    requires id != NullId && id in data.instances
    requires ReadField(data.instances[id], refs.viewGroupChildrenField) == Ok(childFieldId)
    requires childFieldId != NullId && childFieldId in data.objArrays
    requires id in data.objArrays[childFieldId].elements
    requires InstanceOf(data.classes, data.instances[id].classObjectId, refs.viewGroupClass) == Ok(true)
    ensures Group(refs, data, data.instances[id], depth).Err?
  {
    if depth > 0 {
      var elements := data.objArrays[childFieldId].elements;
      if Children(refs, data, elements, depth - 1).Ok? {
        ChildrenFollowArray(refs, data, elements, depth - 1);
        NonNullCount(elements);
        var ids := NonNull(elements);
        var k :| 0 <= k < |ids| && ids[k] == id;
        assert Child(refs, data, id, depth - 1).Ok?;
        SelfContainingGroupFails(refs, data, id, childFieldId, depth - 1);
      }
    }
  }
}
