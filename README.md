# ViewFactory of hprof-viewer, modelled in Dafny

The hprof-viewer rebuilds an Android app's on-screen view hierarchy from a heap dump
that is already parsed. `ViewFactory` does this in three parts:

- **Binder.** The `RefHolder` constructor binds the four framework classes
  (`android.view.View`, `android.view.ViewGroup`, `android.widget.TextView` and
  `java.lang.String`) and seven fields. It finds each class by exact name, and each
  field by exact name and type among its class's own fields.
- **Type resolver.** `isInstanceOf` follows the superclass chain to decide whether an
  instance belongs to a given class.
- **Tree builder.** `buildViewHierarchy`, `createViewGroup` and `createView` build the
  tree from a root instance. Every node is a ViewGroup, a TextView or a plain View and
  carries its box. Groups and plain views also carry their class name, a TextView its
  text instead. `getTextFromCharSequence` decodes that text from the byte buffer of a
  `java.lang.String`.

Modules, one file each:

- `HeapDump` holds the dump's five id-keyed tables and Java's value widths. It also
  defines the `Error` outcomes and `getClassName`.
  - `Int32` stands for `int`, `Int8` for `byte`, `Char16` for `char`.
  - `JString` is a sequence of UTF-16 units.
- `Binder` models `findClassByName`, `findFieldByName` and the `RefHolder` constructor.
- `TypeResolver` models `isInstanceOf`.
- `StringDecoder` models `getTextFromCharSequence`.
- `Hierarchy` models `buildViewHierarchy`, `createViewGroup` and `createView`.

Each Java loop is a method with loop invariants. Each method is proved equal to a
specification function, or to a characterization of its result. The properties are then
proved about those functions as lemmas.

How the model maps Java behaviour:

- **Exceptions.** Every exception the code can raise is an `Err` value of `Result`.
- **Null dereferences.** A map lookup that misses and is then dereferenced becomes
  `NullReference`.
- **Other exceptions.** An exception the code throws itself becomes `NoSuchClass`,
  `NoSuchField` or `NotCharArray`. The `bytes[i + 1]` overrun on an odd-length buffer
  becomes `IndexOutOfBounds`.
- **Loops that do not end.** The superclass loop has no cycle guard. On a looping chain
  the Java method never returns, which the model reports as `Diverges`. `InstanceOfMeaning`
  proves that `Diverges` is returned exactly when the chain is endless.
- **Recursion.** The recursion into children has no cycle guard either. It is bounded by
  a `depth` parameter that stands for the call stack; going deeper is `StackOverflow`.

Points of the code worth knowing:

- A TextView whose `mText` refers to nothing fails with a null dereference; it does not
  get an empty text.
- A TextView node carries no class name: `TextView` is built from its text and box only.
- The binder binds four classes and seven fields: `mChildren` on ViewGroup, the four box
  fields on View, `mText` on TextView and `value` on String.
- Classes are never checked to be distinct. `findClassByName` returns whichever class of
  that name the table yields first. The model leaves that choice open. `BindingUnique`
  shows the choice does not matter when class names are unique.

## Model

| member | source | states |
|---|---|---|
| `HeapDump.ClassNameOfNamedClass` | hprof-viewer/src/main/java/com/badoo/hprof/viewer/ViewFactory.java:109-112 | getClassName gives `name` exactly when the instance's class exists and its name string is `name`; it fails with a null dereference exactly when the class or its name string is missing |
| `Binder.FindClassByName` | hprof-viewer/src/main/java/com/badoo/hprof/viewer/ViewFactory.java:143-150 | a returned class has exactly that name; "no such class" only when every class name resolves and none matches; a null dereference only when some class name does not resolve |
| `Binder.FindFieldByName` | hprof-viewer/src/main/java/com/badoo/hprof/viewer/ViewFactory.java:152-159 | the result is the first own field of that type and name, every earlier field passed over; "no such field" exactly when every field is passed over; a null dereference exactly when a field of that type with an unresolvable name comes first |
| `Binder.BindField` | hprof-viewer/src/main/java/com/badoo/hprof/viewer/ViewFactory.java:45-51 | a bound field is the first match in its owner's own fields; binding succeeds whenever the owner declares such a field and names resolve |
| `Binder.NewRefHolder` | hprof-viewer/src/main/java/com/badoo/hprof/viewer/ViewFactory.java:37-52 | a binding names the four framework classes by name and each of the seven fields as the first match of its name and type in its class; a failure is a missing class, a missing field or a null dereference; it succeeds on every dump that has those classes and fields and resolvable names |
| `Binder.FirstMatchUnique` | hprof-viewer/src/main/java/com/badoo/hprof/viewer/ViewFactory.java:153-157 | the field findFieldByName returns is unique |
| `Binder.BindingUnique` | hprof-viewer/src/main/java/com/badoo/hprof/viewer/ViewFactory.java:37-52 | with unique class names, every binding of a dump is the same binding |
| `TypeResolver.IsInstanceOf` | hprof-viewer/src/main/java/com/badoo/hprof/viewer/ViewFactory.java:132-141 | the loop answers what the bounded superclass walk `InstanceOf` answers |
| `TypeResolver.InstanceOfMeaning` | hprof-viewer/src/main/java/com/badoo/hprof/viewer/ViewFactory.java:132-141 | true exactly when the class is on the superclass chain, false exactly when the chain reaches an unknown id first, diverges exactly when the chain loops without meeting the class |
| `TypeResolver.WalkOutcome` | hprof-viewer/src/main/java/com/badoo/hprof/viewer/ViewFactory.java:134-139 | each outcome of the walk from any point of the chain describes the chain |
| `TypeResolver.LoopingChainIsEndless` | hprof-viewer/src/main/java/com/badoo/hprof/viewer/ViewFactory.java:134-139 | a chain that visits more classes than the table holds without meeting the class never ends |
| `TypeResolver.RepeatedAncestor` | hprof-viewer/src/main/java/com/badoo/hprof/viewer/ViewFactory.java:134-139 | among the first table-size-plus-one ids of a chain of classes two repeat |
| `TypeResolver.Periodic` | hprof-viewer/src/main/java/com/badoo/hprof/viewer/ViewFactory.java:138 | a chain that repeats an id repeats periodically from there on |
| `TypeResolver.FoldIntoLoop` | hprof-viewer/src/main/java/com/badoo/hprof/viewer/ViewFactory.java:138 | every id of such a chain already occurs before the repetition |
| `TypeResolver.OutcomesExclusive` | hprof-viewer/src/main/java/com/badoo/hprof/viewer/ViewFactory.java:132-141 | the three outcomes describe disjoint sets of chains |
| `TypeResolver.InstanceOfSelf` | hprof-viewer/src/main/java/com/badoo/hprof/viewer/ViewFactory.java:133-136 | a known class is an instance of itself |
| `TypeResolver.InstanceOfUnknownClass` | hprof-viewer/src/main/java/com/badoo/hprof/viewer/ViewFactory.java:133-134 | an instance whose class is unknown is an instance of nothing |
| `StringDecoder.FromBytesSplits` | hprof-viewer/src/main/java/com/badoo/hprof/viewer/ViewFactory.java:125 | the char built from a byte pair has the first byte as its high byte and the second as its low byte |
| `StringDecoder.UnitRoundTrip` | hprof-viewer/src/main/java/com/badoo/hprof/viewer/ViewFactory.java:125 | a char rebuilt from its own high and low bytes is that char |
| `StringDecoder.DecodeBytesOf` | hprof-viewer/src/main/java/com/badoo/hprof/viewer/ViewFactory.java:122-127 | decoding the big-endian buffer of a text gives the text back, at two bytes per unit |
| `StringDecoder.BytesOfDecoded` | hprof-viewer/src/main/java/com/badoo/hprof/viewer/ViewFactory.java:122-127 | every even-length buffer is the buffer of the text it decodes to |
| `StringDecoder.TextMeaning` | hprof-viewer/src/main/java/com/badoo/hprof/viewer/ViewFactory.java:114-130 | a String's text is unit i = bytes 2i and 2i+1, |bytes|/2 units; a buffer not of char type or of odd length is an error; any other object's text is its class name |
| `StringDecoder.GetTextFromCharSequence` | hprof-viewer/src/main/java/com/badoo/hprof/viewer/ViewFactory.java:114-130 | the loop computes the decoder's text `Text`, erring exactly where it does |
| `StringDecoder.HiRoundTrip` | hprof-viewer/src/main/java/com/badoo/hprof/viewer/ViewFactory.java:122-127 | "Hi" is held as 0x00 0x48 0x00 0x69 and decodes back; an empty buffer decodes to the empty text |
| `Hierarchy.CreateViewGroup` | hprof-viewer/src/main/java/com/badoo/hprof/viewer/ViewFactory.java:65-89 | the loop over the child array builds the group `Group` describes |
| `Hierarchy.CreateChild` | hprof-viewer/src/main/java/com/badoo/hprof/viewer/ViewFactory.java:75-81 | one non-null element builds the node `Child` describes |
| `Hierarchy.CreateView` | hprof-viewer/src/main/java/com/badoo/hprof/viewer/ViewFactory.java:91-107 | builds the leaf `Leaf` describes |
| `Hierarchy.BuildViewHierarchy` | hprof-viewer/src/main/java/com/badoo/hprof/viewer/ViewFactory.java:55-63 | the root is always a ViewGroup; the result is the group `Group` builds from a binding of the dump, unless binding failed with a missing class, a missing field or a null dereference; on a dump that has the framework classes and fields and resolvable names the result is always that group |
| `Hierarchy.ReadBoxMeaning` | hprof-viewer/src/main/java/com/badoo/hprof/viewer/ViewFactory.java:84-87 | the box is the four fields mLeft, mRight, mTop, mBottom verbatim; reading it fails exactly when one of them cannot be read |
| `Hierarchy.ChildrenErrorPersists` | hprof-viewer/src/main/java/com/badoo/hprof/viewer/ViewFactory.java:70-82 | the first child that fails aborts the whole child list |
| `Hierarchy.NullsSkipped` | hprof-viewer/src/main/java/com/badoo/hprof/viewer/ViewFactory.java:71-74 | the array [a, 0, b, 0] keeps a then b |
| `Hierarchy.NonNullSingleton` | hprof-viewer/src/main/java/com/badoo/hprof/viewer/ViewFactory.java:71-74 | a single null element is skipped, a single non-null one kept |
| `Hierarchy.NonNullFilters` | hprof-viewer/src/main/java/com/badoo/hprof/viewer/ViewFactory.java:70-74 | skipping nulls distributes over concatenation of child arrays |
| `Hierarchy.NonNullCount` | hprof-viewer/src/main/java/com/badoo/hprof/viewer/ViewFactory.java:70-74 | the non-null elements number the length minus the nulls, and are exactly the non-null ids of the array |
| `Hierarchy.ChildrenFollowArray` | hprof-viewer/src/main/java/com/badoo/hprof/viewer/ViewFactory.java:68-83 | the children succeed exactly when every non-null element builds; then child k is the node of the k-th non-null element, in array order |
| `Hierarchy.GroupWithoutChildArray` | hprof-viewer/src/main/java/com/badoo/hprof/viewer/ViewFactory.java:66-68 | a null child reference gives zero children |
| `Hierarchy.GroupShape` | hprof-viewer/src/main/java/com/badoo/hprof/viewer/ViewFactory.java:65-89 | a group carries its instance's four box fields verbatim and its class name, and its children come from the array mChildren refers to |
| `Hierarchy.ChildClassification` | hprof-viewer/src/main/java/com/badoo/hprof/viewer/ViewFactory.java:75-81 | a ViewGroup subtype becomes a group; otherwise a TextView subtype becomes a text node with its decoded text; anything else a plain view labelled with its class name; each with its own box copied verbatim |
| `Hierarchy.GroupDepthIrrelevant` | hprof-viewer/src/main/java/com/badoo/hprof/viewer/ViewFactory.java:65-89 | a tree that builds within a stack depth builds the same with more |
| `Hierarchy.ChildrenDepthIrrelevant` | hprof-viewer/src/main/java/com/badoo/hprof/viewer/ViewFactory.java:70-82 | the same for a child list |
| `Hierarchy.ChildDepthIrrelevant` | hprof-viewer/src/main/java/com/badoo/hprof/viewer/ViewFactory.java:75-81 | the same for one child |
| `Hierarchy.SelfContainingGroupFails` | hprof-viewer/src/main/java/com/badoo/hprof/viewer/ViewFactory.java:70-78 | with no cycle guard, a group listing itself among its children never builds, at any depth |

## Left out

- Field decoding. `getIntField` and `getObjectField` decode an instance's raw field bytes
  along its class chain; that library code is not part of this model. The storage is
  modelled as already-decoded values keyed by field and declaring class, and a value that
  cannot be read is `UnreadableField`.
- `Chars.fromBytes` (Guava) is modelled by its documented formula, `(hi << 8) | (lo & 0xFF)`
  cast to char.
- `buildViewHierarchy` wraps an `IOException` into a `RuntimeException`. The model keeps
  one `Error` per cause and does not model that wrapping.
- The `View`, `ViewGroup` and `TextView` model classes are modelled as constructors of one
  datatype.
- Java object identity of classes (`cls == of`, `cls == refs.stringClass`) is modelled as
  equality of class ids. Each id maps to one class object.
- `TypeResolver.InstanceOf`: the walk is cut off after as many steps as the table has
  classes. `InstanceOfMeaning` proves the cut-off loses nothing.
- `Hierarchy.BuildViewHierarchy` takes the stack depth `depth` as a parameter. Stack
  overflow under real JVM stack limits is not modelled any further.
- `Binder.FindClassByName` does not fix which class it returns when several share a
  name, because the iteration order of the class table is not part of the model. If a
  class with an unresolvable name comes first, it may fail instead with a null dereference.
- The string literals of the code are written through `HeapDump.Utf16`, which is limited
  to the Basic Multilingual Plane. All the literals of the code lie in it.
- `ArrayMapClassDef` builds on a class-definition helper outside the view factory and is
  not part of this model.
