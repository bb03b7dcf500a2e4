# AnnotatedConfigNode, modelled in Dafny

`AnnotatedConfigNode` maps plugin configuration classes onto a YAML
configuration. A configuration class extends the base class and marks fields
with `@ConfigNode`; a marked field whose type is itself a configuration class
is a nested section. The base class offers four things, and this project
models each one and proves properties about it:

- **Field discovery** (`getAnnotatedFields`). It collects the marked fields of
  a class, then of its superclass, and so on. It stops at the first class in
  the chain that is not a configuration node.
- **Store** (`storeAtRoot`, `store`, `walkTree`). A depth-first walk writes
  every non-null scalar value to the document under its dotted path and
  descends into nested node values.
- **Load** (`loadAsRoot`, `loadSection`, `populate`). It constructs an
  instance with the no-argument constructor. Each discovered field then gets
  either a recursively loaded section or the document's value at its path.
- **Comment lookup** (`getComments`, `findNode`, `findField`). It resolves a
  dotted key to the marked field that declares it and returns that field's
  comment lines. An unresolved key gets none.

Modules:

- `Schema` describes configuration classes as values. A class has its declared
  fields in declaration order, its superclass, whether it is a node class and
  whether it has a usable no-argument constructor. A field has a name, whether
  it is marked, its comment lines and its kind: a scalar with an optional
  initial value, or a nested node class.
- `Discovery` holds the field walk. It gives a functional definition and the
  imperative loop, and proves the loop against the definition.
- `Paths` holds the path composition rule that load and store share:
  `prefix + "." + name`, or `name` alone under an empty prefix.
- `Documents` holds the YAML document as a class with a mutable map from
  dotted paths to scalar values. `get` is the map lookup, giving nothing for
  an absent path, and `set` rebinds one path.
- `Store` holds the store walk. Each method is proved to leave the document
  equal to the old document with the walk's sequence of `set` calls applied.
- `Load` holds the load recursion. The no-argument constructor is modelled
  as an instance whose slots hold the fields' initial values. The methods are
  proved equal to a functional definition, with lemmas about what each field
  receives and when loading fails.
- `Keys` defines the scalar keys a schema declares.
- `RoundTrip` proves that storing a freshly loaded tree writes back exactly
  the document's values on the schema's scalar keys.
- `Comments` holds comment lookup as written, the corrected lookup, and the
  discrepancy between them (see Findings).

## Model

| member | source | states |
|---|---|---|
| Discovery.GetAnnotatedFields | src/main/java/net/wytrem/spigot/annotatedconfignode/AnnotatedConfigNode.java:135-149 | the loop over the superclass chain returns exactly the discovered field list `AnnotatedFieldsOf(c)`, so discovery is deterministic for a given class |
| Discovery.AppendAnnotated | src/main/java/net/wytrem/spigot/annotatedconfignode/AnnotatedConfigNode.java:139-143 | the inner loop over one class's declared fields appends exactly the annotated ones, in declaration order |
| Discovery.DeclaredAnnotatedMembers | src/main/java/net/wytrem/spigot/annotatedconfignode/AnnotatedConfigNode.java:139-143 | a field is kept from a class's declared fields if and only if it is declared there and carries the annotation |
| Discovery.DiscoveredFields | src/main/java/net/wytrem/spigot/annotatedconfignode/AnnotatedConfigNode.java:135-149 | every discovered field is annotated; a nested node field's class is strictly smaller than the discovering class, so loading terminates |
| Discovery.DiscoveryFiltersNodeAncestry | src/main/java/net/wytrem/spigot/annotatedconfignode/AnnotatedConfigNode.java:138-146 | the discovered fields are the annotated declared fields of the longest run of node classes at the start of the superclass chain, taken class by class from the subclass upward; classes from the first non-node class on contribute nothing |
| Discovery.InheritedFieldsAreSuffix | src/main/java/net/wytrem/spigot/annotatedconfignode/AnnotatedConfigNode.java:138-146 | for every node ancestor, that ancestor's own discovered list is a suffix of the subclass's list: subclass fields come first, inherited ones after, in chain order |
| Paths.JoinPathInjective | src/main/java/net/wytrem/spigot/annotatedconfignode/AnnotatedConfigNode.java:28-32 | path composition never confuses two (prefix, name) pairs: equal joined paths mean equal prefixes and equal names |
| Paths.QualifyIsDotted | src/main/java/net/wytrem/spigot/annotatedconfignode/AnnotatedConfigNode.java:28-32 | composing a non-empty chain of field names onto a prefix gives the dotted chain, preceded by `prefix.` only when the prefix is non-empty |
| Documents.Document.Set | src/main/java/net/wytrem/spigot/annotatedconfignode/AnnotatedConfigNode.java:21 | `config.set(path, value)` binds the path to the value and changes no other entry |
| Documents.ApplyAllAgreeing | src/main/java/net/wytrem/spigot/annotatedconfignode/AnnotatedConfigNode.java:41 | a sequence of `set` calls that all agree with a map `d` builds, from an empty document, exactly `d` restricted to the keys set |
| Store.WalkTree | src/main/java/net/wytrem/spigot/annotatedconfignode/AnnotatedConfigNode.java:24-48 | the document afterwards is the old document with the walk's calls (`Emitted`) applied in order: null values skipped, node values walked under the extended path, other values set |
| Store.Store | src/main/java/net/wytrem/spigot/annotatedconfignode/AnnotatedConfigNode.java:20-22 | storing under a section applies the walk's calls under that section |
| Store.StoreAtRoot | src/main/java/net/wytrem/spigot/annotatedconfignode/AnnotatedConfigNode.java:16-18 | storing at the root applies the walk's calls under the empty prefix |
| Store.EmittedExactlyLeaves | src/main/java/net/wytrem/spigot/annotatedconfignode/AnnotatedConfigNode.java:24-48 | a (key, value) pair is written if and only if some chain of discovered fields leads from the instance to a non-null non-node value and `key` is that chain's names composed onto the prefix |
| Store.EmittedKeysAreDotted | src/main/java/net/wytrem/spigot/annotatedconfignode/AnnotatedConfigNode.java:28-32 | every key the walk writes is a non-empty chain of field names, dotted and composed onto the prefix |
| Store.EmittedUpToSound | src/main/java/net/wytrem/spigot/annotatedconfignode/AnnotatedConfigNode.java:35-43 | each call made while walking the first n fields comes from a leaf reached through those fields, with that leaf's path and value |
| Store.LeafEmitted | src/main/java/net/wytrem/spigot/annotatedconfignode/AnnotatedConfigNode.java:35-43 | every leaf of the instance tree is written, under its composed path and with its value |
| Load.LoadSection | src/main/java/net/wytrem/spigot/annotatedconfignode/AnnotatedConfigNode.java:54-68 | the method returns exactly the functional load `Loaded`: a construction failure of the class itself, or of any nested section, becomes the error, otherwise the populated instance |
| Load.Populate | src/main/java/net/wytrem/spigot/annotatedconfignode/AnnotatedConfigNode.java:71-92 | the loop over discovered fields returns exactly `Populated`, stopping at the first nested construction failure |
| Load.LoadAsRoot | src/main/java/net/wytrem/spigot/annotatedconfignode/AnnotatedConfigNode.java:50-52 | loading at the root is loading under the empty prefix |
| Load.FailureSticks | src/main/java/net/wytrem/spigot/annotatedconfignode/AnnotatedConfigNode.java:83 | once a nested load has failed, later fields do not change the outcome: the exception propagates |
| Load.PopulatedUpToSlots | src/main/java/net/wytrem/spigot/annotatedconfignode/AnnotatedConfigNode.java:74-91 | after n iterations, each of the first n slots holds its loaded value, and every later slot still holds its constructed value |
| Load.LoadedSlots | src/main/java/net/wytrem/spigot/annotatedconfignode/AnnotatedConfigNode.java:82-90 | in a loaded instance, a node field holds the section loaded under its path; a scalar field holds the document's value when the path is present and keeps its initial value otherwise |
| Load.LoadSucceedsIffConstructible | src/main/java/net/wytrem/spigot/annotatedconfignode/AnnotatedConfigNode.java:54-68 | loading succeeds if and only if the class and every class reachable through discovered node fields can be constructed, whatever the document holds |
| Load.LoadMaterialises | src/main/java/net/wytrem/spigot/annotatedconfignode/AnnotatedConfigNode.java:82-89 | in a loaded tree every node field holds a non-null instance of its declared class, however empty its section, and no field of non-node type holds a node |
| RoundTrip.LoadedLeaves | src/main/java/net/wytrem/spigot/annotatedconfignode/AnnotatedConfigNode.java:71-92 | when scalar fields start null, the loaded tree's leaves are exactly the scalar schema fields whose composed keys the document holds, each with the document's value |
| RoundTrip.StoreAfterLoad | src/main/java/net/wytrem/spigot/annotatedconfignode/AnnotatedConfigNode.java:24-92 | storing a freshly loaded tree into an empty document yields the source document restricted to the schema's scalar keys |
| Comments.IndexOfDot | src/main/java/net/wytrem/spigot/annotatedconfignode/AnnotatedConfigNode.java:122 | `indexOf('.')` is the position of the first dot |
| Comments.FirstNamed | src/main/java/net/wytrem/spigot/annotatedconfignode/AnnotatedConfigNode.java:123 | the name lookup gives the first field with that name, or none when no field has it |
| Comments.FindField | src/main/java/net/wytrem/spigot/annotatedconfignode/AnnotatedConfigNode.java:112-133 | a resolved field is always annotated, so `findNode` always finds the annotation |
| Comments.SingleSegmentHit | src/main/java/net/wytrem/spigot/annotatedconfignode/AnnotatedConfigNode.java:113-118 | a key without a dot gets the comments of the first discovered field with that name, inherited fields included |
| Comments.SingleSegmentMiss | src/main/java/net/wytrem/spigot/annotatedconfignode/AnnotatedConfigNode.java:96-120 | a key without a dot that names no discovered field gets no comments |
| Comments.MultiSegmentMiss | src/main/java/net/wytrem/spigot/annotatedconfignode/AnnotatedConfigNode.java:121-131 | `head.rest` gets no comments when `head` names no field declared on the class itself, or names a non-node field |
| Comments.MultiSegmentDelegates | src/main/java/net/wytrem/spigot/annotatedconfignode/AnnotatedConfigNode.java:122-128 | when `head` names a node field declared on the class itself (annotated or not), `head.rest` gets what `rest` gets in that field's class |
| Comments.SplitAtFirstDot | src/main/java/net/wytrem/spigot/annotatedconfignode/AnnotatedConfigNode.java:122-128 | splitting `head.rest` at the first dot gives back `head` and `rest` |
| Comments.ResolvesOwnChains | src/main/java/net/wytrem/spigot/annotatedconfignode/AnnotatedConfigNode.java:112-133 | without shadowed names, a schema key whose every section step goes through a field declared by the class itself gets that field's comments |
| Comments.FindFieldInherited | src/main/java/net/wytrem/spigot/annotatedconfignode/AnnotatedConfigNode.java:121-131 | the corrected lookup also only resolves annotated fields |
| Comments.InheritedDelegates | src/main/java/net/wytrem/spigot/annotatedconfignode/AnnotatedConfigNode.java:121-131 | corrected lookup: when `head` names a discovered node field, inherited or not, `head.rest` gets what `rest` gets in that field's class |
| Comments.InheritedResolvesAllChains | src/main/java/net/wytrem/spigot/annotatedconfignode/AnnotatedConfigNode.java:112-133 | corrected lookup: without shadowed names, every key of the schema, inherited sections included, gets its field's comments |
| Comments.InheritedResolvesOnlySchemaKeys | src/main/java/net/wytrem/spigot/annotatedconfignode/AnnotatedConfigNode.java:112-133 | corrected lookup: any field it resolves is the field at the end of a chain of discovered fields whose dotted names are the key |
| Comments.AsWrittenMissesInheritedSection | src/main/java/net/wytrem/spigot/annotatedconfignode/AnnotatedConfigNode.java:123 | as written, `server.maxPlayers` in a subclass that inherits the `server` section gets no comments |
| Comments.InheritedSectionLosesComments | src/main/java/net/wytrem/spigot/annotatedconfignode/AnnotatedConfigNode.java:121-131 | `server.maxPlayers` is a key that store writes for the subclass; the lookup as written gives it no comments, while the corrected lookup gives it the declared two lines |

## Left out

- YAML parsing and emission, Bukkit's section objects and default values are not modelled. The document is a flat map from dotted paths to scalar values. `yaml.get` on an interior path therefore returns nothing, where Bukkit would return a section object.
- `field.set` with a value of the wrong runtime type (an `IllegalArgumentException`) is not modelled. Scalars are untyped in the model, so every document value is assignable.
- The `IllegalAccessException` that `walkTree` catches and prints is not modelled. `setAccessible(true)` always succeeds in the model, so that branch is unreachable.
- Reflection itself (`getDeclaredFields`, `getSuperclass`, `isAssignableFrom`) is modelled by the schema datatype. The order of declared fields is taken as the order the JVM reports.
- A configuration class that contains a field of its own type (unbounded recursion when loading) cannot be expressed. Nested classes in the schema are acyclic by construction.
- The `deep` parameter of `walkTree` is always `true` at every call site, so it is dropped. A `null` path prefix behaves like `""` and is modelled as `""`.
- Instances are values, not shared objects. Aliasing between configuration objects is not modelled.
- Static `@ConfigNode` fields are not modelled. `getDeclaredFields` also returns static fields, so in Java such a field is one slot shared by every instance of its class, and two nested sections of that class both end up with the last value loaded. The model gives every instance its own slot.
- A field whose declared type is not a node type (`Object`, say) but whose constructor stores a node instance in it is not modelled. Java keeps that instance when the document holds nothing at the path, and `walkTree` then descends into it. The model's scalar fields start null or with a scalar, so Load.LoadMaterialises promises that no such field holds a node.
- The `CommentsProvider` lambda is modelled as the function `Comments.GetComments` of the class and the key. The comment-writing library that consumes it is not part of this model.
- The `RuntimeException` from `loadSection` is modelled as `ConstructionFailed` naming the innermost class whose no-argument constructor is missing or throws. The wrapped exception's cause is not modelled.
- RoundTrip.StoreAfterLoad: proved only for schemas whose scalar fields start null (`NullDefaults`). A field initialiser or a primitive default would also be stored back, even when the document does not hold that key.
- Comments.ResolvesOwnChains: states the as-written lookup only for keys whose sections are declared on the class itself, because it misses the others (see Findings).

## Findings

| source | as written | input that shows it | evidently intended | confidence | as-written member | corrected member |
|---|---|---|---|---|---|---|
| src/main/java/net/wytrem/spigot/annotatedconfignode/AnnotatedConfigNode.java:123 | the first segment of a dotted key is resolved with `getDeclaredField`, which searches only the class itself | `BaseConfig` has a `@ConfigNode` field `server` of node type `ServerSection`, whose field `maxPlayers` carries two comment lines; `PluginConfig extends BaseConfig` declares no fields. `store` writes `server.maxPlayers` for a `PluginConfig`, but `getComments(PluginConfig.class)` gives that key no comments. | the first segment is resolved like a single-segment key, among the discovered fields including inherited ones, so every key that `store` writes gets its field's comments | high that the code behaves this way, medium that it was unintended; not executed | Comments.InheritedSectionLosesComments | Comments.InheritedResolvesAllChains |
