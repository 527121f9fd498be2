# generate-types: the GraphQL type generator of sql-to-graphql

`generateTypes` takes the models read from a SQL schema. Each model has fields and
references to other models. For every model it produces two things:

- the syntax tree of a declaration `var|const <Name>Type = new GraphQLObjectType({...})`;
- the list of identifiers that declaration uses, its `imports`.

Each model field becomes a property holding a `type` and a `description`:

- The type is a scalar identifier, optionally wrapped in `new GraphQLNonNull(...)`.
- Or it is a nested `new GraphQLEnumType({...})`.
- A field that refers to another model is followed by a second property whose type is that model's `<Name>Type`.

The project has one module per concern:

- `Ast` (ast.dfy): the few syntax-tree nodes the generator builds.
- `Schema` (schema.dfy): models, fields, enum values and options. Every JavaScript object is a sequence of key/value pairs in insertion order. Property access is a first-match lookup.
- `UsedTypes` (used_types.dfy): the `typesUsed` list and `addUsedType`. It is proved free of duplicates and in first-seen order.
- `Builders` (builders.dfy): `typeMap`, `generateDescription`, `generateField`, `buildVar`, and the naming rules of reference fields.
- `Sequences` (sequences.dfy): the two accumulation patterns of the loops, with generic lemmas.
- `Spec` (spec.dfy): the functional meaning of each stateful operation. It gives the expression each one builds and the identifiers it adds, in order.
- `Generator` (generator.dfy):
  - the class `TypeGenerator`, whose field `typesUsed` its methods update in place, as the closure's shared variable is updated in the source;
  - the method `GenerateTypes`, with its loop over the models.
- `Properties` (properties.dfy): lemmas stating what the generated declarations and import lists promise.

## Model

| member | source | states |
|---|---|---|
| Builders.TypeMap | steps/generate-types.js:7-11 | A field type has a scalar identifier exactly when it is not the enum. Which identifier each scalar gets is the table in the body, as in the source. |
| Builders.Describe | steps/generate-types.js:61-67 | An absent or empty description falls back to `opts.defaultDescription`. A non-empty one is kept. |
| Builders.StripId | steps/generate-types.js:81 | Exactly one trailing "Id" is removed (result + "Id" is the input). A name without that suffix is unchanged. |
| Schema.LookupFound | steps/generate-types.js:34 | `obj[key]` on the object's own entries finds a value iff the key is present. The value found is the one stored under that key. Inherited properties are not modelled, see Left out. |
| UsedTypes.WithUsed | steps/generate-types.js:23-27 | `addUsedType(t)`: afterwards `t` is present. The old list is a prefix of the new one. At most one identifier is added. An identifier already present leaves the list unchanged. No duplicates is preserved. |
| UsedTypes.WithAllUsedContents | steps/generate-types.js:23-27 | After a series of `addUsedType` calls the list keeps its old prefix. It holds exactly the old identifiers and the added ones. It stays free of duplicates. |
| UsedTypes.WithAllUsedFirstSeen | steps/generate-types.js:23-27 | After a series of `addUsedType` calls, identifiers appear in the order of their first occurrence in the old list followed by the added ones. |
| Generator.TypeGenerator.AddUsedType | steps/generate-types.js:23-27 | The new `typesUsed` is `WithUsed` of the old one. The no-duplicates invariant is kept. |
| Generator.TypeGenerator.GetEnum | steps/generate-types.js:123-147 | The loop over the enum values builds exactly `EnumExpr` of the field. Nothing is recorded. |
| Generator.TypeGenerator.GetType | steps/generate-types.js:104-121 | The result is `TypeExpr` of the field. For an enum, `typesUsed` gains GraphQLEnumType. Otherwise it gains the scalar and then, unless nullable, GraphQLNonNull. |
| Generator.TypeGenerator.GenerateReferenceField | steps/generate-types.js:80-102 | The result is `ReferenceField`, and `typesUsed` gains `refersTo.name + "Type"`. |
| Generator.TypeGenerator.GenerateFieldEntries | steps/generate-types.js:32-40 | One loop iteration pushes `FieldSegment`: the own entry, then the reference entry iff there is a reference. It records `SegmentImports`. |
| Generator.TypeGenerator.GenerateType | steps/generate-types.js:29-59 | The loop's `fields` is `FieldEntries` of all fields in declaration order. The result is `TypeDeclaration`. `typesUsed` gains `ModelImports` in order. |
| Generator.GenerateTypes | steps/generate-types.js:13-21 | The result is `GenerateAll`: one entry per model with `typesUsed` reset before each model. Every model's `imports` is free of duplicates, carried by the generator's `Valid()` invariant through each `GenerateType` call. |
| Properties.OneEntryPerModel | steps/generate-types.js:14-19 | The result has one entry per model, in order. Each is keyed by the model's key in `models` (the loop's `typeName`) and holds that model's own declaration and imports. |
| Properties.ImportsOfModel | steps/generate-types.js:16-18 | A model's imports have no duplicates and are in first-recorded order. An identifier is in them iff one of that model's own fields recorded it. |
| Properties.FieldCount | steps/generate-types.js:30-41 | The `fields` object has one entry per field plus one per referenced field. |
| Properties.SegmentShape | steps/generate-types.js:32-40 | A field contributes its own entry first, then its reference entry iff `model.references` has that field name. |
| Properties.FieldLayout | steps/generate-types.js:30-41 | Field `k`'s own entry is at `k` + the number of referenced fields before it. The next entry is its reference entry iff it has a reference. Otherwise it is the next field's own entry, or the end of the list. |
| Properties.FieldImportsMembership | steps/generate-types.js:31-41 | An identifier is recorded during the loop iff one field's iteration records it. |
| Properties.OwnEntryShape | steps/generate-types.js:69-78 | The own entry is keyed by `field.name` and holds the type then the described description. A scalar is wrapped in GraphQLNonNull iff not nullable and records the scalar (plus GraphQLNonNull). An enum becomes its enum construction. |
| Properties.OwnFieldOfModel | steps/generate-types.js:30-47 | In the model's declaration, field `k`'s own entry sits at its position in the `fields` object, and every identifier its type records is among the model's imports. |
| Properties.ReferenceEntryShape | steps/generate-types.js:80-101 | "Ref" is appended iff the stripped name is a field name. When the name with "Ref" is not one either, the result collides with no field name. The description is "(parent X)" iff the final name starts with "parent"; otherwise it is "(reference)". The type is the bare `X + "Type"` identifier. |
| Properties.ReferenceFieldOfModel | steps/generate-types.js:34-40 | A referenced field's own entry is followed by its reference entry. A reference name without an "Id" suffix always becomes `name + "Ref"`. The target's type identifier is among the model's imports. |
| Properties.EnumFieldShape | steps/generate-types.js:105-108 | An enum's type is the same whether nullable or not and is never wrapped. Only GraphQLEnumType is recorded. The name is the capitalised field name. There is one value entry per enum value, in order, with the value carried unchanged. |
| Properties.EnumKeysUpperCase | steps/generate-types.js:129 | Enum value keys are upper-cased after `snakeCase`, so they hold no lower-case ASCII letter. |
| Properties.DeclarationShape | steps/generate-types.js:49-57 | The declaration is named `name + "Type"` and is `const` iff `opts.es6`. It constructs a GraphQLObjectType from name, description and fields. It has one field entry per field plus one per reference. |
| Properties.SegmentNotObjectType | steps/generate-types.js:95-96 | No field iteration records GraphQLObjectType, unless a referenced model is itself named "GraphQLObject". |
| Properties.ObjectTypeNotImported | steps/generate-types.js:52-54 | GraphQLObjectType is never in a model's imports, under the same condition. |
| Properties.ParentReferenceExample | steps/generate-types.js:88-90 | "parentId" referring to "Category" becomes field "parent", described as "(parent Category)". |
| Properties.CollidingReferenceExample | steps/generate-types.js:83-86 | "ownerId" next to a field "owner" becomes "ownerRef". |

## Left out

- The `ast-types` builder library and its node validation. The tree nodes are a small datatype, `Ast`, and printing that tree to text is not modelled.
- lodash `capitalize` and `snakeCase` are parameters of the model, passed as the two functions of `Lodash`. Nothing is assumed about them.
- `String.prototype.toUpperCase` is modelled on ASCII letters only. Other characters are unchanged.
- JavaScript `for...in` iteration is not modelled as such. Objects are sequences in insertion order, so two consequences are missed: integer-like keys are not moved to the front, and inherited enumerable properties are not visited. Duplicate keys cannot occur in a JavaScript object; the lookup takes the first match.
- Schema.Lookup: `model.references[fieldName]` (steps/generate-types.js:34, 37) is plain property access, so in the source it also finds inherited `Object.prototype` members. A field keyed "constructor", "toString", "valueOf" or "hasOwnProperty" takes the truthy branch there. It gets an extra reference entry such as "constructorRef" typed `ObjectType` (from `Object.name`), and that identifier is added to `imports`. `Lookup` sees only the object's own entries and returns None for those keys, so Schema.LookupFound and every lemma built on `Lookup` speak of own keys only.
- Ast.Lit: holds strings, integers, booleans and `null` only. `b.literal(enumValue.value)` (steps/generate-types.js:131) also accepts non-integer numbers and regular expressions; these are not modelled, because they would need floating point and a regular-expression value.
- The unknown scalar type is excluded by the datatype `FieldType`. In the source, `typeMap` yields `undefined` for a field type outside the four kinds, and line 111 passes it to `b.identifier` (steps/generate-types.js:110-113). The builder rejects a name that is not a string. So `undefined` would reach `imports` at line 113 only if that check were skipped.
- `module.exports` is not modelled.
- `generateField(field, type)`'s fallback `type || getType(field)` is resolved at its two call sites. `GenerateType` calls `GetType` and passes its result. `GenerateReferenceField` passes the identifier.
- Properties.ObjectTypeNotImported: stated only when no referenced model is named "GraphQLObject". Such a model's type identifier would be "GraphQLObjectType" itself.
- An enum records only GraphQLEnumType (steps/generate-types.js:105-107).
