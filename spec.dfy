/** The functional specification of the generator's stateful parts: the
    expression each of `getType`, `getEnum`, `generateReferenceField` and
    `generateType` builds, and the identifiers each adds with
    `addUsedType`, in the order it adds them. */
module Spec {
  import opened Ast
  import opened Schema
  import opened UsedTypes
  import opened Builders
  import opened Sequences

  /** One entry of an enum's `values` object. */
  function EnumEntry(opts: Options, lib: Lodash, name: string, v: EnumValue): Property {
    Property(
      ToUpperCase(lib.snakeCase(name)),
      Obj([Property("value", Literal(v.value)), GenerateDescription(opts, v.description)]))
  }

  function EnumEntries(opts: Options, lib: Lodash, values: seq<(string, EnumValue)>): seq<Property> {
    seq(|values|, k requires 0 <= k < |values| => EnumEntry(opts, lib, values[k].0, values[k].1))
  }

  /** What `getEnum` returns. */
  function EnumExpr(opts: Options, lib: Lodash, f: Field): Node {
    New(Ident(EnumTypeName), [Obj([
      Property("name", Literal(StrLit(lib.capitalize(f.name)))),
      GenerateDescription(opts, f.description),
      Property("values", Obj(EnumEntries(opts, lib, f.values)))])])
  }

  /** What `getType` returns. */
  function TypeExpr(opts: Options, lib: Lodash, f: Field): Node
  {
    if f.kind == EnumType then EnumExpr(opts, lib, f)
    else
      var id := Ident(TypeMap(f.kind).value);
      if !f.isNullable then New(Ident(NonNullName), [id]) else id
  }

  /** What `getType` adds to the list of used identifiers. */
  function TypeImports(f: Field): seq<string>
  {
    if f.kind == EnumType then [EnumTypeName]
    else if !f.isNullable then [TypeMap(f.kind).value, NonNullName]
    else [TypeMap(f.kind).value]
  }

  /** What `generateReferenceField` returns. */
  function ReferenceField(opts: Options, refName: string, target: string, fieldNames: seq<string>): Property {
    var name := ReferenceName(refName, fieldNames);
    GenerateField(opts, name, Some(ReferenceDescription(opts, name, target)), Ident(target + "Type"))
  }

  /** The field's own entry. */
  function OwnEntry(opts: Options, lib: Lodash, f: Field): Property
  {
    GenerateField(opts, f.name, f.description, TypeExpr(opts, lib, f))
  }

  /** The entries one iteration of `generateType`'s loop pushes for the field
      stored under `key`. */
  function FieldSegment(opts: Options, lib: Lodash, key: string, f: Field,
                        refs: seq<(string, Model)>, fieldNames: seq<string>): seq<Property>
  {
    [OwnEntry(opts, lib, f)] +
    match Lookup(refs, key)
    case Some(target) => [ReferenceField(opts, key, target.name, fieldNames)]
    case None => []
  }

  /** The identifiers the same iteration adds, in order. */
  function SegmentImports(key: string, f: Field, refs: seq<(string, Model)>): seq<string>
  {
    TypeImports(f) +
    match Lookup(refs, key)
    case Some(target) => [target.name + "Type"]
    case None => []
  }

  /** One iteration of `generateType`'s loop, as a function of the field. */
  function Segments(opts: Options, lib: Lodash, refs: seq<(string, Model)>, fieldNames: seq<string>)
    : ((string, Field)) -> seq<Property>
  {
    (x: (string, Field)) => FieldSegment(opts, lib, x.0, x.1, refs, fieldNames)
  }

  function SegmentsImports(refs: seq<(string, Model)>): ((string, Field)) -> seq<string> {
    (x: (string, Field)) => SegmentImports(x.0, x.1, refs)
  }

  /** Everything `generateType`'s loop pushes, field by field. */
  function FieldEntries(opts: Options, lib: Lodash, fields: seq<(string, Field)>,
                        refs: seq<(string, Model)>, fieldNames: seq<string>): seq<Property>
  {
    ConcatMap(Segments(opts, lib, refs, fieldNames), fields)
  }

  /** Every identifier that loop adds, field by field. */
  function FieldImports(fields: seq<(string, Field)>, refs: seq<(string, Model)>): seq<string>
  {
    ConcatMap(SegmentsImports(refs), fields)
  }

  /** The declaration `generateType` returns for the model stored under `name`. */
  function TypeDeclaration(opts: Options, lib: Lodash, name: string, model: Model): Decl
  {
    BuildVar(opts, name + "Type", New(Ident(ObjectTypeName), [Obj([
      Property("name", Literal(StrLit(name))),
      GenerateDescription(opts, model.description),
      Property("fields", Obj(FieldEntries(opts, lib, model.fields, model.references, Keys(model.fields))))])]))
  }

  /** Every identifier recorded while the model's fields are generated. */
  function ModelImports(model: Model): seq<string>
  {
    FieldImports(model.fields, model.references)
  }

  /** The entry `generateTypes` stores for the model: the list of used
      identifiers starts empty for every model. */
  function GenerateModel(opts: Options, lib: Lodash, name: string, model: Model): GeneratedType
  {
    GeneratedType(TypeDeclaration(opts, lib, name, model), WithAllUsed([], ModelImports(model)))
  }

  /** What `generateTypes` returns: one entry per model, in the models' order. */
  function GenerateAll(opts: Options, lib: Lodash, models: seq<(string, Model)>): seq<(string, GeneratedType)>
  {
    MapEntries(Generated(opts, lib), models)
  }

  function Generated(opts: Options, lib: Lodash): (string, Model) -> GeneratedType {
    (name, model) => GenerateModel(opts, lib, name, model)
  }

  /** One more iteration of `generateType`'s loop appends one segment. */
  lemma FieldsStep(opts: Options, lib: Lodash, fields: seq<(string, Field)>,
                   refs: seq<(string, Model)>, fieldNames: seq<string>, i: nat)
    requires i < |fields|
    ensures FieldEntries(opts, lib, fields[..i + 1], refs, fieldNames) ==
      FieldEntries(opts, lib, fields[..i], refs, fieldNames) +
      FieldSegment(opts, lib, fields[i].0, fields[i].1, refs, fieldNames)
    ensures FieldImports(fields[..i + 1], refs) ==
      FieldImports(fields[..i], refs) + SegmentImports(fields[i].0, fields[i].1, refs)
  {
    assert fields[..i + 1][..i] == fields[..i];
  }

  /** The identifiers one iteration adds: the field type's, then the
      referenced type's if there is a reference. */
  lemma SegmentImportsStep(used: seq<string>, key: string, f: Field, refs: seq<(string, Model)>)
    ensures WithAllUsed(used, SegmentImports(key, f, refs)) ==
      match Lookup(refs, key)
      case Some(target) => WithUsed(WithAllUsed(used, TypeImports(f)), target.name + "Type")
      case None => WithAllUsed(used, TypeImports(f))
  {
    match Lookup(refs, key)
    case Some(target) =>
      WithAllUsedAppend(used, TypeImports(f), [target.name + "Type"]);
      WithAllUsedOne(WithAllUsed(used, TypeImports(f)), target.name + "Type");
    case None =>
      assert SegmentImports(key, f, refs) == TypeImports(f);
  }
}
