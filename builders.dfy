/** The stateless pieces of the generator: the scalar table, the builders
    of description properties, field properties and declarations, and the
    naming rules for reference fields. */
module Builders {
  import opened Ast
  import opened Schema

  const ObjectTypeName := "GraphQLObjectType"
  const EnumTypeName := "GraphQLEnumType"
  const NonNullName := "GraphQLNonNull"

  /** `typeMap`: the identifier of the scalar type for each scalar field
      type; an enum has none. */
  function TypeMap(kind: FieldType): (r: Option<string>)
    ensures r.None? <==> kind == EnumType
  {
    match kind
    case StringType => Some("GraphQLString")
    case IntegerType => Some("GraphQLInt")
    case FloatType => Some("GraphQLFloat")
    case EnumType => None
  }

  /** `description || opts.defaultDescription`: an absent or empty
      description is falsy and gives way to the default. */
  function Describe(opts: Options, description: Option<string>): (r: string)
    ensures description.None? || description.value == "" ==> r == opts.defaultDescription
    ensures description.Some? && description.value != "" ==> r == description.value
  {
    match description
    case Some(d) => if d != "" then d else opts.defaultDescription
    case None => opts.defaultDescription
  }

  /** `generateDescription`: the `description` property. */
  function GenerateDescription(opts: Options, description: Option<string>): Property {
    Property("description", Literal(StrLit(Describe(opts, description))))
  }

  /** `generateField` once its type expression is known. */
  function GenerateField(opts: Options, name: string, description: Option<string>, typeExpr: Node): Property {
    Property(name, Obj([Property("type", typeExpr), GenerateDescription(opts, description)]))
  }

  /** `buildVar`: a `const` declaration under `opts.es6`, a `var` otherwise. */
  function BuildVar(opts: Options, name: string, val: Node): Decl {
    VarDecl(if opts.es6 then Const else Var, name, val)
  }

  /** `refName.replace(/Id$/, '')`: one trailing "Id" is removed. */
  function StripId(refName: string): (r: string)
    ensures EndsWith(refName, "Id") ==> r + "Id" == refName
    ensures !EndsWith(refName, "Id") ==> r == refName
  {
    if EndsWith(refName, "Id") then refName[..|refName| - 2] else refName
  }

  /** The name of a reference field: the stripped name, with "Ref" appended
      when it collides with one of the model's field names. */
  function ReferenceName(refName: string, fieldNames: seq<string>): string {
    var stripped := StripId(refName);
    if stripped in fieldNames then stripped + "Ref" else stripped
  }

  /** The description of a reference field named `fieldName` that refers to
      the model named `target`. */
  function ReferenceDescription(opts: Options, fieldName: string, target: string): string {
    if StartsWith(fieldName, "parent") then opts.defaultDescription + " (parent " + target + ")"
    else opts.defaultDescription + " (reference)"
  }
}
