/** `generateTypes` and its inner functions. The inner functions share the
    options and the list `typesUsed` through their closure; here they are
    the methods of one generator object whose `typesUsed` field they update. */
module Generator {
  import opened Ast
  import opened Schema
  import opened UsedTypes
  import opened Builders
  import opened Spec

  class TypeGenerator {
    const opts: Options
    const lib: Lodash
    var typesUsed: seq<string>

    ghost predicate Valid()
      reads this
    {
      NoDuplicates(typesUsed)
    }

    constructor (opts: Options, lib: Lodash)
      ensures Valid() && this.opts == opts && this.lib == lib && typesUsed == []
    {
      this.opts := opts;
      this.lib := lib;
      typesUsed := [];
    }

    /** `addUsedType`. */
    method AddUsedType(t: string)
      requires Valid()
      modifies this
      ensures Valid()
      ensures typesUsed == WithUsed(old(typesUsed), t)
    {
      if t !in typesUsed {
        typesUsed := typesUsed + [t];
      }
    }

    /** `getEnum`: one entry per enum value, in insertion order. */
    method GetEnum(f: Field) returns (n: Node)
      ensures n == EnumExpr(opts, lib, f)
    {
      var values: seq<Property> := [];
      var i := 0;
      while i < |f.values|
        invariant 0 <= i <= |f.values|
        invariant |values| == i
        invariant forall k :: 0 <= k < i ==> values[k] == EnumEntry(opts, lib, f.values[k].0, f.values[k].1)
      {
        var (name, enumValue) := f.values[i];
        values := values + [Property(
          ToUpperCase(lib.snakeCase(name)),
          Obj([Property("value", Literal(enumValue.value)), GenerateDescription(opts, enumValue.description)]))];
        i := i + 1;
      }
      assert values == EnumEntries(opts, lib, f.values);
      var typeDeclaration := Obj([
        Property("name", Literal(StrLit(lib.capitalize(f.name)))),
        GenerateDescription(opts, f.description),
        Property("values", Obj(values))]);
      n := New(Ident(EnumTypeName), [typeDeclaration]);
    }

    /** `getType`. */
    method GetType(f: Field) returns (n: Node)
      requires Valid()
      modifies this
      ensures Valid()
      ensures n == TypeExpr(opts, lib, f)
      ensures typesUsed == WithAllUsed(old(typesUsed), TypeImports(f))
    {
      if f.kind == EnumType {
        AddUsedType(EnumTypeName);
        WithAllUsedOne(old(typesUsed), EnumTypeName);
        n := GetEnum(f);
        return;
      }
      var t := TypeMap(f.kind).value;
      var identifier := Ident(t);
      AddUsedType(t);
      if !f.isNullable {
        AddUsedType(NonNullName);
        WithAllUsedPair(old(typesUsed), t, NonNullName);
        n := New(Ident(NonNullName), [identifier]);
        return;
      }
      WithAllUsedOne(old(typesUsed), t);
      n := identifier;
    }

    /** `generateReferenceField`. */
    method GenerateReferenceField(refName: string, refersTo: Model, otherFields: seq<string>) returns (p: Property)
      requires Valid()
      modifies this
      ensures Valid()
      ensures p == ReferenceField(opts, refName, refersTo.name, otherFields)
      ensures typesUsed == WithUsed(old(typesUsed), refersTo.name + "Type")
    {
      var fieldName := StripId(refName);
      if fieldName in otherFields {
        fieldName := fieldName + "Ref";
      }
      var description := opts.defaultDescription;
      if StartsWith(fieldName, "parent") {
        description := description + " (parent " + refersTo.name + ")";
      } else {
        description := description + " (reference)";
      }
      var refTypeName := refersTo.name + "Type";
      AddUsedType(refTypeName);
      p := GenerateField(opts, fieldName, Some(description), Ident(refTypeName));
    }

    /** The body of `generateType`'s loop for the field stored under
        `fieldName`: the field's own entry, then its reference entry if
        `references` has one for that name. */
    method GenerateFieldEntries(fieldName: string, field: Field, references: seq<(string, Model)>,
                                fieldNames: seq<string>) returns (entries: seq<Property>)
      requires Valid()
      modifies this
      ensures Valid()
      ensures entries == FieldSegment(opts, lib, fieldName, field, references, fieldNames)
      ensures typesUsed == WithAllUsed(old(typesUsed), SegmentImports(fieldName, field, references))
    {
      var t := GetType(field);
      entries := [GenerateField(opts, field.name, field.description, t)];
      var refersTo := Lookup(references, fieldName);
      if refersTo.Some? {
        var p := GenerateReferenceField(fieldName, refersTo.value, fieldNames);
        entries := entries + [p];
      }
      SegmentImportsStep(old(typesUsed), fieldName, field, references);
    }

    /** `generateType`: the entries of every field, in declaration order. */
    method GenerateType(name: string, model: Model) returns (d: Decl)
      requires Valid()
      modifies this
      ensures Valid()
      ensures d == TypeDeclaration(opts, lib, name, model)
      ensures typesUsed == WithAllUsed(old(typesUsed), ModelImports(model))
    {
      var fields: seq<Property> := [];
      var fieldNames := Keys(model.fields);
      var i := 0;
      while i < |model.fields|
        invariant 0 <= i <= |model.fields|
        invariant Valid()
        invariant fields == FieldEntries(opts, lib, model.fields[..i], model.references, fieldNames)
        invariant typesUsed == WithAllUsed(old(typesUsed), FieldImports(model.fields[..i], model.references))
      {
        var entries := GenerateFieldEntries(model.fields[i].0, model.fields[i].1, model.references, fieldNames);
        fields := fields + entries;
        FieldsStep(opts, lib, model.fields, model.references, fieldNames, i);
        WithAllUsedAppend(old(typesUsed), FieldImports(model.fields[..i], model.references),
                          SegmentImports(model.fields[i].0, model.fields[i].1, model.references));
        i := i + 1;
      }
      assert model.fields[..i] == model.fields;
      var typeDeclaration := Obj([
        Property("name", Literal(StrLit(name))),
        GenerateDescription(opts, model.description),
        Property("fields", Obj(fields))]);
      d := BuildVar(opts, name + "Type", New(Ident(ObjectTypeName), [typeDeclaration]));
    }
  }

  /** No model's imports list an identifier twice. */
  predicate ImportsDistinct(types: seq<(string, GeneratedType)>) {
    forall m :: 0 <= m < |types| ==> NoDuplicates(types[m].1.imports)
  }

  lemma ImportsDistinctAppend(types: seq<(string, GeneratedType)>, entry: (string, GeneratedType))
    requires ImportsDistinct(types) && NoDuplicates(entry.1.imports)
    ensures ImportsDistinct(types + [entry])
  {
    forall m | 0 <= m < |types| + 1 ensures NoDuplicates((types + [entry])[m].1.imports) {
      if m < |types| {
        assert (types + [entry])[m] == types[m];
      }
    }
  }

  /** `generateTypes`: one entry per model, in the models' order; the used
      identifiers are collected afresh for every model. */
  method GenerateTypes(models: seq<(string, Model)>, opts: Options, lib: Lodash)
    returns (types: seq<(string, GeneratedType)>)
    ensures types == GenerateAll(opts, lib, models)
    ensures ImportsDistinct(types)
  {
    var g := new TypeGenerator(opts, lib);
    types := [];
    var i := 0;
    while i < |models|
      invariant 0 <= i <= |models|
      invariant types == GenerateAll(opts, lib, models[..i])
      invariant ImportsDistinct(types)
    {
      var typeName, model := models[i].0, models[i].1;
      g.typesUsed := [];
      var ast := g.GenerateType(typeName, model);
      assert NoDuplicates(g.typesUsed) by {
        assert g.Valid();
      }
      assert GeneratedType(ast, g.typesUsed) == GenerateModel(opts, lib, typeName, model);
      ImportsDistinctAppend(types, (typeName, GeneratedType(ast, g.typesUsed)));
      types := types + [(typeName, GeneratedType(ast, g.typesUsed))];
      assert models[..i + 1][..i] == models[..i];
      i := i + 1;
    }
    assert models[..i] == models;
  }
}
