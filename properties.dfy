/** What the generated declarations and import lists promise. */
module Properties {
  import opened Ast
  import opened Schema
  import opened UsedTypes
  import opened Builders
  import opened Spec
  import opened Sequences

  /** The number of fields that have an entry in `refs`. */
  function ReferencedCount(fields: seq<(string, Field)>, refs: seq<(string, Model)>): nat {
    if fields == [] then 0
    else
      var n := |fields| - 1;
      ReferencedCount(fields[..n], refs) + if Lookup(refs, fields[n].0).Some? then 1 else 0
  }

  /** Each field contributes its own entry, plus one more when it has a
      reference. */
  lemma {:induction false} FieldCount(opts: Options, lib: Lodash, fields: seq<(string, Field)>,
                                      refs: seq<(string, Model)>, names: seq<string>)
    ensures |FieldEntries(opts, lib, fields, refs, names)| == |fields| + ReferencedCount(fields, refs)
    decreases |fields|
  {
    if fields != [] {
      FieldCount(opts, lib, fields[..|fields| - 1], refs, names);
    }
  }

  /** The entries of one field: its own entry, then its reference entry
      if and only if `refs` has the field's name. */
  lemma SegmentShape(opts: Options, lib: Lodash, key: string, f: Field,
                     refs: seq<(string, Model)>, names: seq<string>)
    ensures var segment := FieldSegment(opts, lib, key, f, refs, names);
      && |segment| == 1 + (if Lookup(refs, key).Some? then 1 else 0)
      && segment[0] == OwnEntry(opts, lib, f)
      && (Lookup(refs, key).Some? ==> segment[1] == ReferenceField(opts, key, Lookup(refs, key).value.name, names))
  {
  }

  /** Declaration order: field `k`'s own entry sits at position
      `k + ReferencedCount(fields[..k], refs)`; the entry right after it is
      its reference entry if and only if `refs` has the field's name, and
      otherwise the next field's own entry (or nothing, after the last field). */
  lemma FieldLayout(opts: Options, lib: Lodash, fields: seq<(string, Field)>,
                    refs: seq<(string, Model)>, names: seq<string>, k: nat)
    requires k < |fields|
    ensures var entries := FieldEntries(opts, lib, fields, refs, names);
      var p := k + ReferencedCount(fields[..k], refs);
      && p < |entries|
      && entries[p] == OwnEntry(opts, lib, fields[k].1)
      && (Lookup(refs, fields[k].0).Some? ==>
            p + 1 < |entries| &&
            entries[p + 1] == ReferenceField(opts, fields[k].0, Lookup(refs, fields[k].0).value.name, names))
      && (Lookup(refs, fields[k].0).None? && k + 1 < |fields| ==>
            p + 1 < |entries| && entries[p + 1] == OwnEntry(opts, lib, fields[k + 1].1))
      && (Lookup(refs, fields[k].0).None? && k + 1 == |fields| ==> p + 1 == |entries|)
  {
    var entries := FieldEntries(opts, lib, fields, refs, names);
    var p := k + ReferencedCount(fields[..k], refs);
    var before, rest := fields[..k], fields[k + 1..];
    var head := FieldEntries(opts, lib, before, refs, names);
    var segment := FieldSegment(opts, lib, fields[k].0, fields[k].1, refs, names);
    var tail := FieldEntries(opts, lib, rest, refs, names);
    ConcatMapSplit(Segments(opts, lib, refs, names), fields, k);
    assert |head| == p by {
      FieldCount(opts, lib, before, refs, names);
    }
    SegmentShape(opts, lib, fields[k].0, fields[k].1, refs, names);
    if k + 1 < |fields| {
      assert tail[0] == OwnEntry(opts, lib, fields[k + 1].1) by {
        ConcatMapSplit(Segments(opts, lib, refs, names), rest, 0);
        assert rest[..0] == [];
        SegmentShape(opts, lib, fields[k + 1].0, fields[k + 1].1, refs, names);
      }
    } else {
      assert rest == [];
    }
  }

  /** Membership in the concatenated import lists is membership in one
      field's list. */
  lemma FieldImportsMembership(fields: seq<(string, Field)>, refs: seq<(string, Model)>, x: string)
    ensures x in FieldImports(fields, refs) <==>
      exists k :: 0 <= k < |fields| && x in SegmentImports(fields[k].0, fields[k].1, refs)
  {
    ConcatMapMembership(SegmentsImports(refs), fields, x);
  }

  /** A model's imports are free of duplicates, hold exactly the identifiers
      recorded while its own fields were generated, and list them in the
      order they were first recorded. */
  lemma ImportsOfModel(opts: Options, lib: Lodash, name: string, model: Model)
    ensures var imports := GenerateModel(opts, lib, name, model).imports;
      && NoDuplicates(imports)
      && FirstSeenOrdered(imports, ModelImports(model))
      && forall x :: x in imports <==>
           exists k :: 0 <= k < |model.fields| &&
             x in SegmentImports(model.fields[k].0, model.fields[k].1, model.references)
  {
    var recorded := ModelImports(model);
    WithAllUsedContents([], recorded);
    WithAllUsedFirstSeen([], recorded);
    assert [] + recorded == recorded;
    forall x ensures x in WithAllUsed([], recorded) <==>
      exists k :: 0 <= k < |model.fields| &&
        x in SegmentImports(model.fields[k].0, model.fields[k].1, model.references)
    {
      FieldImportsMembership(model.fields, model.references, x);
    }
  }

  /** Scalar and enum resolution: a known scalar becomes its identifier,
      wrapped in `GraphQLNonNull` unless the field is nullable, and both
      identifiers are imported; an enum becomes its enum construction. The
      own entry is keyed by the field's `name` and carries its description
      or the default. */
  lemma OwnEntryShape(opts: Options, lib: Lodash, f: Field)
    ensures var e := OwnEntry(opts, lib, f);
      && e.key == f.name
      && e.value == Obj([
           Property("type", TypeExpr(opts, lib, f)),
           Property("description", Literal(StrLit(Describe(opts, f.description))))])
    ensures f.kind != EnumType ==>
      var id := Ident(TypeMap(f.kind).value);
      && TypeExpr(opts, lib, f) == (if f.isNullable then id else New(Ident(NonNullName), [id]))
      && TypeImports(f) == [TypeMap(f.kind).value] + (if f.isNullable then [] else [NonNullName])
    ensures f.kind == EnumType ==> TypeExpr(opts, lib, f) == EnumExpr(opts, lib, f)
  {
  }

  /** Field `k`'s own entry sits at its position in the model's `fields`
      object, and every identifier its type needs is among the model's
      imports. */
  lemma OwnFieldOfModel(opts: Options, lib: Lodash, name: string, model: Model, k: nat)
    requires k < |model.fields|
    ensures var f := model.fields[k].1;
      var p := k + ReferencedCount(model.fields[..k], model.references);
      var fieldsObj := FieldEntries(opts, lib, model.fields, model.references, Keys(model.fields));
      && TypeDeclaration(opts, lib, name, model).init.args[0].props[2].value == Obj(fieldsObj)
      && p < |fieldsObj|
      && fieldsObj[p] == OwnEntry(opts, lib, f)
      && forall x :: x in TypeImports(f) ==> x in GenerateModel(opts, lib, name, model).imports
  {
    FieldLayout(opts, lib, model.fields, model.references, Keys(model.fields), k);
    ImportsOfModel(opts, lib, name, model);
    var f := model.fields[k].1;
    forall x | x in TypeImports(f) ensures x in GenerateModel(opts, lib, name, model).imports {
      assert x in SegmentImports(model.fields[k].0, f, model.references);
    }
  }

  /** The reference entry of a field stored under `refName`: its name is the
      name without one trailing "Id", with "Ref" appended when that collides
      with a field name; a "parent…" name is described as a parent link; its
      type is the bare identifier of the referenced model's type. */
  lemma ReferenceEntryShape(opts: Options, refName: string, target: string, names: seq<string>)
    ensures var r := ReferenceField(opts, refName, target, names);
      && (StripId(refName) in names ==> r.key == StripId(refName) + "Ref")
      && (StripId(refName) !in names ==> r.key == StripId(refName))
      && (StripId(refName) + "Ref" !in names ==> r.key !in names)
      && r.value == Obj([
           Property("type", Ident(target + "Type")),
           Property("description", Literal(StrLit(
             if StartsWith(r.key, "parent") then opts.defaultDescription + " (parent " + target + ")"
             else opts.defaultDescription + " (reference)")))])
  {
  }

  /** The entry after a referenced field's own entry is its reference entry,
      and the referenced model's type identifier is imported. A field name
      without an "Id" suffix always gets "Ref" appended, since it collides
      with itself. */
  lemma ReferenceFieldOfModel(opts: Options, lib: Lodash, name: string, model: Model, k: nat)
    requires k < |model.fields|
    requires Lookup(model.references, model.fields[k].0).Some?
    ensures var key := model.fields[k].0;
      var target := Lookup(model.references, key).value;
      var p := k + ReferencedCount(model.fields[..k], model.references);
      var fieldsObj := FieldEntries(opts, lib, model.fields, model.references, Keys(model.fields));
      && p + 1 < |fieldsObj|
      && fieldsObj[p + 1] == ReferenceField(opts, key, target.name, Keys(model.fields))
      && (!EndsWith(key, "Id") ==> fieldsObj[p + 1].key == key + "Ref")
      && target.name + "Type" in GenerateModel(opts, lib, name, model).imports
  {
    var key := model.fields[k].0;
    FieldLayout(opts, lib, model.fields, model.references, Keys(model.fields), k);
    ImportsOfModel(opts, lib, name, model);
    assert Keys(model.fields)[k] == key;
    assert key in Keys(model.fields);
    assert Lookup(model.references, key).value.name + "Type" in SegmentImports(key, model.fields[k].1, model.references);
  }

  /** An enum field's type is the same whether or not it is nullable: a
      `GraphQLEnumType` construction that is never wrapped, and only
      `GraphQLEnumType` is imported for it. Its name is the capitalised field
      name, and it has one value entry per enum value, in order, with the
      value carried unchanged. */
  lemma EnumFieldShape(opts: Options, lib: Lodash, f: Field)
    requires f.kind == EnumType
    ensures TypeExpr(opts, lib, f.(isNullable := !f.isNullable)) == TypeExpr(opts, lib, f)
    ensures TypeImports(f) == [EnumTypeName]
    ensures var t := TypeExpr(opts, lib, f);
      && t.New? && t.callee == Ident(EnumTypeName) && |t.args| == 1 && t.args[0].Obj?
      && var props := t.args[0].props;
      && |props| == 3
      && props[0] == Property("name", Literal(StrLit(lib.capitalize(f.name))))
      && props[1] == Property("description", Literal(StrLit(Describe(opts, f.description))))
      && props[2].key == "values" && props[2].value.Obj?
      && var entries := props[2].value.props;
      && |entries| == |f.values|
      && forall i :: 0 <= i < |f.values| ==>
           && entries[i].key == ToUpperCase(lib.snakeCase(f.values[i].0))
           && entries[i].value == Obj([
                Property("value", Literal(f.values[i].1.value)),
                Property("description", Literal(StrLit(Describe(opts, f.values[i].1.description))))])
  {
  }

  /** Enum value keys are upper-cased after `snakeCase`: none holds a
      lower-case ASCII letter. */
  lemma EnumKeysUpperCase(opts: Options, lib: Lodash, f: Field, i: nat, c: nat)
    requires f.kind == EnumType && i < |f.values|
    ensures var key := EnumEntries(opts, lib, f.values)[i].key;
      c < |key| ==> !('a' <= key[c] <= 'z')
  {
  }

  /** The model's declaration is named after the model with "Type"
      appended, is a `const` exactly under `es6`, and constructs a
      `GraphQLObjectType` from the model's name, description and fields. */
  lemma DeclarationShape(opts: Options, lib: Lodash, name: string, model: Model)
    ensures var d := TypeDeclaration(opts, lib, name, model);
      && d.name == name + "Type"
      && (d.kind == Const <==> opts.es6)
      && d.init.New? && d.init.callee == Ident(ObjectTypeName) && |d.init.args| == 1
      && d.init.args[0].Obj? && |d.init.args[0].props| == 3
      && d.init.args[0].props[0] == Property("name", Literal(StrLit(name)))
      && d.init.args[0].props[1] == Property("description", Literal(StrLit(Describe(opts, model.description))))
      && d.init.args[0].props[2].key == "fields"
      && d.init.args[0].props[2].value.Obj?
      && |d.init.args[0].props[2].value.props| == |model.fields| + ReferencedCount(model.fields, model.references)
  {
    FieldCount(opts, lib, model.fields, model.references, Keys(model.fields));
  }

  lemma AppendCancel(a: string, b: string, suffix: string)
    ensures a + suffix == b + suffix ==> a == b
  {
    if a + suffix == b + suffix {
      assert a == (a + suffix)[..|a|];
      assert b == (b + suffix)[..|b|];
    }
  }

  /** No field adds `GraphQLObjectType`, unless a referenced model is
      itself named "GraphQLObject". */
  lemma SegmentNotObjectType(key: string, f: Field, refs: seq<(string, Model)>)
    requires forall j :: 0 <= j < |refs| ==> refs[j].1.name != "GraphQLObject"
    ensures ObjectTypeName !in SegmentImports(key, f, refs)
  {
    LookupFound(refs, key);
    var target := Lookup(refs, key);
    if target.Some? {
      var j :| 0 <= j < |refs| && refs[j] == (key, target.value);
      AppendCancel(target.value.name, "GraphQLObject", "Type");
      assert "GraphQLObject" + "Type" == ObjectTypeName;
    }
  }

  /** `GraphQLObjectType` is never added to the imports, unless a referenced
      model is itself named "GraphQLObject". */
  lemma ObjectTypeNotImported(opts: Options, lib: Lodash, name: string, model: Model)
    requires forall j :: 0 <= j < |model.references| ==> model.references[j].1.name != "GraphQLObject"
    ensures ObjectTypeName !in GenerateModel(opts, lib, name, model).imports
  {
    var refs := model.references;
    WithAllUsedContents([], ModelImports(model));
    FieldImportsMembership(model.fields, refs, ObjectTypeName);
    forall k | 0 <= k < |model.fields|
      ensures ObjectTypeName !in SegmentImports(model.fields[k].0, model.fields[k].1, refs)
    {
      SegmentNotObjectType(model.fields[k].0, model.fields[k].1, refs);
    }
  }

  /** The result of `generateTypes` has one entry per model, in the models'
      order, keyed by the model's name and holding that model's own entry. */
  lemma OneEntryPerModel(opts: Options, lib: Lodash, models: seq<(string, Model)>)
    ensures var types := GenerateAll(opts, lib, models);
      && |types| == |models|
      && forall m :: 0 <= m < |models| ==>
           types[m] == (models[m].0, GenerateModel(opts, lib, models[m].0, models[m].1))
  {
    MapEntriesAt(Generated(opts, lib), models);
  }

  /** A field "parentId" referring to "Category", with no field "parent". */
  lemma ParentReferenceExample(opts: Options)
    ensures var r := ReferenceField(opts, "parentId", "Category", ["parentId", "title"]);
      r.key == "parent" &&
      r.value.props[1] == Property("description", Literal(StrLit(opts.defaultDescription + " (parent Category)")))
  {
    assert EndsWith("parentId", "Id");
    assert StripId("parentId") == "parent";
    assert StartsWith("parent", "parent");
    var d := opts.defaultDescription;
    assert d + " (parent " + "Category" + ")" == d + " (parent Category)";
  }

  /** A field "ownerId" referring to "User", next to a field "owner". */
  lemma CollidingReferenceExample(opts: Options)
    ensures ReferenceField(opts, "ownerId", "User", ["owner", "ownerId"]).key == "ownerRef"
  {
    assert EndsWith("ownerId", "Id");
    assert StripId("ownerId") == "owner";
  }
}
