/** The generator's input: models, fields, references and enum values, with
    every JavaScript object written as a sequence of key/value pairs in
    insertion order. */
module Schema {
  import opened Ast

  datatype Option<+T> = None | Some(value: T)

  datatype EnumValue = EnumValue(value: Lit, description: Option<string>)

  /** A field's `type`: "string", "integer", "float" or "enum". */
  datatype FieldType = StringType | IntegerType | FloatType | EnumType

  /** `kind` is the field's `type`; `values` matters only for an enum. */
  datatype Field = Field(
    name: string,
    description: Option<string>,
    kind: FieldType,
    isNullable: bool,
    values: seq<(string, EnumValue)>)

  /** `references` maps a field name to the model that the field refers to. */
  datatype Model = Model(
    name: string,
    description: Option<string>,
    fields: seq<(string, Field)>,
    references: seq<(string, Model)>)

  datatype Options = Options(defaultDescription: string, es6: bool)

  /** The two lodash string helpers the generator calls; they are not modelled. */
  datatype Lodash = Lodash(capitalize: string -> string, snakeCase: string -> string)

  /** The result for one model: its declaration and the identifiers it uses. */
  datatype GeneratedType = GeneratedType(ast: Decl, imports: seq<string>)

  function Keys<T>(entries: seq<(string, T)>): seq<string> {
    seq(|entries|, i requires 0 <= i < |entries| => entries[i].0)
  }

  /** Property access `obj[key]` on an object given by its entries. */
  function Lookup<T>(entries: seq<(string, T)>, key: string): Option<T> {
    if entries == [] then None
    else if entries[0].0 == key then Some(entries[0].1)
    else Lookup(entries[1..], key)
  }

  /** A lookup finds a value exactly when the key is present, and the value
      it finds is stored under that key. */
  lemma {:induction false} LookupFound<T>(entries: seq<(string, T)>, key: string)
    ensures Lookup(entries, key).None? <==> key !in Keys(entries)
    ensures Lookup(entries, key).Some? ==>
      exists i :: 0 <= i < |entries| && entries[i] == (key, Lookup(entries, key).value)
    decreases |entries|
  {
    if entries != [] {
      assert Keys(entries) == [entries[0].0] + Keys(entries[1..]);
      if entries[0].0 != key {
        LookupFound(entries[1..], key);
        if Lookup(entries, key).Some? {
          var i :| 0 <= i < |entries| - 1 && entries[1..][i] == (key, Lookup(entries, key).value);
          assert entries[i + 1] == entries[1..][i];
        }
      }
    }
  }

  predicate StartsWith(s: string, prefix: string) {
    |prefix| <= |s| && s[..|prefix|] == prefix
  }

  predicate EndsWith(s: string, suffix: string) {
    |suffix| <= |s| && s[|s| - |suffix|..] == suffix
  }

  /** `String.prototype.toUpperCase`, restricted to ASCII letters. */
  function UpperChar(c: char): char {
    if 'a' <= c <= 'z' then (c as int - 32) as char else c
  }

  function ToUpperCase(s: string): string {
    seq(|s|, i requires 0 <= i < |s| => UpperChar(s[i]))
  }
}
