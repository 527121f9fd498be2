/** The slice of the JavaScript syntax tree that the generator builds.
    Every property it emits has kind 'init' and an identifier key, so a
    property is just a key and a value. */
module Ast {

  /** A literal's underlying constant. */
  datatype Lit = StrLit(s: string) | IntLit(i: int) | BoolLit(b: bool) | NullLit

  datatype Node =
    | Ident(name: string)
    | Literal(lit: Lit)
    | New(callee: Node, args: seq<Node>)
    | Obj(props: seq<Property>)

  datatype Property = Property(key: string, value: Node)

  datatype VarKind = Var | Const

  /** A declaration statement with a single declarator. */
  datatype Decl = VarDecl(kind: VarKind, name: string, init: Node)
}
