/**
 * The ESTree-shaped syntax tree the interpreter walks, and `containsAwait`,
 * the syntactic scan that decides whether an arrow function is built as a
 * suspending or a plain callable.
 */
module Ast {
  import opened Wrappers

  /** Literal payloads; a regular-expression literal builds a host RegExp. */
  datatype Lit = LNull | LBool(b: bool) | LNum(n: int) | LStr(s: string) | LRegex(pattern: string, flags: string)

  datatype Declarator = Declarator(id: Node, init: Node)

  datatype Catch = Catch(param: Node, body: Node)

  /** `Empty` is an absent child (`null` in the tree); `Other` is any node kind outside the catalogue. */
  datatype Node =
    | Empty
    | Program(stmts: seq<Node>)
    | ExpressionStatement(expression: Node)
    | Literal(lit: Lit)
    | Identifier(name: string)
    | PrivateIdentifier(name: string)
    | UpdateExpression(operator: string, prefix: bool, argument: Node)
    | NewExpression(callee: Node, arguments: seq<Node>)
    | TemplateLiteral(quasis: seq<string>, expressions: seq<Node>)
    | VariableDeclaration(declarations: seq<Declarator>)
    | ChainExpression(expression: Node)
    | CallExpression(callee: Node, arguments: seq<Node>)
    | MemberExpression(obj: Node, property: Node, computed: bool, optional: bool)
    | ClassDeclaration(id: string, members: seq<Node>)
    | MethodDefinition(key: Node, params: seq<Node>, body: Node, kind: string, isStatic: bool)
    | FunctionDeclaration(id: string, params: seq<Node>, body: Node)
    | FunctionExpression(params: seq<Node>, body: Node)
    | ArrowFunctionExpression(params: seq<Node>, body: Node)
    | AwaitExpression(argument: Node)
    | BlockStatement(stmts: seq<Node>)
    | TryStatement(block: Node, handler: Option<Catch>, finalizer: Node)
    | ReturnStatement(argument: Node)
    | IfStatement(test: Node, consequent: Node, alternate: Node)
    | BinaryExpression(operator: string, left: Node, right: Node)
    | LogicalExpression(operator: string, left: Node, right: Node)
    | UnaryExpression(operator: string, argument: Node)
    | AssignmentExpression(operator: string, left: Node, right: Node)
    | WhileStatement(test: Node, body: Node)
    | BreakStatement
    | ContinueStatement
    | ConditionalExpression(test: Node, consequent: Node, alternate: Node)
    | ArrayExpression(elements: seq<Node>)
    | ObjectExpression(properties: seq<Node>)
    | Property(key: Node, value: Node)
    | SpreadElement(argument: Node)
    | ForStatement(init: Node, test: Node, update: Node, body: Node)
    | ForOfStatement(left: Node, right: Node, body: Node)
    | ArrayPattern(elements: seq<Node>)
    | ObjectPattern(properties: seq<Node>)
    | AssignmentPattern(left: Node, right: Node)
    | RestElement(argument: Node)
    | Other(typeName: string)

  /** The `type` string of a node, as error messages print it. */
  function TypeName(n: Node): string {
    match n
    case Empty => "null"
    case Program(_) => "Program"
    case ExpressionStatement(_) => "ExpressionStatement"
    case Literal(_) => "Literal"
    case Identifier(_) => "Identifier"
    case PrivateIdentifier(_) => "PrivateIdentifier"
    case UpdateExpression(_, _, _) => "UpdateExpression"
    case NewExpression(_, _) => "NewExpression"
    case TemplateLiteral(_, _) => "TemplateLiteral"
    case VariableDeclaration(_) => "VariableDeclaration"
    case ChainExpression(_) => "ChainExpression"
    case CallExpression(_, _) => "CallExpression"
    case MemberExpression(_, _, _, _) => "MemberExpression"
    case ClassDeclaration(_, _) => "ClassDeclaration"
    case MethodDefinition(_, _, _, _, _) => "MethodDefinition"
    case FunctionDeclaration(_, _, _) => "FunctionDeclaration"
    case FunctionExpression(_, _) => "FunctionExpression"
    case ArrowFunctionExpression(_, _) => "ArrowFunctionExpression"
    case AwaitExpression(_) => "AwaitExpression"
    case BlockStatement(_) => "BlockStatement"
    case TryStatement(_, _, _) => "TryStatement"
    case ReturnStatement(_) => "ReturnStatement"
    case IfStatement(_, _, _) => "IfStatement"
    case BinaryExpression(_, _, _) => "BinaryExpression"
    case LogicalExpression(_, _, _) => "LogicalExpression"
    case UnaryExpression(_, _) => "UnaryExpression"
    case AssignmentExpression(_, _, _) => "AssignmentExpression"
    case WhileStatement(_, _) => "WhileStatement"
    case BreakStatement => "BreakStatement"
    case ContinueStatement => "ContinueStatement"
    case ConditionalExpression(_, _, _) => "ConditionalExpression"
    case ArrayExpression(_) => "ArrayExpression"
    case ObjectExpression(_) => "ObjectExpression"
    case Property(_, _) => "Property"
    case SpreadElement(_) => "SpreadElement"
    case ForStatement(_, _, _, _) => "ForStatement"
    case ForOfStatement(_, _, _) => "ForOfStatement"
    case ArrayPattern(_) => "ArrayPattern"
    case ObjectPattern(_) => "ObjectPattern"
    case AssignmentPattern(_, _) => "AssignmentPattern"
    case RestElement(_) => "RestElement"
    case Other(t) => t
  }

  function DeclaratorNodes(ds: seq<Declarator>): (r: seq<Node>)
    ensures forall c :: c in r ==> exists d :: d in ds && (c == d.id || c == d.init)
  {
    if ds == [] then [] else [ds[0].id, ds[0].init] + DeclaratorNodes(ds[1..])
  }

  function CatchNodes(h: Option<Catch>): (r: seq<Node>)
    ensures forall c :: c in r ==> h.Some? && (c == h.value.param || c == h.value.body)
  {
    match h
    case None => []
    case Some(c) => [c.param, c.body]
  }

  /** Every child node, in field order: the values `containsAwait` visits. */
  function Children(n: Node): (r: seq<Node>)
    ensures forall c :: c in r ==> c < n
  {
    match n
    case Program(ss) => ss
    case ExpressionStatement(e) => [e]
    case UpdateExpression(_, _, a) => [a]
    case NewExpression(c, args) => [c] + args
    case TemplateLiteral(_, es) => es
    case VariableDeclaration(ds) => DeclaratorNodes(ds)
    case ChainExpression(e) => [e]
    case CallExpression(c, args) => [c] + args
    case MemberExpression(o, p, _, _) => [o, p]
    case ClassDeclaration(_, ms) => ms
    case MethodDefinition(k, ps, b, _, _) => [k] + ps + [b]
    case FunctionDeclaration(_, ps, b) => ps + [b]
    case FunctionExpression(ps, b) => ps + [b]
    case ArrowFunctionExpression(ps, b) => ps + [b]
    case AwaitExpression(a) => [a]
    case BlockStatement(ss) => ss
    case TryStatement(b, h, f) => [b] + CatchNodes(h) + [f]
    case ReturnStatement(a) => [a]
    case IfStatement(t, c, a) => [t, c, a]
    case BinaryExpression(_, l, r) => [l, r]
    case LogicalExpression(_, l, r) => [l, r]
    case UnaryExpression(_, a) => [a]
    case AssignmentExpression(_, l, r) => [l, r]
    case WhileStatement(t, b) => [t, b]
    case ConditionalExpression(t, c, a) => [t, c, a]
    case ArrayExpression(es) => es
    case ObjectExpression(ps) => ps
    case Property(k, v) => [k, v]
    case SpreadElement(a) => [a]
    case ForStatement(i, t, u, b) => [i, t, u, b]
    case ForOfStatement(l, r, b) => [l, r, b]
    case ArrayPattern(es) => es
    case ObjectPattern(ps) => ps
    case AssignmentPattern(l, r) => [l, r]
    case RestElement(a) => [a]
    case _ => []
  }

  /** `containsAwait`: is the node an `await`, or does one of its children contain one? */
  predicate ContainsAwait(n: Node)
    decreases n
  {
    n.AwaitExpression? || exists c :: c in Children(n) && ContainsAwait(c)
  }

  /** Reference definition: following the child indices in `path` from `n` reaches an `await`. */
  ghost predicate AwaitAt(n: Node, path: seq<nat>)
    decreases |path|
  {
    if path == [] then n.AwaitExpression?
    else path[0] < |Children(n)| && AwaitAt(Children(n)[path[0]], path[1..])
  }

  lemma {:induction false} AwaitAtContains(n: Node, path: seq<nat>)
    requires AwaitAt(n, path)
    ensures ContainsAwait(n)
    decreases |path|
  {
    if path != [] {
      var c := Children(n)[path[0]];
      AwaitAtContains(c, path[1..]);
      assert c in Children(n);
    }
  }

  lemma {:induction false} ContainsAwaitAt(n: Node) returns (path: seq<nat>)
    requires ContainsAwait(n)
    ensures AwaitAt(n, path)
    decreases n
  {
    if n.AwaitExpression? {
      path := [];
    } else {
      var c :| c in Children(n) && ContainsAwait(c);
      var i :| 0 <= i < |Children(n)| && Children(n)[i] == c;
      var rest := ContainsAwaitAt(c);
      path := [i] + rest;
      assert path[1..] == rest;
    }
  }

  /** `containsAwait` holds exactly when some descendant (or the node itself) is an `await`. */
  lemma {:induction false} ContainsAwaitIff(n: Node)
    ensures ContainsAwait(n) ==> exists path: seq<nat> :: AwaitAt(n, path)
    ensures (exists path: seq<nat> :: AwaitAt(n, path)) ==> ContainsAwait(n)
  {
    if ContainsAwait(n) {
      var p := ContainsAwaitAt(n);
      assert AwaitAt(n, p);
    }
    forall path: seq<nat> | AwaitAt(n, path) ensures ContainsAwait(n) {
      AwaitAtContains(n, path);
    }
  }
}
