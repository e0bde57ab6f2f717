/**
 * `findExportNode`: which syntax nodes a module exports. The visitor looks
 * at the statements directly under the source file, in order, and sorts
 * them into a default export, a list of named exports and a cache from
 * local names to the expressions last bound to them; afterwards an
 * identifier default is chased through that cache, each step deleting the
 * key it consumed.
 *
 * The parsed file is a sequence of root statements. The visitor in the
 * source walks every node of the tree, but returns at once for any node
 * whose parent is not the source file, so only these statements matter.
 */
module ExportResolver {
  import opened JsText

  /** Modifier keywords; only `export` and `default` are looked at. */
  datatype Modifier = ExportKeyword | DefaultKeyword | OtherModifier

  /** The name of a variable declarator: an identifier or a destructuring pattern. */
  datatype BindingName = Named(text: string) | Pattern

  datatype Declarator = Declarator(name: BindingName, initializer: Option<Node>)

  /**
   * The syntax nodes the visitor distinguishes. `OtherExpression` stands
   * for any expression of another kind (literals, calls, object literals);
   * `OtherStatement` for any statement of another kind (interfaces, enums,
   * type aliases, imports, `export { … }` lists), with its modifiers.
   */
  datatype Node =
    | Identifier(text: string)
    | PropertyAccess(target: Node, member: string)
    | Binary(left: Node, operator: string, right: Node)
    | OtherExpression(code: string)
    | Declaration(declarator: Declarator)
    | VariableStatement(modifiers: seq<Modifier>, declarations: seq<Declarator>)
    | FunctionDeclaration(modifiers: seq<Modifier>, functionName: Option<string>)
    | ClassDeclaration(modifiers: seq<Modifier>, className: Option<string>)
    | ExportAssignment(expression: Node)
    | ExpressionStatement(expression: Node)
    | OtherStatement(modifiers: seq<Modifier>)

  /** `modifierHas(node, kind)`. */
  predicate HasModifier(n: Node, kind: Modifier)
  {
    match n
    case VariableStatement(mods, _) => kind in mods
    case FunctionDeclaration(mods, _) => kind in mods
    case ClassDeclaration(mods, _) => kind in mods
    case OtherStatement(mods) => kind in mods
    case _ => false
  }

  predicate IsExported(n: Node) { HasModifier(n, ExportKeyword) }

  /** The statement is `exports.<p> <op> <e>`, whatever the operator. */
  predicate IsExportsMember(n: Node)
  {
    n.ExpressionStatement? && n.expression.Binary? && n.expression.left.PropertyAccess?
    && n.expression.left.target == Identifier("exports")
  }

  /** The statement is `module.exports <op> <e>`, whatever the operator. */
  predicate IsModuleExports(n: Node)
  {
    n.ExpressionStatement? && n.expression.Binary?
    && n.expression.left == PropertyAccess(Identifier("module"), "exports")
  }

  // ---------------------------------------------------------------------
  // What one root statement contributes, each part on its own

  /** The declarators of a statement, as the nodes pushed for an exported variable statement. */
  function DeclarationNodes(decls: seq<Declarator>): (r: seq<Node>)
    ensures |r| == |decls|
    ensures forall j :: 0 <= j < |decls| ==> r[j] == Declaration(decls[j])
  {
    if decls == [] then [] else DeclarationNodes(decls[..|decls| - 1]) + [Declaration(decls[|decls| - 1])]
  }

  /** The named exports a root statement adds, in order. */
  function NodeExports(n: Node): seq<Node>
  {
    if IsExported(n) then
      if HasModifier(n, DefaultKeyword) then []
      else if n.VariableStatement? then DeclarationNodes(n.declarations)
      else [n]
    else if IsExportsMember(n) then [n.expression]
    else []
  }

  /** What a root statement sets the default export to, if it sets it at all. */
  function DefaultOf(n: Node): Option<Node>
  {
    if IsExported(n) then
      if HasModifier(n, DefaultKeyword) then Some(n) else None
    else if n.ExportAssignment? then Some(n.expression)
    else if IsModuleExports(n) then Some(n.expression.right)
    else None
  }

  /** The names a declarator list caches: identifiers that have an initializer. */
  function DeclaredNames(decls: seq<Declarator>): set<string>
  {
    set j | 0 <= j < |decls| && decls[j].name.Named? && decls[j].initializer.Some? :: decls[j].name.text
  }

  /** The declarator at `j` is an identifier `x` with an initializer. */
  predicate DeclaresAt(decls: seq<Declarator>, j: int, x: string)
    requires 0 <= j < |decls|
  {
    decls[j].name == Named(x) && decls[j].initializer.Some?
  }

  /**
   * A declarator list entered into the cache, left to right. Names the
   * list does not declare keep their entries.
   */
  function CacheDeclarators(cache: map<string, Node>, decls: seq<Declarator>): (r: map<string, Node>)
    ensures r.Keys == cache.Keys + DeclaredNames(decls)
    ensures forall k :: k in cache && k !in DeclaredNames(decls) ==> r[k] == cache[k]
  {
    if decls == [] then cache
    else
      var c := CacheDeclarators(cache, decls[..|decls| - 1]);
      var d := decls[|decls| - 1];
      assert DeclaredNames(decls) == DeclaredNames(decls[..|decls| - 1])
        + (if d.name.Named? && d.initializer.Some? then {d.name.text} else {});
      if d.name.Named? && d.initializer.Some? then c[d.name.text := d.initializer.value] else c
  }

  /** A declared name's entry is the initializer of its last declarator. */
  lemma {:induction false} CacheDeclaratorsLastWins(cache: map<string, Node>, decls: seq<Declarator>, j: nat, x: string)
    requires j < |decls| && DeclaresAt(decls, j, x)
    requires forall i :: j < i < |decls| ==> !DeclaresAt(decls, i, x)
    ensures x in CacheDeclarators(cache, decls)
    ensures CacheDeclarators(cache, decls)[x] == decls[j].initializer.value
  {
    var init := decls[..|decls| - 1];
    if j < |decls| - 1 {
      forall i | j < i < |init| ensures !DeclaresAt(init, i, x) {
        assert init[i] == decls[i] && !DeclaresAt(decls, i, x);
      }
      assert init[j] == decls[j];
      CacheDeclaratorsLastWins(cache, init, j, x);
      assert !DeclaresAt(decls, |decls| - 1, x);
    }
  }

  /** What a declarator list stores under a name it declares does not depend on the cache before it. */
  lemma {:induction false} CacheDeclaratorsIgnoresCache(c1: map<string, Node>, c2: map<string, Node>, decls: seq<Declarator>)
    ensures forall k :: k in DeclaredNames(decls) ==> CacheDeclarators(c1, decls)[k] == CacheDeclarators(c2, decls)[k]
  {
    if decls != [] {
      var init := decls[..|decls| - 1];
      var d := decls[|decls| - 1];
      CacheDeclaratorsIgnoresCache(c1, c2, init);
      assert DeclaredNames(decls) == DeclaredNames(init)
        + (if d.name.Named? && d.initializer.Some? then {d.name.text} else {});
    }
  }

  /** The names a root statement binds in the cache. */
  function BoundNames(n: Node): set<string>
  {
    if IsExported(n) then {}
    else if n.VariableStatement? then DeclaredNames(n.declarations)
    else if (n.FunctionDeclaration? && n.functionName.Some?) then {n.functionName.value}
    else if (n.ClassDeclaration? && n.className.Some?) then {n.className.value}
    else if n.ExpressionStatement? && n.expression.Binary? && n.expression.left.Identifier? then
      {n.expression.left.text}
    else {}
  }

  /**
   * The expression a root statement binds to a name: the last initializer
   * of a variable statement, the declaration itself for a function or
   * class, the right-hand side for an assignment to an identifier.
   */
  function BoundValue(n: Node, x: string): Node
    requires x in BoundNames(n)
  {
    if n.VariableStatement? then CacheDeclarators(map[], n.declarations)[x]
    else if n.FunctionDeclaration? || n.ClassDeclaration? then n
    else n.expression.right
  }

  /**
   * The cache after a root statement: each name the statement binds maps to
   * what it binds, and every other entry is left alone.
   */
  function CacheUpdate(cache: map<string, Node>, n: Node): (r: map<string, Node>)
    ensures r.Keys == cache.Keys + BoundNames(n)
    ensures forall x :: x in BoundNames(n) ==> r[x] == BoundValue(n, x)
    ensures forall k :: k in cache && k !in BoundNames(n) ==> r[k] == cache[k]
  {
    if IsExported(n) then cache
    else if n.VariableStatement? then
      CacheDeclaratorsIgnoresCache(cache, map[], n.declarations);
      CacheDeclarators(cache, n.declarations)
    else if (n.FunctionDeclaration? && n.functionName.Some?) then cache[n.functionName.value := n]
    else if (n.ClassDeclaration? && n.className.Some?) then cache[n.className.value := n]
    else if n.ExpressionStatement? && n.expression.Binary? && n.expression.left.Identifier? then
      cache[n.expression.left.text := n.expression.right]
    else cache
  }

  // ---------------------------------------------------------------------
  // The pass over the root statements

  datatype ScanState = ScanState(cache: map<string, Node>, exports: seq<Node>, default: Option<Node>)

  /**
   * One root statement visited: its bindings enter the cache, its named
   * exports are appended, and it replaces the default export only if it
   * sets one.
   */
  function Visit(s: ScanState, n: Node): (r: ScanState)
    ensures r.cache.Keys == s.cache.Keys + BoundNames(n)
    ensures |r.exports| >= |s.exports| && r.exports[..|s.exports|] == s.exports
    ensures r.default == if DefaultOf(n).Some? then DefaultOf(n) else s.default
  {
    ScanState(CacheUpdate(s.cache, n), s.exports + NodeExports(n),
              if DefaultOf(n).Some? then DefaultOf(n) else s.default)
  }

  /** The state after visiting `nodes` in order. */
  function Scan(nodes: seq<Node>): ScanState
  {
    if nodes == [] then ScanState(map[], [], None)
    else Visit(Scan(nodes[..|nodes| - 1]), nodes[|nodes| - 1])
  }

  /** The named exports of a statement list: each statement's in turn. */
  function ExportsOf(nodes: seq<Node>): seq<Node>
  {
    if nodes == [] then [] else NodeExports(nodes[0]) + ExportsOf(nodes[1..])
  }

  lemma {:induction false} ExportsOfAppend(a: seq<Node>, b: seq<Node>)
    ensures ExportsOf(a + b) == ExportsOf(a) + ExportsOf(b)
  {
    if a == [] {
      assert a + b == b;
    } else {
      assert (a + b)[1..] == a[1..] + b;
      ExportsOfAppend(a[1..], b);
    }
  }

  /** The named-export list is the statements' contributions, in statement order. */
  lemma {:induction false} ScanExports(nodes: seq<Node>)
    ensures Scan(nodes).exports == ExportsOf(nodes)
  {
    if nodes != [] {
      var init := nodes[..|nodes| - 1];
      var last := nodes[|nodes| - 1];
      ScanExports(init);
      assert Scan(nodes).exports == Scan(init).exports + NodeExports(last) by {
        assert Scan(nodes) == Visit(Scan(init), last);
      }
      ExportsOfSnoc(nodes);
    }
  }

  lemma ExportsOfSnoc(nodes: seq<Node>)
    requires nodes != []
    ensures ExportsOf(nodes) == ExportsOf(nodes[..|nodes| - 1]) + NodeExports(nodes[|nodes| - 1])
  {
    var init, last := nodes[..|nodes| - 1], nodes[|nodes| - 1];
    assert init + [last] == nodes;
    ExportsOfAppend(init, [last]);
    assert ExportsOf([last]) == NodeExports(last) + ExportsOf([]);
    assert NodeExports(last) + [] == NodeExports(last);
  }

  /** The last statement that sets the default export decides it. */
  lemma {:induction false} LastDefaultWins(nodes: seq<Node>, k: nat)
    requires k < |nodes| && DefaultOf(nodes[k]).Some?
    requires forall j :: k < j < |nodes| ==> DefaultOf(nodes[j]).None?
    ensures Scan(nodes).default == DefaultOf(nodes[k])
  {
    if k < |nodes| - 1 {
      var init := nodes[..|nodes| - 1];
      assert forall j :: k < j < |init| ==> init[j] == nodes[j];
      LastDefaultWins(init, k);
    }
  }

  /**
   * The last root statement that binds a name decides its cache entry:
   * assignments and declarations later in the file overwrite earlier ones.
   */
  lemma {:induction false} LastBindingWins(nodes: seq<Node>, k: nat, x: string)
    requires k < |nodes| && x in BoundNames(nodes[k])
    requires forall j :: k < j < |nodes| ==> x !in BoundNames(nodes[j])
    ensures x in Scan(nodes).cache && Scan(nodes).cache[x] == BoundValue(nodes[k], x)
  {
    var init := nodes[..|nodes| - 1];
    if k < |nodes| - 1 {
      assert forall j :: k < j < |init| ==> init[j] == nodes[j];
      LastBindingWins(init, k, x);
      assert Scan(nodes) == Visit(Scan(init), nodes[|nodes| - 1]);
    }
  }

  /** Without a default-setting statement there is no default export. */
  lemma {:induction false} NoDefaultStatement(nodes: seq<Node>)
    requires forall j :: 0 <= j < |nodes| ==> DefaultOf(nodes[j]).None?
    ensures Scan(nodes).default.None?
  {
    if nodes != [] {
      NoDefaultStatement(nodes[..|nodes| - 1]);
    }
  }

  /** A name is in the cache exactly when some root statement binds it. */
  lemma {:induction false} ScanCacheKeys(nodes: seq<Node>)
    ensures forall x :: x in Scan(nodes).cache <==> exists i :: 0 <= i < |nodes| && x in BoundNames(nodes[i])
  {
    if nodes != [] {
      var init := nodes[..|nodes| - 1];
      var last := nodes[|nodes| - 1];
      ScanCacheKeys(init);
      assert Scan(nodes).cache.Keys == Scan(init).cache.Keys + BoundNames(last) by {
        assert Scan(nodes) == Visit(Scan(init), last);
      }
      forall x
        ensures x in Scan(nodes).cache <==> exists i :: 0 <= i < |nodes| && x in BoundNames(nodes[i])
      {
        BoundSomewhereSnoc(nodes, init, x);
      }
    }
  }

  /** Some statement of `nodes` binds `x` exactly when one before the last does or the last does. */
  lemma BoundSomewhereSnoc(nodes: seq<Node>, init: seq<Node>, x: string)
    requires nodes != [] && init == nodes[..|nodes| - 1]
    ensures (exists i :: 0 <= i < |nodes| && x in BoundNames(nodes[i]))
        <==> (exists i :: 0 <= i < |init| && x in BoundNames(init[i])) || x in BoundNames(nodes[|nodes| - 1])
  {
    if exists i :: 0 <= i < |nodes| && x in BoundNames(nodes[i]) {
      var i :| 0 <= i < |nodes| && x in BoundNames(nodes[i]);
      if i < |init| {
        assert init[i] == nodes[i];
      }
    }
    if exists i :: 0 <= i < |init| && x in BoundNames(init[i]) {
      var i :| 0 <= i < |init| && x in BoundNames(init[i]);
      assert nodes[i] == init[i];
    }
  }

  // ---------------------------------------------------------------------
  // Chasing an identifier default through the cache

  datatype Resolution = Resolution(default: Option<Node>, cache: map<string, Node>)

  predicate IsIdentifierDefault(r: Resolution) { r.default.Some? && r.default.value.Identifier? }

  /** One turn of the loop: look the name up, delete it, and take what was found (or nothing). */
  function ChaseStep(r: Resolution): (r': Resolution)
    requires IsIdentifierDefault(r)
    ensures r'.default == if r.default.value.text in r.cache then Some(r.cache[r.default.value.text]) else None
    ensures r'.cache.Keys == r.cache.Keys - {r.default.value.text}
    ensures forall k :: k in r'.cache ==> r'.cache[k] == r.cache[k]
  {
    var name := r.default.value.text;
    Resolution(if name in r.cache then Some(r.cache[name]) else None, r.cache - {name})
  }

  /** Does the loop go round again? */
  predicate ChaseContinues(r: Resolution) { IsIdentifierDefault(r) && |r.cache| > 0 }

  function ChaseMeasure(r: Resolution): nat { |r.cache| + if r.default.Some? then 1 else 0 }

  lemma ChaseStepDecreases(r: Resolution)
    requires IsIdentifierDefault(r)
    ensures ChaseMeasure(ChaseStep(r)) < ChaseMeasure(r)
  {
    var name := r.default.value.text;
    if name in r.cache {
      assert r.cache.Keys - {name} + {name} == r.cache.Keys;
      assert |r.cache.Keys - {name}| == |r.cache.Keys| - 1;
    } else {
      assert r.cache.Keys - {name} == r.cache.Keys;
    }
  }

  /**
   * The alias loop, run to the end. It stops once the default is absent,
   * is not an identifier, or the cache is empty. The default it ends with
   * is the one it began with, a value that was in the cache, or nothing
   * (a name missing from a non-empty cache); it is an identifier only when
   * the cache has been used up. The cache only loses entries.
   */
  function Chase(r: Resolution): (r': Resolution)
    ensures !ChaseContinues(r')
    ensures r'.default == r.default || r'.default.None? || r'.default.value in r.cache.Values
    ensures IsIdentifierDefault(r') ==> r'.cache == map[]
    ensures !ChaseContinues(r) ==> r' == r
    ensures r'.cache.Keys <= r.cache.Keys && forall k :: k in r'.cache ==> r'.cache[k] == r.cache[k]
    decreases ChaseMeasure(r)
  {
    if ChaseContinues(r) then
      ChaseStepDecreases(r);
      Chase(ChaseStep(r))
    else r
  }

  /** How many turns the loop takes. */
  function ChaseSteps(r: Resolution): nat
    decreases ChaseMeasure(r)
  {
    if ChaseContinues(r) then
      ChaseStepDecreases(r);
      1 + ChaseSteps(ChaseStep(r))
    else 0
  }

  /** The loop turns at most as many times as the cache has entries. */
  lemma {:induction false} ChaseStepsBounded(r: Resolution)
    ensures ChaseSteps(r) <= |r.cache|
    decreases ChaseMeasure(r)
  {
    if ChaseContinues(r) {
      var next := ChaseStep(r);
      ChaseStepDecreases(r);
      var name := r.default.value.text;
      if name in r.cache {
        ChaseStepsBounded(next);
        assert r.cache.Keys - {name} + {name} == r.cache.Keys;
        assert |next.cache| == |r.cache| - 1;
      } else {
        assert !ChaseContinues(next);
      }
    }
  }

  /** An identifier that names nothing in a non-empty cache leaves no default export. */
  lemma MissingAliasGivesNothing(x: string, cache: map<string, Node>)
    requires |cache| > 0 && x !in cache
    ensures Chase(Resolution(Some(Identifier(x)), cache)).default == None
  {
    var r := Resolution(Some(Identifier(x)), cache);
    assert ChaseContinues(r);
    assert ChaseStep(r).default == None;
  }

  /**
   * Whether an alias for an uncached name resolves to nothing depends on
   * unrelated bindings: with `x` aliased to an uncached `y`, the loop stops
   * on the identifier `y` once `x` has been consumed, but a further entry
   * `z` keeps the loop going for one more turn, which finds nothing.
   */
  lemma UncachedAliasDependsOnOtherBindings(x: string, y: string, z: string, v: Node)
    requires x != y && y != z && x != z
    ensures Chase(Resolution(Some(Identifier(x)), map[x := Identifier(y)])).default == Some(Identifier(y))
    ensures Chase(Resolution(Some(Identifier(x)), map[x := Identifier(y), z := v])).default == None
  {
    var lone := map[x := Identifier(y)];
    AliasChainStep(x, y, lone);
    assert lone - {x} == map[];
    var r := Resolution(Some(Identifier(y)), map[]);
    assert !ChaseContinues(r);
    var both := map[x := Identifier(y), z := v];
    AliasChainStep(x, y, both);
    assert (both - {x}).Keys == {z};
    MissingAliasGivesNothing(y, both - {x});
  }

  /** An alias for a cached non-identifier resolves to that value. */
  lemma AliasResolvesToValue(x: string, cache: map<string, Node>)
    requires x in cache && !cache[x].Identifier?
    ensures Chase(Resolution(Some(Identifier(x)), cache)).default == Some(cache[x])
  {
    var r := Resolution(Some(Identifier(x)), cache);
    assert ChaseContinues(r);
    assert !ChaseContinues(ChaseStep(r));
  }

  /**
   * Following one alias: chasing `x` where the cache maps `x` to `y` is
   * chasing `y` in the cache without `x`. So a chain of aliases is followed
   * link by link, each link usable once.
   */
  lemma AliasChainStep(x: string, y: string, cache: map<string, Node>)
    requires x in cache && cache[x] == Identifier(y)
    ensures Chase(Resolution(Some(Identifier(x)), cache)) == Chase(Resolution(Some(Identifier(y)), cache - {x}))
  {
    var r := Resolution(Some(Identifier(x)), cache);
    assert ChaseContinues(r);
    assert ChaseStep(r) == Resolution(Some(Identifier(y)), cache - {x});
  }

  /** The result of `findExportNode`: the resolved default export and the named exports. */
  datatype ExportInfo = ExportInfo(exportDefaultNode: Option<Node>, exportNodeList: seq<Node>)

  function FindExports(nodes: seq<Node>): ExportInfo
  {
    var s := Scan(nodes);
    ExportInfo(Chase(Resolution(s.default, s.cache)).default, s.exports)
  }

  // ---------------------------------------------------------------------
  // The procedure as the source runs it

  /** An exported variable statement pushes each of its declarators, in order. */
  method PushDeclarations(list0: seq<Node>, decls: seq<Declarator>) returns (exportNodeList: seq<Node>)
    ensures exportNodeList == list0 + DeclarationNodes(decls)
  {
    exportNodeList := list0;
    for j := 0 to |decls|
      invariant exportNodeList == list0 + DeclarationNodes(decls[..j])
    {
      assert decls[..j + 1][..j] == decls[..j];
      exportNodeList := exportNodeList + [Declaration(decls[j])];
    }
    assert decls[..|decls|] == decls;
  }

  /** The loop caching each identifier declarator that has an initializer. */
  method CacheDeclarations(cache0: map<string, Node>, decls: seq<Declarator>) returns (cache: map<string, Node>)
    ensures cache == CacheDeclarators(cache0, decls)
  {
    cache := cache0;
    for j := 0 to |decls|
      invariant cache == CacheDeclarators(cache0, decls[..j])
    {
      assert decls[..j + 1][..j] == decls[..j];
      var declaration := decls[j];
      if declaration.name.Named? && declaration.initializer.Some? {
        cache := cache[declaration.name.text := declaration.initializer.value];
      }
    }
    assert decls[..|decls|] == decls;
  }

  /** The branch for a root expression statement whose expression is binary. */
  method VisitAssignment(node: Node, cache0: map<string, Node>, list0: seq<Node>, default0: Option<Node>)
    returns (cache: map<string, Node>, exportNodeList: seq<Node>, exportDefaultNode: Option<Node>)
    requires node.ExpressionStatement? && node.expression.Binary?
    ensures ScanState(cache, exportNodeList, exportDefaultNode) == Visit(ScanState(cache0, list0, default0), node)
  {
    cache, exportNodeList, exportDefaultNode := cache0, list0, default0;
    var left := node.expression.left;
    if left.PropertyAccess? {
      var obj := left.target;
      if obj.Identifier? {
        if obj.text == "exports" {
          exportNodeList := exportNodeList + [node.expression];
        } else if obj.text == "module" && left.member == "exports" {
          exportDefaultNode := Some(node.expression.right);
        }
      }
    } else if left.Identifier? {
      cache := cache[left.text := node.expression.right];
    }
  }

  /**
   * The visitor's callback on one root statement: its chain of tests,
   * updating the cache, the export list and the default export.
   */
  method VisitRoot(node: Node, cache0: map<string, Node>, list0: seq<Node>, default0: Option<Node>)
    returns (cache: map<string, Node>, exportNodeList: seq<Node>, exportDefaultNode: Option<Node>)
    ensures ScanState(cache, exportNodeList, exportDefaultNode) == Visit(ScanState(cache0, list0, default0), node)
  {
    cache, exportNodeList, exportDefaultNode := cache0, list0, default0;
    if HasModifier(node, ExportKeyword) {
      if HasModifier(node, DefaultKeyword) {
        exportDefaultNode := Some(node);
      } else if node.VariableStatement? {
        exportNodeList := PushDeclarations(list0, node.declarations);
      } else {
        exportNodeList := exportNodeList + [node];
      }
    } else if node.VariableStatement? {
      cache := CacheDeclarations(cache0, node.declarations);
    } else if (node.FunctionDeclaration? && node.functionName.Some?) {
      cache := cache[node.functionName.value := node];
    } else if (node.ClassDeclaration? && node.className.Some?) {
      cache := cache[node.className.value := node];
    } else if node.ExportAssignment? {
      exportDefaultNode := Some(node.expression);
    } else if node.ExpressionStatement? && node.expression.Binary? {
      cache, exportNodeList, exportDefaultNode := VisitAssignment(node, cache0, list0, default0);
    }
  }

  /**
   * `findExportNode` over the root statements: the visitor on each in
   * order, then the alias loop, which deletes each key it consumes.
   */
  method FindExportNode(statements: seq<Node>) returns (exportDefaultNode: Option<Node>, exportNodeList: seq<Node>)
    ensures ExportInfo(exportDefaultNode, exportNodeList) == FindExports(statements)
    ensures exportNodeList == ExportsOf(statements)
  {
    var cache: map<string, Node> := map[];
    exportNodeList := [];
    exportDefaultNode := None;
    for i := 0 to |statements|
      invariant ScanState(cache, exportNodeList, exportDefaultNode) == Scan(statements[..i])
    {
      assert statements[..i + 1][..i] == statements[..i];
      cache, exportNodeList, exportDefaultNode := VisitRoot(statements[i], cache, exportNodeList, exportDefaultNode);
    }
    assert statements[..|statements|] == statements;
    ScanExports(statements);
    ghost var start := Resolution(exportDefaultNode, cache);
    while exportDefaultNode.Some? && exportDefaultNode.value.Identifier? && |cache| > 0
      invariant Chase(Resolution(exportDefaultNode, cache)) == Chase(start)
      decreases ChaseMeasure(Resolution(exportDefaultNode, cache))
    {
      ChaseStepDecreases(Resolution(exportDefaultNode, cache));
      var name := exportDefaultNode.value.text;
      var mid := if name in cache then Some(cache[name]) else None;
      cache := cache - {name};
      exportDefaultNode := mid;
    }
  }

  // ---------------------------------------------------------------------
  // Worked examples

  /** `const x = {f: 1}; export default x;` exports the object literal. */
  lemma AliasedObjectLiteral()
    ensures FindExports([
      VariableStatement([], [Declarator(Named("x"), Some(OtherExpression("{f: 1}")))]),
      ExportAssignment(Identifier("x"))
    ]).exportDefaultNode == Some(OtherExpression("{f: 1}"))
  {
    var n0 := VariableStatement([], [Declarator(Named("x"), Some(OtherExpression("{f: 1}")))]);
    var n1 := ExportAssignment(Identifier("x"));
    var cache := map["x" := OtherExpression("{f: 1}")];
    assert Scan([n0, n1]) == ScanState(cache, [], Some(Identifier("x"))) by {
      Scan2(n0, n1);
      VisitDeclaration(ScanState(map[], [], None), "x", Some(OtherExpression("{f: 1}")));
      VisitExportAssignment(ScanState(cache, [], None), Identifier("x"));
    }
    var r := Resolution(Some(Identifier("x")), cache);
    assert ChaseContinues(r);
    assert ChaseStep(r) == Resolution(Some(OtherExpression("{f: 1}")), map[]);
  }

  /** `let y; y = 5; module.exports = y;` exports the literal assigned later. */
  lemma ReassignedThenExported()
    ensures FindExports([
      VariableStatement([], [Declarator(Named("y"), None)]),
      ExpressionStatement(Binary(Identifier("y"), "=", OtherExpression("5"))),
      ExpressionStatement(Binary(PropertyAccess(Identifier("module"), "exports"), "=", Identifier("y")))
    ]).exportDefaultNode == Some(OtherExpression("5"))
  {
    var n0 := VariableStatement([], [Declarator(Named("y"), None)]);
    var n1 := ExpressionStatement(Binary(Identifier("y"), "=", OtherExpression("5")));
    var n2 := ExpressionStatement(Binary(PropertyAccess(Identifier("module"), "exports"), "=", Identifier("y")));
    var cache := map["y" := OtherExpression("5")];
    assert Scan([n0, n1, n2]) == ScanState(cache, [], Some(Identifier("y"))) by {
      Scan3(n0, n1, n2);
      VisitDeclaration(ScanState(map[], [], None), "y", None);
      VisitIdentifierAssign(ScanState(map[], [], None), "y", OtherExpression("5"));
      VisitModuleExports(ScanState(cache, [], None), Identifier("y"));
    }
    var r := Resolution(Some(Identifier("y")), cache);
    assert ChaseContinues(r);
    assert ChaseStep(r) == Resolution(Some(OtherExpression("5")), map[]);
  }

  /** `exports.a = 1; exports.b = 2;` gives two named exports, the assignments themselves. */
  lemma TwoExportsMembers()
    ensures var a := Binary(PropertyAccess(Identifier("exports"), "a"), "=", OtherExpression("1"));
            var b := Binary(PropertyAccess(Identifier("exports"), "b"), "=", OtherExpression("2"));
            FindExports([ExpressionStatement(a), ExpressionStatement(b)]) == ExportInfo(None, [a, b])
  {
    var a := Binary(PropertyAccess(Identifier("exports"), "a"), "=", OtherExpression("1"));
    var b := Binary(PropertyAccess(Identifier("exports"), "b"), "=", OtherExpression("2"));
    assert Scan([ExpressionStatement(a), ExpressionStatement(b)]) == ScanState(map[], [a, b], None) by {
      Scan2(ExpressionStatement(a), ExpressionStatement(b));
      VisitExportsMember(ScanState(map[], [], None), a);
      VisitExportsMember(ScanState(map[], [a], None), b);
    }
  }

  /** The pass over two statements, unfolded. */
  lemma Scan2(n0: Node, n1: Node)
    ensures Scan([n0, n1]) == Visit(Visit(ScanState(map[], [], None), n0), n1)
  {
    assert Scan([n0]) == Visit(Scan([]), n0) by {
      assert [n0][..0] == [];
    }
    assert Scan([n0, n1]) == Visit(Scan([n0]), n1) by {
      assert [n0, n1][..1] == [n0];
    }
  }

  /** The pass over three statements, unfolded. */
  lemma Scan3(n0: Node, n1: Node, n2: Node)
    ensures Scan([n0, n1, n2]) == Visit(Visit(Visit(ScanState(map[], [], None), n0), n1), n2)
  {
    var init := [n0, n1];
    ScanSnoc(init, n2);
    assert init + [n2] == [n0, n1, n2];
    Scan2(n0, n1);
  }

  /** The pass over a list with one more statement visits that statement last. */
  lemma ScanSnoc(init: seq<Node>, last: Node)
    ensures Scan(init + [last]) == Visit(Scan(init), last)
  {
    assert (init + [last])[..|init|] == init;
  }

  /** An unexported `let`/`const` of one name caches its initializer, if it has one. */
  lemma VisitDeclaration(s: ScanState, name: string, init: Option<Node>)
    ensures Visit(s, VariableStatement([], [Declarator(Named(name), init)]))
         == ScanState(if init.Some? then s.cache[name := init.value] else s.cache, s.exports, s.default)
  {
    var decls := [Declarator(Named(name), init)];
    assert CacheDeclarators(s.cache, decls) == if init.Some? then s.cache[name := init.value] else s.cache by {
      assert decls[..0] == [];
    }
  }

  /** `<name> = <e>` caches `e` under the name. */
  lemma VisitIdentifierAssign(s: ScanState, name: string, e: Node)
    ensures Visit(s, ExpressionStatement(Binary(Identifier(name), "=", e))) == ScanState(s.cache[name := e], s.exports, s.default)
  {
  }

  /** `module.exports = <e>` makes `e` the default export. */
  lemma VisitModuleExports(s: ScanState, e: Node)
    ensures Visit(s, ExpressionStatement(Binary(PropertyAccess(Identifier("module"), "exports"), "=", e)))
         == ScanState(s.cache, s.exports, Some(e))
  {
  }

  /** `export = <e>` / `export default <e>` makes `e` the default export. */
  lemma VisitExportAssignment(s: ScanState, e: Node)
    ensures Visit(s, ExportAssignment(e)) == ScanState(s.cache, s.exports, Some(e))
  {
  }

  /** A statement `exports.<p> <op> <e>` only appends itself to the named exports. */
  lemma VisitExportsMember(s: ScanState, e: Node)
    requires IsExportsMember(ExpressionStatement(e))
    ensures Visit(s, ExpressionStatement(e)) == ScanState(s.cache, s.exports + [e], s.default)
  {
  }

  /** Two names bound to each other: the chase uses up the cache and stops on an identifier. */
  lemma CycleChase()
    ensures Chase(Resolution(Some(Identifier("a")), map["a" := Identifier("b"), "b" := Identifier("a")])).default
         == Some(Identifier("a"))
  {
    var r0 := Resolution(Some(Identifier("a")), map["a" := Identifier("b"), "b" := Identifier("a")]);
    var r1 := ChaseStep(r0);
    assert r1 == Resolution(Some(Identifier("b")), map["b" := Identifier("a")]);
    var r2 := ChaseStep(r1);
    assert r2 == Resolution(Some(Identifier("a")), map[]);
    assert Chase(r0) == Chase(r1) == Chase(r2) == r2;
  }

  /**
   * `const a = b; const b = a; export default a;`: the cycle ends when the
   * cache runs out, and the default is left as the identifier `a`.
   */
  lemma CyclicAliasStops()
    ensures FindExports([
      VariableStatement([], [Declarator(Named("a"), Some(Identifier("b")))]),
      VariableStatement([], [Declarator(Named("b"), Some(Identifier("a")))]),
      ExportAssignment(Identifier("a"))
    ]).exportDefaultNode == Some(Identifier("a"))
  {
    var n0 := VariableStatement([], [Declarator(Named("a"), Some(Identifier("b")))]);
    var n1 := VariableStatement([], [Declarator(Named("b"), Some(Identifier("a")))]);
    var n2 := ExportAssignment(Identifier("a"));
    var cache := map["a" := Identifier("b"), "b" := Identifier("a")];
    assert Scan([n0, n1, n2]) == ScanState(cache, [], Some(Identifier("a"))) by {
      Scan3(n0, n1, n2);
      VisitDeclaration(ScanState(map[], [], None), "a", Some(Identifier("b")));
      VisitDeclaration(ScanState(map["a" := Identifier("b")], [], None), "b", Some(Identifier("a")));
      VisitExportAssignment(ScanState(cache, [], None), Identifier("a"));
    }
    CycleChase();
  }
}
